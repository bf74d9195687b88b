/** The text normaliser of the metal-rate pipeline: `parse_price` and the
    numeric conversion `to_float_or_none`, both built on the leftmost match
    of the regular expression `[\d,]+(?:\.\d+)?`. */
module PriceText {
  import opened Wrappers
  import opened Strings
  import opened Decimal

  /** The Indian rupee sign, deleted from price texts before matching. */
  const Rupee: char := '\U{20b9}'

  /** A character of the `[\d,]` class. */
  predicate IsRunChar(c: char) {
    IsDigit(c) || c == ','
  }

  /** The first index at or after `i` holding a `[\d,]` character. */
  function FirstRunChar(t: string, i: nat): (r: Option<nat>)
    requires i <= |t|
    ensures r.Some? ==> i <= r.value < |t| && IsRunChar(t[r.value])
    ensures r.Some? ==> forall k :: i <= k < r.value ==> !IsRunChar(t[k])
    ensures r.None? ==> forall k :: i <= k < |t| ==> !IsRunChar(t[k])
    decreases |t| - i
  {
    if i == |t| then None
    else if IsRunChar(t[i]) then Some(i)
    else FirstRunChar(t, i + 1)
  }

  /** The end of the maximal `[\d,]*` run starting at `i`. */
  function RunEnd(t: string, i: nat): (j: nat)
    requires i <= |t|
    ensures i <= j <= |t|
    ensures forall k :: i <= k < j ==> IsRunChar(t[k])
    ensures j == |t| || !IsRunChar(t[j])
    decreases |t| - i
  {
    if i < |t| && IsRunChar(t[i]) then RunEnd(t, i + 1) else i
  }

  /** The end of the maximal `\d*` run starting at `i`. */
  function DigitsEnd(t: string, i: nat): (j: nat)
    requires i <= |t|
    ensures i <= j <= |t|
    ensures forall k :: i <= k < j ==> IsDigit(t[k])
    ensures j == |t| || !IsDigit(t[j])
    decreases |t| - i
  {
    if i < |t| && IsDigit(t[i]) then DigitsEnd(t, i + 1) else i
  }

  /** Whether a '.' followed by a digit starts at `e`. */
  predicate FractionStarts(t: string, e: nat) {
    e + 1 < |t| && t[e] == '.' && IsDigit(t[e + 1])
  }

  /** The end of the optional group `(?:\.\d+)` tried at `e`. */
  function FractionEnd(t: string, e: nat): (j: nat)
    requires e <= |t|
    ensures e <= j <= |t|
    ensures j == e <==> !FractionStarts(t, e)
    ensures j > e ==> e + 2 <= j && t[e] == '.'
    ensures j > e ==> (forall k :: e + 1 <= k < j ==> IsDigit(t[k])) && (j == |t| || !IsDigit(t[j]))
  {
    if FractionStarts(t, e) then DigitsEnd(t, e + 1) else e
  }

  /** [i, j) is a match of `[\d,]+(?:\.\d+)?` at `i` whose run ends at `e`,
      with both repetitions as long as possible. */
  ghost predicate GreedyMatch(t: string, i: nat, e: nat, j: nat) {
    && i < e <= j <= |t|
    && (forall k :: i <= k < e ==> IsRunChar(t[k]))
    && (e == |t| || !IsRunChar(t[e]))
    && (j == e ==> !FractionStarts(t, e))
    && (j > e ==> e + 2 <= j && t[e] == '.'
                  && (forall k :: e + 1 <= k < j ==> IsDigit(t[k]))
                  && (j == |t| || !IsDigit(t[j])))
  }

  /** The span of `re.search(r"[\d,]+(?:\.\d+)?", t)`: the match starts at
      the leftmost `[\d,]` character and takes the greedy run and fraction. */
  function NumberSpan(t: string): (r: Option<(nat, nat)>)
    ensures r.None? <==> forall k :: 0 <= k < |t| ==> !IsRunChar(t[k])
    ensures r.Some? ==> r.value.0 < |t| && forall k :: 0 <= k < r.value.0 ==> !IsRunChar(t[k])
    ensures r.Some? ==> exists e: nat :: GreedyMatch(t, r.value.0, e, r.value.1)
  {
    match FirstRunChar(t, 0)
    case None => None
    case Some(i) =>
      var e := RunEnd(t, i);
      var j := FractionEnd(t, e);
      assert GreedyMatch(t, i, e, j);
      Some((i, j))
  }

  /** The text of the leftmost match, `m.group(0)`. */
  function FirstNumber(t: string): Option<string> {
    match NumberSpan(t)
    case None => None
    case Some((i, j)) => Some(t[i..j])
  }

  /** `parse_price`: delete every rupee sign, take the leftmost number-like
      run and drop its thousands separators; "" when there is none. */
  function ParsePrice(s: string): (r: string)
    ensures Rupee !in r && ',' !in r
    ensures r == "" || IsNumeral(r)
    ensures forall c :: c in r ==> c in s
    ensures (forall k :: 0 <= k < |s| ==> !IsDigit(s[k])) ==> r == ""
  {
    if s == "" then ""
    else
      var t := Without(s, Rupee);
      WithoutSubset(s, Rupee);
      WithoutRemoves(s, Rupee);
      match NumberSpan(t)
      case None => ""
      case Some((i, j)) =>
        MatchedTextFacts(s, t, i, j);
        Without(t[i..j], ',')
  }

  /** What a match of the number pattern in `t`, a text drawn from `s`,
      looks like once its separators are removed. */
  lemma {:induction false} MatchedTextFacts(s: string, t: string, i: nat, j: nat)
    requires forall c :: c in t ==> c in s
    requires exists e: nat :: GreedyMatch(t, i, e, j)
    ensures var r := Without(t[i..j], ',');
      && (Rupee !in t ==> Rupee !in r) && ',' !in r
      && (r == "" || IsNumeral(r))
      && (forall c :: c in r ==> c in s)
      && ((forall k :: 0 <= k < |s| ==> !IsDigit(s[k])) ==> r == "")
  {
    var r := Without(t[i..j], ',');
    MatchWithoutCommas(t, i, j);
    WithoutSubset(t[i..j], ',');
    WithoutRemoves(t[i..j], ',');
    assert forall c :: c in t[i..j] ==> c in t;
    if r != "" {
      NumeralHasDigit(r);
      var k :| 0 <= k < |r| && IsDigit(r[k]);
      assert r[k] in s;
      var m :| 0 <= m < |s| && s[m] == r[k];
    }
  }

  lemma {:induction false} NumeralHasDigit(r: string)
    requires IsNumeral(r)
    ensures exists k :: 0 <= k < |r| && IsDigit(r[k])
  {
    var p := DotIndex(r);
    if p > 0 {
      assert r[..p][0] == r[0];
    } else {
      assert r[p + 1..][0] == r[1];
    }
  }

  /** Removing the separators from a match leaves a numeral or nothing. */
  lemma {:induction false} MatchWithoutCommas(t: string, i: nat, j: nat)
    requires exists e: nat :: GreedyMatch(t, i, e, j)
    ensures Without(t[i..j], ',') == "" || IsNumeral(Without(t[i..j], ','))
  {
    var e: nat :| GreedyMatch(t, i, e, j);
    assert t[i..j] == t[i..e] + t[e..j];
    WithoutAppend(t[i..e], t[e..j], ',');
    var d := Without(t[i..e], ',');
    RunWithoutCommasIsDigits(t[i..e]);
    if j == e {
      assert t[e..j] == [];
      assert Without(t[i..j], ',') == d;
      assert DotIndex(d) == |d|;
      assert d[..|d|] == d;
    } else {
      var f := t[e + 1..j];
      assert t[e..j] == "." + f;
      assert AllDigits(f);
      assert ',' !in t[e..j];
      WithoutAbsent(t[e..j], ',');
      assert Without(t[i..j], ',') == d + "." + f;
      DotAfterDigits(d, f);
      assert (d + "." + f)[..|d|] == d;
      assert (d + "." + f)[|d| + 1..] == f;
    }
  }

  lemma {:induction false} RunWithoutCommasIsDigits(g: string)
    requires forall k :: 0 <= k < |g| ==> IsRunChar(g[k])
    ensures AllDigits(Without(g, ','))
  {
    if g != [] {
      RunWithoutCommasIsDigits(g[1..]);
    }
  }

  /** `to_float_or_none` on a price string: the leftmost number-like run of
      the text itself (no rupee deletion), without separators, read as a
      decimal; None when there is no run or it holds only separators. */
  function ToNumber(val: string): (r: Option<Dec>)
    ensures (forall k :: 0 <= k < |val| ==> !IsDigit(val[k])) ==> r.None?
    ensures r.Some? <==> FirstNumber(val).Some? && Without(FirstNumber(val).value, ',') != ""
  {
    match NumberSpan(val)
    case None => None
    case Some((i, j)) =>
      var c := Without(val[i..j], ',');
      MatchedTextFacts(val, val, i, j);
      if c == "" then None
      else Some(NumeralValue(c))
  }

  /** `to_float_or_none` reads back a numeral that starts with a digit, as
      every price `parse_price` or the per-gram conversion produces from a
      text whose number starts with a digit, as exactly the value it
      denotes. */
  lemma {:induction false} ToNumberOfNumeral(s: string)
    requires IsNumeral(s) && IsDigit(s[0])
    ensures ToNumber(s) == Some(NumeralValue(s))
  {
    NumeralHasNoComma(s);
    WithoutAbsent(s, ',');
    NumeralSpan(s);
    assert s[0..|s|] == s;
  }

  lemma {:induction false} NumeralHasNoComma(s: string)
    requires IsNumeral(s)
    ensures ',' !in s
  {
    var p := DotIndex(s);
    forall k | 0 <= k < |s| ensures s[k] != ',' {
      if k < p {
        assert IsDigit(s[..p][k]);
      } else if k > p {
        assert IsDigit(s[p + 1..][k - p - 1]);
      }
    }
  }

  /** The whole of a numeral that starts with a digit is the number span. */
  lemma {:induction false} NumeralSpan(s: string)
    requires IsNumeral(s) && IsDigit(s[0])
    ensures NumberSpan(s) == Some((0, |s|))
  {
    var p := DotIndex(s);
    var g := s[..p];
    assert p > 0 && AllDigits(g);
    if p == |s| {
      assert g == s;
      RunSpan("", s, "");
      assert "" + s + "" == s;
    } else {
      var f := s[p + 1..];
      assert s == g + "." + f;
      FractionSpan("", g, f, "");
      assert "" + (g + "." + f) + "" == s;
    }
  }

  /** A number preceded by text without digits or commas and followed by text
      that cannot extend it is exactly what `parse_price` returns, with its
      separators removed; rupee signs anywhere are ignored. */
  lemma {:induction false} ParsePriceLeadingRun(p: string, g: string, rest: string)
    requires forall k :: 0 <= k < |p| ==> !IsRunChar(p[k])
    requires |g| > 0 && forall k :: 0 <= k < |g| ==> IsRunChar(g[k])
    requires var u := Without(rest, Rupee); u == [] || (!IsRunChar(u[0]) && !FractionStarts(u, 0))
    ensures ParsePrice(p + g + rest) == Without(g, ',')
  {
    var P, U := Without(p, Rupee), Without(rest, Rupee);
    RunHasNoRupee(g);
    StripAround(p, g, rest);
    NoRunCharsKept(p, Rupee);
    RunSpan(P, g, U);
    assert (P + g + U)[|P|..|P| + |g|] == g;
  }

  /** As `ParsePriceLeadingRun`, for a number with a fraction `.f`. */
  lemma {:induction false} ParsePriceLeadingFraction(p: string, g: string, f: string, rest: string)
    requires forall k :: 0 <= k < |p| ==> !IsRunChar(p[k])
    requires |g| > 0 && forall k :: 0 <= k < |g| ==> IsRunChar(g[k])
    requires |f| > 0 && AllDigits(f)
    requires var u := Without(rest, Rupee); u == [] || !IsDigit(u[0])
    ensures ParsePrice(p + (g + "." + f) + rest) == Without(g, ',') + "." + f
  {
    var P, U := Without(p, Rupee), Without(rest, Rupee);
    var m := g + "." + f;
    NumberHasNoRupee(g, f);
    StripAround(p, m, rest);
    NoRunCharsKept(p, Rupee);
    FractionSpan(P, g, f, U);
    assert (P + m + U)[|P|..|P| + |m|] == m;
    FractionWithoutCommas(g, f);
  }

  lemma {:induction false} NumberHasNoRupee(g: string, f: string)
    requires forall k :: 0 <= k < |g| ==> IsRunChar(g[k])
    requires AllDigits(f)
    ensures Rupee !in g + "." + f
  {
    assert forall k :: 0 <= k < |g + "." + f| ==> (g + "." + f)[k] != Rupee by {
      forall k | 0 <= k < |g + "." + f|
        ensures (g + "." + f)[k] != Rupee
      {
        if k < |g| {
          assert IsRunChar(g[k]);
        } else if k > |g| {
          assert IsDigit(f[k - |g| - 1]);
        }
      }
    }
  }

  lemma {:induction false} FractionWithoutCommas(g: string, f: string)
    requires AllDigits(f)
    ensures Without(g + "." + f, ',') == Without(g, ',') + "." + f
  {
    assert ',' !in "." + f;
    WithoutAbsent("." + f, ',');
    assert g + "." + f == g + ("." + f);
    WithoutAppend(g, "." + f, ',');
  }

  /** Deleting rupee signs around a text that has none. */
  lemma {:induction false} StripAround(p: string, m: string, rest: string)
    requires Rupee !in m
    ensures Without(p + m + rest, Rupee) == Without(p, Rupee) + m + Without(rest, Rupee)
  {
    WithoutAppend(p + m, rest, Rupee);
    WithoutAppend(p, m, Rupee);
    WithoutAbsent(m, Rupee);
  }

  /** The match in P + g + U is exactly g when nothing in U extends it. */
  lemma {:induction false} RunSpan(P: string, g: string, U: string)
    requires forall k :: 0 <= k < |P| ==> !IsRunChar(P[k])
    requires |g| > 0 && forall k :: 0 <= k < |g| ==> IsRunChar(g[k])
    requires U == [] || (!IsRunChar(U[0]) && !FractionStarts(U, 0))
    ensures NumberSpan(P + g + U) == Some((|P|, |P| + |g|))
  {
    var t := P + g + U;
    var e := |P| + |g|;
    assert forall k :: 0 <= k < |P| ==> t[k] == P[k];
    assert forall k :: |P| <= k < e ==> t[k] == g[k - |P|];
    SpanAfterPrefix(t, |P|);
    RunEndFrom(t, |P|, e);
    assert t[e..] == U;
    assert FractionEnd(t, e) == e;
  }

  /** The match in P + g + "." + f + U is g + "." + f when U does not start
      with a digit. */
  lemma {:induction false} FractionSpan(P: string, g: string, f: string, U: string)
    requires forall k :: 0 <= k < |P| ==> !IsRunChar(P[k])
    requires |g| > 0 && forall k :: 0 <= k < |g| ==> IsRunChar(g[k])
    requires |f| > 0 && AllDigits(f)
    requires U == [] || !IsDigit(U[0])
    ensures NumberSpan(P + (g + "." + f) + U) == Some((|P|, |P| + |g| + 1 + |f|))
  {
    var t := P + (g + "." + f) + U;
    var e := |P| + |g|;
    var j := e + 1 + |f|;
    assert forall k :: 0 <= k < |P| ==> !IsRunChar(t[k]) by {
      assert forall k :: 0 <= k < |P| ==> t[k] == P[k];
    }
    assert forall k :: |P| <= k < e ==> IsRunChar(t[k]) by {
      assert forall k :: |P| <= k < e ==> t[k] == g[k - |P|];
    }
    assert forall k :: e + 1 <= k < j ==> IsDigit(t[k]) by {
      assert forall k :: e + 1 <= k < j ==> t[k] == f[k - e - 1];
    }
    assert t[e] == '.' && (j == |t| || t[j] == U[0]);
    FractionSpanAt(t, |P|, e, j);
  }

  /** The span found when a run of digits and commas over [n, e), after text
      without any, is followed by '.' and digits up to `j`. */
  lemma {:induction false} FractionSpanAt(t: string, n: nat, e: nat, j: nat)
    requires n < e && e + 1 < j <= |t|
    requires forall k :: 0 <= k < n ==> !IsRunChar(t[k])
    requires forall k :: n <= k < e ==> IsRunChar(t[k])
    requires t[e] == '.'
    requires forall k :: e + 1 <= k < j ==> IsDigit(t[k])
    requires j == |t| || !IsDigit(t[j])
    ensures NumberSpan(t) == Some((n, j))
  {
    SpanAfterPrefix(t, n);
    RunEndFrom(t, n, e);
    DigitsEndFrom(t, e + 1, j);
  }

  lemma {:induction false} RunHasNoRupee(g: string)
    requires forall k :: 0 <= k < |g| ==> IsRunChar(g[k])
    ensures Without(g, Rupee) == g
  {
    assert Rupee !in g;
    WithoutAbsent(g, Rupee);
  }

  lemma {:induction false} NoRunCharsKept(p: string, c: char)
    requires forall k :: 0 <= k < |p| ==> !IsRunChar(p[k])
    ensures forall k :: 0 <= k < |Without(p, c)| ==> !IsRunChar(Without(p, c)[k])
  {
    if p != [] {
      NoRunCharsKept(p[1..], c);
    }
  }

  /** The leftmost `[\d,]` character of P + g + U is g's first one. */
  lemma {:induction false} SpanAfterPrefix(t: string, n: nat)
    requires n < |t| && IsRunChar(t[n])
    requires forall k :: 0 <= k < n ==> !IsRunChar(t[k])
    ensures FirstRunChar(t, 0) == Some(n)
  {
    FirstRunCharFrom(t, 0, n);
  }

  lemma {:induction false} FirstRunCharFrom(t: string, i: nat, n: nat)
    requires i <= n < |t| && IsRunChar(t[n])
    requires forall k :: i <= k < n ==> !IsRunChar(t[k])
    ensures FirstRunChar(t, i) == Some(n)
    decreases n - i
  {
    if i < n {
      FirstRunCharFrom(t, i + 1, n);
    }
  }

  lemma {:induction false} RunEndFrom(t: string, i: nat, e: nat)
    requires i <= e <= |t|
    requires forall k :: i <= k < e ==> IsRunChar(t[k])
    requires e == |t| || !IsRunChar(t[e])
    ensures RunEnd(t, i) == e
    decreases e - i
  {
    if i < e {
      RunEndFrom(t, i + 1, e);
    }
  }

  lemma {:induction false} DigitsEndFrom(t: string, i: nat, e: nat)
    requires i <= e <= |t|
    requires forall k :: i <= k < e ==> IsDigit(t[k])
    requires e == |t| || !IsDigit(t[e])
    ensures DigitsEnd(t, i) == e
    decreases e - i
  {
    if i < e {
      DigitsEndFrom(t, i + 1, e);
    }
  }

  /** The headline example of `parse_price`'s docstring: the first number
      wins and the later delta and percentage are ignored. */
  lemma {:induction false} DocstringExample()
    ensures ParsePrice("₹2,10,722.11-6531.67  (-3.01%)") == "210722.11"
  {
    ExampleSplit();
    ExampleRun();
    ExampleJoin();
    ExampleTail();
    ParsePriceLeadingFraction("₹", "2,10,722", "11", "-6531.67  (-3.01%)");
  }

  lemma {:induction false} ExampleJoin()
    ensures "210722.11" == "210722" + "." + "11"
    ensures !IsRunChar("₹"[0]) && AllDigits("11")
  {
  }

  lemma {:induction false} ExampleTail()
    ensures Without("-6531.67  (-3.01%)", Rupee) == "-6531.67  (-3.01%)"
  {
    WithoutAbsent("-6531.67  (-3.01%)", Rupee);
  }

  lemma {:induction false} ExampleSplit()
    ensures "₹2,10,722.11-6531.67  (-3.01%)" == "₹" + ("2,10,722" + "." + "11") + "-6531.67  (-3.01%)"
  {
    var a, b := "₹2,10,722.11", "-6531.67  (-3.01%)";
    assert "₹2,10,722.11-6531.67  (-3.01%)" == a + b;
    assert a == "₹" + ("2,10,722" + "." + "11");
  }

  lemma {:induction false} ExampleRun()
    ensures forall k :: 0 <= k < |"2,10,722"| ==> IsRunChar("2,10,722"[k])
    ensures Without("2,10,722", ',') == "210722"
  {
  }

  /** A lone separator ahead of the digits is the leftmost match, so the
      digits later in the text are never reached and the result is "". */
  lemma {:induction false} LoneSeparatorHidesDigits()
    ensures ParsePrice("a, 5") == ""
  {
    ParsePriceLeadingRun("a", ",", " 5");
    assert "a" + "," + " 5" == "a, 5";
  }
}
