/** `extract_date_from_text`: the first `<day> <month name> <year>` group of a
    row label, read with `datetime.strptime(..., "%d %B %Y")`. A label whose
    first group is not a real calendar date gives None; nothing raises. */
module Dates {
  import opened Wrappers
  import opened Strings

  /** A calendar date, as the `datetime` the source compares. */
  datatype Date = Date(year: int, month: int, day: int)

  predicate IsLeapYear(y: int) {
    y % 4 == 0 && (y % 100 != 0 || y % 400 == 0)
  }

  function DaysInMonth(y: int, m: int): int
    requires 1 <= m <= 12
  {
    if m == 2 then (if IsLeapYear(y) then 29 else 28)
    else if m == 4 || m == 6 || m == 9 || m == 11 then 30
    else 31
  }

  /** A date `datetime` can hold: years 1 to 9999 and a real day of the month. */
  predicate IsValid(d: Date) {
    1 <= d.year <= 9999 && 1 <= d.month <= 12 && 1 <= d.day <= DaysInMonth(d.year, d.month)
  }

  /** `a < b` on datetimes at midnight: year, then month, then day. */
  predicate Before(a: Date, b: Date) {
    a.year < b.year
    || (a.year == b.year && a.month < b.month)
    || (a.year == b.year && a.month == b.month && a.day < b.day)
  }

  /** The full English month names `%B` accepts, in lower case. */
  const MonthNames: seq<string> := ["january", "february", "march", "april", "may", "june",
    "july", "august", "september", "october", "november", "december"]

  /** The month a word names under `%B`: a full month name in any letter case. */
  function MonthNumber(word: string): (r: Option<int>)
    ensures r.Some? ==> 1 <= r.value <= 12 && Lower(word) == MonthNames[r.value - 1]
    ensures r.None? ==> forall i :: 0 <= i < 12 ==> Lower(word) != MonthNames[i]
  {
    MonthNumberFrom(Lower(word), 0)
  }

  function MonthNumberFrom(w: string, i: nat): (r: Option<int>)
    requires i <= 12
    ensures r.Some? ==> i < r.value <= 12 && w == MonthNames[r.value - 1]
    ensures r.Some? ==> forall k :: i <= k < r.value - 1 ==> w != MonthNames[k]
    ensures r.None? ==> forall k :: i <= k < 12 ==> w != MonthNames[k]
    decreases 12 - i
  {
    if i == 12 then None
    else if w == MonthNames[i] then Some(i + 1)
    else MonthNumberFrom(w, i + 1)
  }

  /** The three groups of a match of `(\d{1,2})\s*([A-Za-z]+)\s*(\d{4})`. */
  datatype DateParts = DateParts(day: string, month: string, year: string)

  function SpaceEnd(t: string, i: nat): (j: nat)
    requires i <= |t|
    ensures i <= j <= |t|
    ensures forall k :: i <= k < j ==> IsSpace(t[k])
    ensures j == |t| || !IsSpace(t[j])
    decreases |t| - i
  {
    if i < |t| && IsSpace(t[i]) then SpaceEnd(t, i + 1) else i
  }

  function LettersEnd(t: string, i: nat): (j: nat)
    requires i <= |t|
    ensures i <= j <= |t|
    ensures forall k :: i <= k < j ==> IsAsciiLetter(t[k])
    ensures j == |t| || !IsAsciiLetter(t[j])
    decreases |t| - i
  {
    if i < |t| && IsAsciiLetter(t[i]) then LettersEnd(t, i + 1) else i
  }

  /** The rest of the pattern after a day group t[i..d]. Backtracking into
      `[A-Za-z]+` or `\s*` cannot help: a shorter run leaves a letter or a
      space where the next item needs a space, letter or digit. */
  function AfterDay(t: string, i: nat, d: nat): (r: Option<DateParts>)
    requires i <= d <= |t|
    ensures r.Some? ==> r.value.day == t[i..d] && AllDigits(r.value.year)
  {
    var w1 := SpaceEnd(t, d);
    if w1 < |t| && IsAsciiLetter(t[w1]) then
      var le := LettersEnd(t, w1);
      var w2 := SpaceEnd(t, le);
      if w2 + 4 <= |t| && AllDigits(t[w2..w2 + 4]) then
        Some(DateParts(t[i..d], t[w1..le], t[w2..w2 + 4]))
      else None
    else None
  }

  /** The match attempted at position i: `\d{1,2}` tries two digits first
      and falls back to one. */
  function MatchAt(t: string, i: nat): (r: Option<DateParts>)
    requires i <= |t|
    ensures r.Some? ==> i < |t| && IsDigit(t[i])
    ensures r.Some? ==> AllDigits(r.value.day) && AllDigits(r.value.year)
  {
    if i < |t| && IsDigit(t[i]) then
      var two := if i + 1 < |t| && IsDigit(t[i + 1]) then AfterDay(t, i, i + 2) else None;
      if two.Some? then two else AfterDay(t, i, i + 1)
    else None
  }

  /** The match attempted at each position of t; none past its end. */
  function Attempts(t: string): nat -> Option<DateParts> {
    (k: nat) => if k <= |t| then MatchAt(t, k) else None
  }

  /** The value `f` gives at the first position from i up to n where it
      gives one. */
  function FirstFrom<X>(f: nat -> Option<X>, i: nat, n: nat): Option<X>
    requires i <= n
    decreases n - i
  {
    if f(i).Some? then f(i)
    else if i == n then None
    else FirstFrom(f, i + 1, n)
  }

  /** Positions where `f` gives nothing are passed over. */
  lemma {:induction false} FirstFromSkip<X>(f: nat -> Option<X>, a: nat, b: nat, n: nat)
    requires a <= b <= n
    requires forall k :: a <= k < b ==> f(k).None?
    ensures FirstFrom(f, a, n) == FirstFrom(f, b, n)
    decreases b - a
  {
    if a < b {
      FirstFromSkip(f, a + 1, b, n);
    }
  }

  /** `re.search`: the match at the leftmost position where one exists. */
  function FirstDateMatch(t: string, i: nat): (r: Option<DateParts>)
    requires i <= |t|
  {
    FirstFrom(Attempts(t), i, |t|)
  }

  /** `datetime.strptime(day + " " + month + " " + year, "%d %B %Y")`, with
      the ValueError it raises as None. `%d` accepts 1..31 (not "0" or "00"),
      `%B` a full month name in any case, `%Y` four digits; the `datetime`
      constructor then rejects year 0 and days past the end of the month. */
  function FromParts(p: DateParts): (r: Option<Date>)
    requires AllDigits(p.day) && AllDigits(p.year)
    ensures r.Some? ==> IsValid(r.value)
    ensures r.Some? ==> r.value.day == DigitsValue(p.day) && r.value.year == DigitsValue(p.year)
    ensures r.Some? <==>
      && 1 <= DigitsValue(p.day) <= 31
      && MonthNumber(p.month).Some?
      && 1 <= DigitsValue(p.year) <= 9999
      && DigitsValue(p.day) <= DaysInMonth(DigitsValue(p.year), MonthNumber(p.month).value)
  {
    var day := DigitsValue(p.day);
    var year := DigitsValue(p.year);
    match MonthNumber(p.month)
    case None => None
    case Some(m) =>
      if 1 <= day <= 31 && 1 <= year <= 9999 && day <= DaysInMonth(year, m) then
        Some(Date(year, m, day))
      else None
  }

  /** `extract_date_from_text`. */
  function ExtractDate(text: string): (r: Option<Date>)
    ensures r.Some? ==> IsValid(r.value)
    ensures (forall k :: 0 <= k < |text| ==> !IsDigit(text[k])) ==> r.None?
  {
    match FirstDateMatch(text, 0)
    case None => None
    case Some(p) =>
      MatchPartsAreDigits(text, 0);
      FromParts(p)
  }

  lemma {:induction false} MatchPartsAreDigits(t: string, i: nat)
    requires i <= |t|
    ensures FirstDateMatch(t, i).Some? ==>
      AllDigits(FirstDateMatch(t, i).value.day) && AllDigits(FirstDateMatch(t, i).value.year)
    ensures (forall k :: i <= k < |t| ==> !IsDigit(t[k])) ==> FirstDateMatch(t, i).None?
    decreases |t| - i
  {
    if MatchAt(t, i).None? && i < |t| {
      MatchPartsAreDigits(t, i + 1);
    }
  }

  /** Python's `str` of a date in the shape the pages print it:
      "15 December 2025". */
  function FormatDate(d: Date): string
    requires IsValid(d)
  {
    NatToDigits(d.day) + " " + MonthTitle(d.month) + " " + PadDigits(d.year, 4)
  }

  /** The capitalised month name, "December". */
  function MonthTitle(m: int): (r: string)
    requires 1 <= m <= 12
    ensures |r| >= 1 && AllLetters(r)
    ensures MonthNumber(r) == Some(m)
  {
    var n := MonthNames[m - 1];
    var r := Capitalize(n);
    assert |r| >= 1 && AllLetters(r) && Lower(r) == n by {
      MonthNamesShape(m - 1);
      CapitalizeLetters(n);
      LowerCapitalize(n);
    }
    assert MonthNumber(r) == Some(m) by {
      MonthNamesDistinct(m - 1);
    }
    r
  }

  lemma {:induction false} MonthNamesShape(i: nat)
    requires i < 12
    ensures |MonthNames[i]| >= 1 && AllLetters(MonthNames[i]) && IsLowerCase(MonthNames[i])
  {
  }

  lemma {:induction false} MonthNamesDistinct(i: nat)
    requires i < 12
    ensures forall j :: 0 <= j < 12 && j != i ==> MonthNames[j] != MonthNames[i]
  {
  }

  /** Capitalising a word of letters keeps it a word of letters. */
  lemma {:induction false} CapitalizeLetters(n: string)
    requires |n| >= 1 && AllLetters(n)
    ensures |Capitalize(n)| >= 1 && AllLetters(Capitalize(n))
  {
    var r := Capitalize(n);
    assert r[0] == ToUpper(n[0]);
    forall k | 1 <= k < |r| ensures IsAsciiLetter(r[k]) {
      assert r[k] == r[1..][k - 1] == ToLower(n[k]);
    }
  }

  /** Capitalising a lower-case word and lowering it again gives the word. */
  lemma {:induction false} LowerCapitalize(s: string)
    requires IsLowerCase(s)
    ensures Lower(Capitalize(s)) == s
  {
    var c := Capitalize(s);
    forall k | 0 <= k < |s| ensures Lower(c)[k] == s[k] {
      if k > 0 {
        assert c[k] == c[1..][k - 1] == ToLower(s[k]);
      }
    }
  }

  /** Positions before `n` hold no digit, so no match starts there and the
      search resumes at `n`. */
  lemma SkipNoDigits(t: string, i: nat, n: nat)
    requires i <= n <= |t|
    requires forall k :: i <= k < n ==> !IsDigit(t[k])
    ensures FirstDateMatch(t, i) == FirstDateMatch(t, n)
  {
    forall k | i <= k < n
      ensures Attempts(t)(k).None?
    {
      NoDigitNoMatch(t, k);
    }
    FirstFromSkip(Attempts(t), i, n, |t|);
  }

  lemma NoDigitNoMatch(t: string, i: nat)
    requires i < |t| && !IsDigit(t[i])
    ensures MatchAt(t, i).None?
  {
  }

  lemma {:induction false} SpaceEndAt(t: string, a: nat, b: nat)
    requires a <= b <= |t|
    requires forall k :: a <= k < b ==> IsSpace(t[k])
    requires b == |t| || !IsSpace(t[b])
    ensures SpaceEnd(t, a) == b
    decreases b - a
  {
    if a < b {
      SpaceEndAt(t, a + 1, b);
    }
  }

  lemma {:induction false} LettersEndAt(t: string, a: nat, b: nat)
    requires a <= b <= |t|
    requires forall k :: a <= k < b ==> IsAsciiLetter(t[k])
    requires b == |t| || !IsAsciiLetter(t[b])
    ensures LettersEnd(t, a) == b
    decreases b - a
  {
    if a < b {
      LettersEndAt(t, a + 1, b);
    }
  }

  /** The text after a day group at t[i..d]: spaces up to `w`, letters up to
      `e`, spaces up to `y`, and four digits. */
  lemma {:induction false} AfterDayOn(t: string, i: nat, d: nat, w: nat, e: nat, y: nat)
    requires i <= d <= w < e <= y && y + 4 <= |t|
    requires forall k :: d <= k < w ==> IsSpace(t[k])
    requires forall k :: w <= k < e ==> IsAsciiLetter(t[k])
    requires forall k :: e <= k < y ==> IsSpace(t[k])
    requires forall k :: y <= k < y + 4 ==> IsDigit(t[k])
    ensures AfterDay(t, i, d) == Some(DateParts(t[i..d], t[w..e], t[y..y + 4]))
  {
    SpaceEndAt(t, d, w);
    LettersEndAt(t, w, e);
    SpaceEndAt(t, e, y);
    var s := t[y..y + 4];
    assert AllDigits(s) by {
      forall k | 0 <= k < |s| ensures IsDigit(s[k]) {
        assert s[k] == t[y + k];
      }
    }
  }

  /** A text whose first digits open a day-month-year group: the result is
      decided by that group alone, whatever follows it. */
  lemma {:induction false} FirstGroupDecides(t: string, n: nat, d: nat, w: nat, e: nat, y: nat, parts: DateParts)
    requires n < d <= n + 2 && d <= w < e <= y && y + 4 <= |t|
    requires forall k :: 0 <= k < n ==> !IsDigit(t[k])
    requires forall k :: n <= k < d ==> IsDigit(t[k])
    requires forall k :: d <= k < w ==> IsSpace(t[k])
    requires forall k :: w <= k < e ==> IsAsciiLetter(t[k])
    requires forall k :: e <= k < y ==> IsSpace(t[k])
    requires forall k :: y <= k < y + 4 ==> IsDigit(t[k])
    requires parts == DateParts(t[n..d], t[w..e], t[y..y + 4])
    ensures AllDigits(parts.day) && AllDigits(parts.year)
    ensures ExtractDate(t) == FromParts(parts)
  {
    assert AllDigits(t[n..d]) by {
      forall k | 0 <= k < d - n ensures IsDigit(t[n..d][k]) {
        assert t[n..d][k] == t[n + k];
      }
    }
    SkipNoDigits(t, 0, n);
    MatchAtGroup(t, n, d, w, e, y);
    assert FirstDateMatch(t, n) == Some(parts);
  }

  /** The match attempted at the first digit of such a group is the group. */
  lemma {:induction false} MatchAtGroup(t: string, n: nat, d: nat, w: nat, e: nat, y: nat)
    requires n < d <= n + 2 && d <= w < e <= y && y + 4 <= |t|
    requires forall k :: n <= k < d ==> IsDigit(t[k])
    requires forall k :: d <= k < w ==> IsSpace(t[k])
    requires forall k :: w <= k < e ==> IsAsciiLetter(t[k])
    requires forall k :: e <= k < y ==> IsSpace(t[k])
    requires forall k :: y <= k < y + 4 ==> IsDigit(t[k])
    ensures MatchAt(t, n) == Some(DateParts(t[n..d], t[w..e], t[y..y + 4]))
  {
    AfterDayOn(t, n, d, w, e, y);
    if d == n + 1 {
      assert !IsDigit(t[n + 1]) by {
        if w == d {
          assert IsAsciiLetter(t[w]);
        } else {
          assert IsSpace(t[d]);
        }
      }
    }
  }

  /** A match of `(\d{1,2})\s*([A-Za-z]+)\s*(\d{4})` starting at i: the day
      over [i, d), white space over [d, w), the month word over [w, e),
      white space over [e, y) and the year over [y, y + 4). */
  predicate IsGroupAt(t: string, i: nat, d: nat, w: nat, e: nat, y: nat) {
    && i < d <= i + 2 && d <= w < e <= y && y + 4 <= |t|
    && (forall k :: i <= k < d ==> IsDigit(t[k]))
    && (forall k :: d <= k < w ==> IsSpace(t[k]))
    && (forall k :: w <= k < e ==> IsAsciiLetter(t[k]))
    && (forall k :: e <= k < y ==> IsSpace(t[k]))
    && (forall k :: y <= k < y + 4 ==> IsDigit(t[k]))
  }

  /** The pattern matches at position i. */
  ghost predicate HasGroupAt(t: string, i: nat) {
    exists d: nat, w: nat, e: nat, y: nat :: IsGroupAt(t, i, d, w, e, y)
  }

  /** The search finds a match at i exactly when the pattern matches there. */
  lemma {:induction false} MatchAtIffGroup(t: string, i: nat)
    requires i <= |t|
    ensures MatchAt(t, i).Some? <==> HasGroupAt(t, i)
  {
    if HasGroupAt(t, i) {
      GroupGivesMatch(t, i);
    }
    if MatchAt(t, i).Some? {
      MatchGivesGroup(t, i);
    }
  }

  lemma GroupGivesMatch(t: string, i: nat)
    requires i <= |t| && HasGroupAt(t, i)
    ensures MatchAt(t, i).Some?
  {
    var d: nat, w: nat, e: nat, y: nat :| IsGroupAt(t, i, d, w, e, y);
    MatchAtGroup(t, i, d, w, e, y);
  }

  lemma MatchGivesGroup(t: string, i: nat)
    requires i <= |t| && MatchAt(t, i).Some?
    ensures HasGroupAt(t, i)
  {
    if i + 1 < |t| && IsDigit(t[i + 1]) && AfterDay(t, i, i + 2).Some? {
      AfterDayGroup(t, i, i + 2);
    } else {
      AfterDayGroup(t, i, i + 1);
    }
  }

  /** A day group followed by what `AfterDay` accepts is a match. */
  lemma {:induction false} AfterDayGroup(t: string, i: nat, d: nat)
    requires i < d <= i + 2 && d <= |t|
    requires forall k :: i <= k < d ==> IsDigit(t[k])
    requires AfterDay(t, i, d).Some?
    ensures HasGroupAt(t, i)
  {
    var w := SpaceEnd(t, d);
    var e := LettersEnd(t, w);
    var y := SpaceEnd(t, e);
    assert w < e;
    var ys := t[y..y + 4];
    assert AllDigits(ys);
    assert forall k :: y <= k < y + 4 ==> IsDigit(t[k]) by {
      forall k | y <= k < y + 4 ensures IsDigit(t[k]) {
        assert t[k] == ys[k - y];
      }
    }
    assert IsGroupAt(t, i, d, w, e, y);
  }

  /** Positions where the pattern does not match are passed over. */
  lemma SkipNoMatch(t: string, a: nat, n: nat)
    requires a <= n <= |t|
    requires forall k :: a <= k < n ==> !HasGroupAt(t, k)
    ensures FirstDateMatch(t, a) == FirstDateMatch(t, n)
  {
    forall k | a <= k < n
      ensures Attempts(t)(k).None?
    {
      MatchAtIffGroup(t, k);
    }
    FirstFromSkip(Attempts(t), a, n, |t|);
  }

  /** `re.search`: the date is read from the leftmost match, wherever it
      lies and whatever digits come before it. */
  lemma {:induction false} LeftmostGroupDecides(t: string, i: nat, d: nat, w: nat, e: nat, y: nat)
    requires IsGroupAt(t, i, d, w, e, y)
    requires forall k :: 0 <= k < i ==> !HasGroupAt(t, k)
    ensures AllDigits(t[i..d]) && AllDigits(t[y..y + 4])
    ensures ExtractDate(t) == FromParts(DateParts(t[i..d], t[w..e], t[y..y + 4]))
  {
    SkipNoMatch(t, 0, i);
    MatchAtGroup(t, i, d, w, e, y);
    assert FirstDateMatch(t, i) == MatchAt(t, i);
  }

  /** A text the pattern matches nowhere has no date. */
  lemma {:induction false} NoGroupNoDate(t: string)
    requires forall k :: 0 <= k <= |t| ==> !HasGroupAt(t, k)
    ensures ExtractDate(t).None?
  {
    SkipNoMatch(t, 0, |t|);
    assert FirstDateMatch(t, |t|).None?;
  }

  /** A date is found only where the pattern matches. */
  lemma {:induction false} DateNeedsGroup(t: string)
    ensures ExtractDate(t).Some? ==> exists k :: 0 <= k <= |t| && HasGroupAt(t, k)
  {
    if forall k :: 0 <= k <= |t| ==> !HasGroupAt(t, k) {
      NoGroupNoDate(t);
    }
  }

  /** Digits before the date do not hide it: in "24K rate on 15 December
      2025" the pattern fails at "24K rate" and matches at "15". */
  lemma DigitsBeforeDateExample()
    ensures ExtractDate("24K rate on 15 December 2025") == Some(Date(2025, 12, 15))
  {
    var t := "24K rate on 15 December 2025";
    assert forall k :: 0 <= k < 12 ==> !HasGroupAt(t, k) by {
      forall k | 0 <= k < 12 ensures !HasGroupAt(t, k) {
        MatchAtIffGroup(t, k);
        if k < 2 {
          NoMatchInLabel(t, k);
        } else {
          assert !IsDigit(t[k]);
        }
      }
    }
    assert IsGroupAt(t, 12, 14, 15, 23, 24) by {
      LabelIndex(t);
    }
    var parts := DateParts(t[12..14], t[15..23], t[24..28]);
    assert AllDigits(parts.day) && AllDigits(parts.year) && ExtractDate(t) == FromParts(parts) by {
      LeftmostGroupDecides(t, 12, 14, 15, 23, 24);
    }
    assert parts == DateParts("15", "December", "2025") by {
      LabelSlices(t);
    }
    DecemberParts();
  }

  /** "24K" is no day and month: the year slot holds "rate". */
  lemma NoMatchInLabel(t: string, k: nat)
    requires t == "24K rate on 15 December 2025" && k < 2
    ensures MatchAt(t, k).None?
  {
    assert AfterDay(t, k, 2).None? by {
      LabelAfterDay(t, k);
    }
    if k == 0 {
      assert AfterDay(t, 0, 1).None? by {
        assert !IsSpace(t[1]) && !IsAsciiLetter(t[1]);
        SpaceEndAt(t, 1, 1);
      }
    } else {
      assert !IsDigit(t[2]);
    }
  }

  lemma LabelAfterDay(t: string, k: nat)
    requires t == "24K rate on 15 December 2025" && k < 2
    ensures AfterDay(t, k, 2).None?
  {
    assert SpaceEnd(t, 2) == 2 && IsAsciiLetter(t[2]) by {
      assert !IsSpace(t[2]) && IsAsciiLetter(t[2]);
      SpaceEndAt(t, 2, 2);
    }
    assert LettersEnd(t, 2) == 3 by {
      assert IsAsciiLetter(t[2]) && !IsAsciiLetter(t[3]);
      LettersEndAt(t, 2, 3);
    }
    assert SpaceEnd(t, 3) == 4 by {
      assert IsSpace(t[3]) && !IsSpace(t[4]);
      SpaceEndAt(t, 3, 4);
    }
    assert !AllDigits(t[4..8]) by {
      assert t[4..8][0] == t[4] && !IsDigit(t[4]);
    }
  }

  lemma LabelSlices(t: string)
    requires t == "24K rate on 15 December 2025"
    ensures t[12..14] == "15" && t[15..23] == "December" && t[24..28] == "2025"
  {
    var u := "24K rate on " + "15" + " " + "December" + " " + "2025";
    assert t == u;
  }

  lemma LabelIndex(t: string)
    requires t == "24K rate on 15 December 2025"
    ensures |t| == 28
    ensures IsDigit(t[12]) && IsDigit(t[13]) && IsSpace(t[14]) && IsSpace(t[23])
    ensures forall k :: 15 <= k < 23 ==> IsAsciiLetter(t[k])
    ensures forall k :: 24 <= k < 28 ==> IsDigit(t[k])
  {
  }

  /** Round trip: a valid date written out after digit-free text is read
      back exactly, whatever follows it. */
  lemma {:induction false} ExtractFormatted(p: string, d: Date, rest: string)
    requires IsValid(d)
    requires forall k :: 0 <= k < |p| ==> !IsDigit(p[k])
    ensures ExtractDate(p + FormatDate(d) + rest) == Some(d)
  {
    var ds, mt, ys := NatToDigits(d.day), MonthTitle(d.month), PadDigits(d.year, 4);
    DayDigits(d.day);
    SpelledGroup(p, ds, mt, ys, rest);
    FormattedParts(d, DateParts(ds, mt, ys));
  }

  /** Digit-free text, then a day of one or two digits, a space, a word, a
      space and four digits: the result is that group's date. */
  lemma {:induction false} SpelledGroup(p: string, ds: string, mt: string, ys: string, rest: string)
    requires forall k :: 0 <= k < |p| ==> !IsDigit(p[k])
    requires 1 <= |ds| <= 2 && AllDigits(ds) && 1 <= |mt| && AllLetters(mt) && |ys| == 4 && AllDigits(ys)
    ensures ExtractDate(p + (ds + " " + mt + " " + ys) + rest) == FromParts(DateParts(ds, mt, ys))
  {
    var t := p + (ds + " " + mt + " " + ys) + rest;
    FormattedSlices(p, ds, mt, ys, rest, t);
    GroupAt(t, |p|, ds, mt, ys);
  }

  /** `FirstGroupDecides` with the groups named. */
  lemma {:induction false} GroupAt(t: string, n: nat, ds: string, mt: string, ys: string)
    requires 1 <= |ds| <= 2 && AllDigits(ds) && 1 <= |mt| && AllDigits(ys)
    requires n + |ds| + |mt| + 6 <= |t|
    requires forall k :: 0 <= k < n ==> !IsDigit(t[k])
    requires forall k :: n <= k < n + |ds| ==> IsDigit(t[k])
    requires IsSpace(t[n + |ds|])
    requires forall k :: n + |ds| + 1 <= k < n + |ds| + 1 + |mt| ==> IsAsciiLetter(t[k])
    requires IsSpace(t[n + |ds| + 1 + |mt|])
    requires forall k :: n + |ds| + 2 + |mt| <= k < n + |ds| + 6 + |mt| ==> IsDigit(t[k])
    requires t[n..n + |ds|] == ds
    requires t[n + |ds| + 1..n + |ds| + 1 + |mt|] == mt
    requires t[n + |ds| + 2 + |mt|..n + |ds| + 6 + |mt|] == ys
    ensures ExtractDate(t) == FromParts(DateParts(ds, mt, ys))
  {
    var d, w, y := n + |ds|, n + |ds| + 1, n + |ds| + 2 + |mt|;
    assert forall k :: d <= k < w ==> IsSpace(t[k]);
    assert forall k :: w + |mt| <= k < y ==> IsSpace(t[k]);
    assert t[n..d] == ds && t[w..w + |mt|] == mt && t[y..y + 4] == ys;
    FirstGroupDecides(t, n, d, w, w + |mt|, y, DateParts(ds, mt, ys));
  }

  /** The day, month and year groups of `p + (ds + " " + mt + " " + ys) + rest`. */
  lemma {:induction false} FormattedSlices(p: string, ds: string, mt: string, ys: string, rest: string, t: string)
    requires t == p + (ds + " " + mt + " " + ys) + rest
    requires forall k :: 0 <= k < |p| ==> !IsDigit(p[k])
    requires 1 <= |ds| && AllDigits(ds) && 1 <= |mt| && AllLetters(mt) && |ys| == 4 && AllDigits(ys)
    ensures |p| + |ds| + |mt| + 6 <= |t|
    ensures forall k :: 0 <= k < |p| ==> !IsDigit(t[k])
    ensures forall k :: |p| <= k < |p| + |ds| ==> IsDigit(t[k])
    ensures IsSpace(t[|p| + |ds|])
    ensures forall k :: |p| + |ds| + 1 <= k < |p| + |ds| + 1 + |mt| ==> IsAsciiLetter(t[k])
    ensures IsSpace(t[|p| + |ds| + 1 + |mt|])
    ensures forall k :: |p| + |ds| + 2 + |mt| <= k < |p| + |ds| + 6 + |mt| ==> IsDigit(t[k])
    ensures t[|p|..|p| + |ds|] == ds
    ensures t[|p| + |ds| + 1..|p| + |ds| + 1 + |mt|] == mt
    ensures t[|p| + |ds| + 2 + |mt|..|p| + |ds| + 6 + |mt|] == ys
  {
    FormattedIndex(p, ds, mt, ys, rest, t);
  }

  lemma {:induction false} FormattedParts(d: Date, parts: DateParts)
    requires IsValid(d)
    requires parts == DateParts(NatToDigits(d.day), MonthTitle(d.month), PadDigits(d.year, 4))
    ensures FromParts(parts) == Some(d)
  {
  }

  lemma {:induction false} DayDigits(day: int)
    requires 1 <= day <= 31
    ensures 1 <= |NatToDigits(day)| <= 2
  {
  }

  /** Where each part of `p + (ds + " " + mt + " " + ys) + rest` sits. */
  lemma {:induction false} FormattedIndex(p: string, ds: string, mt: string, ys: string, rest: string, t: string)
    requires t == p + (ds + " " + mt + " " + ys) + rest
    ensures |t| == |p| + |ds| + |mt| + |ys| + 2 + |rest|
    ensures forall k :: 0 <= k < |p| ==> t[k] == p[k]
    ensures forall k :: 0 <= k < |ds| ==> t[|p| + k] == ds[k]
    ensures t[|p| + |ds|] == ' '
    ensures forall k :: 0 <= k < |mt| ==> t[|p| + |ds| + 1 + k] == mt[k]
    ensures t[|p| + |ds| + 1 + |mt|] == ' '
    ensures forall k :: 0 <= k < |ys| ==> t[|p| + |ds| + |mt| + 2 + k] == ys[k]
  {
    var f := ds + " " + mt + " " + ys;
    assert forall k :: 0 <= k < |f| ==> t[|p| + k] == f[k];
  }

  /** "Rate on 15 December 2025", the label shape the pages use. */
  lemma RateOnExample()
    ensures ExtractDate("Rate on 15 December 2025") == Some(Date(2025, 12, 15))
  {
    SpelledGroup("Rate on ", "15", "December", "2025", "");
    DecemberLabel();
    DecemberParts();
  }

  lemma DecemberLabel()
    ensures "Rate on " + ("15" + " " + "December" + " " + "2025") + "" == "Rate on 15 December 2025"
  {
    assert "15" + " " + "December" == "15 December";
    assert "15 December" + " " + "2025" == "15 December 2025";
    assert "Rate on " + "15 December 2025" == "Rate on 15 December 2025";
  }

  lemma JuneLabel()
    ensures "" + ("31" + " " + "June" + " " + "2024") + ", 1 July 2024" == "31 June 2024, 1 July 2024"
  {
    assert "31" + " " + "June" == "31 June";
    assert "31 June" + " " + "2024" == "31 June 2024";
    assert "31 June 2024" + ", 1 July 2024" == "31 June 2024, 1 July 2024";
  }

  lemma DecemberParts()
    ensures FromParts(DateParts("15", "December", "2025")) == Some(Date(2025, 12, 15))
  {
    assert AllDigits("15") && AllDigits("2025");
    FullName();
    ExampleNumbers();
    assert DaysInMonth(2025, 12) == 31;
  }

  /** An abbreviated month name is not a `%B` month: the label gives None. */
  lemma AbbreviatedExample()
    ensures ExtractDate("Rate on 15 Dec 2025") == None
  {
    SpelledGroup("Rate on ", "15", "Dec", "2025", "");
    assert "Rate on " + ("15" + " " + "Dec" + " " + "2025") + "" == "Rate on 15 Dec 2025";
    AbbreviatedName();
  }

  /** Only the first group counts: an impossible first date hides a valid
      second one. */
  lemma FirstGroupOnlyExample()
    ensures ExtractDate("31 June 2024, 1 July 2024") == None
  {
    SpelledGroup("", "31", "June", "2024", ", 1 July 2024");
    JuneLabel();
    JuneParts();
  }

  lemma JuneParts()
    ensures FromParts(DateParts("31", "June", "2024")) == None
  {
    JuneName();
    assert DigitsValue("31") == 31 by {
      assert "31"[..1] == "3";
    }
  }

  lemma FullName()
    ensures MonthNumber("December") == Some(12)
  {
    assert Lower("December") == MonthNames[11] by {
      assert Lower("December") == "december";
    }
    MonthNamesDistinct(11);
  }

  lemma AbbreviatedName()
    ensures MonthNumber("Dec") == None
  {
    assert Lower("Dec") == "dec";
  }

  lemma JuneName()
    ensures MonthNumber("June") == Some(6)
  {
    assert Lower("June") == MonthNames[5] by {
      assert Lower("June") == "june";
    }
    MonthNamesDistinct(5);
  }

  lemma ExampleNumbers()
    ensures DigitsValue("15") == 15 && DigitsValue("2025") == 2025
  {
    assert "15"[..1] == "1";
    assert "2025"[..3] == "202";
    assert "202"[..2] == "20";
    assert "20"[..1] == "2";
  }
}
