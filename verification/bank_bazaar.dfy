/** The BankBazaar extractors. A primary pass looks for a parameters table
    and keeps the price of the latest dated row; only when it finds nothing
    does a fallback pass read a city table. */
module BankBazaarSource {
  import opened Wrappers
  import opened Strings
  import opened Decimal
  import opened PriceText
  import opened Dates
  import opened Tables
  import opened Quotes
  import opened LatestScan

  function Url(m: Metal): string {
    match m
    case Gold => "https://www.bankbazaar.com/gold-rate-india.html"
    case Silver => "https://www.bankbazaar.com/silver-rate-india.html"
  }

  function NotFound(m: Metal): string {
    match m
    case Gold => "24K gold not found"
    case Silver => "Silver 1kg not found"
  }

  // ---------------------------------------------------------------------
  // Primary pass

  /** The header that marks a parameters table: a 24K gold price column, or
      a silver price per kg column. */
  predicate PriceHeader(m: Metal, h: string) {
    match m
    case Gold => Contains(h, "gold price") && Contains(h, "24")
    case Silver => Contains(h, "silver price") && Contains(h, "kg")
  }

  /** The index of the first price header. */
  function PriceColumn(m: Metal, headers: seq<string>): (r: Option<nat>)
    ensures r.Some? ==> r.value < |headers| && PriceHeader(m, headers[r.value])
    ensures r.Some? ==> forall k :: 0 <= k < r.value ==> !PriceHeader(m, headers[k])
    ensures r.None? ==> forall k :: 0 <= k < |headers| ==> !PriceHeader(m, headers[k])
  {
    if headers == [] then None
    else if PriceHeader(m, headers[0]) then Some(0)
    else match PriceColumn(m, headers[1..])
      case None => None
      case Some(i) => Some(i + 1)
  }

  /** A row of a parameters table the primary pass keeps. Gold: the cell in
      the price column mentions "gram" (any case); silver: the label says
      "rate of silver on" (any case) and the price is the second cell. In
      both the parsed price must be non-empty; the date comes from the
      label, the first `td`. */
  function RowCandidate(m: Metal, col: nat, row: Row): (r: Option<Candidate>)
    ensures r.Some? ==> r.value.price != "" && IsNumeral(r.value.price)
    ensures r.Some? ==> |DataCells(row)| > 0 && r.value.date == ExtractDate(DataCells(row)[0])
    ensures m == Gold ==>
      var cells := DataCells(row);
      && (r.Some? <==> col < |cells| && Contains(Lower(cells[col]), "gram") && ParsePrice(cells[col]) != "")
      && (r.Some? ==> r.value.price == ParsePrice(cells[col]))
    ensures m == Silver ==>
      var cells := DataCells(row);
      && (r.Some? <==> 2 <= |cells| && Contains(Lower(cells[0]), "rate of silver on") && ParsePrice(cells[1]) != "")
      && (r.Some? ==> r.value.price == ParsePrice(cells[1]))
  {
    var cells := DataCells(row);
    match m
    case Gold =>
      if |cells| <= col || !Contains(Lower(cells[col]), "gram") then None
      else
        var p := ParsePrice(cells[col]);
        if p == "" then None else Some(Candidate(ExtractDate(cells[0]), p))
    case Silver =>
      if |cells| < 2 || !Contains(Lower(cells[0]), "rate of silver on") then None
      else
        var p := ParsePrice(cells[1]);
        if p == "" then None else Some(Candidate(ExtractDate(cells[0]), p))
  }

  /** The values `f` gives for the elements of `xs`, in order, skipping
      None. */
  function KeepAll<T, U>(f: T -> Option<U>, xs: seq<T>): (ys: seq<U>)
    ensures |ys| <= |xs|
  {
    if xs == [] then []
    else
      var head := match f(xs[0]) case None => [] case Some(y) => [y];
      head + KeepAll(f, xs[1..])
  }

  /** Every value kept is one `f` gives, and every value `f` gives is kept. */
  lemma {:induction false} KeepAllMembers<T, U>(f: T -> Option<U>, xs: seq<T>)
    ensures forall y :: y in KeepAll(f, xs) <==> exists k :: 0 <= k < |xs| && f(xs[k]) == Some(y)
  {
    if xs != [] {
      KeepAllMembers(f, xs[1..]);
      assert forall k :: 0 < k < |xs| ==> xs[k] == xs[1..][k - 1];
      forall y | (exists k :: 0 <= k < |xs| && f(xs[k]) == Some(y))
        ensures y in KeepAll(f, xs)
      {
        var k :| 0 <= k < |xs| && f(xs[k]) == Some(y);
        if k > 0 {
          assert f(xs[1..][k - 1]) == Some(y);
        }
      }
    }
  }

  /** The first value kept is the one of the first element `f` accepts;
      nothing is kept exactly when `f` accepts no element. */
  lemma {:induction false} KeepAllFirst<T, U>(f: T -> Option<U>, xs: seq<T>)
    ensures KeepAll(f, xs) == [] <==> forall k :: 0 <= k < |xs| ==> f(xs[k]).None?
    ensures KeepAll(f, xs) != [] ==>
      exists k :: 0 <= k < |xs| && f(xs[k]) == Some(KeepAll(f, xs)[0])
                  && forall j :: 0 <= j < k ==> f(xs[j]).None?
  {
    if xs != [] {
      var tail := KeepAll(f, xs[1..]);
      KeepAllFirst(f, xs[1..]);
      if f(xs[0]).None? {
        assert KeepAll(f, xs) == tail;
        assert forall k :: 0 < k < |xs| ==> xs[k] == xs[1..][k - 1];
        if tail != [] {
          var k :| 0 <= k < |xs[1..]| && f(xs[1..][k]) == Some(tail[0])
                   && forall j :: 0 <= j < k ==> f(xs[1..][j]).None?;
          assert f(xs[k + 1]) == Some(tail[0]);
        }
      } else {
        assert KeepAll(f, xs) == [f(xs[0]).value] + tail;
        assert f(xs[0]) == Some(KeepAll(f, xs)[0]);
      }
    }
  }

  /** The value `f` gives for the first element it accepts. */
  function FirstSome<T, U>(f: T -> Option<U>, xs: seq<T>): (r: Option<U>)
    ensures r.Some? <==> exists k :: 0 <= k < |xs| && f(xs[k]).Some?
    ensures r.Some? ==>
      exists k :: 0 <= k < |xs| && f(xs[k]) == r && forall j :: 0 <= j < k ==> f(xs[j]).None?
  {
    if xs == [] then None
    else if f(xs[0]).Some? then f(xs[0])
    else
      var r := FirstSome(f, xs[1..]);
      assert forall k :: 0 <= k < |xs[1..]| ==> xs[1..][k] == xs[k + 1];
      r
  }

  /** `FirstSome` gives the value of the element at `k` when `f` accepts it
      and no element before it. */
  lemma {:induction false} FirstSomeAt<T, U>(f: T -> Option<U>, xs: seq<T>, k: nat)
    requires k < |xs| && f(xs[k]).Some?
    requires forall j :: 0 <= j < k ==> f(xs[j]).None?
    ensures FirstSome(f, xs) == f(xs[k])
  {
    assert FirstSome(f, xs).Some? by {
      assert 0 <= k < |xs| && f(xs[k]).Some?;
    }
    var i :| 0 <= i < |xs| && f(xs[i]) == FirstSome(f, xs) && forall j :: 0 <= j < i ==> f(xs[j]).None?;
    assert f(xs[i]).Some? && f(xs[k]).Some?;
    assert i == k;
  }

  /** The value `f` gives for the first element where it gives something
      other than `none`; `none` when there is no such element. */
  function FirstOther<T, U(==)>(f: T -> U, none: U, xs: seq<T>): (r: U)
    ensures r != none <==> exists k :: 0 <= k < |xs| && f(xs[k]) != none
    ensures r != none ==>
      exists k :: 0 <= k < |xs| && f(xs[k]) == r && forall j :: 0 <= j < k ==> f(xs[j]) == none
  {
    if xs == [] then none
    else if f(xs[0]) != none then f(xs[0])
    else
      var r := FirstOther(f, none, xs[1..]);
      assert forall k :: 0 <= k < |xs[1..]| ==> xs[1..][k] == xs[k + 1];
      r
  }

  /** `FirstOther` gives the value at `k` when it is not `none` and every
      value before it is. */
  lemma {:induction false} FirstOtherAt<T, U>(f: T -> U, none: U, xs: seq<T>, k: nat)
    requires k < |xs| && f(xs[k]) != none
    requires forall j :: 0 <= j < k ==> f(xs[j]) == none
    ensures FirstOther(f, none, xs) == f(xs[k])
  {
    assert FirstOther(f, none, xs) != none by {
      assert 0 <= k < |xs| && f(xs[k]) != none;
    }
    var i :| 0 <= i < |xs| && f(xs[i]) == FirstOther(f, none, xs) && forall j :: 0 <= j < i ==> f(xs[j]) == none;
    assert f(xs[i]) != none && f(xs[k]) != none;
    assert i == k;
  }

  /** The kept rows of `rows`, in order. */
  function Collect(m: Metal, col: nat, rows: seq<Row>): (cs: seq<Candidate>)
    ensures |cs| <= |rows|
    ensures forall k :: 0 <= k < |cs| ==> cs[k].price != "" && IsNumeral(cs[k].price)
  {
    var f := row => RowCandidate(m, col, row);
    var cs := KeepAll(f, rows);
    assert forall k :: 0 <= k < |cs| ==> cs[k].price != "" && IsNumeral(cs[k].price) by {
      KeepAllMembers(f, rows);
      forall k | 0 <= k < |cs| ensures cs[k].price != "" && IsNumeral(cs[k].price) {
        assert cs[k] in cs;
        var j :| 0 <= j < |rows| && f(rows[j]) == Some(cs[k]);
        assert RowCandidate(m, col, rows[j]) == Some(cs[k]);
      }
    }
    cs
  }

  /** The kept rows are exactly the rows' candidates. */
  lemma {:induction false} CollectMembers(m: Metal, col: nat, rows: seq<Row>)
    ensures forall c :: c in Collect(m, col, rows) <==>
      exists k :: 0 <= k < |rows| && RowCandidate(m, col, rows[k]) == Some(c)
  {
    var f := row => RowCandidate(m, col, row);
    KeepAllMembers(f, rows);
    assert forall k :: 0 <= k < |rows| ==> f(rows[k]) == RowCandidate(m, col, rows[k]);
  }

  /** The first kept row is the candidate of the first row that qualifies;
      none is kept exactly when no row qualifies. */
  lemma {:induction false} CollectFirst(m: Metal, col: nat, rows: seq<Row>)
    ensures Collect(m, col, rows) == [] <==> forall k :: 0 <= k < |rows| ==> RowCandidate(m, col, rows[k]).None?
    ensures Collect(m, col, rows) != [] ==>
      exists k :: 0 <= k < |rows| && RowCandidate(m, col, rows[k]) == Some(Collect(m, col, rows)[0])
                  && forall j :: 0 <= j < k ==> RowCandidate(m, col, rows[j]).None?
  {
    var f := row => RowCandidate(m, col, row);
    KeepAllFirst(f, rows);
    assert forall k :: 0 <= k < |rows| ==> f(rows[k]) == RowCandidate(m, col, rows[k]);
  }

  /** The kept rows of one table: none unless the table has headers and a
      price header among them. */
  function Candidates(m: Metal, table: Table): (cs: seq<Candidate>)
    ensures forall k :: 0 <= k < |cs| ==> cs[k].price != "" && IsNumeral(cs[k].price)
    ensures cs != [] ==> PriceColumn(m, HeadersAndRows(table).0).Some?
  {
    var (headers, rows) := HeadersAndRows(table);
    if headers == [] then []
    else match PriceColumn(m, headers)
      case None => []
      case Some(col) => Collect(m, col, rows)
  }

  /** The kept rows of every table, table by table. */
  function AllCandidates(m: Metal, tables: seq<Table>): (css: seq<seq<Candidate>>)
    ensures |css| == |tables|
    ensures forall i :: 0 <= i < |tables| ==> css[i] == Candidates(m, tables[i])
  {
    seq(|tables|, i requires 0 <= i < |tables| => Candidates(m, tables[i]))
  }

  /** The table loop as written: the running state is carried from table to
      table, and the loop stops at the first table after which a price is
      held. A price held on entry is never lost, and tables without kept
      rows change nothing. */
  function PrimaryFrom(b: Best, css: seq<seq<Candidate>>): (r: Option<string>)
    ensures b.price.Some? ==> r.Some?
    ensures (forall i :: 0 <= i < |css| ==> css[i] == []) ==> r == b.price
  {
    if css == [] then b.price
    else
      var b' := ScanFrom(b, css[0]);
      ScanKeepsPrice(b, css[0]);
      assert forall i :: 0 <= i < |css[1..]| ==> css[1..][i] == css[i + 1];
      if b'.price.Some? then b'.price else PrimaryFrom(b', css[1..])
  }

  /** The primary pass: a price exactly when some table has a kept row, and
      then one of the kept rows' prices, a numeral. */
  function Primary(m: Metal, tables: seq<Table>): (r: Option<string>)
    ensures r.Some? <==> exists i :: 0 <= i < |tables| && Candidates(m, tables[i]) != []
    ensures r.Some? ==> r.value != "" && IsNumeral(r.value)
  {
    var css := AllCandidates(m, tables);
    PrimaryIsFirstTable(css);
    match FirstNonEmpty(css)
    case None => PrimaryFrom(Start, css)
    case Some(i) =>
      ScanHoldsPrice(css[i]);
      ScanPriceAmong(css[i]);
      PrimaryFrom(Start, css)
  }

  /** The first table with a kept row. */
  function FirstNonEmpty(css: seq<seq<Candidate>>): (r: Option<nat>)
    ensures r.Some? ==> r.value < |css| && css[r.value] != []
    ensures r.Some? ==> forall k :: 0 <= k < r.value ==> css[k] == []
    ensures r.None? ==> forall k :: 0 <= k < |css| ==> css[k] == []
  {
    if css == [] then None
    else if css[0] != [] then Some(0)
    else match FirstNonEmpty(css[1..])
      case None => None
      case Some(i) => Some(i + 1)
  }

  /** Tables do not influence each other: the primary pass gives the scan
      result of the first table with a kept row, or None when no table has
      one. */
  lemma {:induction false} PrimaryIsFirstTable(css: seq<seq<Candidate>>)
    ensures FirstNonEmpty(css).None? ==> PrimaryFrom(Start, css).None?
    ensures FirstNonEmpty(css).Some? ==>
      PrimaryFrom(Start, css) == ScanFrom(Start, css[FirstNonEmpty(css).value]).price
  {
    if css != [] {
      ScanHoldsPrice(css[0]);
      if css[0] == [] {
        PrimaryIsFirstTable(css[1..]);
      }
    }
  }

  /** The primary pass in full: in the first table with kept rows, the
      earliest row carrying the latest date when some row is dated,
      otherwise the first kept row; None when no table has a kept row. */
  lemma {:induction false} PrimaryPicksLatest(m: Metal, tables: seq<Table>)
    ensures var css := AllCandidates(m, tables);
      && (FirstNonEmpty(css).None? ==> Primary(m, tables).None?)
      && (FirstNonEmpty(css).Some? ==>
            var cs := Candidates(m, tables[FirstNonEmpty(css).value]);
            && (forall j: nat :: IsLatest(cs, j) ==> Primary(m, tables) == Some(cs[j].price))
            && (NoneDated(cs, |cs|) ==> Primary(m, tables) == Some(cs[0].price)))
  {
    var css := AllCandidates(m, tables);
    PrimaryIsFirstTable(css);
    if FirstNonEmpty(css).Some? {
      var cs := css[FirstNonEmpty(css).value];
      forall j: nat | IsLatest(cs, j) ensures PrimaryFrom(Start, css) == Some(cs[j].price) {
        ScanPicksLatest(cs, j);
      }
      if NoneDated(cs, |cs|) {
        ScanUndated(cs);
      }
    }
  }

  // ---------------------------------------------------------------------
  // Fallback pass

  /** A match of `(\d+)\s*grams` starting at position i: the greedy digit
      run, optional white space, then "grams". Giving digits back cannot
      help, since a digit is neither white space nor 'g'. */
  function GramsAt(t: string, i: nat): (r: Option<string>)
    requires i <= |t|
    ensures r.Some? ==> |r.value| > 0 && AllDigits(r.value)
  {
    if i < |t| && IsDigit(t[i]) then
      var e := DigitsEnd(t, i);
      var w := SpaceEnd(t, e);
      assert AllDigits(t[i..e]) by {
        forall k | 0 <= k < e - i ensures IsDigit(t[i..e][k]) {
          assert t[i..e][k] == t[i + k];
        }
      }
      if StartsWith(t[w..], "grams") then Some(t[i..e]) else None
    else None
  }

  /** `re.search`: the digits of the leftmost match. */
  function FirstGrams(t: string, i: nat): (r: Option<string>)
    requires i <= |t|
    ensures r.Some? ==> |r.value| > 0 && AllDigits(r.value)
    decreases |t| - i
  {
    if GramsAt(t, i).Some? then GramsAt(t, i)
    else if i == |t| then None
    else FirstGrams(t, i + 1)
  }

  /** The gram count a city table's headers name, 8 when they name none;
      `int()` raises its ValueError for a count of more than `MaxStrDigits`
      digits. */
  function Grams(headerText: string): Result<nat, string> {
    match FirstGrams(headerText, 0)
    case None => Ok(8)
    case Some(g) => if |g| > MaxStrDigits then Err(IntLimitError(|g|)) else Ok(DigitsValue(g))
  }

  /** Headers without a digit name no gram count: the default 8 applies. */
  lemma {:induction false} GramsDefault(t: string)
    requires forall k :: 0 <= k < |t| ==> !IsDigit(t[k])
    ensures Grams(t) == Ok(8)
  {
    GramsSkip(t, 0, |t|);
  }

  /** Positions holding no digit start no match. */
  lemma {:induction false} GramsSkip(t: string, i: nat, n: nat)
    requires i <= n <= |t|
    requires forall k :: i <= k < n ==> !IsDigit(t[k])
    ensures FirstGrams(t, i) == FirstGrams(t, n)
    decreases n - i
  {
    if i < n {
      assert GramsAt(t, i).None?;
      GramsSkip(t, i + 1, n);
    }
  }

  /** Digit-free text, a number, optional white space and "grams": the
      number is the gram count, whatever follows, unless it has more digits
      than `int()` reads. */
  lemma {:induction false} GramsOfText(p: string, g: string, sp: string, rest: string)
    requires forall k :: 0 <= k < |p| ==> !IsDigit(p[k])
    requires |g| > 0 && AllDigits(g)
    requires forall k :: 0 <= k < |sp| ==> IsSpace(sp[k])
    ensures |g| <= MaxStrDigits ==> Grams(p + (g + sp + "grams") + rest) == Ok(DigitsValue(g))
    ensures |g| > MaxStrDigits ==> Grams(p + (g + sp + "grams") + rest) == Err(IntLimitError(|g|))
  {
    var t := p + (g + sp + "grams") + rest;
    GramsTextIndex(p, g, sp, rest, t);
    GramsFound(t, |p|, |p| + |g|, |p| + |g| + |sp|);
  }

  /** No digit before `n`, digits over [n, e), white space over [e, w) and
      "grams" at `w`: the gram count is the number over [n, e). */
  lemma {:induction false} GramsFound(t: string, n: nat, e: nat, w: nat)
    requires n < e <= w && w + 5 <= |t|
    requires forall k :: 0 <= k < n ==> !IsDigit(t[k])
    requires forall k :: n <= k < e ==> IsDigit(t[k])
    requires forall k :: e <= k < w ==> IsSpace(t[k])
    requires !IsDigit(t[e]) && !IsSpace(t[w])
    requires t[w..w + 5] == "grams"
    ensures FirstGrams(t, 0) == Some(t[n..e])
  {
    GramsSkip(t, 0, n);
    DigitsEndFrom(t, n, e);
    SpaceEndAt(t, e, w);
    assert t[w..][..5] == "grams";
    assert GramsAt(t, n) == Some(t[n..e]);
  }

  lemma {:induction false} GramsTextIndex(p: string, g: string, sp: string, rest: string, t: string)
    requires t == p + (g + sp + "grams") + rest
    requires forall k :: 0 <= k < |p| ==> !IsDigit(p[k])
    requires |g| > 0 && AllDigits(g)
    requires forall k :: 0 <= k < |sp| ==> IsSpace(sp[k])
    ensures |p| + |g| + |sp| + 5 <= |t|
    ensures forall k :: 0 <= k < |p| ==> !IsDigit(t[k])
    ensures forall k :: |p| <= k < |p| + |g| ==> IsDigit(t[k])
    ensures forall k :: |p| + |g| <= k < |p| + |g| + |sp| ==> IsSpace(t[k])
    ensures t[|p|..|p| + |g|] == g
    ensures t[|p| + |g| + |sp|..|p| + |g| + |sp| + 5] == "grams"
    ensures !IsDigit(t[|p| + |g|]) && !IsSpace(t[|p| + |g| + |sp|])
  {
    var f := g + sp + "grams";
    assert forall k :: 0 <= k < |f| ==> t[|p| + k] == f[k];
    assert forall k :: 0 <= k < |sp| ==> f[|g| + k] == sp[k];
    assert forall k :: 0 <= k < 5 ==> f[|g| + |sp| + k] == "grams"[k];
    assert t[|p| + |g| + |sp|..|p| + |g| + |sp| + 5] == f[|g| + |sp|..];
  }

  /** `str(round(float(p) / grams, 2))`. The `except` keeps `p` when the
      division raises: ZeroDivisionError for no grams, OverflowError for a
      gram count too large for a float. */
  function PerGram(p: string, grams: nat): (r: string)
    requires IsNumeral(p)
    ensures r != "" && IsNumeral(r)
    ensures (grams == 0 || grams >= FloatIntLimit) ==> r == p
    ensures 0 < grams < FloatIntLimit ==>
      NumeralValue(r).units * 100 == DividedCents(NumeralValue(p), grams) * Pow10(NumeralValue(r).scale)
  {
    if grams == 0 || grams >= FloatIntLimit then p else FormatCents(DividedCents(NumeralValue(p), grams))
  }

  /** `str(round(float(p) * 100, 2))`: a 10-gram price scaled to 1 kg. */
  function PerKg(p: string): (r: string)
    requires IsNumeral(p)
    ensures r != "" && IsNumeral(r)
    ensures NumeralValue(r).units * 100 == ScaledCents(NumeralValue(p), 100) * Pow10(NumeralValue(r).scale)
  {
    FormatCents(ScaledCents(NumeralValue(p), 100))
  }

  /** The cell a city-table row holds its price in: the third for gold,
      the second for silver. */
  function FallbackColumn(m: Metal): nat {
    match m case Gold => 2 case Silver => 1
  }

  /** The price a city-table row offers: the parsed price cell, when the row
      has that cell and the parsed text is not empty. */
  function FallbackCell(m: Metal, row: Row): (r: Option<string>)
    ensures r.Some? ==> r.value != "" && IsNumeral(r.value)
    ensures r.Some? <==>
      FallbackColumn(m) < |DataCells(row)| && ParsePrice(DataCells(row)[FallbackColumn(m)]) != ""
    ensures r.Some? ==> r.value == ParsePrice(DataCells(row)[FallbackColumn(m)])
  {
    var cells := DataCells(row);
    var at := FallbackColumn(m);
    if |cells| <= at then None
    else
      var p := ParsePrice(cells[at]);
      if p == "" then None else Some(p)
  }

  /** The price of the first row that offers one. */
  function FirstFallbackCell(m: Metal, rows: seq<Row>): (r: Option<string>)
    ensures r.Some? <==> exists k :: 0 <= k < |rows| && FallbackCell(m, rows[k]).Some?
    ensures r.Some? ==>
      exists k :: 0 <= k < |rows| && FallbackCell(m, rows[k]) == r
                  && forall j :: 0 <= j < k ==> FallbackCell(m, rows[j]).None?
    ensures r.Some? ==> r.value != "" && IsNumeral(r.value)
  {
    var f := row => FallbackCell(m, row);
    assert forall k :: 0 <= k < |rows| ==> f(rows[k]) == FallbackCell(m, rows[k]);
    FirstSome(f, rows)
  }

  /** The header test of a city table: "24k gold rate" in the headers joined
      with spaces for gold; a "price per 10 grams" header for silver. */
  predicate CityTableHeaders(m: Metal, headers: seq<string>) {
    match m
    case Gold => Contains(Join(headers, " "), "24k gold rate")
    case Silver => exists k :: 0 <= k < |headers| && Contains(headers[k], "price per 10 grams")
  }

  /** A city table's price from its first priced row: gold divided by the
      gram count its headers name, silver scaled from 10 g to 1 kg. */
  function CityPrice(m: Metal, headers: seq<string>, p: string): (r: string)
    requires IsNumeral(p)
    requires m == Gold ==> Grams(Join(headers, " ")).Ok?
    ensures r != "" && IsNumeral(r)
  {
    match m
    case Gold => PerGram(p, Grams(Join(headers, " ")).value)
    case Silver => PerKg(p)
  }

  /** One city table's outcome. A table without headers or failing the
      city-table test gives nothing. For gold the gram count is read next,
      and its ValueError ends the extractor. Then the first row that offers
      a price gives it, scaled; a table with no such row gives nothing. */
  function FallbackTable(m: Metal, table: Table): (r: Result<Option<string>, string>)
    ensures r.Ok? && r.value.Some? ==> r.value.value != "" && IsNumeral(r.value.value)
    ensures var (headers, rows) := HeadersAndRows(table);
      var city := headers != [] && CityTableHeaders(m, headers);
      var grams := Grams(Join(headers, " "));
      && (r.Err? <==> city && m == Gold && grams.Err?)
      && (r.Err? ==> r.error == grams.error)
      && (r.Ok? && r.value.Some? <==> city && (m == Gold ==> grams.Ok?) && FirstFallbackCell(m, rows).Some?)
      && (r.Ok? && r.value.Some? ==> r.value.value == CityPrice(m, headers, FirstFallbackCell(m, rows).value))
  {
    var (headers, rows) := HeadersAndRows(table);
    if headers == [] || !CityTableHeaders(m, headers) then Ok(None)
    else if m == Gold && Grams(Join(headers, " ")).Err? then Err(Grams(Join(headers, " ")).error)
    else match FirstFallbackCell(m, rows)
      case None => Ok(None)
      case Some(p) => Ok(Some(CityPrice(m, headers, p)))
  }

  /** The outcome of the first city table that gives a price or raises;
      nothing when every table gives nothing. */
  function Fallback(m: Metal, tables: seq<Table>): (r: Result<Option<string>, string>)
    ensures r != Ok(None) <==> exists k :: 0 <= k < |tables| && FallbackTable(m, tables[k]) != Ok(None)
    ensures r != Ok(None) ==>
      exists k :: 0 <= k < |tables| && FallbackTable(m, tables[k]) == r
                  && forall j :: 0 <= j < k ==> FallbackTable(m, tables[j]) == Ok(None)
    ensures r.Ok? && r.value.Some? ==> r.value.value != "" && IsNumeral(r.value.value)
  {
    var f := t => FallbackTable(m, t);
    var r := FirstOther(f, Ok(None), tables);
    assert forall k :: 0 <= k < |tables| ==> f(tables[k]) == FallbackTable(m, tables[k]);
    assert r.Ok? && r.value.Some? ==> r.value.value != "" && IsNumeral(r.value.value) by {
      if r.Ok? && r.value.Some? {
        var k :| 0 <= k < |tables| && f(tables[k]) == r;
        assert FallbackTable(m, tables[k]) == r;
      }
    }
    r
  }

  /** The fallback pass stated table by table and row by row: when the
      tables before `k` give nothing and table `k` is a city table whose
      gram count (for gold) is readable, whose rows before `j` offer no
      price and whose row `j` offers `p`, the result is `p` scaled: divided
      by the headers' gram count (8 when they name none) for gold, times one
      hundred for silver. */
  lemma {:induction false} FallbackPicksFirst(m: Metal, tables: seq<Table>, k: nat, j: nat, p: string)
    requires k < |tables|
    requires forall i :: 0 <= i < k ==> FallbackTable(m, tables[i]) == Ok(None)
    requires var (headers, rows) := HeadersAndRows(tables[k]);
      && headers != [] && CityTableHeaders(m, headers)
      && (m == Gold ==> Grams(Join(headers, " ")).Ok?)
      && j < |rows| && FallbackCell(m, rows[j]) == Some(p)
      && forall i :: 0 <= i < j ==> FallbackCell(m, rows[i]).None?
    ensures IsNumeral(p)
    ensures var headers := HeadersAndRows(tables[k]).0;
      Fallback(m, tables) == Ok(Some(match m
        case Gold => PerGram(p, Grams(Join(headers, " ")).value)
        case Silver => PerKg(p)))
  {
    var (headers, rows) := HeadersAndRows(tables[k]);
    FirstCellAt(m, rows, j);
    FallbackAt(m, tables, k);
  }

  /** A gold city table whose headers name a gram count `int()` refuses
      ends the fallback with that ValueError, whatever its rows hold, when
      no earlier table gave a price. */
  lemma {:induction false} FallbackRaises(tables: seq<Table>, k: nat)
    requires k < |tables|
    requires forall i :: 0 <= i < k ==> FallbackTable(Gold, tables[i]) == Ok(None)
    requires var headers := HeadersAndRows(tables[k]).0;
      && headers != [] && CityTableHeaders(Gold, headers)
      && Grams(Join(headers, " ")).Err?
    ensures var headers := HeadersAndRows(tables[k]).0;
      Fallback(Gold, tables) == Err(Grams(Join(headers, " ")).error)
  {
    FallbackAt(Gold, tables, k);
  }

  lemma {:induction false} FirstCellAt(m: Metal, rows: seq<Row>, j: nat)
    requires j < |rows| && FallbackCell(m, rows[j]).Some?
    requires forall i :: 0 <= i < j ==> FallbackCell(m, rows[i]).None?
    ensures FirstFallbackCell(m, rows) == FallbackCell(m, rows[j])
  {
    var f := row => FallbackCell(m, row);
    assert forall i :: 0 <= i < |rows| ==> f(rows[i]) == FallbackCell(m, rows[i]);
    FirstSomeAt(f, rows, j);
  }

  lemma {:induction false} FallbackAt(m: Metal, tables: seq<Table>, k: nat)
    requires k < |tables| && FallbackTable(m, tables[k]) != Ok(None)
    requires forall i :: 0 <= i < k ==> FallbackTable(m, tables[i]) == Ok(None)
    ensures Fallback(m, tables) == FallbackTable(m, tables[k])
  {
    var f := t => FallbackTable(m, t);
    assert forall i :: 0 <= i < |tables| ==> f(tables[i]) == FallbackTable(m, tables[i]);
    FirstOtherAt(f, Ok(None), tables, k);
  }

  // ---------------------------------------------------------------------
  // The extractors

  /** `fetch_gold_24k_bankbazaar` and `fetch_silver_1kg_bankbazaar`: the
      primary price when there is one, otherwise the fallback price,
      otherwise the not-found failure; the exception text when the request
      fails. */
  function Extract(m: Metal, f: Fetch<seq<Table>>): (q: Quote)
    ensures WellFormed(q) && q.source == BankBazaar && q.metal == m && q.city.None?
    ensures q.error.None? ==> q.price != "" && IsNumeral(q.price)
    ensures RaiseForStatus(Url(m), f).Err? ==> q.error == Some(RaiseForStatus(Url(m), f).error)
    ensures RaiseForStatus(Url(m), f).Ok? ==>
      var tables := RaiseForStatus(Url(m), f).value;
      && (Primary(m, tables).Some? ==> q.error.None? && Some(q.price) == Primary(m, tables))
      && (Primary(m, tables).None? && Fallback(m, tables).Err? ==>
            q.error == Some(Fallback(m, tables).error))
      && (Primary(m, tables).None? && Fallback(m, tables).Ok? && Fallback(m, tables).value.Some? ==>
            q.error.None? && Some(q.price) == Fallback(m, tables).value)
      && (Primary(m, tables).None? && Fallback(m, tables) == Ok(None) ==> q.error == Some(NotFound(m)))
  {
    match RaiseForStatus(Url(m), f)
    case Err(e) => Failed(BankBazaar, m, e)
    case Ok(tables) =>
      match Primary(m, tables)
      case Some(p) => Found(BankBazaar, m, p)
      case None =>
        match Fallback(m, tables)
        case Err(e) => Failed(BankBazaar, m, e)
        case Ok(Some(p)) => Found(BankBazaar, m, p)
        case Ok(None) => Failed(BankBazaar, m, NotFound(m))
  }

  function GoldBankBazaar(f: Fetch<seq<Table>>): (q: Quote)
    ensures WellFormed(q) && q.source == BankBazaar && q.metal == Gold
  {
    Extract(Gold, f)
  }

  function SilverBankBazaar(f: Fetch<seq<Table>>): (q: Quote)
    ensures WellFormed(q) && q.source == BankBazaar && q.metal == Silver
  {
    Extract(Silver, f)
  }
}
