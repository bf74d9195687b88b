/** The "latest dated row" scan of the BankBazaar primary pass: rows are
    visited in order with a running best date and best price. A dated row
    replaces the best when no date is held yet or its date is strictly
    later; an undated row is kept only while no price is held. */
module LatestScan {
  import opened Wrappers
  import opened Dates

  /** A qualifying row: the date read from its label cell, if any, and its
      non-empty parsed price. */
  datatype Candidate = Candidate(date: Option<Date>, price: string)

  /** `best_date` and `best_price`. */
  datatype Best = Best(date: Option<Date>, price: Option<string>)

  const Start := Best(None, None)

  /** One loop iteration. */
  function Step(b: Best, c: Candidate): Best {
    var d := c.date;
    if d.Some? && (b.date.None? || Before(b.date.value, d.value)) then Best(d, Some(c.price))
    else if b.price.None? then Best(b.date, Some(c.price))
    else b
  }

  /** The loop over `cs` from the state `b`. */
  function ScanFrom(b: Best, cs: seq<Candidate>): Best {
    if cs == [] then b else Step(ScanFrom(b, cs[..|cs| - 1]), cs[|cs| - 1])
  }

  /** `cs[j]` is the earliest of the rows carrying the latest date among
      `cs[..n]`. */
  predicate IsLatestIn(cs: seq<Candidate>, n: nat, j: nat)
    requires n <= |cs|
  {
    j < n && cs[j].date.Some?
    && (forall k :: 0 <= k < n && cs[k].date.Some? ==> !Before(cs[j].date.value, cs[k].date.value))
    && (forall k :: 0 <= k < j && cs[k].date.Some? ==> Before(cs[k].date.value, cs[j].date.value))
  }

  predicate IsLatest(cs: seq<Candidate>, j: nat) {
    IsLatestIn(cs, |cs|, j)
  }

  predicate NoneDated(cs: seq<Candidate>, n: nat)
    requires n <= |cs|
  {
    forall k :: 0 <= k < n ==> cs[k].date.None?
  }

  /** What the state holds after the first `n` rows. */
  ghost predicate Invariant(cs: seq<Candidate>, n: nat, b: Best)
    requires n <= |cs|
  {
    (NoneDated(cs, n) ==> b.date.None? && b.price == (if n == 0 then None else Some(cs[0].price)))
    && (!NoneDated(cs, n) ==>
          exists j: nat :: IsLatestIn(cs, n, j) && b.date == cs[j].date && b.price == Some(cs[j].price))
  }

  lemma {:induction false} ScanInvariant(cs: seq<Candidate>, n: nat)
    requires n <= |cs|
    ensures Invariant(cs, n, ScanFrom(Start, cs[..n]))
  {
    if n > 0 {
      ScanInvariant(cs, n - 1);
      assert cs[..n][..n - 1] == cs[..n - 1];
      assert cs[..n][n - 1] == cs[n - 1];
      StepKeepsInvariant(cs, n - 1, ScanFrom(Start, cs[..n - 1]));
    }
  }

  lemma {:induction false} StepKeepsInvariant(cs: seq<Candidate>, n: nat, b: Best)
    requires n < |cs|
    requires Invariant(cs, n, b)
    ensures Invariant(cs, n + 1, Step(b, cs[n]))
  {
    var c := cs[n];
    var d := c.date;
    var b' := Step(b, c);
    if NoneDated(cs, n) {
      if d.Some? {
        assert IsLatestIn(cs, n + 1, n);
      } else {
        assert NoneDated(cs, n + 1);
      }
    } else {
      var j: nat :| IsLatestIn(cs, n, j) && b.date == cs[j].date && b.price == Some(cs[j].price);
      assert !NoneDated(cs, n + 1);
      if d.Some? && Before(b.date.value, d.value) {
        LaterRowTakesOver(cs, n, j);
      } else {
        assert b' == b;
        LatestStays(cs, n, j);
      }
    }
  }

  lemma {:induction false} LatestStays(cs: seq<Candidate>, n: nat, j: nat)
    requires n < |cs| && IsLatestIn(cs, n, j)
    requires cs[n].date.Some? ==> !Before(cs[j].date.value, cs[n].date.value)
    ensures IsLatestIn(cs, n + 1, j)
  {
    forall k | 0 <= k < n + 1 && cs[k].date.Some?
      ensures !Before(cs[j].date.value, cs[k].date.value)
    {
      if k < n {
        assert IsLatestIn(cs, n, j);
      }
    }
  }

  lemma {:induction false} LaterRowTakesOver(cs: seq<Candidate>, n: nat, j: nat)
    requires n < |cs| && IsLatestIn(cs, n, j)
    requires cs[n].date.Some? && Before(cs[j].date.value, cs[n].date.value)
    ensures IsLatestIn(cs, n + 1, n)
  {
    var d, dj := cs[n].date.value, cs[j].date.value;
    forall k | 0 <= k < n && cs[k].date.Some?
      ensures Before(cs[k].date.value, d)
    {
      assert !Before(dj, cs[k].date.value);
    }
  }

  /** When some row carries a date, the scan ends with the price of the
      earliest row carrying the latest date. */
  lemma {:induction false} ScanPicksLatest(cs: seq<Candidate>, j: nat)
    requires IsLatest(cs, j)
    ensures ScanFrom(Start, cs).price == Some(cs[j].price)
  {
    ScanInvariant(cs, |cs|);
    assert cs[..|cs|] == cs;
    assert !NoneDated(cs, |cs|);
    var i: nat :| IsLatestIn(cs, |cs|, i) && ScanFrom(Start, cs).price == Some(cs[i].price);
    LatestUnique(cs, i, j);
  }

  /** When no row carries a date, the scan ends with the first row's price. */
  lemma {:induction false} ScanUndated(cs: seq<Candidate>)
    requires cs != [] && NoneDated(cs, |cs|)
    ensures ScanFrom(Start, cs).price == Some(cs[0].price)
  {
    ScanInvariant(cs, |cs|);
    assert cs[..|cs|] == cs;
  }

  /** An empty table leaves the state as it was; a non-empty one always
      ends holding a price. */
  lemma {:induction false} ScanHoldsPrice(cs: seq<Candidate>)
    ensures ScanFrom(Start, cs).price.Some? <==> cs != []
    ensures cs == [] ==> ScanFrom(Start, cs) == Start
  {
    ScanInvariant(cs, |cs|);
    assert cs[..|cs|] == cs;
  }

  /** A price once held is never dropped by later rows. */
  lemma {:induction false} ScanKeepsPrice(b: Best, cs: seq<Candidate>)
    ensures b.price.Some? ==> ScanFrom(b, cs).price.Some?
  {
    if cs != [] {
      ScanKeepsPrice(b, cs[..|cs| - 1]);
    }
  }

  /** The scan ends with the price of one of the rows, when it holds one. */
  lemma {:induction false} ScanPriceAmong(cs: seq<Candidate>)
    ensures ScanFrom(Start, cs).price.Some? ==>
      exists k :: 0 <= k < |cs| && ScanFrom(Start, cs).price.value == cs[k].price
  {
    ScanHoldsPrice(cs);
    if cs != [] {
      if NoneDated(cs, |cs|) {
        ScanUndated(cs);
      } else {
        LatestExists(cs);
        var j: nat :| IsLatest(cs, j);
        ScanPicksLatest(cs, j);
      }
    }
  }

  /** The earliest latest row is unique. */
  lemma {:induction false} LatestUnique(cs: seq<Candidate>, i: nat, j: nat)
    requires IsLatest(cs, i) && IsLatest(cs, j)
    ensures i == j
  {
  }

  /** Some row carries a date exactly when an earliest latest row exists. */
  lemma {:induction false} LatestExists(cs: seq<Candidate>)
    ensures !NoneDated(cs, |cs|) <==> exists j :: IsLatest(cs, j)
  {
    if !NoneDated(cs, |cs|) {
      ScanInvariant(cs, |cs|);
      assert cs[..|cs|] == cs;
      var j: nat :| IsLatestIn(cs, |cs|, j) && ScanFrom(Start, cs[..|cs|]).date == cs[j].date;
      assert IsLatest(cs, j);
    }
  }
}
