/** The `metal_rate` handler: the four extractor records are reconciled into
    one gold and one silver rate, BankBazaar first and AngelOne second, and
    the chosen price text is read as a number and scaled: gold per gram to
    ten grams, silver as it is per kilogram. Prices are exact hundredths. */
module Reconcile {
  import opened Wrappers
  import opened Strings
  import opened Decimal
  import opened PriceText
  import opened Quotes
  import opened Tables
  import opened AngelOneSource
  import opened BankBazaarSource

  /** A record `get_best_rate` accepts: its price text is neither empty nor
      the failure marker "0". */
  predicate Usable(q: Quote) {
    q.price != "" && q.price != "0"
  }

  /** `get_best_rate`: the first usable record in priority order. */
  function BestRate(qs: seq<Quote>): (r: Option<Quote>)
    ensures r.Some? <==> exists k :: 0 <= k < |qs| && Usable(qs[k])
    ensures r.Some? ==>
      exists k :: 0 <= k < |qs| && qs[k] == r.value && Usable(qs[k])
                  && forall j :: 0 <= j < k ==> !Usable(qs[j])
    ensures r.Some? && (forall k :: 0 <= k < |qs| ==> WellFormed(qs[k])) ==> r.value.error.None?
  {
    if qs == [] then None
    else if Usable(qs[0]) then Some(qs[0])
    else
      var r := BestRate(qs[1..]);
      assert forall k :: 0 < k < |qs| ==> qs[k] == qs[1..][k - 1];
      assert r.Some? ==> r.value in qs[1..];
      r
  }

  /** The chosen record's price as a whole number of hundredths once scaled
      by `factor`: None when there is no record or `to_float_or_none` finds
      no number in its price; otherwise `round(value * factor, 2)`. */
  function Convert(best: Option<Quote>, factor: nat): (r: Option<nat>)
    ensures r.Some? <==> best.Some? && ToNumber(best.value.price).Some?
    ensures r.Some? ==>
      var v := ToNumber(best.value.price).value;
      && 2 * (v.units * factor * 100 - r.value * Pow10(v.scale)) <= Pow10(v.scale)
      && 2 * (r.value * Pow10(v.scale) - v.units * factor * 100) <= Pow10(v.scale)
  {
    if best.None? then None
    else
      match ToNumber(best.value.price)
      case None => None
      case Some(v) => Some(ScaledCents(v, factor))
  }

  /** One entry of the `rates` list: the metal, the quantity in grams the
      price is for, and the price in hundredths (None for JSON null). */
  datatype Rate = Rate(metal: string, unitGm: nat, price: Option<nat>)

  /** The response envelope: success flag, message, the rates and the HTTP
      status. The payload timestamp is not modelled. */
  datatype Response = Response(success: bool, message: string, rates: seq<Rate>, status: nat)

  /** The rates list shape shared by both outcomes: gold per ten grams
      first, silver per thousand grams second. */
  predicate RatesShape(rates: seq<Rate>) {
    |rates| == 2
    && rates[0].metal == "gold" && rates[0].unitGm == 10
    && rates[1].metal == "silver" && rates[1].unitGm == 1000
  }

  /** The success path of `metal_rate`, given the four extractor records. */
  function MetalRate(goldAO: Quote, silverAO: Quote, goldBB: Quote, silverBB: Quote): (r: Response)
    ensures r.success && r.status == 200 && RatesShape(r.rates)
    ensures Usable(goldBB) ==> r.rates[0].price == Convert(Some(goldBB), 10)
    ensures !Usable(goldBB) && Usable(goldAO) ==> r.rates[0].price == Convert(Some(goldAO), 10)
    ensures !Usable(goldBB) && !Usable(goldAO) ==> r.rates[0].price.None?
    ensures Usable(silverBB) ==> r.rates[1].price == Convert(Some(silverBB), 1)
    ensures !Usable(silverBB) && Usable(silverAO) ==> r.rates[1].price == Convert(Some(silverAO), 1)
    ensures !Usable(silverBB) && !Usable(silverAO) ==> r.rates[1].price.None?
  {
    var gold := BestRate([goldBB, goldAO]);
    var silver := BestRate([silverBB, silverAO]);
    BestOfTwo(goldBB, goldAO);
    BestOfTwo(silverBB, silverAO);
    Response(true, "", [Rate("gold", 10, Convert(gold, 10)), Rate("silver", 1000, Convert(silver, 1))], 200)
  }

  /** With two sources, the first one wins whenever it is usable. */
  lemma {:induction false} BestOfTwo(a: Quote, b: Quote)
    ensures BestRate([a, b]) == if Usable(a) then Some(a) else if Usable(b) then Some(b) else None
  {
    assert [a, b][1..] == [b];
    assert [b][1..] == [];
  }

  /** The `except` branch: failure, the exception text, both prices null and
      status 500. */
  function ErrorResponse(message: string): (r: Response)
    ensures !r.success && r.status == 500 && r.message == message && RatesShape(r.rates)
    ensures forall k :: 0 <= k < |r.rates| ==> r.rates[k].price.None?
  {
    Response(false, message, [Rate("gold", 10, None), Rate("silver", 1000, None)], 500)
  }

  /** The whole request: the four extractors run on their pages and their
      records are reconciled. A BankBazaar page that fails to load leaves
      the rate to AngelOne, and when both pages for a metal fail its price
      is null; the response itself is still a success. */
  function MetalRatePages(
    goldAO: Fetch<seq<GoldRow>>, silverAO: Fetch<seq<TextNode>>,
    goldBB: Fetch<seq<Table>>, silverBB: Fetch<seq<Table>>): (r: Response)
    ensures r.success && r.status == 200 && RatesShape(r.rates)
    ensures RaiseForStatus(Url(Gold), goldBB).Err? ==>
      var q := GoldAngelOne(goldAO);
      r.rates[0].price == if Usable(q) then Convert(Some(q), 10) else None
    ensures RaiseForStatus(Url(Silver), silverBB).Err? ==>
      var q := SilverAngelOne(silverAO);
      r.rates[1].price == if Usable(q) then Convert(Some(q), 1) else None
    ensures RaiseForStatus(Url(Gold), goldBB).Err? && RaiseForStatus(GoldUrl, goldAO).Err? ==>
      r.rates[0].price.None?
    ensures RaiseForStatus(Url(Silver), silverBB).Err? && RaiseForStatus(SilverUrl, silverAO).Err? ==>
      r.rates[1].price.None?
  {
    var gAO, sAO := GoldAngelOne(goldAO), SilverAngelOne(silverAO);
    var gBB, sBB := GoldBankBazaar(goldBB), SilverBankBazaar(silverBB);
    assert RaiseForStatus(Url(Gold), goldBB).Err? ==> !Usable(gBB);
    assert RaiseForStatus(Url(Silver), silverBB).Err? ==> !Usable(sBB);
    assert RaiseForStatus(GoldUrl, goldAO).Err? ==> !Usable(gAO);
    assert RaiseForStatus(SilverUrl, silverAO).Err? ==> !Usable(sAO);
    MetalRate(gAO, sAO, gBB, sBB)
  }

  /** An extractor failure never supplies a price: with a failed BankBazaar
      record the AngelOne record decides, and with both failed the price is
      null. */
  lemma {:induction false} FailuresNeverPriced(goldAO: Quote, goldBB: Quote, silverAO: Quote, silverBB: Quote)
    requires WellFormed(goldBB) && goldBB.error.Some?
    ensures MetalRate(goldAO, silverAO, goldBB, silverBB).rates[0].price
            == (if Usable(goldAO) then Convert(Some(goldAO), 10) else None)
    ensures goldAO.error.Some? && WellFormed(goldAO) ==>
            MetalRate(goldAO, silverAO, goldBB, silverBB).rates[0].price.None?
  {
    assert !Usable(goldBB);
  }

  /** A successful BankBazaar gold record decides the gold rate: its price,
      a numeral other than "0" that starts with a digit, is read back exactly and the ten
      gram price is its value times ten, rounded to hundredths. */
  lemma {:induction false} BankBazaarGoldDecides(
    goldAO: Fetch<seq<GoldRow>>, silverAO: Fetch<seq<TextNode>>,
    goldBB: Fetch<seq<Table>>, silverBB: Fetch<seq<Table>>)
    requires GoldBankBazaar(goldBB).error.None? && GoldBankBazaar(goldBB).price != "0"
    requires IsDigit(GoldBankBazaar(goldBB).price[0])
    ensures var p := GoldBankBazaar(goldBB).price;
      MetalRatePages(goldAO, silverAO, goldBB, silverBB).rates[0].price
        == Some(ScaledCents(NumeralValue(p), 10))
  {
    var q := GoldBankBazaar(goldBB);
    ToNumberOfNumeral(q.price);
  }

  /** The silver counterpart: a successful BankBazaar silver record gives the
      kilogram rate, its value rounded to hundredths. */
  lemma {:induction false} BankBazaarSilverDecides(
    goldAO: Fetch<seq<GoldRow>>, silverAO: Fetch<seq<TextNode>>,
    goldBB: Fetch<seq<Table>>, silverBB: Fetch<seq<Table>>)
    requires SilverBankBazaar(silverBB).error.None? && SilverBankBazaar(silverBB).price != "0"
    requires IsDigit(SilverBankBazaar(silverBB).price[0])
    ensures var p := SilverBankBazaar(silverBB).price;
      MetalRatePages(goldAO, silverAO, goldBB, silverBB).rates[1].price
        == Some(ScaledCents(NumeralValue(p), 1))
  {
    var q := SilverBankBazaar(silverBB);
    ToNumberOfNumeral(q.price);
  }

  /** A price of "0.00" is not the failure marker, so it is chosen and gives
      a rate of zero rather than falling through to the next source. */
  lemma {:induction false} ZeroWithDecimalsIsChosen(goldAO: Quote, silverAO: Quote, silverBB: Quote)
    ensures var zero := Found(BankBazaar, Gold, "0.00");
      MetalRate(goldAO, silverAO, zero, silverBB).rates[0].price == Some(0)
  {
    var zero := Found(BankBazaar, Gold, "0.00");
    assert Usable(zero);
    assert Convert(Some(zero), 10) == Some(0) by {
      ZeroNumeral();
      ToNumberOfNumeral("0.00");
      assert ScaledCents(Dec(0, 2), 10) == 0;
    }
  }

  lemma {:induction false} ZeroNumeral()
    ensures IsNumeral("0.00") && IsDigit("0.00"[0])
    ensures NumeralValue("0.00") == Dec(0, 2)
  {
    assert DigitsValue("0") == 0;
    assert DigitsValue("00") == 0 by {
      assert "00"[..1] == "0";
    }
    NumeralOfParts("0", "00");
    assert "0" + "." + "00" == "0.00";
  }
}
