/** The GoodReturns extractors: four city pages tried in a fixed order, the
    first table of each page scanned for the wanted row. The request is a
    parameter `fetch` from URL to outcome. */
module GoodReturnsSource {
  import opened Wrappers
  import opened Strings
  import opened Tables
  import opened PriceText
  import opened Quotes

  /** The cities in the order they are tried. */
  const Cities: seq<string> := ["mumbai", "delhi", "bangalore", "chennai"]

  function BaseUrl(m: Metal): string {
    match m
    case Gold => "https://www.goodreturns.in/gold-rates/"
    case Silver => "https://www.goodreturns.in/silver-rates/"
  }

  function CityUrl(m: Metal, city: string): string {
    BaseUrl(m) + city + ".html"
  }

  /** The row each metal looks for: two or more `td` cells, with "24" in the
      upper-cased purity cell for gold, "1 kg" or "1kg" in the lower-cased
      quantity cell for silver. */
  predicate RowMatches(m: Metal, row: Row) {
    var cells := DataCells(row);
    |cells| >= 2
    && match m
       case Gold => Contains(Upper(cells[0]), "24")
       case Silver => Contains(Lower(cells[0]), "1 kg") || Contains(Lower(cells[0]), "1kg")
  }

  function FirstMatchingRow(m: Metal, rows: seq<Row>): (r: Option<nat>)
    ensures r.Some? ==> r.value < |rows| && RowMatches(m, rows[r.value])
    ensures r.Some? ==> forall k :: 0 <= k < r.value ==> !RowMatches(m, rows[k])
    ensures r.None? ==> forall k :: 0 <= k < |rows| ==> !RowMatches(m, rows[k])
  {
    if rows == [] then None
    else if RowMatches(m, rows[0]) then Some(0)
    else match FirstMatchingRow(m, rows[1..])
      case None => None
      case Some(i) => Some(i + 1)
  }

  /** One city: a page with status 200 whose first table has a matching row
      gives that row's parsed price (possibly ""); a failed request, another
      status, a page without a table or without such a row gives None. */
  function CityPrice(m: Metal, f: Fetch<seq<Table>>): (r: Option<string>)
    ensures r.Some? <==>
      f.Page? && f.status == 200 && f.doc != [] && FirstMatchingRow(m, f.doc[0]).Some?
    ensures r.Some? ==>
      var rows := f.doc[0];
      r.value == ParsePrice(DataCells(rows[FirstMatchingRow(m, rows).value])[1])
  {
    match f
    case Raised(_) => None
    case Page(status, _, doc) =>
      if status != 200 || doc == [] then None
      else
        match FirstMatchingRow(m, doc[0])
        case None => None
        case Some(i) => Some(ParsePrice(DataCells(doc[0][i])[1]))
  }

  /** The city loop over `cities`: the first city with a price wins, named
      with a capital letter; when none has one the record fails with "All
      city sources failed". */
  function TryCities(m: Metal, fetch: string -> Fetch<seq<Table>>, cities: seq<string>): (q: Quote)
    ensures WellFormed(q) && q.source == GoodReturns && q.metal == m
    ensures q.error.Some? <==>
      forall i :: 0 <= i < |cities| ==> CityPrice(m, fetch(CityUrl(m, cities[i]))).None?
    ensures q.error.Some? ==> q.error == Some("All city sources failed") && q.city.None?
    ensures q.error.None? ==>
      exists i :: 0 <= i < |cities|
        && (forall j :: 0 <= j < i ==> CityPrice(m, fetch(CityUrl(m, cities[j]))).None?)
        && CityPrice(m, fetch(CityUrl(m, cities[i]))) == Some(q.price)
        && q.city == Some(Capitalize(cities[i]))
  {
    if cities == [] then Failed(GoodReturns, m, "All city sources failed")
    else
      match CityPrice(m, fetch(CityUrl(m, cities[0])))
      case Some(p) =>
        Quote(GoodReturns, m, Purity(m), p, Some(Capitalize(cities[0])), None)
      case None =>
        var q := TryCities(m, fetch, cities[1..]);
        TryCitiesShift(m, fetch, cities, q);
        q
  }

  /** The facts about the loop over `cities[1..]` restated for `cities`, when
      the first city gave nothing. */
  lemma {:induction false} TryCitiesShift(m: Metal, fetch: string -> Fetch<seq<Table>>, cities: seq<string>, q: Quote)
    requires cities != [] && CityPrice(m, fetch(CityUrl(m, cities[0]))).None?
    requires q.error.Some? <==>
      forall i :: 0 <= i < |cities[1..]| ==> CityPrice(m, fetch(CityUrl(m, cities[1..][i]))).None?
    requires q.error.None? ==>
      exists i :: 0 <= i < |cities[1..]|
        && (forall j :: 0 <= j < i ==> CityPrice(m, fetch(CityUrl(m, cities[1..][j]))).None?)
        && CityPrice(m, fetch(CityUrl(m, cities[1..][i]))) == Some(q.price)
        && q.city == Some(Capitalize(cities[1..][i]))
    ensures q.error.Some? <==>
      forall i :: 0 <= i < |cities| ==> CityPrice(m, fetch(CityUrl(m, cities[i]))).None?
    ensures q.error.None? ==>
      exists i :: 0 <= i < |cities|
        && (forall j :: 0 <= j < i ==> CityPrice(m, fetch(CityUrl(m, cities[j]))).None?)
        && CityPrice(m, fetch(CityUrl(m, cities[i]))) == Some(q.price)
        && q.city == Some(Capitalize(cities[i]))
  {
    ShiftFirstHit(c => CityPrice(m, fetch(CityUrl(m, c))), cities, q.error.Some?, q.price, q.city);
  }

  /** The first-hit facts about `xs[1..]` under the outcome `o`, restated for
      `xs` when `xs[0]` misses. */
  lemma {:induction false} ShiftFirstHit(o: string -> Option<string>, xs: seq<string>, failed: bool, price: string, city: Option<string>)
    requires xs != [] && o(xs[0]).None?
    requires failed <==> forall i :: 0 <= i < |xs[1..]| ==> o(xs[1..][i]).None?
    requires !failed ==>
      exists i :: 0 <= i < |xs[1..]|
        && (forall j :: 0 <= j < i ==> o(xs[1..][j]).None?)
        && o(xs[1..][i]) == Some(price) && city == Some(Capitalize(xs[1..][i]))
    ensures failed <==> forall i :: 0 <= i < |xs| ==> o(xs[i]).None?
    ensures !failed ==>
      exists i :: 0 <= i < |xs|
        && (forall j :: 0 <= j < i ==> o(xs[j]).None?)
        && o(xs[i]) == Some(price) && city == Some(Capitalize(xs[i]))
  {
    if forall i :: 0 <= i < |xs| ==> o(xs[i]).None? {
      assert forall i :: 0 <= i < |xs[1..]| ==> xs[1..][i] == xs[i + 1];
    }
    if !failed {
      var i :| 0 <= i < |xs[1..]|
        && (forall j :: 0 <= j < i ==> o(xs[1..][j]).None?)
        && o(xs[1..][i]) == Some(price) && city == Some(Capitalize(xs[1..][i]));
      assert xs[1..][i] == xs[i + 1];
      forall j | 0 <= j < i + 1 ensures o(xs[j]).None? {
        if j > 0 {
          assert xs[1..][j - 1] == xs[j];
        }
      }
    }
  }

  /** `fetch_gold_24k_good_returns`. */
  function GoldGoodReturns(fetch: string -> Fetch<seq<Table>>): (q: Quote)
    ensures WellFormed(q) && q.source == GoodReturns && q.metal == Gold
  {
    TryCities(Gold, fetch, Cities)
  }

  /** `fetch_silver_1kg_good_returns`. */
  function SilverGoodReturns(fetch: string -> Fetch<seq<Table>>): (q: Quote)
    ensures WellFormed(q) && q.source == GoodReturns && q.metal == Silver
  {
    TryCities(Silver, fetch, Cities)
  }

  /** Mumbai is tried first: when its page has a matching row, no other city
      is asked and the record names "Mumbai". */
  lemma {:induction false} MumbaiFirst(m: Metal, fetch: string -> Fetch<seq<Table>>)
    requires CityPrice(m, fetch(CityUrl(m, "mumbai"))).Some?
    ensures TryCities(m, fetch, Cities).city == Some(Capitalize("mumbai"))
    ensures TryCities(m, fetch, Cities).price == CityPrice(m, fetch(CityUrl(m, "mumbai"))).value
  {
  }

  /** With every city failing the record is the failure record. */
  lemma {:induction false} AllCitiesFail(m: Metal, fetch: string -> Fetch<seq<Table>>)
    requires forall i :: 0 <= i < 4 ==> CityPrice(m, fetch(CityUrl(m, Cities[i]))).None?
    ensures TryCities(m, fetch, Cities) == Failed(GoodReturns, m, "All city sources failed")
  {
  }
}
