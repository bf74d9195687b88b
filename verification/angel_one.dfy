/** The AngelOne extractors. The gold page is read as its
    `tr.MuiTableRow-root` rows of `td.MuiTableCell-root` cells; the silver
    page as its text nodes in document order. */
module AngelOneSource {
  import opened Wrappers
  import opened Strings
  import opened PriceText
  import opened Quotes

  const GoldUrl := "https://www.angelone.in/gold-rates-today"
  const SilverUrl := "https://www.angelone.in/silver-rates-today"

  /** A table cell: its stripped text and the stripped text of its first
      `div`, if it has one. */
  datatype GoldCell = GoldCell(text: string, div: Option<string>)

  type GoldRow = seq<GoldCell>

  /** The row the gold scan accepts: at least four cells, "1 gm" in the
      first cell (any case) and a non-empty price `div` in the second. */
  predicate GoldRowMatches(row: GoldRow) {
    |row| >= 4 && Contains(Lower(row[0].text), "1 gm") && row[1].div.GetOr("") != ""
  }

  /** The price text of the first matching row. */
  function FirstGoldRow(rows: seq<GoldRow>): (r: Option<nat>)
    ensures r.Some? ==> r.value < |rows| && GoldRowMatches(rows[r.value])
    ensures r.Some? ==> forall k :: 0 <= k < r.value ==> !GoldRowMatches(rows[k])
    ensures r.None? ==> forall k :: 0 <= k < |rows| ==> !GoldRowMatches(rows[k])
  {
    if rows == [] then None
    else if GoldRowMatches(rows[0]) then Some(0)
    else match FirstGoldRow(rows[1..])
      case None => None
      case Some(i) => Some(i + 1)
  }

  /** `fetch_gold_24k_angel_one`: the parsed price of the first matching row,
      which may be "" without an error; "No data found" when no row
      matches; the exception text when the request fails. */
  function GoldAngelOne(f: Fetch<seq<GoldRow>>): (q: Quote)
    ensures WellFormed(q) && q.source == AngelOne && q.metal == Gold && q.city.None?
    ensures q.error.None? <==>
      RaiseForStatus(GoldUrl, f).Ok? && FirstGoldRow(RaiseForStatus(GoldUrl, f).value).Some?
    ensures q.error.None? ==>
      var rows := RaiseForStatus(GoldUrl, f).value;
      q.price == ParsePrice(rows[FirstGoldRow(rows).value][1].div.value)
  {
    match RaiseForStatus(GoldUrl, f)
    case Err(e) => Failed(AngelOne, Gold, e)
    case Ok(rows) =>
      match FirstGoldRow(rows)
      case None => Failed(AngelOne, Gold, "No data found")
      case Some(i) => Found(AngelOne, Gold, ParsePrice(rows[i][1].div.value))
  }

  /** A text node of the silver page, and the `div` that `find_parent("div")`
      gives for it: None when no `div` encloses it, otherwise the stripped
      texts of every `div` after that one in document order. */
  datatype TextNode = TextNode(text: string, following: Option<seq<string>>)

  predicate IsSilverLabel(n: TextNode) {
    Contains(Lower(n.text), "silver / 1 kg")
  }

  /** `doc.find(string=...)`: the first text node holding "silver / 1 kg" in
      any case. */
  function FindLabel(nodes: seq<TextNode>): (r: Option<TextNode>)
    ensures r.Some? ==> r.value in nodes && IsSilverLabel(r.value)
    ensures r.None? ==> forall k :: 0 <= k < |nodes| ==> !IsSilverLabel(nodes[k])
  {
    if nodes == [] then None
    else if IsSilverLabel(nodes[0]) then Some(nodes[0])
    else FindLabel(nodes[1..])
  }

  /** The first of the given div texts that contains the rupee sign. */
  function FirstRupee(divs: seq<string>): (r: Option<nat>)
    ensures r.Some? ==> r.value < |divs| && Rupee in divs[r.value]
    ensures r.Some? ==> forall k :: 0 <= k < r.value ==> Rupee !in divs[k]
    ensures r.None? ==> forall k :: 0 <= k < |divs| ==> Rupee !in divs[k]
  {
    if divs == [] then None
    else if Rupee in divs[0] then Some(0)
    else match FirstRupee(divs[1..])
      case None => None
      case Some(i) => Some(i + 1)
  }

  /** `find_all_next("div", limit=10)`: at most the next ten divs. */
  function NextDivs(divs: seq<string>): (r: seq<string>)
    ensures |r| <= 10 && |r| <= |divs| && r == divs[..|r|]
    ensures |divs| <= 10 ==> r == divs
  {
    if |divs| <= 10 then divs else divs[..10]
  }

  /** The AttributeError raised when the label has no enclosing `div`. */
  const NoContainer := "'NoneType' object has no attribute 'find_all_next'"

  /** The divs the silver scan reads: the (at most ten) divs after the
      label's enclosing one, when there is a label with such a `div`. */
  function ScannedDivs(nodes: seq<TextNode>): Option<seq<string>> {
    var mark := FindLabel(nodes);
    if mark.Some? && mark.value.following.Some? then Some(NextDivs(mark.value.following.value))
    else None
  }

  /** `divs[k]` is the first of `divs` that shows a rupee price. */
  predicate FirstPriceDiv(divs: seq<string>, k: nat) {
    k < |divs| && Rupee in divs[k] && forall j :: 0 <= j < k ==> Rupee !in divs[j]
  }

  /** `fetch_silver_1kg_angel_one`: the parsed price of the first of the ten
      divs after the label that contains the rupee sign; "No data found"
      when there is no label or no such div; an AttributeError text when
      the label has no enclosing `div`; the exception text when the request
      fails. */
  function SilverAngelOne(f: Fetch<seq<TextNode>>): (q: Quote)
    ensures WellFormed(q) && q.source == AngelOne && q.metal == Silver && q.city.None?
    ensures q.error.None? <==>
      RaiseForStatus(SilverUrl, f).Ok? && ScannedDivs(RaiseForStatus(SilverUrl, f).value).Some?
      && exists k :: 0 <= k < |ScannedDivs(RaiseForStatus(SilverUrl, f).value).value|
                     && Rupee in ScannedDivs(RaiseForStatus(SilverUrl, f).value).value[k]
    ensures q.error.None? ==>
      exists k: nat :: FirstPriceDiv(ScannedDivs(RaiseForStatus(SilverUrl, f).value).value, k)
                  && q.price == ParsePrice(ScannedDivs(RaiseForStatus(SilverUrl, f).value).value[k])
    ensures RaiseForStatus(SilverUrl, f).Ok? && FindLabel(RaiseForStatus(SilverUrl, f).value).None? ==>
      q.error == Some("No data found")
  {
    match RaiseForStatus(SilverUrl, f)
    case Err(e) => Failed(AngelOne, Silver, e)
    case Ok(nodes) =>
      match FindLabel(nodes)
      case None => Failed(AngelOne, Silver, "No data found")
      case Some(mark) =>
        match mark.following
        case None => Failed(AngelOne, Silver, NoContainer)
        case Some(all) =>
          var divs := NextDivs(all);
          match FirstRupee(divs)
          case None => Failed(AngelOne, Silver, "No data found")
          case Some(k) =>
            assert FirstPriceDiv(divs, k);
            Found(AngelOne, Silver, ParsePrice(divs[k]))
  }

  /** A price `div` beyond the tenth after the label is never read. */
  lemma {:induction false} EleventhDivIgnored(nodes: seq<TextNode>, t: string, first: seq<string>, later: seq<string>)
    requires FindLabel(nodes) == Some(TextNode(t, Some(first + later)))
    requires |first| == 10 && forall k :: 0 <= k < 10 ==> Rupee !in first[k]
    ensures SilverAngelOne(Page(200, "OK", nodes)) == Failed(AngelOne, Silver, "No data found")
  {
    assert NextDivs(first + later) == first by {
      assert (first + later)[..10] == first;
    }
  }
}
