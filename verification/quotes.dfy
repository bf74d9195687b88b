/** The quote record every extractor returns, and the outcome of the HTTP
    request it starts with. The timestamp the source adds to every record
    (`updatedDate`) is not modelled. */
module Quotes {
  import opened Wrappers
  import opened Strings

  datatype Source = AngelOne | GoodReturns | BankBazaar

  datatype Metal = Gold | Silver

  /** One extractor result. `price` is the price text, `"0"` on failure; a
      failure carries an `error`; GoodReturns also names the city. */
  datatype Quote = Quote(
    source: Source,
    metal: Metal,
    caratOrPurity: string,
    price: string,
    city: Option<string>,
    error: Option<string>)

  /** The purity label of each metal: "24K" gold and "1 Kg" silver. */
  function Purity(m: Metal): string {
    match m
    case Gold => "24K"
    case Silver => "1 Kg"
  }

  function Found(s: Source, m: Metal, price: string): (q: Quote)
    ensures q.error.None? && q.city.None? && q.price == price
  {
    Quote(s, m, Purity(m), price, None, None)
  }

  function Failed(s: Source, m: Metal, error: string): (q: Quote)
    ensures q.error == Some(error) && q.price == "0"
  {
    Quote(s, m, Purity(m), "0", None, Some(error))
  }

  /** Every record an extractor returns: a failure always has price "0", and
      the purity label matches the metal. */
  predicate WellFormed(q: Quote) {
    (q.error.Some? ==> q.price == "0") && q.caratOrPurity == Purity(q.metal)
  }

  /** What `requests.get` gave back: a page with its status line and parsed
      document, or an exception raised before any page arrived (timeout,
      DNS or connection failure) with its message. */
  datatype Fetch<D> = Page(status: int, reason: string, doc: D) | Raised(message: string)

  /** `response.raise_for_status()`: a 4xx or 5xx status becomes an
      HTTPError whose text names the status, the reason and the URL. */
  function RaiseForStatus<D>(url: string, f: Fetch<D>): (r: Result<D, string>)
    ensures f.Raised? ==> r == Err(f.message)
    ensures f.Page? && !(400 <= f.status < 600) ==> r == Ok(f.doc)
    ensures f.Page? && 400 <= f.status < 600 ==> r.Err? && r.error != ""
  {
    match f
    case Raised(msg) => Err(msg)
    case Page(status, reason, doc) =>
      if 400 <= status < 500 then
        Err(NatToDigits(status) + " Client Error: " + reason + " for url: " + url)
      else if 500 <= status < 600 then
        Err(NatToDigits(status) + " Server Error: " + reason + " for url: " + url)
      else Ok(doc)
  }
}
