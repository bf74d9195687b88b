/** The shared view helpers: the success and error response envelopes, the
    pagination parameters read from a query string, and the decorator that
    turns exceptions into error envelopes. */
module Utils {
  import opened Wrappers
  import opened Strings
  import opened Json
  import opened Exceptions

  const DefaultPageSize: int := 20
  const MaxPageSize: int := 100

  /** A JSON response: the three body fields and the HTTP status. */
  datatype Envelope = Envelope(success: bool, message: string, data: Value, status: int)

  /** `success_response(data, message, status_code)`, with omitted
      arguments as None. */
  function SuccessResponse(data: Value, message: Option<string>, status: Option<int>): (e: Envelope)
    ensures e.success && e.data == data
    ensures message.None? ==> e.message == "Success"
    ensures message.Some? ==> e.message == message.value
    ensures status.None? ==> e.status == 200
    ensures status.Some? ==> e.status == status.value
  {
    Envelope(true, message.GetOr("Success"), data, status.GetOr(200))
  }

  /** `error_response(message, data, status_code)`, with omitted arguments as
      None. */
  function ErrorResponse(message: string, data: Value, status: Option<int>): (e: Envelope)
    ensures !e.success && e.message == message && e.data == data
    ensures status.None? ==> e.status == 400
    ensures status.Some? ==> e.status == status.value
  {
    Envelope(false, message, data, status.GetOr(400))
  }

  /** The JSON body of an envelope. */
  function Body(e: Envelope): (v: Value)
    ensures v.Obj? && v.fields.Keys == {"success", "message", "data"}
  {
    Obj(map["success" := Bool(e.success), "message" := Str(e.message), "data" := e.data])
  }

  /** Reading an envelope back from a body and a status. */
  function ReadBody(v: Value, status: int): Option<Envelope> {
    if v.Obj? && "success" in v.fields && "message" in v.fields && "data" in v.fields
       && v.fields["success"].Bool? && v.fields["message"].Str?
    then Some(Envelope(v.fields["success"].b, v.fields["message"].s, v.fields["data"], status))
    else None
  }

  /** The body keeps everything: success and error envelopes with the same
      message, data and status differ only in the flag. */
  lemma {:induction false} BodyRoundTrip(e: Envelope)
    ensures ReadBody(Body(e), e.status) == Some(e)
    ensures SuccessResponse(e.data, Some(e.message), Some(e.status))
            == ErrorResponse(e.message, e.data, Some(e.status)).(success := true)
  {
    var f := Body(e).fields;
    assert f["success"] == Bool(e.success);
    assert f["message"] == Str(e.message);
    assert f["data"] == e.data;
  }

  // ---- Python's int() on a query-string value ----

  /** `s.lstrip()`. */
  function LStrip(s: string): (r: string)
    ensures |r| <= |s| && r == s[|s| - |r|..]
    ensures r == [] || !IsSpace(r[0])
    ensures forall k :: 0 <= k < |s| - |r| ==> IsSpace(s[k])
  {
    if s != [] && IsSpace(s[0]) then LStrip(s[1..]) else s
  }

  /** `s.rstrip()`. */
  function RStrip(s: string): (r: string)
    ensures |r| <= |s| && r == s[..|r|]
    ensures r == [] || !IsSpace(r[|r| - 1])
    ensures forall k :: |r| <= k < |s| ==> IsSpace(s[k])
  {
    if s != [] && IsSpace(s[|s| - 1]) then RStrip(s[..|s| - 1]) else s
  }

  /** `s.strip()`. */
  function Strip(s: string): (r: string)
    ensures forall c :: c in r ==> c in s
  {
    var l := LStrip(s);
    var r := RStrip(l);
    assert forall c :: c in r ==> c in l;
    assert forall c :: c in l ==> c in s;
    r
  }

  /** The digits of a decimal literal: digits with single underscores
      between them. */
  predicate IsDigitGroups(b: string) {
    |b| > 0 && IsDigit(b[0]) && IsDigit(b[|b| - 1])
    && (forall k :: 0 <= k < |b| ==> IsDigit(b[k]) || b[k] == '_')
    && (forall k :: 0 <= k < |b| - 1 ==> IsDigit(b[k]) || IsDigit(b[k + 1]))
  }

  lemma {:induction false} GroupsWithoutUnderscores(b: string)
    requires forall k :: 0 <= k < |b| ==> IsDigit(b[k]) || b[k] == '_'
    ensures AllDigits(Without(b, '_'))
  {
    if b != [] {
      GroupsWithoutUnderscores(b[1..]);
    }
  }

  /** `str(n)` and `int()` of it stay within the digit limit. */
  predicate WithinDigitLimit(n: int) {
    |NatToDigits(if n < 0 then -n else n)| <= MaxStrDigits
  }

  /** A stripped integer literal: an optional sign and digit groups, with
      at most `MaxStrDigits` digits. */
  function ParseLiteral(t: string): (r: Option<int>)
    ensures r.Some? ==> exists k :: 0 <= k < |t| && IsDigit(t[k])
  {
    if t == [] then None
    else
      var signed := t[0] == '-' || t[0] == '+';
      var b := if signed then t[1..] else t;
      if !IsDigitGroups(b) || |Without(b, '_')| > MaxStrDigits then None
      else
        assert IsDigit(t[if signed then 1 else 0]);
        GroupsWithoutUnderscores(b);
        var n: int := DigitsValue(Without(b, '_'));
        Some(if t[0] == '-' then -n else n)
  }

  /** `int(s)` for a string: surrounding white space, an optional sign and a
      decimal literal of at most 4300 digits; None stands for the
      ValueError. */
  function ParseInt(s: string): (r: Option<int>)
    ensures (forall k :: 0 <= k < |s| ==> !IsDigit(s[k])) ==> r.None?
  {
    var t := Strip(s);
    var r := ParseLiteral(t);
    if r.Some? then
      var k :| 0 <= k < |t| && IsDigit(t[k]);
      assert t[k] in s;
      r
    else r
  }

  /** `str(n)`. */
  function IntText(n: int): (t: string)
    ensures |t| >= 1 && !IsSpace(t[0]) && IsDigit(t[|t| - 1])
  {
    if n < 0 then "-" + NatToDigits(-n) else NatToDigits(n)
  }

  /** `int()` reads back what `str()` writes, with any white space around. */
  lemma {:induction false} ParseIntRoundTrip(p: string, n: int, q: string)
    requires WithinDigitLimit(n)
    requires forall k :: 0 <= k < |p| ==> IsSpace(p[k])
    requires forall k :: 0 <= k < |q| ==> IsSpace(q[k])
    ensures ParseInt(p + IntText(n) + q) == Some(n)
  {
    StripAround(p, IntText(n), q);
    LiteralOfIntText(n);
  }

  lemma {:induction false} StripAround(p: string, t: string, q: string)
    requires forall k :: 0 <= k < |p| ==> IsSpace(p[k])
    requires forall k :: 0 <= k < |q| ==> IsSpace(q[k])
    requires |t| >= 1 && !IsSpace(t[0]) && !IsSpace(t[|t| - 1])
    ensures Strip(p + t + q) == t
  {
    assert p + t + q == p + (t + q);
    LStripSpaces(p, t + q);
    RStripSpaces(t, q);
  }

  lemma {:induction false} LiteralOfIntText(n: int)
    requires WithinDigitLimit(n)
    ensures ParseLiteral(IntText(n)) == Some(n)
  {
    var t := IntText(n);
    var m: nat := if n < 0 then -n else n;
    var d := NatToDigits(m);
    WithoutAbsent(d, '_');
    if n < 0 {
      assert t == "-" + d;
      assert t[1..] == d;
      assert IsDigitGroups(d);
    } else {
      assert t == d;
      assert IsDigitGroups(d);
    }
  }

  lemma {:induction false} LStripSpaces(p: string, x: string)
    requires forall k :: 0 <= k < |p| ==> IsSpace(p[k])
    requires x == [] || !IsSpace(x[0])
    ensures LStrip(p + x) == x
  {
    if p != [] {
      assert (p + x)[1..] == p[1..] + x;
      LStripSpaces(p[1..], x);
    } else {
      assert p + x == x;
    }
  }

  lemma {:induction false} RStripSpaces(x: string, q: string)
    requires forall k :: 0 <= k < |q| ==> IsSpace(q[k])
    requires x == [] || !IsSpace(x[|x| - 1])
    ensures RStrip(x + q) == x
  {
    if q != [] {
      assert (x + q)[..|x + q| - 1] == x + q[..|q| - 1];
      RStripSpaces(x, q[..|q| - 1]);
    } else {
      assert x + q == x;
    }
  }

  // ---- pagination_params ----

  /** The values `pagination_params` returns. */
  datatype PageParams = PageParams(page: int, pageSize: int, offset: int)

  /** `int(query.get(key, default))`: Err with the text `int()` rejected. */
  function QueryInt(query: map<string, string>, key: string, default: int): (r: Result<int, string>)
    ensures key !in query ==> r == Ok(default)
    ensures key in query ==> (r.Err? <==> ParseInt(query[key]).None?)
    ensures key in query && r.Err? ==> r.error == query[key]
  {
    if key !in query then Ok(default)
    else
      match ParseInt(query[key])
      case None => Err(query[key])
      case Some(n) => Ok(n)
  }

  /** The clamped page and page size and the offset they give: page at
      least 1, page size at most 100 (but not bounded below), and the
      offset of the page's first item, negative exactly when a page after
      the first has a negative size. */
  function Clamp(page: int, size: int): (r: PageParams)
    ensures r.page >= 1 && r.pageSize <= MaxPageSize
    ensures page >= 1 ==> r.page == page
    ensures size <= MaxPageSize ==> r.pageSize == size
    ensures r.offset == (r.page - 1) * r.pageSize
    ensures r.offset >= 0 <==> r.page == 1 || r.pageSize >= 0
  {
    var p := if page < 1 then 1 else page;
    var s := if size > MaxPageSize then MaxPageSize else size;
    OffsetSign(p, s);
    PageParams(p, s, (p - 1) * s)
  }

  lemma {:induction false} OffsetSign(p: int, s: int)
    requires p >= 1
    ensures (p - 1) * s >= 0 <==> p == 1 || s >= 0
  {
    if p > 1 && s < 0 {
      assert (p - 1) * s <= s by {
        assert (p - 1) * s == s + (p - 2) * s;
        assert (p - 2) * s <= 0;
      }
    }
  }

  /** `pagination_params(request)` on the query string, modelled as the last
      value given for each key. The page is read first; a value `int()`
      rejects raises, and the error names that value. */
  function Pagination(query: map<string, string>): (r: Result<PageParams, string>)
    ensures r.Err? <==> QueryInt(query, "page", 1).Err? || QueryInt(query, "page_size", DefaultPageSize).Err?
    ensures QueryInt(query, "page", 1).Err? ==> r == Err(query["page"])
    ensures QueryInt(query, "page", 1).Ok? && QueryInt(query, "page_size", DefaultPageSize).Err? ==>
      r == Err(query["page_size"])
    ensures r.Ok? ==> r.value == Clamp(QueryInt(query, "page", 1).value, QueryInt(query, "page_size", DefaultPageSize).value)
    ensures "page" !in query && "page_size" !in query ==> r == Ok(PageParams(1, DefaultPageSize, 0))
  {
    match QueryInt(query, "page", 1)
    case Err(e) => Err(e)
    case Ok(page) =>
      match QueryInt(query, "page_size", DefaultPageSize)
      case Err(e) => Err(e)
      case Ok(size) => Ok(Clamp(page, size))
  }

  /** Numbers written into the query string come back clamped: the page to
      at least 1 and the page size to at most 100. */
  lemma {:induction false} PaginationOfNumbers(page: int, size: int)
    requires WithinDigitLimit(page) && WithinDigitLimit(size)
    ensures var p := if page < 1 then 1 else page;
            var s := if size > 100 then 100 else size;
      Pagination(map["page" := IntText(page), "page_size" := IntText(size)])
        == Ok(PageParams(p, s, (p - 1) * s))
  {
    var q := map["page" := IntText(page), "page_size" := IntText(size)];
    assert QueryInt(q, "page", 1) == Ok(page) by {
      QueryIntOfText(q, "page", page, 1);
    }
    assert QueryInt(q, "page_size", DefaultPageSize) == Ok(size) by {
      QueryIntOfText(q, "page_size", size, DefaultPageSize);
    }
    assert Pagination(q) == Ok(Clamp(page, size));
  }

  lemma {:induction false} QueryIntOfText(q: map<string, string>, key: string, n: int, default: int)
    requires key in q && q[key] == IntText(n) && WithinDigitLimit(n)
    ensures QueryInt(q, key, default) == Ok(n)
  {
    ParseIntOfText(n);
  }

  lemma {:induction false} ParseIntOfText(n: int)
    requires WithinDigitLimit(n)
    ensures ParseInt(IntText(n)) == Some(n)
  {
    var t := IntText(n);
    assert LStrip(t) == t;
    assert RStrip(t) == t;
    assert Strip(t) == t;
    LiteralOfIntText(n);
  }

  /** A literal of more than 4300 digits is refused, however well formed. */
  lemma {:induction false} DigitLimitRefused(d: string)
    requires |d| > MaxStrDigits && AllDigits(d)
    ensures ParseInt(d).None?
  {
    assert Strip(d) == d by {
      assert LStrip(d) == d by {
        assert !IsSpace(d[0]);
      }
      assert RStrip(d) == d by {
        assert !IsSpace(d[|d| - 1]);
      }
    }
    assert Without(d, '_') == d by {
      assert '_' !in d by {
        forall k | 0 <= k < |d| ensures d[k] != '_' {
          assert IsDigit(d[k]);
        }
      }
      WithoutAbsent(d, '_');
    }
    assert ParseLiteral(d).None? by {
      assert d[0] != '-' && d[0] != '+';
    }
  }

  // ---- handle_exceptions ----

  /** `handle_exceptions(view)` applied to what the view did: a returned
      response passes through unchanged (Ok); an application exception
      becomes an error envelope with its message and status; anything else
      becomes an error envelope with its text and status 500. */
  function HandleExceptions<R>(outcome: Result<R, Raised>): (r: Result<R, Envelope>)
    ensures outcome.Ok? <==> r.Ok?
    ensures outcome.Ok? ==> r.value == outcome.value
    ensures r.Err? ==> !r.error.success && r.error.data == Null
    ensures outcome.Err? && outcome.error.App? ==>
      r.error.message == outcome.error.error.message && r.error.status == outcome.error.error.status
    ensures outcome.Err? && outcome.error.Other? ==>
      r.error.message == outcome.error.text && r.error.status == 500
  {
    match outcome
    case Ok(v) => Ok(v)
    case Err(App(e)) => Err(ErrorResponse(e.message, Null, Some(e.status)))
    case Err(Other(text)) => Err(ErrorResponse(text, Null, Some(500)))
  }

  /** Each exception class raised with its default status reaches the client
      with that status, so a client-error status names the class raised. */
  lemma {:induction false} HandledStatusNamesKind(k: Kind, message: string)
    requires DefaultStatus(k) < 500
    ensures var r := HandleExceptions<Value>(Err(App(Raise(k, message))));
      r.Err? && KindOfStatus(r.error.status) == Some(k)
  {
    StatusIdentifiesKind(k);
  }
}
