/** The input validators: the e-mail pattern, the phone digit count, the
    required-field check with its message, the user and store record checks
    in their fixed order, and the pagination argument checks. A validator
    that returns normally is None; one that raises gives what it raised. */
module Validators {
  import opened Wrappers
  import opened Strings
  import opened Json
  import opened Exceptions

  // ---- validate_email ----

  /** `[a-zA-Z0-9._%+-]`, the characters before the '@'. */
  predicate LocalChar(c: char) {
    IsAsciiLetter(c) || IsDigit(c) || c == '.' || c == '_' || c == '%' || c == '+' || c == '-'
  }

  /** `[a-zA-Z0-9.-]`, the characters of the domain before its last dot. */
  predicate DomainChar(c: char) {
    IsAsciiLetter(c) || IsDigit(c) || c == '.' || c == '-'
  }

  /** `s` is matched by `^[a-zA-Z0-9._%+-]+@[a-zA-Z0-9.-]+\.[a-zA-Z]{2,}$`
      with the '@' at `at`, the final dot at `dot` and the match ending at
      `end`: at the end of `s`, or before a final newline, where Python's
      `$` also matches. */
  predicate EmailSplit(s: string, at: nat, dot: nat, end: nat) {
    && 0 < at && at + 1 < dot && dot + 3 <= end && end <= |s|
    && (end == |s| || (end + 1 == |s| && s[end] == '\n'))
    && (forall k :: 0 <= k < at ==> LocalChar(s[k]))
    && s[at] == '@'
    && (forall k :: at < k < dot ==> DomainChar(s[k]))
    && s[dot] == '.'
    && (forall k :: dot < k < end ==> IsAsciiLetter(s[k]))
  }

  /** The first index below `end` holding `c`, or `end`. */
  function FirstIndex(s: string, c: char, i: nat, end: nat): (r: nat)
    requires i <= end <= |s|
    ensures i <= r <= end
    ensures forall k :: i <= k < r ==> s[k] != c
    ensures r < end ==> s[r] == c
    decreases end - i
  {
    if i == end then end
    else if s[i] == c then i
    else FirstIndex(s, c, i + 1, end)
  }

  /** The last index below `end` holding `c`. */
  function LastIndex(s: string, c: char, end: nat): (r: Option<nat>)
    requires end <= |s|
    ensures r.Some? ==> r.value < end && s[r.value] == c
    ensures r.Some? ==> forall k :: r.value < k < end ==> s[k] != c
    ensures r.None? ==> forall k :: 0 <= k < end ==> s[k] != c
  {
    if end == 0 then None
    else if s[end - 1] == c then Some(end - 1)
    else LastIndex(s, c, end - 1)
  }

  /** `validate_email(s)`: the match can only end before a final newline or
      at the end, can only use the first '@' (no character before it may be
      one) and can only use the last dot (none may follow it), so one
      candidate split decides. */
  function IsEmail(s: string): (r: bool)
    ensures r <==> exists at: nat, dot: nat, end: nat :: EmailSplit(s, at, dot, end)
  {
    var end := if |s| > 0 && s[|s| - 1] == '\n' then |s| - 1 else |s|;
    var at := FirstIndex(s, '@', 0, end);
    var dot := LastIndex(s, '.', end);
    CanonicalDecides(s);
    dot.Some? && EmailSplit(s, at, dot.value, end)
  }

  lemma {:induction false} CanonicalDecides(s: string)
    ensures var end := if |s| > 0 && s[|s| - 1] == '\n' then |s| - 1 else |s|;
      var dot := LastIndex(s, '.', end);
      (exists at: nat, d: nat, e: nat :: EmailSplit(s, at, d, e)) ==>
        dot.Some? && EmailSplit(s, FirstIndex(s, '@', 0, end), dot.value, end)
  {
    if exists at: nat, d: nat, e: nat :: EmailSplit(s, at, d, e) {
      var at: nat, d: nat, e: nat :| EmailSplit(s, at, d, e);
      SplitIsCanonical(s, at, d, e);
    }
  }

  /** Any split is the canonical one `IsEmail` tries. */
  lemma {:induction false} SplitIsCanonical(s: string, at: nat, dot: nat, end: nat)
    requires EmailSplit(s, at, dot, end)
    ensures var e := if |s| > 0 && s[|s| - 1] == '\n' then |s| - 1 else |s|;
      && end == e
      && FirstIndex(s, '@', 0, e) == at
      && LastIndex(s, '.', e) == Some(dot)
  {
    assert IsAsciiLetter(s[end - 1]);
    var d := LastIndex(s, '.', end);
    assert d.Some?;
  }

  /** An accepted address has exactly one '@'. */
  lemma {:induction false} EmailOneAt(s: string, i: nat, j: nat)
    requires IsEmail(s)
    requires i < j < |s| && s[i] == '@'
    ensures s[j] != '@'
  {
    var at: nat, dot: nat, end: nat :| EmailSplit(s, at, dot, end);
    if j == |s| - 1 && end < |s| {
      assert s[j] == '\n';
    }
  }

  /** An address built from a local part, a domain and a top-level label
      of at least two letters is accepted, with or without one newline at
      the end. */
  lemma {:induction false} EmailOfParts(local: string, domain: string, tld: string, nl: string)
    requires |local| > 0 && forall k :: 0 <= k < |local| ==> LocalChar(local[k])
    requires |domain| > 0 && forall k :: 0 <= k < |domain| ==> DomainChar(domain[k])
    requires |tld| >= 2 && AllLetters(tld)
    requires nl == "" || nl == "\n"
    ensures IsEmail(local + "@" + domain + "." + tld + nl)
  {
    var s := local + "@" + domain + "." + tld + nl;
    var at := |local|;
    var dot := at + 1 + |domain|;
    var end := dot + 1 + |tld|;
    assert forall k :: 0 <= k < at ==> s[k] == local[k];
    assert forall k :: at < k < dot ==> s[k] == domain[k - at - 1];
    assert forall k :: dot < k < end ==> s[k] == tld[k - dot - 1];
    assert EmailSplit(s, at, dot, end);
  }

  // ---- validate_phone ----

  /** `re.sub(r'\D', '', s)`: the digits of `s` in order. */
  function DigitsOf(s: string): (r: string)
    ensures AllDigits(r) && |r| <= |s|
    ensures AllDigits(s) ==> r == s
  {
    if s == [] then []
    else if IsDigit(s[0]) then [s[0]] + DigitsOf(s[1..])
    else DigitsOf(s[1..])
  }

  lemma {:induction false} DigitsOfAppend(a: string, b: string)
    ensures DigitsOf(a + b) == DigitsOf(a) + DigitsOf(b)
  {
    if a != [] {
      assert (a + b)[1..] == a[1..] + b;
      DigitsOfAppend(a[1..], b);
    } else {
      assert a + b == b;
    }
  }

  /** `validate_phone(s)`: ten to fifteen digits, whatever else the text
      holds. */
  function ValidPhone(s: string): (r: bool)
    ensures AllDigits(s) ==> (r <==> 10 <= |s| <= 15)
  {
    10 <= |DigitsOf(s)| <= 15
  }

  /** Separators and other non-digits never change the verdict. */
  lemma {:induction false} PhoneIgnoresNonDigits(a: string, c: char, b: string)
    requires !IsDigit(c)
    ensures ValidPhone(a + [c] + b) == ValidPhone(a + b)
  {
    DigitsOfAppend(a + [c], b);
    DigitsOfAppend(a, [c]);
    DigitsOfAppend(a, b);
    assert DigitsOf([c]) == [];
  }

  // ---- validate_required_fields ----

  /** A field the record lacks or holds a falsy value for. */
  predicate IsMissing(data: map<string, Value>, f: string) {
    f !in data || Falsy(data[f])
  }

  /** The missing fields, in the order they are required. */
  function Missing(data: map<string, Value>, fields: seq<string>): (r: seq<string>)
    ensures forall f :: f in r <==> f in fields && IsMissing(data, f)
    ensures |r| <= |fields|
  {
    if fields == [] then []
    else if IsMissing(data, fields[0]) then [fields[0]] + Missing(data, fields[1..])
    else Missing(data, fields[1..])
  }

  lemma {:induction false} MissingAppend(data: map<string, Value>, a: seq<string>, b: seq<string>)
    ensures Missing(data, a + b) == Missing(data, a) + Missing(data, b)
  {
    if a != [] {
      assert (a + b)[1..] == a[1..] + b;
      MissingAppend(data, a[1..], b);
    } else {
      assert a + b == b;
    }
  }

  /** `validate_required_fields(data, fields)`: a ValidationException that
      lists every missing field, in order, joined by ", ". */
  function ValidateRequired(data: map<string, Value>, fields: seq<string>): (r: Option<AppError>)
    ensures r.None? <==> forall k :: 0 <= k < |fields| ==> !IsMissing(data, fields[k])
    ensures r.Some? ==> r.value.kind == Validation && r.value.status == 400
    ensures r.Some? ==>
      r.value.message == "Missing required fields: " + Join(Missing(data, fields), ", ")
  {
    var missing := Missing(data, fields);
    if missing == [] then
      assert forall k :: 0 <= k < |fields| ==> fields[k] in fields;
      None
    else
      assert missing[0] in missing;
      Some(Raise(Validation, "Missing required fields: " + Join(missing, ", ")))
  }

  // ---- validate_user_data and validate_store_data ----

  /** `type(v).__name__`. */
  function TypeName(v: Value): string {
    match v
    case Null => "NoneType"
    case Bool(_) => "bool"
    case Int(_) => "int"
    case Str(_) => "str"
    case Arr(_) => "list"
    case Obj(_) => "dict"
  }

  /** The text of the TypeError `re.match` and `re.sub` raise for a value
      that is not a string, as Python 3.12 and later word it. */
  function NotAString(v: Value): (t: string)
    ensures StartsWith(t, "expected string or bytes-like object, got '")
  {
    "expected string or bytes-like object, got '" + TypeName(v) + "'"
  }

  const UserFields: seq<string> := ["name", "email", "mobileNo", "role"]
  const StoreFields: seq<string> := ["name", "email", "phone", "address", "proprietor"]

  /** A value that passes the e-mail check. */
  predicate EmailOk(v: Value) {
    v.Str? && IsEmail(v.s)
  }

  /** A value that passes the phone check. */
  predicate PhoneOk(v: Value) {
    v.Str? && ValidPhone(v.s)
  }

  /** The shared shape of the two record checks: the required fields, then
      the e-mail, then the phone field, stopping at the first failure. */
  function ValidateRecord(data: map<string, Value>, fields: seq<string>, phoneKey: string): (r: Option<Raised>)
    requires "email" in fields && phoneKey in fields
    ensures r.None? <==>
      && ValidateRequired(data, fields).None?
      && "email" in data && EmailOk(data["email"])
      && phoneKey in data && PhoneOk(data[phoneKey])
    ensures ValidateRequired(data, fields).Some? ==> r == Some(App(ValidateRequired(data, fields).value))
    ensures ValidateRequired(data, fields).None? && "email" in data && !data["email"].Str? ==>
      r == Some(Other(NotAString(data["email"])))
    ensures ValidateRequired(data, fields).None? && "email" in data
            && data["email"].Str? && !IsEmail(data["email"].s) ==>
      r == Some(App(Raise(Validation, "Invalid email format")))
    ensures ValidateRequired(data, fields).None? && "email" in data && EmailOk(data["email"])
            && phoneKey in data && !data[phoneKey].Str? ==>
      r == Some(Other(NotAString(data[phoneKey])))
    ensures ValidateRequired(data, fields).None? && "email" in data && EmailOk(data["email"])
            && phoneKey in data && data[phoneKey].Str? && !ValidPhone(data[phoneKey].s) ==>
      r == Some(App(Raise(Validation, "Invalid phone number")))
  {
    match ValidateRequired(data, fields)
    case Some(e) => Some(App(e))
    case None =>
      RequiredPresent(data, fields, "email");
      RequiredPresent(data, fields, phoneKey);
      var email := data["email"];
      var phone := data[phoneKey];
      if !email.Str? then Some(Other(NotAString(email)))
      else if !IsEmail(email.s) then Some(App(Raise(Validation, "Invalid email format")))
      else if !phone.Str? then Some(Other(NotAString(phone)))
      else if !ValidPhone(phone.s) then Some(App(Raise(Validation, "Invalid phone number")))
      else None
  }

  /** After the required-field check passes, every required field is in the
      record with a truthy value. */
  lemma {:induction false} RequiredPresent(data: map<string, Value>, fields: seq<string>, f: string)
    requires ValidateRequired(data, fields).None? && f in fields
    ensures f in data && !Falsy(data[f])
  {
    var k :| 0 <= k < |fields| && fields[k] == f;
    assert !IsMissing(data, fields[k]);
  }

  /** `validate_user_data`: name, email, mobileNo and role required, then
      the e-mail format, then the phone number in mobileNo. */
  function ValidateUser(data: map<string, Value>): (r: Option<Raised>)
    ensures r.None? <==>
      && (forall k :: 0 <= k < |UserFields| ==> !IsMissing(data, UserFields[k]))
      && "email" in data && EmailOk(data["email"])
      && "mobileNo" in data && PhoneOk(data["mobileNo"])
    ensures ValidateRequired(data, UserFields).Some? ==> r == Some(App(ValidateRequired(data, UserFields).value))
  {
    assert UserFields[1] == "email" && UserFields[2] == "mobileNo";
    ValidateRecord(data, UserFields, "mobileNo")
  }

  /** `validate_store_data`: name, email, phone, address and proprietor
      required, then the e-mail format, then the phone number. */
  function ValidateStore(data: map<string, Value>): (r: Option<Raised>)
    ensures r.None? <==>
      && (forall k :: 0 <= k < |StoreFields| ==> !IsMissing(data, StoreFields[k]))
      && "email" in data && EmailOk(data["email"])
      && "phone" in data && PhoneOk(data["phone"])
    ensures ValidateRequired(data, StoreFields).Some? ==> r == Some(App(ValidateRequired(data, StoreFields).value))
  {
    assert StoreFields[1] == "email" && StoreFields[2] == "phone";
    ValidateRecord(data, StoreFields, "phone")
  }

  /** A number in the e-mail field is not reported as a format error: `re`
      raises a TypeError naming the number's type. */
  lemma NumericEmailExample()
    ensures ValidateUser(map["name" := Str("a"), "email" := Int(5), "mobileNo" := Str("1234567890"), "role" := Str("r")])
            == Some(Other("expected string or bytes-like object, got 'int'"))
  {
    var data := map["name" := Str("a"), "email" := Int(5), "mobileNo" := Str("1234567890"), "role" := Str("r")];
    assert ValidateRequired(data, UserFields).None? by {
      assert forall k :: 0 <= k < |UserFields| ==> !IsMissing(data, UserFields[k]);
    }
    assert ValidateRecord(data, UserFields, "mobileNo") == Some(Other(NotAString(Int(5)))) by {
      assert UserFields[1] == "email" && UserFields[2] == "mobileNo";
      assert "email" in data && data["email"] == Int(5);
    }
    assert NotAString(Int(5)) == "expected string or bytes-like object, got 'int'";
  }

  // ---- validate_pagination_params ----

  /** `validate_pagination_params(page, page_size)`: the page is checked
      first; an omitted argument always passes. */
  function ValidatePagination(page: Option<int>, size: Option<int>): (r: Option<AppError>)
    ensures r.None? <==> (page.None? || page.value >= 1) && (size.None? || size.value >= 1)
    ensures page.Some? && page.value < 1 ==> r == Some(Raise(Validation, "Page must be >= 1"))
    ensures (page.None? || page.value >= 1) && size.Some? && size.value < 1 ==>
      r == Some(Raise(Validation, "Page size must be >= 1"))
  {
    if page.Some? && page.value < 1 then Some(Raise(Validation, "Page must be >= 1"))
    else if size.Some? && size.value < 1 then Some(Raise(Validation, "Page size must be >= 1"))
    else None
  }
}
