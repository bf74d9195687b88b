# JewelVault backend core, modelled in Dafny

This project models the request-independent core of the JewelVault
backend. It has two parts.

- **The metal-rate pipeline** (`backend/api/v1/metal_rate/views.py`).
  - Six extractors read gold and silver prices from AngelOne, GoodReturns and
    BankBazaar pages.
  - `parse_price` takes the first number out of a price text.
  - `extract_date_from_text` reads the date of a table row.
  - The `metal_rate` handler reconciles the extractor records:
    - BankBazaar first, AngelOne second;
    - the chosen price is scaled to 10 g of gold and 1 kg of silver;
    - it is rounded to hundredths.
- **The shared service layer**:
  - the response envelopes, `pagination_params` and `handle_exceptions`
    (`shared/utils.py`);
  - the input validators (`shared/validators.py`);
  - the exception hierarchy (`shared/exceptions.py`);
  - bearer-token authentication (`core/authentication.py`);
  - the permission classes (`core/permissions.py`);
  - the URL listing command's `_iter_patterns`
    (`management/commands/list_urls.py`).

Everything is a pure function over immutable data.

- An HTTP fetch is a parameter: `Fetch<D>` is either a page with its status
  and parsed document, or the exception `requests` raised.
- A parsed document is reduced to what the extractors read:
  - tables of `th`/`td` cells;
  - AngelOne's rows;
  - the silver page's text nodes.
- Prices are exact decimals (`Dec(units, scale)` stands for units / 10^scale).
  Python's `round(x, 2)` is modelled as round-half-even to whole hundredths.
- A raised exception is an `Err`, or an `AppError`/`Raised` value.

Modules, one per source concern:

| Module | Models |
|---|---|
| `Wrappers`, `Strings`, `Json` | Option/Result, character classes, Python values |
| `Decimal` | numerals, `float()`, rounding, `str(float)` |
| `PriceText` | `parse_price`, `to_float_or_none` |
| `Dates` | `extract_date_from_text` |
| `Tables` | `get_table_headers_and_rows` |
| `Quotes` | the extractor record, `raise_for_status` |
| `AngelOneSource`, `GoodReturnsSource`, `BankBazaarSource`, `LatestScan` | the extractors |
| `Reconcile` | `metal_rate` |
| `Exceptions`, `Utils`, `Validators`, `Authentication`, `Permissions`, `ListUrls` | the service layer |

Where the code and its documentation disagree, the model follows the code.

- `get_best_rate` rejects only the literal price texts `""` and `"0"`. A
  BankBazaar price of `"0.00"` is therefore chosen and gives a rate of 0
  (`Reconcile.ZeroWithDecimalsIsChosen`).
- The documentation reads this as "first valid non-zero price".
- `parse_price` returns the leftmost `[\d,]+` match, so a lone comma before
  the digits ("a, 5") gives `""` (`PriceText.LoneSeparatorHidesDigits`).
  Its docstring promises the first number.
- An extractor that catches an exception records `str(e)` as its error,
  which Python allows to be empty. The model keeps the message as given
  and promises only that a failure carries price "0".
- `require_permission` calls `check(request)` without an object. `IsOwner`
  used through it therefore always refuses (`Permissions.DecoratorOutcomes`).

## Model

| member | source | states |
|---|---|---|
| PriceText.ParsePrice | backend/api/v1/metal_rate/views.py:32-45 | the result has no rupee sign and no comma, is empty or a plain decimal numeral, uses only characters of the input, and is empty for a text without digits |
| PriceText.ParsePriceLeadingRun | backend/api/v1/metal_rate/views.py:38-45 | digit-free text, then a run of digits and commas that nothing extends: the result is that run with its commas removed |
| PriceText.ParsePriceLeadingFraction | backend/api/v1/metal_rate/views.py:38-45 | as above for a number with a fraction part: the result is the integer part without commas, '.', and the fraction digits |
| PriceText.DocstringExample | backend/api/v1/metal_rate/views.py:35 | the docstring example "₹2,10,722.11-6531.67  (-3.01%)" gives "210722.11" |
| PriceText.LoneSeparatorHidesDigits | backend/api/v1/metal_rate/views.py:41-45 | a comma ahead of the digits is the leftmost match, so "a, 5" gives "" |
| PriceText.NumberSpan | backend/api/v1/metal_rate/views.py:41 | the match of `[\d,]+(?:\.\d+)?`: none exactly when no digit or comma occurs; otherwise it starts at the first one and both repetitions are greedy |
| PriceText.ToNumber | backend/api/v1/metal_rate/views.py:553-566 | `to_float_or_none` gives a number exactly when a match exists and is not only commas; no number for a text without digits |
| PriceText.ToNumberOfNumeral | backend/api/v1/metal_rate/views.py:557-563 | a numeral starting with a digit, as `parse_price` produces, is read back as exactly the value it denotes |
| PriceText.MatchWithoutCommas | backend/api/v1/metal_rate/views.py:45 | a match with its commas removed is empty or a numeral |
| Dates.ExtractDate | backend/api/v1/metal_rate/views.py:48-56 | a date found is a valid calendar date; a text without digits has none |
| Dates.MatchAtIffGroup | backend/api/v1/metal_rate/views.py:50 | the search reports a match at a position exactly when `(\d{1,2})\s*([A-Za-z]+)\s*(\d{4})` matches there, stated declaratively by `IsGroupAt` |
| Dates.LeftmostGroupDecides | backend/api/v1/metal_rate/views.py:50-56 | the date is read from the groups of the leftmost match, whatever digits come before it |
| Dates.NoGroupNoDate | backend/api/v1/metal_rate/views.py:50-52 | a text the pattern matches nowhere gives None |
| Dates.DateNeedsGroup | backend/api/v1/metal_rate/views.py:50-52 | a date is found only in a text the pattern matches somewhere |
| Dates.DigitsBeforeDateExample | backend/api/v1/metal_rate/views.py:50-56 | "24K rate on 15 December 2025" gives 15 December 2025: the failed attempt at "24K rate" does not hide the date |
| Dates.FromParts | backend/api/v1/metal_rate/views.py:53-56 | `strptime("%d %B %Y")` succeeds exactly when the day is 1..31, the word is a full month name in any case, the year is 1..9999 and the day exists in that month; the date carries those numbers |
| Dates.MonthNumber | backend/api/v1/metal_rate/views.py:54 | `%B` accepts exactly the twelve full month names, case-insensitively |
| Dates.FirstGroupDecides | backend/api/v1/metal_rate/views.py:50-56 | when the first digits open a day-month-year group, that group alone decides the result, whatever follows |
| Dates.ExtractFormatted | backend/api/v1/metal_rate/views.py:48-56 | round trip: a valid date written "15 December 2025" after digit-free text is read back exactly |
| Dates.RateOnExample | backend/api/v1/metal_rate/views.py:49 | the docstring example "Rate on 15 December 2025" gives 15 December 2025 |
| Dates.AbbreviatedExample | backend/api/v1/metal_rate/views.py:53-56 | an abbreviated month ("Dec") is no `%B` month and gives None |
| Dates.FirstGroupOnlyExample | backend/api/v1/metal_rate/views.py:50-56 | only the first group counts: "31 June 2024, 1 July 2024" gives None |
| Tables.HeadersAndRows | backend/api/v1/metal_rate/views.py:59-73 | with `th` cells the headers are their lower-cased texts; otherwise they are the first row's cell texts; the data rows are all rows after the first; an empty table gives neither; every header is lower case |
| Tables.HeaderTextsExact | backend/api/v1/metal_rate/views.py:61 | a header text is exactly the text of some `th` cell of the table |
| Tables.DataCellsOfPlainRow | backend/api/v1/metal_rate/views.py:341 | a row without `th` cells has every cell's text as data, in order |
| Quotes.RaiseForStatus | backend/api/v1/metal_rate/views.py:86 | a raised request keeps its message; a 4xx or 5xx status becomes a non-empty error; any other status gives the document |
| AngelOneSource.FirstGoldRow | backend/api/v1/metal_rate/views.py:91-99 | the index of the first row with four cells, "1 gm" in its first cell and a non-empty price `div`; none when no row qualifies |
| AngelOneSource.GoldAngelOne | backend/api/v1/metal_rate/views.py:76-129 | success exactly when the page loads and a row with four cells, "1 gm" and a non-empty price `div` exists; the price is that first row's parsed price; failures carry price "0" |
| AngelOneSource.SilverAngelOne | backend/api/v1/metal_rate/views.py:131-185 | success exactly when a label is found and one of the next ten divs holds a rupee sign; the price is the first such div's parsed price; no label gives "No data found" |
| AngelOneSource.EleventhDivIgnored | backend/api/v1/metal_rate/views.py:152 | a price div beyond the tenth after the label is never read |
| AngelOneSource.NextDivs | backend/api/v1/metal_rate/views.py:152 | `find_all_next(limit=10)` keeps at most the first ten divs, in order |
| GoodReturnsSource.CityPrice | backend/api/v1/metal_rate/views.py:195-230 | a city gives a price exactly when its page has status 200 and a first table with a matching row; the price is the first such row's parsed price |
| GoodReturnsSource.TryCities | backend/api/v1/metal_rate/views.py:192-245 | fails with "All city sources failed" exactly when no city gives a price; otherwise it returns the first city's price and that city's capitalised name |
| GoodReturnsSource.GoldGoodReturns | backend/api/v1/metal_rate/views.py:187-245 | the gold record is well formed, from GoodReturns, for gold |
| GoodReturnsSource.SilverGoodReturns | backend/api/v1/metal_rate/views.py:247-307 | the silver record is well formed, from GoodReturns, for silver |
| LatestScan.ScanPicksLatest | backend/api/v1/metal_rate/views.py:355-359 | when some row is dated, the scan ends with the price of the earliest row carrying the latest date |
| LatestScan.ScanUndated | backend/api/v1/metal_rate/views.py:358-359 | when no row is dated, the scan keeps the first row's price |
| LatestScan.StepKeepsInvariant | backend/api/v1/metal_rate/views.py:355-359 | one iteration keeps the invariant: the held price belongs to the latest-dated row so far, or to the first row while none is dated |
| LatestScan.ScanHoldsPrice | backend/api/v1/metal_rate/views.py:324-359 | the scan holds a price exactly when the table has a kept row |
| LatestScan.ScanKeepsPrice | backend/api/v1/metal_rate/views.py:356-359 | once a price is held, no later row removes it |
| LatestScan.ScanPriceAmong | backend/api/v1/metal_rate/views.py:324-359 | the price the scan holds is the price of one of the kept rows |
| LatestScan.LatestExists | backend/api/v1/metal_rate/views.py:356 | some row carries a date exactly when an earliest latest row exists |
| BankBazaarSource.PriceColumn | backend/api/v1/metal_rate/views.py:332-336 | the first header naming "gold price" and "24" (or "silver price" and "kg") |
| BankBazaarSource.RowCandidate | backend/api/v1/metal_rate/views.py:340-355 | gold keeps a row exactly when it has the price column, that cell mentions "gram" in any case and parses to a non-empty price; silver exactly when it has two cells, the label says "rate of silver on" in any case and the second cell parses to a non-empty price; the price is that parse and the date is read from the first cell |
| BankBazaarSource.CollectMembers | backend/api/v1/metal_rate/views.py:340-359 | the kept rows of a table are exactly the candidates of its qualifying rows |
| BankBazaarSource.CollectFirst | backend/api/v1/metal_rate/views.py:340-359 | the first kept row is the candidate of the first qualifying row; nothing is kept exactly when no row qualifies |
| BankBazaarSource.PrimaryPicksLatest | backend/api/v1/metal_rate/views.py:324-362 | the primary pass takes the first table with kept rows: the latest-dated row's price there, or the first row's when none is dated; nothing when no table has kept rows |
| BankBazaarSource.PrimaryFrom | backend/api/v1/metal_rate/views.py:328-362 | the table loop never drops a price it holds, and tables without kept rows leave the held price as it is |
| BankBazaarSource.Primary | backend/api/v1/metal_rate/views.py:324-362 | the primary pass gives a price exactly when some table has a kept row, and that price is a non-empty numeral |
| BankBazaarSource.PrimaryIsFirstTable | backend/api/v1/metal_rate/views.py:361-362 | the state carried between tables never changes the result: only the first table with kept rows counts |
| BankBazaarSource.GramsOfText | backend/api/v1/metal_rate/views.py:375-376 | digit-free text, a number, optional white space and "grams": the gram count is that number when it has at most 4300 digits; a longer one gives the ValueError `int()` raises, naming its digit count |
| BankBazaarSource.GramsDefault | backend/api/v1/metal_rate/views.py:376 | headers without a digit give the default of 8 grams |
| BankBazaarSource.PerGram | backend/api/v1/metal_rate/views.py:384-388 | the per-gram price is `price / grams` rounded half-even to hundredths and written as `str(float)`; when the division raises (a zero gram count, or one of 2^1024 - 2^970 or more that no float holds) the `except` keeps the price |
| BankBazaarSource.PerKg | backend/api/v1/metal_rate/views.py:485-489 | the kilogram price is the 10-gram price times 100, rounded to hundredths and written as `str(float)` |
| BankBazaarSource.FallbackCell | backend/api/v1/metal_rate/views.py:379-383 | a city-table row offers a price exactly when it has the price cell (the third for gold, the second for silver) and that cell parses to a non-empty price; the price is that parse |
| BankBazaarSource.FirstFallbackCell | backend/api/v1/metal_rate/views.py:378-389 | the price of the first row that offers one; none when no row does |
| BankBazaarSource.CityPrice | backend/api/v1/metal_rate/views.py:384-388 | a city-table price, scaled per gram or per kilogram, is a non-empty numeral |
| BankBazaarSource.FallbackTable | backend/api/v1/metal_rate/views.py:366-392 | a gold city table whose gram count `int()` refuses raises that ValueError, whatever its rows hold; otherwise a table yields a price exactly when it has headers, passes the city-table header test and has a row offering a price, and the price is the first such row's, divided by the headers' gram count for gold and scaled to 1 kg for silver |
| BankBazaarSource.Fallback | backend/api/v1/metal_rate/views.py:364-392 | the fallback ends at the first city table that yields a price or raises, with that outcome; it finds nothing exactly when no table does either |
| BankBazaarSource.FallbackRaises | backend/api/v1/metal_rate/views.py:366-420 | a gold city table whose headers name a gram count of more than 4300 digits, reached with no earlier table giving a price, ends the fallback with `int()`'s ValueError, whatever its rows hold |
| BankBazaarSource.FallbackPicksFirst | backend/api/v1/metal_rate/views.py:364-392 | with no earlier table yielding a price and no earlier row offering one, the fallback gives row `j`'s price of table `k`: divided by the gram count the headers name, 8 when they name none, for gold; times 100 for silver |
| BankBazaarSource.Extract | backend/api/v1/metal_rate/views.py:310-521 | a failed request keeps its error; otherwise the primary price wins, then the fallback price; an exception in the fallback (the gram count's ValueError) becomes the record's error; with neither price the "not found" error; a success always has a non-empty numeral price |
| BankBazaarSource.GoldBankBazaar | backend/api/v1/metal_rate/views.py:310-420 | the gold record is well formed, from BankBazaar, for gold |
| BankBazaarSource.SilverBankBazaar | backend/api/v1/metal_rate/views.py:423-521 | the silver record is well formed, from BankBazaar, for silver |
| Reconcile.BestRate | backend/api/v1/metal_rate/views.py:539-541 | a record is chosen exactly when some record's price is neither "" nor "0"; it is the first such record; with well-formed records it is never a failure |
| Reconcile.Convert | backend/api/v1/metal_rate/views.py:553-576 | a price exists exactly when a record was chosen and its price holds a number; the hundredths are within half a hundredth of value times factor |
| Reconcile.MetalRate | backend/api/v1/metal_rate/views.py:543-596 | success with status 200 and rates for gold per 10 g then silver per 1000 g; each metal takes BankBazaar when usable, else AngelOne, else null |
| Reconcile.MetalRatePages | backend/api/v1/metal_rate/views.py:524-596 | the handler succeeds with status 200 and both rates; a BankBazaar page that fails to load leaves the metal to AngelOne, and when both pages fail the price is null |
| Reconcile.ErrorResponse | backend/api/v1/metal_rate/views.py:597-607 | failure with status 500, the exception text, the same two rates and both prices null |
| Reconcile.FailuresNeverPriced | backend/api/v1/metal_rate/views.py:540 | a failed BankBazaar record never supplies a price: AngelOne decides, and with both failed the price is null |
| Reconcile.BankBazaarGoldDecides | backend/api/v1/metal_rate/views.py:544-571 | a successful BankBazaar gold record gives a 10-gram price of exactly its value times ten, rounded to hundredths |
| Reconcile.BankBazaarSilverDecides | backend/api/v1/metal_rate/views.py:545-576 | a successful BankBazaar silver record gives a kilogram price of exactly its value, rounded to hundredths |
| Reconcile.ZeroWithDecimalsIsChosen | backend/api/v1/metal_rate/views.py:540 | a BankBazaar price of "0.00" is chosen and gives a gold rate of 0 |
| Decimal.ScaledCents | backend/api/v1/metal_rate/views.py:571-576 | `round(v * factor, 2)` in hundredths: within half a hundredth of the exact value, an exact tie going to the even hundredth |
| Decimal.DividedCents | backend/api/v1/metal_rate/views.py:385-386 | `round(v / divisor, 2)` in hundredths: within half a hundredth of the exact value, an exact tie going to the even hundredth |
| Decimal.RoundHalfEven | backend/api/v1/metal_rate/views.py:571 | the nearest whole number to n / d, with an exact tie going to the even one |
| Decimal.FormatCents | backend/api/v1/metal_rate/views.py:386 | `str(float)` of a hundredths amount is a numeral denoting exactly that amount |
| Exceptions.DefaultStatus | backend/shared/exceptions.py:4-45 | every class's default status is 400..500; 500 exactly for the base and internal-server classes; 400 exactly for validation |
| Exceptions.DefaultMessage | backend/shared/exceptions.py:24-45 | only the unauthorized, forbidden and internal-server classes have a default message, and it is non-empty |
| Exceptions.KindOfStatus | backend/shared/exceptions.py:12-39 | a status below 500 names at most one class, the one whose default it is |
| Exceptions.StatusIdentifiesKind | backend/shared/exceptions.py:12-39 | every class with a default below 500 is recovered from that status |
| Exceptions.Make | backend/shared/exceptions.py:4-45 | construction fails (TypeError) exactly when the message is omitted and has no default; otherwise the given or default message and status are kept |
| Exceptions.Raise | backend/shared/exceptions.py:4-45 | raising with a message is construction with the default status, which is 400..500 |
| Utils.SuccessResponse | backend/shared/utils.py:21-37 | the envelope succeeds and carries the data; a given message and status are kept, and the defaults are "Success" and 200 |
| Utils.ErrorResponse | backend/shared/utils.py:40-56 | the envelope fails and carries the message and data; a given status is kept, and the default is 400 |
| Utils.BodyRoundTrip | backend/shared/utils.py:33-37 | the JSON body has exactly the keys success, message and data, and reading it back gives the envelope |
| Utils.ParseInt | backend/shared/utils.py:71-73 | `int()` on a text without digits raises |
| Utils.DigitLimitRefused | backend/shared/utils.py:71-73 | `int()` refuses a literal of more than 4300 digits, so such a query value raises |
| Utils.ParseIntRoundTrip | backend/shared/utils.py:71-73 | `int()` reads back what `str()` writes, with any white space around it, for numbers within the 4300-digit limit |
| Utils.QueryInt | backend/shared/utils.py:71-73 | a missing key gives the default; a present value gives its integer, or raises naming that value |
| Utils.Clamp | backend/shared/utils.py:71-81 | the page is at least 1 and the page size at most 100, each unchanged when already in range; the offset is (page - 1) * size, negative exactly when a later page has a negative size |
| Utils.Pagination | backend/shared/utils.py:59-81 | fails exactly when either value is not an integer, the page being read first, and the error names the rejected value; otherwise the values are clamped; no parameters give page 1, size 20, offset 0 |
| Utils.PaginationOfNumbers | backend/shared/utils.py:59-81 | numbers within the digit limit written into the query come back clamped |
| Utils.HandleExceptions | backend/shared/utils.py:84-105 | a returned response passes through unchanged; an application exception becomes an error envelope with its message and status; any other exception with its text and 500 |
| Utils.HandledStatusNamesKind | backend/shared/utils.py:100-101 | the status of a handled client-error exception identifies its class |
| Validators.IsEmail | backend/shared/validators.py:9-12 | an address matches exactly when it splits into a local part, '@', a domain, '.', and two or more letters, optionally followed by one final newline |
| Validators.EmailOfParts | backend/shared/validators.py:9-12 | every address built from such parts is accepted |
| Validators.EmailOneAt | backend/shared/validators.py:11 | an accepted address holds exactly one '@' |
| Validators.ValidPhone | backend/shared/validators.py:15-18 | a phone number is valid exactly when it holds 10 to 15 digits |
| Validators.PhoneIgnoresNonDigits | backend/shared/validators.py:17 | inserting a non-digit never changes validity |
| Validators.Missing | backend/shared/validators.py:32 | a field is listed exactly when it is required and absent or falsy |
| Validators.ValidateRequired | backend/shared/validators.py:21-34 | raises exactly when a field is missing, as a validation error with status 400 naming the missing fields in order |
| Validators.RequiredPresent | backend/shared/validators.py:32-34 | after the check passes, every required field is present and truthy |
| Validators.NotAString | backend/shared/validators.py:12 | the `re` TypeError text for a value that is not a string names the value's type |
| Validators.ValidateRecord | backend/shared/validators.py:37-58 | checks required fields, then the email, then the phone; a non-string email or phone raises the `re` TypeError naming its type, and a string that fails its check gives that check's validation error |
| Validators.NumericEmailExample | backend/shared/validators.py:42 | a user record whose email is the number 5 raises "expected string or bytes-like object, got 'int'" |
| Validators.ValidateUser | backend/shared/validators.py:37-46 | the user record passes exactly when its four fields are present, the email matches and the mobile number is valid |
| Validators.ValidateStore | backend/shared/validators.py:49-58 | the store record passes exactly when its five fields are present, the email matches and the phone is valid |
| Validators.ValidatePagination | backend/shared/validators.py:61-67 | passes exactly when each given value is at least 1; the page is checked first, each with its own message |
| Authentication.GetAuthToken | backend/core/authentication.py:11-16 | a token exists exactly when the header starts with "Bearer ", and the header is "Bearer " followed by the token |
| Authentication.BearerRoundTrip | backend/core/authentication.py:11-16 | every token written after "Bearer " is read back unchanged |
| Authentication.LowerCaseSchemeRejected | backend/core/authentication.py:14 | the scheme is case-sensitive: "bearer " gives no token |
| Authentication.RequireAuth | backend/core/authentication.py:19-28 | the view runs with the token exactly when the token is present and non-empty; otherwise Unauthorized 401 |
| Authentication.BareSchemeRefused | backend/core/authentication.py:24-25 | the header "Bearer " alone carries an empty token and is refused |
| Authentication.VerifyToken | backend/core/authentication.py:31-40 | a non-empty token verifies to the claims {"token": token}; an empty one raises "Invalid token" with 401 |
| Authentication.AdmittedTokenVerifies | backend/core/authentication.py:19-40 | a token admitted by `require_auth` always verifies |
| Permissions.Check | backend/core/permissions.py:10-41 | the base class allows all; authentication holds exactly when a token that is not None is set; admin exactly when the role is "admin"; ownership exactly when the object is non-empty and its userId or user_id equals the user id |
| Permissions.OwnerByEitherKey | backend/core/permissions.py:38-41 | an object whose userId is the request's user id is owned; with both id keys set to another value it is not |
| Permissions.OwnerWithoutIds | backend/core/permissions.py:39-41 | a non-empty object with neither id key belongs to a request without a user id |
| Permissions.RequirePermission | backend/core/permissions.py:44-52 | the view runs exactly when the check passes without an object; otherwise Forbidden 403 |
| Permissions.DecoratorOutcomes | backend/core/permissions.py:48 | through the decorator, ownership always refuses and the base class always admits |
| Permissions.TokenAuthenticates | backend/core/permissions.py:16-21 | a request given a token by `require_auth` is authenticated |
| ListUrls.IterAll | backend/management/commands/list_urls.py:6-13 | one entry per leaf pattern, each route starting with the prefix |
| ListUrls.IterAppend | backend/management/commands/list_urls.py:7 | entries come out in document order: those of the first patterns first |
| ListUrls.PrefixShiftAll | backend/management/commands/list_urls.py:10-13 | a route is the concatenation of the enclosing include routes and its own |
| ListUrls.NestedLeaf | backend/management/commands/list_urls.py:6-13 | a leaf two includes deep is listed once, with the include routes and its own concatenated and the callback `module.function` |
| ListUrls.IncludeIsTransparent | backend/management/commands/list_urls.py:8-11 | an include with no route lists exactly its children's entries |

## Left out

- HTTP transport: the request headers (`get_headers`), the timeout and the
  URL strings' reachability are not modelled; a fetch is a parameter. The
  handler's `@require_GET` decorator is not modelled either: a request with
  another method gets Django's 405 and the handler never runs, so the model
  starts from a GET request.
- HTML parsing (BeautifulSoup): documents are given already reduced to tables
  of `th`/`td` cells, AngelOne rows and text nodes with their following
  divs. Each cell's text is given as the source's `get_text` call returns
  it: `get_text(strip=True)` for headers and the AngelOne and GoodReturns
  cells, `get_text(" ", strip=True)` for the BankBazaar data cells. How
  nested elements' texts are joined is part of the parsing left out.
- Floating point: prices are exact decimals and `round` is exact
  half-even rounding. Binary floating-point representation error is not
  modelled, nor `str(float)` exponent forms for values of 10^16 and above.
- Character classes: `\d`, `str.lower` and `str.upper` are modelled on ASCII
  only. `int()` accepts only ASCII digits in the model. `\s` and
  `str.strip` use a fixed list of white-space characters.
- Timestamps (`updatedDate`, `timestamp`) and all logging are left out, as
  they are clock reads and side effects.
- `set_response`: `views.py` imports `set` from `shared/utils.py`, which
  defines no such name, so the module cannot be imported as written. The
  handler's response is modelled as a plain record (success, message,
  rates, status).
- The GoodReturns extractors are modelled but not used by the handler, whose
  calls to them are commented out.
- BankBazaarSource.PerGram: the `except` branch around the conversion is
  modelled for the two ways the division raises on a numeral price, a zero
  gram count and one too large for a float; `float(price)` of a numeral too
  long for a double gives infinity rather than raising, and that value is
  part of the floating point left out above.
- ListUrls.IterAll: a pattern is always a route pattern with a `_route`. A
  `re_path` or locale-prefix pattern has none, and `p.pattern._route`
  would raise AttributeError; this project's URL files use only `path()`.
- Reconcile.BankBazaarGoldDecides: requires the price to start with a digit.
  A price such as ".5", produced from ",.5", is read by `to_float_or_none`
  as 5: `[\d,]+` cannot start at the '.', so the match is "5".
- Reconcile.BankBazaarSilverDecides: the same restriction as the gold lemma.
- Exceptions.Make: the TypeError's message text is not modelled, only that
  one is raised.
- Python version: the `re` TypeError text and the 4300-digit limit of
  `int()` are those of Python 3.12 and later, which the Django release the
  project uses requires. A limit changed at run time through
  `sys.set_int_max_str_digits` is not modelled.
- Utils.QueryInt: the ValueError is represented by the rejected value, not
  by Python's message text.
- Utils.Pagination: the query string is a map holding the last value given
  for each key, as `QueryDict.get` returns.
- Json values have no floats. `PyEq` compares booleans and integers
  numerically at the top level and structurally inside containers.
- Django views, the database layer, Firebase, the test views, the other
  management commands, the middleware and the API docs are outside this
  core.
