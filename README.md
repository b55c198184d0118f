# isdayoff-rust, modelled in Dafny

isdayoff-rust is a client for the isdayoff.ru production-calendar service. Given a year, a
month, a day or a range of dates, it builds one GET URL on `https://isdayoff.ru/api/getData`.
The service answers with one status digit per day, and the client decodes that text into a
list of numbers. `today` and `date` keep only the first number.

The model has six modules:

- `Wrappers`: `Option` and `Result`.
- `Primitives`: the `i32` and `u32` ranges, the decimal rendering Rust's `Display` gives to
  integers, `char::to_digit(10)`, and reading digit strings back as numbers.
- `Utils` (`src/utils.rs`): `format_date`, which pads and takes suffixes, and `to_vec`, which
  decodes one digit per character. `to_vec` returns `None` where the Rust code panics.
- `QueryString`: a plain `key=value&…` query encoder and parser. This is how the service reads
  a URL, and it is the reference that the URL builder is checked against.
- `ApiRequest` (`src/api/request.rs`): `ApiOptions`, the request that `call_api` sends, and
  `BuildUrl`. `BuildUrl` is an imperative method that repeats the `push_str` sequence of
  `call_api` and is proved equal to the specification function `Url`.
- `Api` (`src/api.rs`): the five public calls and `request`. The clock, the crate version and
  the HTTP client are bundled into an explicit environment `Env`. The outcome of a call is
  either its `Result` or a panic at one of the two `unwrap` sites.

## Model

| member | source | states |
|---|---|---|
| Primitives.IntToString | src/utils.rs:4 | the `Display` text of an integer is non-empty, holds only digits and `-`, and starts with `-` exactly when the integer is negative |
| Primitives.NatToString | src/utils.rs:5-6 | the `Display` text of an unsigned field is non-empty and all digits, and has no leading zero unless the value is 0 |
| Primitives.IntToStringParses | src/utils.rs:4 | reading the rendered text of any integer gives back that integer |
| Primitives.NatToStringValue | src/utils.rs:5-6 | the digits of an unsigned field denote that field |
| Primitives.NatToStringLength | src/utils.rs:4-6 | a number of at least 10^k renders to more than k characters, and one below 10^k to at most k, so the padded text is longer than the part that is kept |
| Primitives.ToDigit | src/utils.rs:20 | `to_digit(10)` succeeds exactly on an ASCII digit, and it inverts the digit's character |
| Primitives.FixedValue | src/utils.rs:10-12 | a field of k kept digits denotes the value when it is below 10^k |
| Primitives.FixedPeriodic | src/utils.rs:10-12 | adding a multiple of 10^k does not change the k kept digits |
| Utils.TakeLast | src/utils.rs:10-12 | `skip(len - k).collect()` yields exactly k characters, and they are the tail of the text |
| Utils.FormatDate | src/utils.rs:3-14 | the formatted date has exactly 8 characters, whatever the year, month and day |
| Utils.FormatDateNumeric | src/utils.rs:3-14 | the formatted date holds only digits and minus signs |
| Utils.TakeLastOfPadded | src/utils.rs:4-12 | taking the last k characters of a zero-padded rendering gives the k low digits, zero-filled on the left |
| Utils.FormatDateFields | src/utils.rs:3-14 | for a nonnegative year, characters 0..4 are the year's four low digits, 4..6 the month's two, and 6..8 the day's two, each zero-padded on the left |
| Utils.FormatDateReadsBack | src/utils.rs:3-14 | for a nonnegative year the text is all digits, and reading it as `YYYYMMDD` gives the date cut to 4, 2 and 2 digits |
| Utils.FormatDateRoundTrip | src/utils.rs:3-14 | for years 0..9999 and months and days 0..99, reading the text back gives the same date |
| Utils.FormatDateTruncatesYear | src/utils.rs:4-10 | a year of 10000 or more is cut to its last four digits and is not rejected |
| Utils.FormatDateDropsSign | src/utils.rs:4-10 | a year of -1000 or less loses its minus sign and formats like its absolute value |
| Utils.FormatDateKeepsMinus | src/utils.rs:4-10 | a year from -999 to -1 leaves a `-` within the first four characters, so the text is not all digits |
| Utils.FormatDateExample | src/utils.rs:29-42 | 2024-09-19 formats to `20240919` |
| Utils.ToVec | src/utils.rs:16-22 | the decoding succeeds exactly when every character is a digit, and then has one entry per character, each the value of that character |
| Utils.ToVecAppend | src/utils.rs:17-21 | the decoding of a concatenation succeeds exactly when both parts decode, and it is the concatenation of their decodings |
| Utils.ToVecOfDigitsText | src/utils.rs:16-22 | decoding the digit text of a list of statuses gives back the list |
| Utils.DigitsTextOfToVec | src/utils.rs:16-22 | a digit string is the digit text of its own decoding, so no information is lost |
| Utils.ToVecExamples | src/utils.rs:20 | `"1"` decodes to `[1]`, and `"1a"` does not decode |
| QueryString.ParseEncode | src/api/request.rs:21-43 | parameters whose keys hold no `=` or `&` and whose values hold no `&` are parsed back from their query string |
| QueryString.EncodeAvoids | src/api/request.rs:21-43 | a character other than `=` and `&` that is absent from every key and value is absent from the query string |
| ApiRequest.Params | src/api/request.rs:23-43 | every shape sends at least one parameter |
| ApiRequest.ParamsArePlain | src/api/request.rs:23-43 | every parameter name is one of `year`, `month`, `day`, `date1` and `date2`, every value is numeric text, and parsing the query string of the parameters gives them back |
| ApiRequest.ParamKeys | src/api/request.rs:23-43 | the names are `year`, then `month` exactly when a month is given, then `day` exactly when a day is given, and a day is sent even without a month; a range sends `date1` then `date2` |
| ApiRequest.Path | src/api/request.rs:21-43 | the path is `/getData?` followed by the query string of the parameters, in the order they are written |
| ApiRequest.Url | src/api/request.rs:18-45 | the URL is the base `https://isdayoff.ru/api`, then `/getData?`, then the query string, and nothing else |
| ApiRequest.RequestFor | src/api/request.rs:47-55 | the service reads from the request's URL exactly the parameters of the options, and the `User-Agent` header is the only header |
| ApiRequest.BuildUrl | src/api/request.rs:18-45 | the successive `push_str` calls on `path` and `url` build exactly the base URL followed by the path |
| ApiRequest.UrlHasOneQueryMark | src/api/request.rs:18-45 | the URL is the base followed by `/getData?`, and this is the only `?` in it, so only one of the two branches writes a path |
| ApiRequest.ReadQueryOfUrl | src/api/request.rs:18-45 | the service finds in the URL exactly the parameters that were written |
| ApiRequest.LookupYmd | src/api/request.rs:23-33 | in a year, month and day query the service finds the year, and finds a month or a day exactly when one was given |
| ApiRequest.LookupStartEnd | src/api/request.rs:35-43 | in a range query the service finds no year, and finds the two formatted dates |
| ApiRequest.YmdUrlRoundTrip | src/api/request.rs:23-33 | the service reads back the very year, month and day options |
| ApiRequest.StartEndUrlReadsBack | src/api/request.rs:35-43 | for nonnegative years the service reads back the two dates cut to the digits `format_date` keeps |
| ApiRequest.StartEndUrlRoundTrip | src/api/request.rs:35-43 | for dates that fit the format, the service reads back the very two dates |
| ApiRequest.PeriodUrlExample | src/api/request.rs:35-43 | the range 2024-09-25 to 2024-09-28 sends `date1=20240925&date2=20240928` |
| ApiRequest.UserAgent | src/api/request.rs:49-54 | the header value is `isdayoff-rust-lib/`, then the version, then ` (telegram: @tyominomi)`, and nothing else |
| ApiRequest.CallApi | src/api/request.rs:17-60 | `call_api` sends one GET with the built URL and the `User-Agent` header, and returns the transport's answer unchanged |
| Api.Request | src/api.rs:73-79 | a transport failure becomes `RequestError`; a body panics exactly when it holds a non-digit; a body of digits `s` gives `Ok(to_vec(s))`, one status below 10 per character, whose digit text is the body; `ParseIntError` is never produced |
| Api.RequestDecodesEachCharacter | src/api.rs:73-79 | each decoded status is the value of the body character at the same position |
| Api.NoParseIntError | src/api.rs:8-12 | no call ends in `ParseIntError`, whether it returns the list or its first element |
| Api.First | src/api.rs:25-28 | an error or a panic passes through, an empty list panics at `first().unwrap()`, and a non-empty list gives `Ok` of its first status |
| Api.OnDate | src/api.rs:57-67 | `date` returns the transport's error as `RequestError`, panics on a non-digit body or on an empty body, and otherwise returns the value of the first character, ignoring the rest |
| Api.Today | src/api.rs:17-29 | `today` is `date` applied to the clock's year, month and day |
| Api.SingleDayIgnoresTail | src/api.rs:57-67 | two digit bodies that begin with the same digit give the same single-day answer, so trailing digits are dropped silently |
| Api.EmptyBody | src/api.rs:57-79 | an empty body makes `date` panic, while the list calls return an empty list |
| Api.MonthDefaultsToClock | src/api.rs:31-46 | `month(None, None)` sends the same request as `month(Some(Y), Some(M))` for the clock's Y and M, under any clock |
| Api.MonthDefaultsIndependently | src/api.rs:37-38 | a given year keeps the clock's month, a given month keeps the clock's year, and no day is sent |
| Api.MonthExample | src/api.rs:31-46 | when today is 2024-09-15, `month(None, None)` is the call `month(Some(2024), Some(9))` |
| Api.TodayOptions | src/api.rs:17-24 | `today` builds the options of `date` for the clock's year, month and day, and sends `year`, `month` and `day` |
| Api.MonthOptions | src/api.rs:35-44 | the year is the given one or else the clock's, the month likewise, independently; no day is set, so only `year` and `month` are sent |
| Api.YearOptions | src/api.rs:48-53 | `year` sets neither month nor day, so only `year` is sent |
| Api.DateOptions | src/api.rs:57-62 | `date` sets all three fields as given and sends `year`, `month` and `day` |
| Api.PeriodOptions | src/api.rs:69-71 | `period` passes start and end through unchanged and sends `date1` and `date2` |
| Api.Month | src/api.rs:31-46 | `month` returns the transport's error as `RequestError`, panics on a non-digit body, and otherwise returns the whole decoded body of the defaulted query |
| Api.Year | src/api.rs:48-55 | `year` returns the transport's error as `RequestError`, panics on a non-digit body, and otherwise returns the whole decoded body of the year query |
| Api.Period | src/api.rs:69-71 | `period` returns the transport's error as `RequestError`, panics on a non-digit body, and otherwise returns the decoded body whatever its length |
| Api.CallUrlsReadBack | src/api.rs:31-67 | the service reads back from the `month`, `year` and `date` URLs exactly the defaulted or given fields |
| Api.PeriodUnchecked | src/api.rs:69-71 | `period` sends the two dates as given, in either order, with no check that the start comes first |
| Api.PeriodExample | src/api.rs:69-71 | 2024-09-25 to 2024-09-28 sends `date1=20240925&date2=20240928`, and a four-digit body decodes into four statuses in order |

## Left out

- The HTTP send (`reqwest::Client`, `.send().await?.text().await`). It is network I/O in a
  library that is not part of this model. It is the `transport` parameter, a function from
  the request to a body or a `TransportError`, and `TransportError` is not looked into.
- `chrono::Local::now()`. This is the host clock and time zone. It is the `now` field of `Env`.
- `env!("CARGO_PKG_VERSION")`. Its value is fixed at build time and is not in the sources
  modelled here. It is the `version` field of `Env`.
- Calendar validity of `NaiveDate`: days in a month and leap years. A date is the triple that
  `year()`, `month()` and `day()` return, with the `i32` and `u32` ranges.
- `async`, `await` and tokio. Each call is one request and shares no state with any other
  call, so each call is a function of its environment.
- The `#[tokio::test]` cases that compare with the live service's answers. They state the
  service's calendar data, not the client's behaviour.
- A decode error type. The client has none. A body with a character that is not a digit
  panics at the `unwrap` in src/utils.rs:20 (`Panicked(DigitUnwrap)`). An empty body panics in
  `today` and `date` at `first().unwrap()` (`Panicked(FirstUnwrap)`). Digits after the first
  are ignored by `today` and `date` (`Api.SingleDayIgnoresTail`).
- A length check on the decoded body. The number of statuses is the number of characters
  (`Utils.ToVec`): the 30-character September 2024 string in the test at
  src/api/request.rs:86 decodes to 30 entries, and `period` does not compare the count with
  the number of days in the range.
- The `ParseIntError` inside `IsDayOffApiError` is modelled only by its kind. No code path
  builds one.
- Utils.FormatDateFields, Utils.FormatDateReadsBack and ApiRequest.StartEndUrlReadsBack: they
  cover nonnegative years only. What happens to negative years is stated separately by
  Utils.FormatDateDropsSign and Utils.FormatDateKeepsMinus.
