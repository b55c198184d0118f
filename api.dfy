/** `src/api.rs`: the public calls of `IsDayOffApi`. Each one chooses an `ApiOptions` value,
    sends it through `call_api` and decodes the answer with `to_vec`; `today` and `date` then
    keep the first decoded status. The host clock, the crate version and the HTTP client are the
    environment the calls run in. */
module Api {
  import opened Wrappers
  import opened Primitives
  import opened Utils
  import opened QueryString
  import opened ApiRequest

  /** The kinds of `std::num::ParseIntError`. */
  datatype IntErrorKind = Empty | InvalidDigit | PosOverflow | NegOverflow | Zero

  /** `IsDayOffApiError`. */
  datatype IsDayOffApiError =
    | ParseIntError(kind: IntErrorKind)
    | RequestError(cause: TransportError)

  /** The two `unwrap` calls that can abort a call: the digit conversion in `to_vec` and
      `first().unwrap()` in `today` and `date`. */
  datatype PanicSite = DigitUnwrap | FirstUnwrap

  /** How a call ends: it returns its `Result`, or it panics at one of the two sites. */
  datatype Call<T> = Returned(result: Result<T, IsDayOffApiError>) | Panicked(site: PanicSite)

  /** What the calls depend on besides their arguments: the local date `Local::now()` reads,
      the value of `CARGO_PKG_VERSION`, and the HTTP client that sends the request. */
  datatype Env = Env(now: Date, version: string, transport: Transport)

  /** The outcome of a list call on the transport's answer `f`, case by case: a failure becomes
      `RequestError`, a body with a non-digit aborts at the digit `unwrap`, and a body of digits
      is returned decoded. */
  predicate Decodes(f: Result<string, TransportError>, r: Call<seq<nat>>)
  {
    && (f.Err? ==> r == Returned(Err(RequestError(f.error))))
    && (f.Ok? && !AllDigits(f.value) ==> r == Panicked(DigitUnwrap))
    && (f.Ok? && AllDigits(f.value) ==> r == Returned(Ok(ToVec(f.value).value)))
  }

  /** `request`: a transport failure becomes `RequestError`; a body becomes its decoded
      statuses, one per character, and a character that is not a digit aborts the call. */
  function Request(o: ApiOptions, env: Env): (r: Call<seq<nat>>)
    ensures Decodes(Fetch(o, env.version, env.transport), r)
    ensures Fetch(o, env.version, env.transport).Err? ==>
              r == Returned(Err(RequestError(Fetch(o, env.version, env.transport).error)))
    ensures Fetch(o, env.version, env.transport).Ok? ==>
              (r.Panicked? <==> !AllDigits(Fetch(o, env.version, env.transport).value))
    ensures r.Panicked? ==> r.site == DigitUnwrap
    ensures r.Returned? && r.result.Err? ==> r.result.error.RequestError?
    ensures r.Returned? && r.result.Ok? ==>
              && Fetch(o, env.version, env.transport).Ok?
              && |r.result.value| == |Fetch(o, env.version, env.transport).value|
              && (forall i :: 0 <= i < |r.result.value| ==> r.result.value[i] < 10)
              && Fetch(o, env.version, env.transport).value == DigitsText(r.result.value)
  {
    match Fetch(o, env.version, env.transport)
    case Err(e) => Returned(Err(RequestError(e)))
    case Ok(body) =>
      match ToVec(body)
      case None => Panicked(DigitUnwrap)
      case Some(statuses) =>
        DigitsTextOfToVec(body);
        Returned(Ok(statuses))
  }

  /** `.first().unwrap()` after `?`: an error passes through, an empty list aborts the call,
      otherwise the first status is kept and the rest are dropped. */
  function First(c: Call<seq<nat>>): (r: Call<nat>)
    ensures c.Panicked? ==> r == Panicked(c.site)
    ensures c.Returned? && c.result.Err? ==> r == Returned(Err(c.result.error))
    ensures c.Returned? && c.result.Ok? ==>
              (r == Panicked(FirstUnwrap) <==> c.result.value == [])
    ensures c.Returned? && c.result.Ok? && c.result.value != [] ==> r == Returned(Ok(c.result.value[0]))
    ensures r.Returned? && r.result.Ok? ==>
              c.Returned? && c.result.Ok? && |c.result.value| > 0 && r.result.value == c.result.value[0]
  {
    match c
    case Panicked(site) => Panicked(site)
    case Returned(Err(e)) => Returned(Err(e))
    case Returned(Ok(statuses)) =>
      if |statuses| == 0 then Panicked(FirstUnwrap) else Returned(Ok(statuses[0]))
  }

  // The options each call sends.

  /** `today` asks what `date` asks for the clock's year, month and day. */
  function TodayOptions(now: Date): (o: ApiOptions)
    ensures o == DateOptions(now.year, now.month, now.day)
    ensures Keys(Params(o)) == ["year", "month", "day"]
  {
    var o := WithYMD(now.year, Some(now.month), Some(now.day));
    ParamKeys(o);
    o
  }

  /** `unwrap_or` on each of the two arguments, then no day: the service is sent `year` and
      `month` only. */
  function MonthOptions(year: Option<i32>, month: Option<u32>, now: Date): (o: ApiOptions)
    ensures o.WithYMD? && o.month.Some? && o.day.None?
    ensures o.year == (if year.Some? then year.value else now.year)
    ensures o.month.value == (if month.Some? then month.value else now.month)
    ensures Keys(Params(o)) == ["year", "month"]
  {
    var y := if year.Some? then year.value else now.year;
    var m := if month.Some? then month.value else now.month;
    var o := WithYMD(y, Some(m), None);
    ParamKeys(o);
    o
  }

  /** `year` sends the year alone: no month and no day. */
  function YearOptions(year: i32): (o: ApiOptions)
    ensures o.WithYMD? && o.year == year && o.month.None? && o.day.None?
    ensures Keys(Params(o)) == ["year"]
  {
    var o := WithYMD(year, None, None);
    ParamKeys(o);
    o
  }

  /** `date` sends all three fields as given. */
  function DateOptions(year: i32, month: u32, day: u32): (o: ApiOptions)
    ensures o.WithYMD? && o.year == year && o.month == Some(month) && o.day == Some(day)
    ensures Keys(Params(o)) == ["year", "month", "day"]
  {
    var o := WithYMD(year, Some(month), Some(day));
    ParamKeys(o);
    o
  }

  /** `period` passes the two dates through unchanged, with no check of their order. */
  function PeriodOptions(start: Date, end: Date): (o: ApiOptions)
    ensures o.WithStartEnd? && o.start == start && o.end == end
    ensures Keys(Params(o)) == ["date1", "date2"]
  {
    var o := WithStartEnd(start, end);
    ParamKeys(o);
    o
  }

  // The calls.

  /** `today`: the `date` call on the clock's year, month and day. */
  function Today(env: Env): (r: Call<nat>)
    ensures r == OnDate(env.now.year, env.now.month, env.now.day, env)
  {
    First(Request(TodayOptions(env.now), env))
  }

  /** `month`: the transport's answer to the defaulted year and month query, decoded whole. */
  function Month(year: Option<i32>, month: Option<u32>, env: Env): (r: Call<seq<nat>>)
    ensures Decodes(Fetch(MonthOptions(year, month, env.now), env.version, env.transport), r)
  {
    Request(MonthOptions(year, month, env.now), env)
  }

  /** `year`: the transport's answer to the year-only query, decoded whole. */
  function Year(year: i32, env: Env): (r: Call<seq<nat>>)
    ensures Decodes(Fetch(YearOptions(year), env.version, env.transport), r)
  {
    Request(YearOptions(year), env)
  }

  /** `date`, named so as not to clash with the `Date` type: the status of the first character
      of the body. A body of several digits is accepted and all but the first are dropped. */
  function OnDate(year: i32, month: u32, day: u32, env: Env): (r: Call<nat>)
    ensures var f := Fetch(DateOptions(year, month, day), env.version, env.transport);
      && (f.Err? ==> r == Returned(Err(RequestError(f.error))))
      && (f.Ok? && !AllDigits(f.value) ==> r == Panicked(DigitUnwrap))
      && (f.Ok? && f.value == [] ==> r == Panicked(FirstUnwrap))
      && (f.Ok? && AllDigits(f.value) && f.value != [] ==> r == Returned(Ok(DigitValue(f.value[0]))))
  {
    var c := Request(DateOptions(year, month, day), env);
    var f := Fetch(DateOptions(year, month, day), env.version, env.transport);
    assert f.Ok? && AllDigits(f.value) ==> c == Returned(Ok(ToVec(f.value).value));
    First(c)
  }

  /** `period`: the two dates go out unchanged, whatever their order, and the answer is not
      checked against the number of days in the range: a body of digits of any length is
      returned decoded. */
  function Period(start: Date, end: Date, env: Env): (r: Call<seq<nat>>)
    ensures Decodes(Fetch(PeriodOptions(start, end), env.version, env.transport), r)
  {
    Request(PeriodOptions(start, end), env)
  }

  // Properties of the calls.

  /** A decoded answer holds one status per character of the body, in the body's order. */
  lemma RequestDecodesEachCharacter(o: ApiOptions, env: Env)
    requires Request(o, env).Returned? && Request(o, env).result.Ok?
    ensures var body, statuses := Fetch(o, env.version, env.transport).value, Request(o, env).result.value;
      && |statuses| == |body|
      && forall i :: 0 <= i < |body| ==> statuses[i] == DigitValue(body[i])
  {
  }

  /** No call ever yields `ParseIntError`: every error is a wrapped transport failure. */
  lemma NoParseIntError(o: ApiOptions, env: Env)
    ensures Request(o, env).Returned? && Request(o, env).result.Err? ==> Request(o, env).result.error.RequestError?
    ensures First(Request(o, env)).Returned? && First(Request(o, env)).result.Err? ==>
              First(Request(o, env)).result.error.RequestError?
  {
  }

  /** With no arguments, `month` asks for the clock's year and month: the same request as
      passing them explicitly, under any clock. */
  lemma MonthDefaultsToClock(env: Env, other: Date)
    ensures MonthOptions(None, None, env.now) == MonthOptions(Some(env.now.year), Some(env.now.month), other)
    ensures Month(None, None, env) == Month(Some(env.now.year), Some(env.now.month), env.(now := other))
  {
  }

  /** The two defaults are independent: a given year keeps the clock's month and a given month
      keeps the clock's year. */
  lemma MonthDefaultsIndependently(year: i32, month: u32, now: Date)
    ensures MonthOptions(Some(year), None, now) == WithYMD(year, Some(now.month), None)
    ensures MonthOptions(None, Some(month), now) == WithYMD(now.year, Some(month), None)
    ensures MonthOptions(Some(year), Some(month), now) == WithYMD(year, Some(month), None)
  {
  }

  /** When today is 2024-09-15, `month(None, None)` sends what `month(Some(2024), Some(9))` sends. */
  lemma MonthExample(env: Env)
    requires env.now == Date(2024, 9, 15)
    ensures Month(None, None, env) == Month(Some(2024), Some(9), env)
  {
  }

  /** The service reads back from each year, month and day URL exactly the options chosen. */
  lemma CallUrlsReadBack(year: Option<i32>, month: Option<u32>, y: i32, m: u32, d: u32, now: Date)
    ensures ReadOptions(Url(MonthOptions(year, month, now))) ==
      Some(WithYMD(if year.Some? then year.value else now.year, Some(if month.Some? then month.value else now.month), None))
    ensures ReadOptions(Url(YearOptions(y))) == Some(WithYMD(y, None, None))
    ensures ReadOptions(Url(DateOptions(y, m, d))) == Some(WithYMD(y, Some(m), Some(d)))
  {
    YmdUrlRoundTrip(MonthOptions(year, month, now));
    YmdUrlRoundTrip(YearOptions(y));
    YmdUrlRoundTrip(DateOptions(y, m, d));
  }

  /** `period` sends the dates as given even when the end comes before the start: the service
      reads back the very pair, for dates that fit the eight-character format. */
  lemma PeriodUnchecked(start: Date, end: Date)
    requires 0 <= start.year <= 9999 && start.month <= 99 && start.day <= 99
    requires 0 <= end.year <= 9999 && end.month <= 99 && end.day <= 99
    ensures ReadOptions(Url(PeriodOptions(start, end))) == Some(WithStartEnd(start, end))
    ensures ReadOptions(Url(PeriodOptions(end, start))) == Some(WithStartEnd(end, start))
  {
    StartEndUrlRoundTrip(PeriodOptions(start, end));
    StartEndUrlRoundTrip(PeriodOptions(end, start));
  }

  /** The range 2024-09-25 to 2024-09-28 sends `date1=20240925&date2=20240928`, and a body of
      four digits decodes into four statuses in order. */
  lemma PeriodExample(start: Date, end: Date, env: Env)
    requires start == Date(2024, 9, 25) && end == Date(2024, 9, 28)
    requires Fetch(PeriodOptions(start, end), env.version, env.transport).Ok?
    requires var body := Fetch(PeriodOptions(start, end), env.version, env.transport).value;
      |body| == 4 && AllDigits(body)
    ensures Params(PeriodOptions(start, end)) == [("date1", "20240925"), ("date2", "20240928")]
    ensures var body := Fetch(PeriodOptions(start, end), env.version, env.transport).value;
      && Period(start, end, env).Returned? && Period(start, end, env).result.Ok?
      && Period(start, end, env).result.value
         == [DigitValue(body[0]), DigitValue(body[1]), DigitValue(body[2]), DigitValue(body[3])]
  {
    PeriodUrlExample(start, end);
    var body := Fetch(PeriodOptions(start, end), env.version, env.transport).value;
    var statuses := Period(start, end, env).result.value;
    assert ToVec(body).Some?;
    assert |statuses| == 4;
  }

  /** `today` and `date` look at the first character only: two bodies of digits that start with
      the same digit give the same status, whatever follows. */
  lemma SingleDayIgnoresTail(y: i32, m: u32, d: u32, env1: Env, env2: Env, head: char, tail1: string, tail2: string)
    requires env1.version == env2.version
    requires Fetch(DateOptions(y, m, d), env1.version, env1.transport) == Ok([head] + tail1)
    requires Fetch(DateOptions(y, m, d), env2.version, env2.transport) == Ok([head] + tail2)
    requires AllDigits([head] + tail1) && AllDigits([head] + tail2)
    ensures OnDate(y, m, d, env1) == OnDate(y, m, d, env2)
    ensures OnDate(y, m, d, env1).Returned? && OnDate(y, m, d, env1).result.Ok?
  {
    assert ([head] + tail1)[0] == head && ([head] + tail2)[0] == head;
  }

  /** An empty body makes `today` and `date` panic, while the list calls return it as an empty
      list. */
  lemma EmptyBody(o: ApiOptions, y: i32, m: u32, d: u32, env: Env)
    requires Fetch(DateOptions(y, m, d), env.version, env.transport) == Ok([])
    requires Fetch(o, env.version, env.transport) == Ok([])
    ensures OnDate(y, m, d, env) == Panicked(FirstUnwrap)
    ensures Request(o, env) == Returned(Ok([]))
  {
  }
}
