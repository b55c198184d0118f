/** `src/api/request.rs`: the two query shapes and the construction of the request that
    `call_api` sends. The send itself is a parameter, `transport`. */
module ApiRequest {
  import opened Wrappers
  import opened Primitives
  import opened Utils
  import opened QueryString

  /** `ApiOptions`: a year with an optional month and an optional day, or a start and an end date. */
  datatype ApiOptions =
    | WithYMD(year: i32, month: Option<u32>, day: Option<u32>)
    | WithStartEnd(start: Date, end: Date)

  const BaseUrl: string := "https://isdayoff.ru/api"
  const Endpoint: string := "/getData?"
  const ProductToken: string := "isdayoff-rust-lib/"
  const Contact: string := " (telegram: @tyominomi)"

  /** `reqwest::Error`, which the model does not look into. */
  datatype TransportError = TransportError(description: string)

  /** A GET request: the absolute URL and the headers sent with it. */
  datatype HttpRequest = Get(url: string, headers: seq<(string, string)>)

  /** The HTTP client: sends a request and yields the response body or a transport failure. */
  type Transport = HttpRequest -> Result<string, TransportError>

  /** The query parameters each shape stands for, in the order `call_api` writes them. */
  function Params(o: ApiOptions): (ps: seq<Param>)
    ensures |ps| > 0
  {
    match o
    case WithYMD(y, m, d) =>
      [("year", IntToString(y))]
      + (if m.Some? then [("month", NatToString(m.value))] else [])
      + (if d.Some? then [("day", NatToString(d.value))] else [])
    case WithStartEnd(s, e) => [("date1", FormatDate(s)), ("date2", FormatDate(e))]
  }

  /** The path and query `call_api` writes after the base URL: `year=Y`, then `&month=M` when a
      month is given and `&day=D` when a day is given (a day is written even without a month);
      or `date1=` and `date2=` with the two formatted dates. What is written piece by piece is
      the endpoint followed by the well-formed query string of `Params`, in the same order. */
  function Path(o: ApiOptions): (p: string)
    ensures p == Endpoint + Encode(Params(o))
  {
    match o
    case WithYMD(y, m, d) =>
      YmdQuery(IntToString(y), m, d);
      ("/getData?year=" + IntToString(y))
      + (if m.Some? then "&month=" + NatToString(m.value) else "")
      + (if d.Some? then "&day=" + NatToString(d.value) else "")
    case WithStartEnd(s, e) =>
      RangeQuery(FormatDate(s), FormatDate(e));
      "/getData?date1=" + FormatDate(s) + "&date2=" + FormatDate(e)
  }

  /** The absolute URL: the base, then `/getData?`, then the query string and nothing else. */
  function Url(o: ApiOptions): (u: string)
    ensures |u| == |BaseUrl| + |Endpoint| + |Encode(Params(o))|
    ensures u[..|BaseUrl| + |Endpoint|] == BaseUrl + Endpoint
    ensures u[|BaseUrl| + |Endpoint|..] == Encode(Params(o))
  {
    var u := BaseUrl + Path(o);
    assert u == (BaseUrl + Endpoint) + Encode(Params(o));
    u
  }

  /** The `User-Agent` header value: the product token, the crate version, the contact comment. */
  function UserAgent(version: string): (ua: string)
    ensures |ua| == |ProductToken| + |version| + |Contact|
    ensures ua[..|ProductToken|] == ProductToken
    ensures ua[|ProductToken|..|ProductToken| + |version|] == version
    ensures ua[|ProductToken| + |version|..] == Contact
  {
    ProductToken + version + Contact
  }

  /** The request `call_api` hands to the HTTP client: a URL from which the service reads
      exactly the parameters of the options, and the `User-Agent` header as its only header. */
  function RequestFor(o: ApiOptions, version: string): (req: HttpRequest)
    ensures ReadQuery(req.url) == Some(Params(o))
    ensures |req.headers| == 1 && req.headers[0] == ("User-Agent", UserAgent(version))
  {
    ReadQueryOfUrl(o);
    Get(Url(o), [("User-Agent", UserAgent(version))])
  }

  /** What `call_api` yields: the transport's answer to that one request. */
  function Fetch(o: ApiOptions, version: string, transport: Transport): Result<string, TransportError>
  {
    transport(RequestFor(o, version))
  }

  /** The string building of `call_api`: `url` starts as the base, `path` is filled by successive
      `push_str` calls guarded by `if let`, and is then pushed onto `url`. */
  method BuildUrl(o: ApiOptions) returns (url: string)
    ensures url == Url(o)
  {
    url := BaseUrl;
    var path := "";
    if o.WithYMD? {
      ghost var monthPart := if o.month.Some? then "&month=" + NatToString(o.month.value) else "";
      ghost var dayPart := if o.day.Some? then "&day=" + NatToString(o.day.value) else "";
      assert Path(o) == ("/getData?year=" + IntToString(o.year)) + monthPart + dayPart;
      path := path + ("/getData?year=" + IntToString(o.year));
      if o.month.Some? {
        path := path + ("&month=" + NatToString(o.month.value));
      } else {
        assert path + "" == path;
      }
      assert path == ("/getData?year=" + IntToString(o.year)) + monthPart;
      if o.day.Some? {
        path := path + ("&day=" + NatToString(o.day.value));
      } else {
        assert path + "" == path;
      }
      assert path == Path(o);
    }
    if o.WithStartEnd? {
      var str := "/getData?date1=" + FormatDate(o.start) + "&date2=" + FormatDate(o.end);
      assert "" + str == str;
      path := path + str;
    }
    assert path == Path(o);
    url := url + path;
  }

  /** `call_api`: build the URL, send one GET with the `User-Agent` header, return the body or
      the transport's error. */
  method CallApi(o: ApiOptions, version: string, transport: Transport)
    returns (r: Result<string, TransportError>)
    ensures r == Fetch(o, version, transport)
  {
    var url := BuildUrl(o);
    r := transport(Get(url, [("User-Agent", UserAgent(version))]));
  }

  // The reading side: how the service interprets the URL.

  /** The parameters of a URL on the endpoint, or `None` for any other URL. */
  function ReadQuery(url: string): Option<seq<Param>>
  {
    var prefix := BaseUrl + Endpoint;
    if |prefix| <= |url| && url[..|prefix|] == prefix then Some(Parse(url[|prefix|..])) else None
  }

  function ReadI32(s: string): Option<i32>
  {
    match ParseInt(s)
    case Some(n) => if -0x8000_0000 <= n < 0x8000_0000 then Some(n) else None
    case None => None
  }

  function ReadU32(s: string): Option<u32>
  {
    match ParseInt(s)
    case Some(n) => if 0 <= n < 0x1_0000_0000 then Some(n) else None
    case None => None
  }

  /** An absent parameter reads as `None`; a present one must be a `u32`. */
  function ReadOptionalU32(v: Option<string>): Option<Option<u32>>
  {
    match v
    case None => Some(None)
    case Some(s) => match ReadU32(s) case Some(n) => Some(Some(n)) case None => None
  }

  /** The query shape a URL asks for: `year` with optional `month` and `day`, or `date1` and `date2`. */
  function ReadOptions(url: string): Option<ApiOptions>
  {
    match ReadQuery(url)
    case None => None
    case Some(q) =>
      match Lookup(q, "year")
      case Some(ys) =>
        (match (ReadI32(ys), ReadOptionalU32(Lookup(q, "month")), ReadOptionalU32(Lookup(q, "day")))
         case (Some(y), Some(m), Some(d)) => Some(WithYMD(y, m, d))
         case _ => None)
      case None =>
        match (Lookup(q, "date1"), Lookup(q, "date2"))
        case (Some(s), Some(e)) =>
          (match (ParseDate(s), ParseDate(e))
           case (Some(a), Some(b)) => Some(WithStartEnd(a, b))
           case _ => None)
        case _ => None
  }

  lemma NumericIsPlain(s: string)
    requires NumericText(s)
    ensures '&' !in s && '=' !in s && '?' !in s
  {
    forall i | 0 <= i < |s| ensures s[i] != '&' && s[i] != '=' && s[i] != '?' {
      assert IsDigit(s[i]) || s[i] == '-';
    }
  }

  /** Every name is one of the five the service knows, every value is numeric text and no name
      holds `=`, `&` or `?`, so the parameters survive the round trip through the query string. */
  lemma ParamsArePlain(o: ApiOptions)
    ensures forall i :: 0 <= i < |Params(o)| ==> Params(o)[i].0 in ["year", "month", "day", "date1", "date2"]
    ensures forall i :: 0 <= i < |Params(o)| ==> NumericText(Params(o)[i].1)
    ensures forall i :: 0 <= i < |Params(o)| ==> '?' !in Params(o)[i].0
    ensures Plain(Params(o))
    ensures Parse(Encode(Params(o))) == Params(o)
  {
    var ps := Params(o);
    if o.WithStartEnd? {
      FormatDateNumeric(o.start);
      FormatDateNumeric(o.end);
    }
    forall i | 0 <= i < |ps|
      ensures ps[i].0 in ["year", "month", "day", "date1", "date2"] && NumericText(ps[i].1)
    {
    }
    forall i | 0 <= i < |ps| ensures '=' !in ps[i].0 && '&' !in ps[i].0 && '?' !in ps[i].0 && '&' !in ps[i].1 {
      NumericIsPlain(ps[i].1);
    }
    ParseEncode(ps);
  }

  /** The four year, month and day paths, each the endpoint followed by its query string. */
  lemma YmdQuery(ys: string, m: Option<u32>, d: Option<u32>)
    ensures ("/getData?year=" + ys)
            + (if m.Some? then "&month=" + NatToString(m.value) else "")
            + (if d.Some? then "&day=" + NatToString(d.value) else "")
         == Endpoint + Encode([("year", ys)]
            + (if m.Some? then [("month", NatToString(m.value))] else [])
            + (if d.Some? then [("day", NatToString(d.value))] else []))
  {
    match (m, d)
    case (None, None) => YearQuery(ys);
    case (Some(mv), None) => YearMonthQuery(ys, NatToString(mv));
    case (None, Some(dv)) => YearDayQuery(ys, NatToString(dv));
    case (Some(mv), Some(dv)) => YearMonthDayQuery(ys, NatToString(mv), NatToString(dv));
  }

  lemma YearQuery(ys: string)
    ensures ("/getData?year=" + ys) + "" + "" == Endpoint + Encode([("year", ys)])
  {
    EncodeSingle(("year", ys));
  }

  lemma YearMonthQuery(ys: string, ms: string)
    ensures ("/getData?year=" + ys) + ("&month=" + ms) + "" == Endpoint + Encode([("year", ys)] + [("month", ms)] + [])
  {
    EncodeTwo(("year", ys), ("month", ms));
    assert [("year", ys)] + [("month", ms)] + [] == [("year", ys), ("month", ms)];
  }

  lemma YearDayQuery(ys: string, ds: string)
    ensures ("/getData?year=" + ys) + "" + ("&day=" + ds) == Endpoint + Encode([("year", ys)] + [] + [("day", ds)])
  {
    EncodeTwo(("year", ys), ("day", ds));
    assert [("year", ys)] + [] + [("day", ds)] == [("year", ys), ("day", ds)];
  }

  lemma YearMonthDayQuery(ys: string, ms: string, ds: string)
    ensures ("/getData?year=" + ys) + ("&month=" + ms) + ("&day=" + ds)
         == Endpoint + Encode([("year", ys)] + [("month", ms)] + [("day", ds)])
  {
    EncodeThree(("year", ys), ("month", ms), ("day", ds));
    assert [("year", ys)] + [("month", ms)] + [("day", ds)] == [("year", ys), ("month", ms), ("day", ds)];
  }

  lemma RangeQuery(a: string, b: string)
    ensures "/getData?date1=" + a + "&date2=" + b == Endpoint + Encode([("date1", a), ("date2", b)])
  {
    EncodeTwo(("date1", a), ("date2", b));
  }

  /** The service reads back exactly the parameters that were written. */
  lemma ReadQueryOfUrl(o: ApiOptions)
    ensures ReadQuery(Url(o)) == Some(Params(o))
  {
    UrlOfQuery(o, Encode(Params(o)));
    ReadQueryOfPrefixed(Encode(Params(o)));
    ParamsArePlain(o);
  }

  lemma UrlOfQuery(o: ApiOptions, q: string)
    requires Path(o) == Endpoint + q
    ensures Url(o) == (BaseUrl + Endpoint) + q
  {
  }

  lemma ReadQueryOfPrefixed(q: string)
    ensures ReadQuery((BaseUrl + Endpoint) + q) == Some(Parse(q))
  {
    var prefix := BaseUrl + Endpoint;
    assert (prefix + q)[..|prefix|] == prefix && (prefix + q)[|prefix|..] == q;
  }

  /** The URL holds a single `?`, the one that ends `/getData?`: the two shapes never both write
      a path, and no value written holds a `?`. */
  lemma UrlHasOneQueryMark(o: ApiOptions)
    ensures Url(o)[..|BaseUrl| + |Endpoint|] == BaseUrl + Endpoint
    ensures '?' !in BaseUrl + "/getData" && Endpoint == "/getData" + "?"
    ensures '?' !in Url(o)[|BaseUrl| + |Endpoint|..]
  {
    QueryHasNoMark(o);
    UrlOfQuery(o, Encode(Params(o)));
    var prefix, q := BaseUrl + Endpoint, Encode(Params(o));
    assert (prefix + q)[..|prefix|] == prefix && (prefix + q)[|prefix|..] == q;
    NoQueryMarkInBase();
  }

  lemma QueryHasNoMark(o: ApiOptions)
    ensures '?' !in Encode(Params(o))
  {
    var ps := Params(o);
    ParamsArePlain(o);
    forall i | 0 <= i < |ps| ensures '?' !in ps[i].1 {
      NumericIsPlain(ps[i].1);
    }
    EncodeAvoids(ps, '?');
  }

  lemma NoQueryMarkInBase()
    ensures '?' !in BaseUrl + "/getData" && Endpoint == "/getData" + "?"
  {
    var s := BaseUrl + "/getData";
    forall i | 0 <= i < |s| ensures s[i] != '?' {
    }
  }

  /** The parameter names in the order written: `year`, then `month` exactly when a month is
      given, then `day` exactly when a day is given; or `date1` then `date2`. */
  lemma ParamKeys(o: ApiOptions)
    ensures o.WithYMD? ==>
      Keys(Params(o)) == ["year"] + (if o.month.Some? then ["month"] else []) + (if o.day.Some? then ["day"] else [])
    ensures o.WithStartEnd? ==> Keys(Params(o)) == ["date1", "date2"]
  {
    var ps := Params(o);
    assert Keys(ps) == [ps[0].0] + Keys(ps[1..]);
    if |ps| > 1 {
      assert Keys(ps[1..]) == [ps[1].0] + Keys(ps[2..]);
      if |ps| > 2 {
        assert Keys(ps[2..]) == [ps[2].0] + Keys(ps[3..]);
      }
    }
  }

  lemma LookupCons(p: Param, rest: seq<Param>, key: string)
    ensures Lookup([p] + rest, key) == if p.0 == key then Some(p.1) else Lookup(rest, key)
  {
    assert ([p] + rest)[1..] == rest;
  }

  lemma DistinctNames()
    ensures "month" != "year" && "day" != "year" && "day" != "month"
    ensures "date1" != "year" && "date2" != "year" && "date1" != "date2"
  {
    assert |"month"| != |"year"| && |"day"| != |"year"| && |"day"| != |"month"|;
    assert |"date1"| != |"year"| && |"date2"| != |"year"| && "date1"[4] != "date2"[4];
  }

  /** What the service finds under each name of a year, month and day query. */
  lemma LookupYmd(o: ApiOptions)
    requires o.WithYMD?
    ensures Lookup(Params(o), "year") == Some(IntToString(o.year))
    ensures Lookup(Params(o), "month") == (if o.month.Some? then Some(NatToString(o.month.value)) else None)
    ensures Lookup(Params(o), "day") == (if o.day.Some? then Some(NatToString(o.day.value)) else None)
  {
    DistinctNames();
    var year := ("year", IntToString(o.year));
    var dayPart: seq<Param> := if o.day.Some? then [("day", NatToString(o.day.value))] else [];
    var monthPart: seq<Param> := if o.month.Some? then [("month", NatToString(o.month.value))] else [];
    assert Params(o) == [year] + (monthPart + dayPart);
    forall key | key in ["year", "month", "day"]
      ensures Lookup(Params(o), key) == if key == "year" then Some(year.1) else Lookup(monthPart + dayPart, key)
    {
      LookupCons(year, monthPart + dayPart, key);
    }
    if o.month.Some? {
      assert monthPart + dayPart == [monthPart[0]] + dayPart;
      LookupCons(monthPart[0], dayPart, "month");
      LookupCons(monthPart[0], dayPart, "day");
    } else {
      assert monthPart + dayPart == dayPart;
    }
    if o.day.Some? {
      assert dayPart == [dayPart[0]] + [];
      LookupCons(dayPart[0], [], "month");
      LookupCons(dayPart[0], [], "day");
    }
  }

  /** What the service finds under each name of a date range query: no `year`, so the range is
      what it reads. */
  lemma LookupStartEnd(o: ApiOptions)
    requires o.WithStartEnd?
    ensures Lookup(Params(o), "year") == None
    ensures Lookup(Params(o), "date1") == Some(FormatDate(o.start))
    ensures Lookup(Params(o), "date2") == Some(FormatDate(o.end))
  {
    DistinctNames();
    var first, second := ("date1", FormatDate(o.start)), ("date2", FormatDate(o.end));
    assert Params(o) == [first] + [second];
    assert [second] == [second] + [];
    forall key | key in ["year", "date1", "date2"]
      ensures Lookup(Params(o), key) == if key == "date1" then Some(first.1) else Lookup([second], key)
    {
      LookupCons(first, [second], key);
    }
    LookupCons(second, [], "year");
    LookupCons(second, [], "date2");
  }

  lemma NatToStringParses(n: nat)
    ensures ParseInt(NatToString(n)) == Some(n)
  {
    assert IntToString(n) == NatToString(n);
    IntToStringParses(n);
  }

  /** A year, month and day shape is read back exactly from the URL `call_api` builds. */
  lemma YmdUrlRoundTrip(o: ApiOptions)
    requires o.WithYMD?
    ensures ReadOptions(Url(o)) == Some(o)
  {
    ReadQueryOfUrl(o);
    LookupYmd(o);
    IntToStringParses(o.year);
    if o.month.Some? {
      NatToStringParses(o.month.value);
    }
    if o.day.Some? {
      NatToStringParses(o.day.value);
    }
  }

  /** A date range with nonnegative years is read back with each field cut to the digits
      `format_date` keeps: the last four of the year, the last two of the month and day. */
  lemma StartEndUrlReadsBack(o: ApiOptions)
    requires o.WithStartEnd? && 0 <= o.start.year && 0 <= o.end.year
    ensures ReadOptions(Url(o)) == Some(WithStartEnd(LowDigits(o.start), LowDigits(o.end)))
  {
    ReadQueryOfUrl(o);
    LookupStartEnd(o);
    FormatDateReadsBack(o.start);
    FormatDateReadsBack(o.end);
  }

  /** Dates whose fields fit the eight-character format are read back exactly. */
  lemma StartEndUrlRoundTrip(o: ApiOptions)
    requires o.WithStartEnd?
    requires 0 <= o.start.year <= 9999 && o.start.month <= 99 && o.start.day <= 99
    requires 0 <= o.end.year <= 9999 && o.end.month <= 99 && o.end.day <= 99
    ensures ReadOptions(Url(o)) == Some(o)
  {
    ReadQueryOfUrl(o);
    LookupStartEnd(o);
    FormatDateRoundTrip(o.start);
    FormatDateRoundTrip(o.end);
  }

  /** The range from 2024-09-25 to 2024-09-28: `date1=20240925` and `date2=20240928`. */
  lemma PeriodUrlExample(s: Date, e: Date)
    requires s == Date(2024, 9, 25) && e == Date(2024, 9, 28)
    ensures Params(WithStartEnd(s, e)) == [("date1", "20240925"), ("date2", "20240928")]
    ensures Url(WithStartEnd(s, e)) == BaseUrl + "/getData?date1=" + "20240925" + "&date2=" + "20240928"
  {
    PeriodDates(s, e);
  }

  lemma PeriodDates(s: Date, e: Date)
    requires s == Date(2024, 9, 25) && e == Date(2024, 9, 28)
    ensures FormatDate(s) == "20240925" && FormatDate(e) == "20240928"
  {
    FormatDateFields(s);
    FormatDateFields(e);
    assert Fixed(2024, 4) == "2024" && Fixed(9, 2) == "09";
    assert Fixed(25, 2) == "25" && Fixed(28, 2) == "28";
  }
}
