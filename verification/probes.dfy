/** The individual probes of `DomainCheckerService`. Every network, browser
    and clock interaction is an input: the outcome a request would have is
    passed in, and each probe reports, besides its value, the list of
    outbound calls it made. */
module Probes {
  import opened Lang
  import opened Strings
  import opened Entity
  import opened Normalizer

  /** The service's configurable properties. */
  datatype Config = Config(apiKey: Option<string>, apiUrl: string, httpTimeout: int, connectionTimeout: int)

  /** The property defaults: no API key (the empty string), the public
      VirusTotal v3 domain endpoint, 5000 ms request and 3000 ms connect
      timeouts. */
  const DefaultConfig: Config := Config(Some(""), "https://www.virustotal.com/api/v3/domains/", 5000, 3000)

  /** An outbound interaction, recorded in the order it happens. */
  datatype Call =
    | Resolve(host: string, timeoutMs: int)                      // InetAddress lookup and isReachable
    | Connect(url: string, connectTimeoutMs: int, readTimeoutMs: int) // HttpURLConnection GET
    | Fetch(url: string, timeoutMs: int)                         // HttpClient GET, body discarded
    | Query(url: string, apiKey: string, timeoutMs: int)         // VirusTotal GET
    | Launch                                                     // new ChromeDriver
    | Navigate(url: string)
    | Quit
    | Persist                                                    // repository save

  /** A probe's value together with the calls it made. */
  datatype Probed<T> = Probed(value: T, calls: seq<Call>)

  /** Which texts `URI.create` and `new URL` accept. Both refuse a malformed
      address before any request is made. */
  datatype UrlSyntax = UrlSyntax(uri: string -> bool, url: string -> bool)

  /** The call list of a request that is made only when `sent` holds. */
  function SentIf(sent: bool, c: Call): (calls: seq<Call>)
    ensures c in calls <==> sent
    ensures |calls| <= 1
  {
    if sent then [c] else []
  }

  /** `http://host` and `https://host` are different texts. */
  lemma SchemesDiffer(host: string)
    ensures HttpScheme + host != HttpsScheme + host
  {
    assert (HttpScheme + host)[4] != (HttpsScheme + host)[4];
  }

  // ----- reachability -----

  const ReachTimeoutMs: int := 3000

  /** `checkReachable`: the reachability answer; an `IOException` (unknown
      host, network error) reads as unreachable, any other exception
      propagates. */
  function CheckReachable(host: string, outcome: Result<bool>): (p: Probed<Result<bool>>)
    ensures p.calls == [Resolve(host, ReachTimeoutMs)]
    ensures p.value == Ok(true) <==> outcome == Ok(true)
    ensures p.value == Ok(false) <==> outcome == Ok(false) || (outcome.Thrown? && outcome.error.isIo)
    ensures p.value.Thrown? <==> outcome.Thrown? && !outcome.error.isIo
  {
    var v := match outcome
      case Ok(b) => Ok(b)
      case Thrown(e) => if e.isIo then Ok(false) else Thrown(e);
    Probed(v, [Resolve(host, ReachTimeoutMs)])
  }

  // ----- protocol fallback -----

  /** What one HTTP request attempt produced: a status line, or an
      exception. */
  datatype Attempt = Responded(code: int) | Failed(error: Exception)

  /** How trying a list of URLs in order ended: the first URL that answered,
      every URL failing with a caught exception, or an uncaught exception
      leaving the loop. */
  datatype Fallback = Answered(index: nat, code: int) | Exhausted | Escaped(index: nat, error: Exception)

  /** Every URL of `urls` failed with an exception `catches` accepts. */
  ghost predicate AllCaught(urls: seq<string>, attempt: string -> Attempt, catches: Exception -> bool)
  {
    forall i :: 0 <= i < |urls| ==> attempt(urls[i]).Failed? && catches(attempt(urls[i]).error)
  }

  /** The loop `for (protocol : protocols) try { ... return } catch (...) {}`:
      stops at the first response, moves past the caught exceptions, and
      lets any other exception escape. */
  function TryInOrder(urls: seq<string>, attempt: string -> Attempt, catches: Exception -> bool): (f: Fallback)
    ensures f.Answered? ==> f.index < |urls| && attempt(urls[f.index]) == Responded(f.code)
                            && AllCaught(urls[..f.index], attempt, catches)
    ensures f.Escaped? ==> f.index < |urls| && attempt(urls[f.index]) == Failed(f.error) && !catches(f.error)
                           && AllCaught(urls[..f.index], attempt, catches)
    ensures f.Exhausted? <==> AllCaught(urls, attempt, catches)
  {
    if |urls| == 0 then Exhausted
    else
      match attempt(urls[0])
      case Responded(code) => Answered(0, code)
      case Failed(e) =>
        if !catches(e) then Escaped(0, e)
        else
          var rest := TryInOrder(urls[1..], attempt, catches);
          assert forall k :: 0 <= k <= |urls| - 1 ==> urls[1..][..k] == urls[1..k + 1];
          match rest
          case Answered(i, code) => Answered(i + 1, code)
          case Exhausted => Exhausted
          case Escaped(i, e') => Escaped(i + 1, e')
  }

  /** How many URLs the loop requested. */
  function Tried(f: Fallback, n: nat): nat
  {
    match f
    case Answered(i, _) => i + 1
    case Escaped(i, _) => i + 1
    case Exhausted => n
  }

  /** The loop over two URLs, case by case. */
  lemma TryTwo(a: string, b: string, attempt: string -> Attempt, catches: Exception -> bool)
    ensures var f := TryInOrder([a, b], attempt, catches);
            match attempt(a)
            case Responded(c) => f == Answered(0, c)
            case Failed(e) =>
              if !catches(e) then f == Escaped(0, e)
              else match attempt(b)
                case Responded(c) => f == Answered(1, c)
                case Failed(e') => if !catches(e') then f == Escaped(1, e') else f == Exhausted
  {
    assert [a, b][1..] == [b];
    assert [b][1..] == [];
  }

  // ----- HTTP status probe -----

  const NoStatus: int := -1
  const StatusReadTimeoutMs: int := 10000

  predicate IoFailed(a: Attempt)
  {
    a.Failed? && a.error.isIo
  }

  function StatusUrls(host: string): seq<string>
  {
    [HttpScheme + host, HttpsScheme + host]
  }

  /** `setConnectTimeout` refuses a negative value. */
  const NegativeTimeout: Exception := Exception(false, "IllegalArgumentException", Some("timeouts can't be negative"))

  /** `new URL` refuses the text; its message is not modelled. */
  const MalformedUrl: Exception := Exception(true, "MalformedURLException", None)

  /** The attempt on `u` opens a connection: the URL parses and the connect
      timeout is accepted. */
  predicate Opens(config: Config, syntax: UrlSyntax, u: string)
  {
    syntax.url(u) && config.connectionTimeout >= 0
  }

  /** One pass of the status loop's body: a malformed URL fails with an
      `IOException` before anything is opened, a negative connect timeout
      is refused with an `IllegalArgumentException`, and otherwise the
      connection's own outcome. */
  function StatusAttempt(config: Config, syntax: UrlSyntax, connect: string -> Attempt, u: string): (a: Attempt)
    ensures Opens(config, syntax, u) ==> a == connect(u)
    ensures !syntax.url(u) ==> IoFailed(a)
    ensures syntax.url(u) && config.connectionTimeout < 0 ==> a == Failed(NegativeTimeout)
  {
    if !syntax.url(u) then Failed(MalformedUrl)
    else if config.connectionTimeout < 0 then Failed(NegativeTimeout)
    else connect(u)
  }

  /** `checkHttpStatus`: `http://` first and `https://` only after an
      `IOException`; the first status code of any value is the answer, -1
      when both attempts fail with an `IOException`, and an exception of
      another kind propagates. A connection is opened only for a URL that
      parses and only with a non-negative connect timeout. */
  function CheckHttpStatus(config: Config, host: string, syntax: UrlSyntax, connect: string -> Attempt): (p: Probed<Result<int>>)
    ensures var http := StatusAttempt(config, syntax, connect, HttpScheme + host);
            var https := StatusAttempt(config, syntax, connect, HttpsScheme + host);
            && (http.Responded? ==> p.value == Ok(http.code))
            && (IoFailed(http) && https.Responded? ==> p.value == Ok(https.code))
            && (p.value.Thrown? <==> (http.Failed? && !http.error.isIo) || (IoFailed(http) && https.Failed? && !https.error.isIo))
            && (p.value.Thrown? ==> p.value.error == (if IoFailed(http) then https.error else http.error))
            && (p.value == Ok(NoStatus) <==> (IoFailed(http) && IoFailed(https)) || http == Responded(NoStatus)
                                             || (IoFailed(http) && https == Responded(NoStatus)))
    ensures var first := Connect(HttpScheme + host, config.connectionTimeout, StatusReadTimeoutMs);
            var second := Connect(HttpsScheme + host, config.connectionTimeout, StatusReadTimeoutMs);
            && (first in p.calls <==> Opens(config, syntax, HttpScheme + host))
            && (second in p.calls <==> Opens(config, syntax, HttpsScheme + host)
                                       && IoFailed(StatusAttempt(config, syntax, connect, HttpScheme + host)))
            && (p.calls == [] || p.calls == [first] || p.calls == [second] || p.calls == [first, second])
    ensures forall i :: 0 <= i < |p.calls| ==> p.calls[i].Connect? && p.calls[i].connectTimeoutMs == config.connectionTimeout
    ensures config.connectionTimeout < 0 ==>
              && p.calls == []
              && (p.value == Thrown(NegativeTimeout) <==> syntax.url(HttpScheme + host) || syntax.url(HttpsScheme + host))
  {
    var urls := StatusUrls(host);
    var attempt := (u: string) => StatusAttempt(config, syntax, connect, u);
    var f := TryInOrder(urls, attempt, (e: Exception) => e.isIo);
    TryTwo(urls[0], urls[1], attempt, (e: Exception) => e.isIo);
    SchemesDiffer(host);
    var calls := SentIf(Opens(config, syntax, urls[0]), Connect(urls[0], config.connectionTimeout, StatusReadTimeoutMs))
                 + (if Tried(f, |urls|) == 2
                    then SentIf(Opens(config, syntax, urls[1]), Connect(urls[1], config.connectionTimeout, StatusReadTimeoutMs))
                    else []);
    match f
    case Answered(_, code) => Probed(Ok(code), calls)
    case Exhausted => Probed(Ok(NoStatus), calls)
    case Escaped(_, e) => Probed(Thrown(e), calls)
  }

  // ----- curl-style probe -----

  /** One timed request: its outcome and the `System.nanoTime` difference
      measured around it. */
  datatype Timed = Timed(outcome: Attempt, elapsedNanos: int)

  const NoResponse: string := "No Response"
  const MinFetchTimeoutMs: int := 5000
  const NanosPerMilli: int := 1_000_000

  /** `Math.max(httpTimeout, 5000)`. */
  function FetchTimeout(config: Config): (t: int)
    ensures t >= MinFetchTimeoutMs && t >= config.httpTimeout
    ensures t == MinFetchTimeoutMs || t == config.httpTimeout
  {
    if config.httpTimeout >= MinFetchTimeoutMs then config.httpTimeout else MinFetchTimeoutMs
  }

  /** The request to `u` is made, `URI.create` having accepted the text,
      and answered. */
  predicate Answers(syntax: UrlSyntax, send: string -> Timed, u: string)
  {
    syntax.uri(u) && send(u).outcome.Responded?
  }

  /** The summary line `<label> <code> (<ms> ms)`. */
  function Summary(tag: string, code: int, ms: int): (s: string)
    ensures |s| > 4 && s[|s| - 1] == ')' && s != NoResponse
  {
    var head := tag + " " + IntToString(code) + " (" + IntToString(ms);
    assert (head + " ms)")[|head| + 3] == ')';
    assert NoResponse[|NoResponse| - 1] == 'e';
    head + " ms)"
  }

  /** `checkCurlStyle`: `https://` first, then `http://`; every exception is
      swallowed, including a URL `URI.create` refuses, for which no request
      is made. The first response gives `HTTPS|HTTP <code> (<ms> ms)`, two
      failures give `No Response`. */
  function CheckCurlStyle(config: Config, host: string, syntax: UrlSyntax, send: string -> Timed): (p: Probed<string>)
    ensures var su := HttpsScheme + host;
            var hu := HttpScheme + host;
            && (p.value == NoResponse <==> !Answers(syntax, send, su) && !Answers(syntax, send, hu))
            && (Answers(syntax, send, su) ==>
                  p.value == Summary("HTTPS", send(su).outcome.code, JavaDiv(send(su).elapsedNanos, NanosPerMilli)))
            && (!Answers(syntax, send, su) && Answers(syntax, send, hu) ==>
                  p.value == Summary("HTTP", send(hu).outcome.code, JavaDiv(send(hu).elapsedNanos, NanosPerMilli)))
    ensures var first := Fetch(HttpsScheme + host, FetchTimeout(config));
            var second := Fetch(HttpScheme + host, FetchTimeout(config));
            && (first in p.calls <==> syntax.uri(HttpsScheme + host))
            && (second in p.calls <==> syntax.uri(HttpScheme + host) && !Answers(syntax, send, HttpsScheme + host))
            && (p.calls == [] || p.calls == [first] || p.calls == [second] || p.calls == [first, second])
    ensures forall i :: 0 <= i < |p.calls| ==> p.calls[i].Fetch? && p.calls[i].timeoutMs >= MinFetchTimeoutMs
  {
    var su := HttpsScheme + host;
    var hu := HttpScheme + host;
    SchemesDiffer(host);
    var first := SentIf(syntax.uri(su), Fetch(su, FetchTimeout(config)));
    if Answers(syntax, send, su) then
      Probed(Summary("HTTPS", send(su).outcome.code, JavaDiv(send(su).elapsedNanos, NanosPerMilli)), first)
    else
      var second := SentIf(syntax.uri(hu), Fetch(hu, FetchTimeout(config)));
      if Answers(syntax, send, hu) then
        Probed(Summary("HTTP", send(hu).outcome.code, JavaDiv(send(hu).elapsedNanos, NanosPerMilli)), first + second)
      else
        Probed(NoResponse, first + second)
  }

  /** The three fields of a summary line. */
  datatype SummaryParts = SummaryParts(protocol: string, code: int, elapsedMs: int)

  /** Splits at the first space. */
  function SplitAtSpace(s: string): Option<(string, string)>
  {
    var k := IndexOf(s, ' ');
    if k == -1 then None else Some((s[..k], s[k + 1..]))
  }

  lemma SplitAtSpaceOf(a: string, b: string)
    requires ' ' !in a
    ensures SplitAtSpace(a + " " + b) == Some((a, b))
  {
    var s := a + " " + b;
    assert s[..|a|] == a;
    IndexOfIsFirst(s, ' ', |a|);
    assert s[|a| + 1..] == b;
  }

  /** Reads `(<ms> ms)`. */
  function ParseElapsed(t: string): Option<int>
  {
    if |t| < 5 || t[0] != '(' || t[|t| - 4..] != " ms)" then None else ParseInt(t[1..|t| - 4])
  }

  lemma ParseElapsedOf(m: string)
    requires |m| >= 1
    ensures ParseElapsed("(" + m + " ms)") == ParseInt(m)
  {
    var t := "(" + m + " ms)";
    assert t[1..|t| - 4] == m;
    assert t[|t| - 4..] == " ms)";
  }

  /** Reads a summary line back into its fields; `None` for anything else,
      in particular for `No Response`. */
  function ParseSummary(s: string): Option<SummaryParts>
  {
    match SplitAtSpace(s)
    case None => None
    case Some((tag, rest)) =>
      match SplitAtSpace(rest)
      case None => None
      case Some((code, tail)) =>
        match (ParseInt(code), ParseElapsed(tail))
        case (Some(c), Some(ms)) => Some(SummaryParts(tag, c, ms))
        case _ => None
  }

  lemma NoSpaceInNumber(n: int)
    ensures ' ' !in IntToString(n)
  {
    var s := IntToString(n);
    if n >= 0 {
      assert AllDigits(s);
    } else {
      assert AllDigits(NatToDigits(-n));
      assert s == "-" + NatToDigits(-n);
    }
  }

  /** A summary line decodes to exactly the protocol label, status code and
      elapsed milliseconds it was built from. */
  lemma SummaryRoundTrip(tag: string, code: int, ms: int)
    requires ' ' !in tag
    ensures ParseSummary(Summary(tag, code, ms)) == Some(SummaryParts(tag, code, ms))
  {
    var c := IntToString(code);
    var m := IntToString(ms);
    NoSpaceInNumber(code);
    IntToStringRoundTrip(code);
    IntToStringRoundTrip(ms);
    var tail := "(" + m + " ms)";
    var rest := c + " " + tail;
    assert Summary(tag, code, ms) == tag + " " + rest;
    SplitAtSpaceOf(tag, rest);
    SplitAtSpaceOf(c, tail);
    ParseElapsedOf(m);
  }

  lemma NoResponseIsNoSummary()
    ensures ParseSummary(NoResponse) == None
  {
    var s := NoResponse;
    assert s[..2] == "No";
    IndexOfIsFirst(s, ' ', 2);
    var rest := s[3..];
    assert rest == "Response";
    assert ' ' !in rest;
  }

  /** The curl-style summary always reads back: as the protocol, status code
      and elapsed milliseconds of the first answering request, or as nothing
      when neither answered. */
  lemma CurlSummaryDecodes(config: Config, host: string, syntax: UrlSyntax, send: string -> Timed)
    ensures var su := HttpsScheme + host;
            var hu := HttpScheme + host;
            var https := send(su);
            var http := send(hu);
            var s := CheckCurlStyle(config, host, syntax, send).value;
            && (Answers(syntax, send, su) ==>
                  ParseSummary(s) == Some(SummaryParts("HTTPS", https.outcome.code, JavaDiv(https.elapsedNanos, NanosPerMilli))))
            && (!Answers(syntax, send, su) && Answers(syntax, send, hu) ==>
                  ParseSummary(s) == Some(SummaryParts("HTTP", http.outcome.code, JavaDiv(http.elapsedNanos, NanosPerMilli))))
            && (!Answers(syntax, send, su) && !Answers(syntax, send, hu) ==> ParseSummary(s) == None)
  {
    var https := send(HttpsScheme + host);
    var http := send(HttpScheme + host);
    if Answers(syntax, send, HttpsScheme + host) {
      SummaryRoundTrip("HTTPS", https.outcome.code, JavaDiv(https.elapsedNanos, NanosPerMilli));
    } else if Answers(syntax, send, HttpScheme + host) {
      SummaryRoundTrip("HTTP", http.outcome.code, JavaDiv(http.elapsedNanos, NanosPerMilli));
    } else {
      NoResponseIsNoSummary();
    }
  }

  // ----- reputation probe -----

  const NotCheckedLabel: string := "Not Checked (API Key Required)"
  const UnsafeLabel: string := "Unsafe"
  const SafeLabel: string := "Safe"
  const ErrorLabel: string := "Error/No Data"

  /** The closed set of reputation labels. */
  predicate IsLabel(s: string)
  {
    s == NotCheckedLabel || s == UnsafeLabel || s == SafeLabel || s == ErrorLabel
  }

  /** One entry of `last_analysis_results`: engine name and the `category`
      and `result` texts (the empty string when absent). */
  datatype EngineVerdict = EngineVerdict(engine: string, category: string, result: string)

  /** A parsed VirusTotal domain report: the `malicious` and `suspicious`
      counts of `last_analysis_stats` (0 when absent), and the engine
      entries of `last_analysis_results` in document order, `None` when that
      node is not an object. */
  datatype Report = Report(malicious: int, suspicious: int, engines: Option<seq<EngineVerdict>>)

  /** A VirusTotal response: its status code, and the parsed body, `None`
      when the body is not valid JSON. */
  datatype Reply = Reply(status: int, body: Option<Report>)

  /** An API key is configured: non-null and not blank. */
  predicate HasKey(config: Config)
  {
    config.apiKey.Some? && !IsBlank(config.apiKey.value)
  }

  function ReputationCall(config: Config, host: string): Call
    requires HasKey(config)
  {
    Query(config.apiUrl + host, config.apiKey.value, config.httpTimeout)
  }

  /** The reputation request is built and sent: a key is configured,
      `URI.create` accepts the endpoint and the request timeout is positive,
      as `HttpRequest.Builder.timeout` demands. */
  predicate Sends(config: Config, syntax: UrlSyntax, host: string)
  {
    HasKey(config) && syntax.uri(config.apiUrl + host) && config.httpTimeout > 0
  }

  /** A 200 response with a parseable body. */
  predicate Usable(exchange: Result<Reply>)
  {
    exchange.Ok? && exchange.value.status == 200 && exchange.value.body.Some?
  }

  /** `checkVirusTotal`: no request without a key, nor when the request
      cannot be built; otherwise `Unsafe` when a usable report counts a
      malicious or suspicious engine, `Safe` when it counts neither, and
      `Error/No Data` for any other status, an unparseable body, a failed
      request or a request that could not be built. */
  function CheckVirusTotal(config: Config, host: string, syntax: UrlSyntax, exchange: Result<Reply>): (p: Probed<string>)
    ensures IsLabel(p.value)
    ensures !HasKey(config) ==> p.value == NotCheckedLabel && p.calls == []
    ensures HasKey(config) && !Sends(config, syntax, host) ==> p.value == ErrorLabel && p.calls == []
    ensures Sends(config, syntax, host) ==> p.calls == [ReputationCall(config, host)]
    ensures HasKey(config) ==>
              && (p.value == UnsafeLabel <==>
                    Sends(config, syntax, host) && Usable(exchange)
                    && (exchange.value.body.value.malicious > 0 || exchange.value.body.value.suspicious > 0))
              && (p.value == SafeLabel <==>
                    Sends(config, syntax, host) && Usable(exchange)
                    && exchange.value.body.value.malicious <= 0 && exchange.value.body.value.suspicious <= 0)
              && (p.value == ErrorLabel <==> !Sends(config, syntax, host) || !Usable(exchange))
  {
    if !HasKey(config) then Probed(NotCheckedLabel, [])
    else if !Sends(config, syntax, host) then Probed(ErrorLabel, [])
    else
      var tag := match exchange
        case Thrown(_) => ErrorLabel
        case Ok(reply) =>
          if reply.status != 200 then ErrorLabel
          else match reply.body
            case None => ErrorLabel
            case Some(report) => if report.malicious > 0 || report.suspicious > 0 then UnsafeLabel else SafeLabel;
      Probed(tag, [ReputationCall(config, host)])
  }

  /** An engine whose category is `malicious` or `suspicious`, ignoring
      case. */
  predicate Flags(v: EngineVerdict)
  {
    EqualsIgnoreCase("malicious", v.category) || EqualsIgnoreCase("suspicious", v.category)
  }

  /** `engine:category`, followed by `(result)` when the result is not
      empty. */
  function Entry(v: EngineVerdict): (e: string)
    ensures |e| >= |v.engine| + 1 && e[..|v.engine| + 1] == v.engine + ":"
    ensures v.result == [] <==> |e| == |v.engine| + 1 + |v.category|
  {
    v.engine + ":" + v.category + (if v.result == [] then "" else "(" + v.result + ")")
  }

  /** The `forEachRemaining` callback applied to every engine in order:
      appends `Entry(v) + "; "` for each flagging engine. */
  function AppendEntries(sb: string, engines: seq<EngineVerdict>): (r: string)
    ensures |r| >= |sb| && r[..|sb|] == sb
    ensures r == sb <==> !AnyFlagged(engines)
    decreases |engines|
  {
    if |engines| == 0 then sb
    else
      var v := engines[0];
      var next := if Flags(v) then sb + Entry(v) + "; " else sb;
      var r := AppendEntries(next, engines[1..]);
      assert next[..|sb|] == sb;
      assert r[..|sb|] == r[..|next|][..|sb|];
      assert AnyFlagged(engines) <==> Flags(v) || AnyFlagged(engines[1..]) by {
        if AnyFlagged(engines[1..]) {
          var i :| 0 <= i < |engines[1..]| && Flags(engines[1..][i]);
          assert Flags(engines[i + 1]);
        }
        if AnyFlagged(engines) && !Flags(v) {
          var i :| 0 <= i < |engines| && Flags(engines[i]);
          assert i > 0 && Flags(engines[1..][i - 1]);
        }
      }
      r
  }

  /** The entries of the flagging engines, in order. */
  function FlaggedEntries(engines: seq<EngineVerdict>): (xs: seq<string>)
    ensures |xs| <= |engines|
    ensures xs == [] <==> forall i :: 0 <= i < |engines| ==> !Flags(engines[i])
  {
    if |engines| == 0 then []
    else
      var rest := FlaggedEntries(engines[1..]);
      assert forall i :: 1 <= i < |engines| ==> engines[i] == engines[1..][i - 1];
      if Flags(engines[0]) then [Entry(engines[0])] + rest else rest
  }

  /** Whether some engine flags the domain. */
  predicate AnyFlagged(engines: seq<EngineVerdict>)
  {
    exists i :: 0 <= i < |engines| && Flags(engines[i])
  }

  /** The engine list of a usable report, if it has one. */
  function EnginesOf(exchange: Result<Reply>): Option<seq<EngineVerdict>>
  {
    if Usable(exchange) then exchange.value.body.value.engines else None
  }

  /** `getVirusTotalDetails`: null without a key, when the request cannot
      be built, on any failure, or when no engine flags the domain;
      otherwise the flagging engines' entries in order, joined by `"; "`,
      ending in `;`, with leading chars up to U+0020 trimmed. */
  function GetVirusTotalDetails(config: Config, host: string, syntax: UrlSyntax, exchange: Result<Reply>): (p: Probed<Option<string>>)
    ensures !Sends(config, syntax, host) ==> p == Probed(None, [])
    ensures Sends(config, syntax, host) ==> p.calls == [ReputationCall(config, host)]
    ensures p.value.Some? <==> Sends(config, syntax, host) && EnginesOf(exchange).Some? && AnyFlagged(EnginesOf(exchange).value)
    ensures p.value.Some? ==>
              p.value.value == TrimStart(Join("; ", FlaggedEntries(EnginesOf(exchange).value)) + ";")
              && p.value.value != [] && p.value.value[|p.value.value| - 1] == ';'
  {
    if !Sends(config, syntax, host) then Probed(None, [])
    else
      Probed(DetailsOf(EnginesOf(exchange)), [ReputationCall(config, host)])
  }

  /** The trimmed summary built from the engine entries, null when empty or
      when there are no entries to read. */
  function DetailsOf(engines: Option<seq<EngineVerdict>>): (d: Option<string>)
    ensures d.Some? <==> engines.Some? && AnyFlagged(engines.value)
    ensures d.Some? ==> d.value == TrimStart(Join("; ", FlaggedEntries(engines.value)) + ";")
                        && d.value != [] && d.value[|d.value| - 1] == ';'
  {
    match engines
    case None => None
    case Some(es) =>
      DetailsSummary(es);
      var summary := Trim(AppendEntries("", es));
      if summary == [] then None else Some(summary)
  }

  /** Each entry followed by `"; "`, in order. */
  function Terminated(xs: seq<string>): string
  {
    if |xs| == 0 then [] else xs[0] + "; " + Terminated(xs[1..])
  }

  lemma {:induction false} AppendEntriesIsTerminated(sb: string, engines: seq<EngineVerdict>)
    ensures AppendEntries(sb, engines) == sb + Terminated(FlaggedEntries(engines))
    decreases |engines|
  {
    if |engines| > 0 {
      var v := engines[0];
      AppendEntriesIsTerminated(if Flags(v) then sb + Entry(v) + "; " else sb, engines[1..]);
      if Flags(v) {
        var xs := FlaggedEntries(engines);
        assert xs[1..] == FlaggedEntries(engines[1..]);
      }
    }
  }

  lemma {:induction false} TerminatedIsJoin(xs: seq<string>)
    requires |xs| > 0
    ensures Terminated(xs) == Join("; ", xs) + "; "
    decreases |xs|
  {
    if |xs| > 1 {
      TerminatedIsJoin(xs[1..]);
      JoinCons("; ", xs[0], xs[1..]);
      assert [xs[0]] + xs[1..] == xs;
    }
  }

  /** The details string is empty exactly when no engine flags the domain,
      and otherwise is the joined entries closed by `;`. */
  lemma DetailsSummary(engines: seq<EngineVerdict>)
    ensures Trim(AppendEntries("", engines)) == [] <==> !AnyFlagged(engines)
    ensures AnyFlagged(engines) ==>
              Trim(AppendEntries("", engines)) == TrimStart(Join("; ", FlaggedEntries(engines)) + ";")
  {
    AppendEntriesIsTerminated("", engines);
    var xs := FlaggedEntries(engines);
    if xs == [] {
      assert AppendEntries("", engines) == [];
    } else {
      TerminatedIsJoin(xs);
      var body := Join("; ", xs) + ";";
      assert AppendEntries("", engines) == body + " ";
      TrimBeforeTail(body, " ");
      assert TrimStart(body) != [];
    }
  }

  // ----- render probe -----

  /** How the headless browser session went: the driver could not be
      constructed; it was constructed but navigation or reading the page
      threw; or the page loaded with its title and source (either may be
      null). */
  datatype Browser =
    | LaunchFailed(error: Exception)
    | SessionFailed(error: Exception)
    | Loaded(title: Option<string>, source: Option<string>)

  /** The failure text `SimpleName: message`. */
  function ErrorText(e: Exception): string
  {
    e.simpleName + ": " + StringOf(e.message)
  }

  function PageUrl(r: DomainResult): string
  {
    HttpsScheme + StringOf(r.domain)
  }

  /** The browser fields `runSeleniumCheck` writes on each path. */
  predicate WrittenBySelenium(f: Field, browser: Browser)
  {
    f == SeleniumReachable || f == SeleniumLoadTimeMs
    || (browser.Loaded? && (f == SeleniumTitle || f == SeleniumPageSourceLength))
    || (!browser.Loaded? && f == SeleniumError)
  }

  /** `pageSource.length()` of a possibly null source, 0 for null. */
  function SourceLength(source: Option<string>): (n: nat)
    ensures source.None? ==> n == 0
    ensures source.Some? ==> n == Utf16Length(source.value) && n >= |source.value|
  {
    if source.Some? then Utf16Length(source.value) else 0
  }

  /** The browser properties of a record that had none before the browser
      check ran on it. */
  predicate HoldsBrowserOutcome(r: DomainResult, browser: Browser, elapsedNanos: int)
  {
    && r.seleniumReachable == Some(browser.Loaded?)
    && r.seleniumLoadTimeMs == Some(JavaDiv(elapsedNanos, NanosPerMilli))
    && r.seleniumTitle == (if browser.Loaded? then browser.title else None)
    && r.seleniumPageSourceLength == (if browser.Loaded? then Some(SourceLength(browser.source)) else None)
    && r.seleniumError == (if browser.Loaded? then None else Some(ErrorText(browser.error)))
  }

  /** The record with every browser property cleared. */
  function WithoutBrowser(r: DomainResult): DomainResult
  {
    r.(seleniumReachable := None, seleniumTitle := None, seleniumPageSourceLength := None,
       seleniumLoadTimeMs := None, seleniumError := None)
  }

  /** `runSeleniumCheck`: on success records reachable, title, source length
      in Java chars (0 for a null source) and load time; on failure records
      unreachable, the error text and the load time. Nothing outside the
      browser properties changes. The driver is quit exactly once when it
      was constructed, never otherwise. */
  function RunSeleniumCheck(r: DomainResult, browser: Browser, elapsedNanos: int): (p: Probed<DomainResult>)
    ensures var r' := p.value;
            && r'.seleniumLoadTimeMs == Some(JavaDiv(elapsedNanos, NanosPerMilli))
            && r'.seleniumReachable == Some(browser.Loaded?)
            && (browser.Loaded? ==>
                  && r'.seleniumTitle == browser.title
                  && r'.seleniumPageSourceLength == Some(SourceLength(browser.source))
                  && r'.seleniumError == r.seleniumError)
            && (!browser.Loaded? ==>
                  && r'.seleniumError == Some(ErrorText(browser.error))
                  && r'.seleniumTitle == r.seleniumTitle
                  && r'.seleniumPageSourceLength == r.seleniumPageSourceLength)
            && WithoutBrowser(r') == WithoutBrowser(r)
    ensures WithoutBrowser(r) == r ==> HoldsBrowserOutcome(p.value, browser, elapsedNanos)
    ensures |p.calls| >= 1 && p.calls[0] == Launch
    ensures !browser.LaunchFailed? ==> p.calls == [Launch, Navigate(PageUrl(r)), Quit]
    ensures browser.LaunchFailed? ==> p.calls == [Launch]
  {
    var ms := JavaDiv(elapsedNanos, NanosPerMilli);
    match browser
    case Loaded(title, source) =>
      var length := SourceLength(source);
      var r' := r.(seleniumReachable := Some(true), seleniumTitle := title,
                   seleniumPageSourceLength := Some(length), seleniumLoadTimeMs := Some(ms));
      Probed(r', [Launch, Navigate(PageUrl(r)), Quit])
    case _ =>
      var r' := r.(seleniumReachable := Some(false), seleniumError := Some(ErrorText(browser.error)),
                   seleniumLoadTimeMs := Some(ms));
      Probed(r', if browser.LaunchFailed? then [Launch] else [Launch, Navigate(PageUrl(r)), Quit])
  }

  /** The driver is quit exactly once when it was constructed, and never
      when its construction failed. */
  lemma QuitOnceWhenLaunched(r: DomainResult, browser: Browser, elapsedNanos: int)
    ensures multiset(RunSeleniumCheck(r, browser, elapsedNanos).calls)[Quit] == (if browser.LaunchFailed? then 0 else 1)
  {
    var calls := RunSeleniumCheck(r, browser, elapsedNanos).calls;
    if !browser.LaunchFailed? {
      assert calls == [Launch] + [Navigate(PageUrl(r))] + [Quit];
    }
  }

  /** In terms of the getters: the browser check changes exactly the
      properties it writes on its path. */
  lemma SeleniumFrame(r: DomainResult, browser: Browser, elapsedNanos: int, f: Field)
    requires !WrittenBySelenium(f, browser)
    ensures Get(RunSeleniumCheck(r, browser, elapsedNanos).value, f) == Get(r, f)
  {
    var r' := RunSeleniumCheck(r, browser, elapsedNanos).value;
    assert WithoutBrowser(r').id == WithoutBrowser(r).id;
  }
}
