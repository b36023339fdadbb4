/** `DomainCheckerService.checkDomain`: one full check of a domain, the
    probes run in a fixed order against the same cleaned host, the results
    collected into a new record and that record saved. */
module Service {
  import opened Lang
  import opened Strings
  import opened Entity
  import opened Normalizer
  import opened Probes

  /** What the repository's `save` does with a new record: it runs the
      `@PrePersist` hook at time `now` and assigns the generated id, or it
      throws. `rejects` is the exception a database that enforces the
      column definitions raises for a row that breaks them, `None` for a
      database that stores any row. */
  datatype Store = Stored(id: int, now: int, rejects: Option<Exception>) | StoreFailed(error: Exception)

  /** Everything outside the service that decides a check's outcome: the
      result of each outbound interaction, in the order the check makes
      them. The two VirusTotal requests are separate requests and may see
      different answers. */
  datatype World = World(
    reach: Result<bool>,
    syntax: UrlSyntax,
    connect: string -> Attempt,
    reputation: Result<Reply>,
    details: Result<Reply>,
    send: string -> Timed,
    browser: Browser,
    renderNanos: int,
    store: Store)

  /** The store does not accept the row: it fails outright, or it enforces
      the columns and the row breaks one. */
  predicate Refuses(store: Store, r: DomainResult)
  {
    store.StoreFailed? || (store.rejects.Some? && !FitsColumns(r))
  }

  /** The exception a refusing store raises. */
  function StoreError(store: Store): Exception
    requires store.StoreFailed? || store.rejects.Some?
  {
    if store.StoreFailed? then store.error else store.rejects.value
  }

  /** `save` of a record without an id. */
  function Save(r: DomainResult, store: Store): (res: Result<DomainResult>)
    ensures res.Thrown? <==> Refuses(store, r)
    ensures res.Thrown? ==> res.error == StoreError(store)
    ensures res.Ok? ==> Get(res.value, Id) == Number(Some(store.id))
    ensures res.Ok? ==> res.value.createdAt == (if r.createdAt.Some? then r.createdAt else Some(store.now))
    ensures res.Ok? ==> forall f :: f != Id && f != CreatedAt ==> Get(res.value, f) == Get(r, f)
  {
    match store
    case StoreFailed(e) => Thrown(e)
    case Stored(id, now, rejects) =>
      if rejects.Some? && !FitsColumns(r) then Thrown(rejects.value)
      else Ok(Set(OnCreate(r, now), Id, Number(Some(id))))
  }

  /** A saved record is the given one with its id assigned and its
      timestamp stamped. */
  lemma SavedRecord(r: DomainResult, store: Store)
    ensures Save(r, store).Ok? ==>
              Save(r, store).value == r.(id := Some(store.id), createdAt := Save(r, store).value.createdAt)
  {
    if Save(r, store).Ok? {
      var s := Save(r, store).value;
      GettersDetermineRecord(s, r.(id := Some(store.id), createdAt := s.createdAt));
    }
  }

  /** The properties that only the browser check writes. */
  predicate IsBrowserField(f: Field)
  {
    f == SeleniumReachable || f == SeleniumTitle || f == SeleniumPageSourceLength
    || f == SeleniumLoadTimeMs || f == SeleniumError
  }

  /** The reachability probe lets a non-I/O exception escape. */
  predicate ReachEscapes(world: World)
  {
    world.reach.Thrown? && !world.reach.error.isIo
  }

  /** The status probe lets a non-I/O exception escape. */
  predicate StatusEscapes(config: Config, host: string, world: World)
  {
    CheckHttpStatus(config, host, world.syntax, world.connect).value.Thrown?
  }

  /** The status code the probe returned. */
  function StatusOf(config: Config, host: string, world: World): int
    requires !StatusEscapes(config, host, world)
  {
    CheckHttpStatus(config, host, world.syntax, world.connect).value.value
  }

  /** A record holds what the probes of one check returned, in every
      property outside `id` and `createdAt`. */
  predicate Recorded(r: DomainResult, host: string, reachable: bool, status: int, config: Config, world: World)
  {
    && r.domain == Some(host) && r.reachable == Some(reachable) && r.httpStatus == Some(status)
    && r.virusCheck == Some(CheckVirusTotal(config, host, world.syntax, world.reputation).value)
    && r.virusDetails == GetVirusTotalDetails(config, host, world.syntax, world.details).value
    && r.curlCheck == Some(CheckCurlStyle(config, host, world.syntax, world.send).value)
    && HoldsBrowserOutcome(r, world.browser, world.renderNanos)
  }

  /** The reputation part of `checkDomain`: the label, the record built
      from the four probe values and the label, and the details. It makes
      the two reputation requests exactly when they can be built. */
  function Score(host: string, reachable: bool, status: int, config: Config, world: World): (p: Probed<DomainResult>)
    ensures p.value.domain == Some(host) && p.value.reachable == Some(reachable) && p.value.httpStatus == Some(status)
    ensures p.value.virusCheck == Some(CheckVirusTotal(config, host, world.syntax, world.reputation).value)
    ensures p.value.virusDetails == GetVirusTotalDetails(config, host, world.syntax, world.details).value
    ensures forall f :: !SetByConstructor(f) && f != VirusDetails ==> IsNull(Get(p.value, f))
    ensures p.value.id.None? && p.value.createdAt.None? && p.value.curlCheck.None? && WithoutBrowser(p.value) == p.value
    ensures Sends(config, world.syntax, host) ==> p.calls == [ReputationCall(config, host), ReputationCall(config, host)]
    ensures !Sends(config, world.syntax, host) ==> p.calls == []
  {
    var verdict := CheckVirusTotal(config, host, world.syntax, world.reputation);
    var r0 := Create(Some(host), Some(reachable), Some(status), Some(verdict.value));
    var details := GetVirusTotalDetails(config, host, world.syntax, world.details);
    Probed(r0.(virusDetails := details.value), verdict.calls + details.calls)
  }

  /** The part of `checkDomain` after the two probes that can throw: the
      reputation part, the curl-style summary and the browser results,
      before the record is saved. */
  function Collect(host: string, reachable: bool, status: int, config: Config, world: World): (p: Probed<DomainResult>)
    ensures p.value.id.None? && p.value.createdAt.None?
    ensures Recorded(p.value, host, reachable, status, config, world)
    ensures !HasKey(config) ==> QueryFree(p.calls)
  {
    var scored := Score(host, reachable, status, config, world);
    var curl := CheckCurlStyle(config, host, world.syntax, world.send);
    var r := scored.value.(curlCheck := Some(curl.value));
    assert WithoutBrowser(r) == r;
    var render := RunSeleniumCheck(r, world.browser, world.renderNanos);
    assert WithoutBrowser(render.value).virusCheck == r.virusCheck;
    assert QueryFree(curl.calls);
    BrowserQueryFree(r, world.browser, world.renderNanos);
    QueryFreeCollect(scored.calls, curl.calls, render.calls);
    Probed(render.value, scored.calls + curl.calls + render.calls)
  }

  lemma QueryFreeCollect(scored: seq<Call>, fetches: seq<Call>, browsing: seq<Call>)
    requires QueryFree(fetches) && QueryFree(browsing)
    ensures scored == [] ==> QueryFree(scored + fetches + browsing)
  {
    if scored == [] {
      assert QueryFree(scored);
      QueryFreeConcat(scored, fetches);
      QueryFreeConcat(scored + fetches, browsing);
    }
  }

  /** The browser check makes no reputation query. */
  lemma BrowserQueryFree(r: DomainResult, browser: Browser, elapsedNanos: int)
    ensures QueryFree(RunSeleniumCheck(r, browser, elapsedNanos).calls)
  {
  }

  /** No call of the list is a reputation query. */
  predicate QueryFree(calls: seq<Call>)
  {
    forall i :: 0 <= i < |calls| ==> !calls[i].Query?
  }

  lemma QueryFreeConcat(a: seq<Call>, b: seq<Call>)
    requires QueryFree(a) && QueryFree(b)
    ensures QueryFree(a + b)
  {
    forall i | 0 <= i < |a + b|
      ensures !(a + b)[i].Query?
    {
      if i >= |a| { assert (a + b)[i] == b[i - |a|]; }
    }
  }

  lemma QueryFreeTrace(a: seq<Call>, b: seq<Call>)
    ensures QueryFree(a) && QueryFree(b) ==> QueryFree(a + b + [Persist])
  {
    if QueryFree(a) && QueryFree(b) {
      QueryFreeConcat(a, b);
      assert QueryFree([Persist]);
      QueryFreeConcat(a + b, [Persist]);
    }
  }

  /** The reachability probe's answer, when it gave one: true exactly when
      the host answered. */
  function Reached(host: string, world: World): (b: bool)
    requires !ReachEscapes(world)
    ensures b <==> world.reach == Ok(true)
  {
    CheckReachable(host, world.reach).value.value
  }

  /** `checkDomain` from the cleaned host on: probe reachability, which may
      throw, then hand over to the status probe and the rest. */
  function CheckHost(host: string, config: Config, world: World): (p: Probed<Result<DomainResult>>)
    ensures ReachEscapes(world) ==> p == Probed(Thrown(world.reach.error), [Resolve(host, ReachTimeoutMs)])
    ensures !ReachEscapes(world) ==>
              var rest := Probe(host, Reached(host, world), config, world);
              p == Probed(rest.value, [Resolve(host, ReachTimeoutMs)] + rest.calls)
    ensures |p.calls| >= 1 && p.calls[0] == Resolve(host, ReachTimeoutMs)
  {
    var reach := CheckReachable(host, world.reach);
    if reach.value.Thrown? then
      Probed(Thrown(reach.value.error), reach.calls)
    else
      var rest := Probe(host, Reached(host, world), config, world);
      Probed(rest.value, reach.calls + rest.calls)
  }

  /** Only the two probes and the save can make the check fail, and the
      exception that ends a failed check is the one the first failing step
      raised: the reachability probe's, the status probe's, or the
      store's. */
  lemma CheckHostFails(host: string, config: Config, world: World)
    ensures var p := CheckHost(host, config, world);
            && (p.value.Thrown? <==>
                  || ReachEscapes(world) || StatusEscapes(config, host, world)
                  || Refuses(world.store, Collect(host, Reached(host, world), StatusOf(config, host, world), config, world).value))
            && (ReachEscapes(world) ==> p.value == Thrown(world.reach.error))
            && (!ReachEscapes(world) && StatusEscapes(config, host, world) ==>
                  p.value == Thrown(CheckHttpStatus(config, host, world.syntax, world.connect).value.error))
            && (!ReachEscapes(world) && !StatusEscapes(config, host, world) && p.value.Thrown? ==>
                  p.value.error == StoreError(world.store))
  {
  }

  /** A successful check stores what every probe returned, under the id and
      timestamp the store assigned, and its last call is the save. */
  lemma CheckHostRecords(host: string, config: Config, world: World)
    ensures var p := CheckHost(host, config, world);
            p.value.Ok? ==>
              && !ReachEscapes(world) && !StatusEscapes(config, host, world)
              && Recorded(p.value.value, host, Reached(host, world), StatusOf(config, host, world), config, world)
              && p.value.value.id == Some(world.store.id)
              && p.value.value.createdAt == Some(world.store.now)
              && p.calls[|p.calls| - 1] == Persist
  {
  }

  /** Without an API key no call of the check is a reputation query. */
  lemma CheckHostQueryFree(host: string, config: Config, world: World)
    ensures !HasKey(config) ==> QueryFree(CheckHost(host, config, world).calls)
  {
    if !HasKey(config) && !ReachEscapes(world) {
      var rest := Probe(host, Reached(host, world), config, world);
      assert QueryFree([Resolve(host, ReachTimeoutMs)]);
      QueryFreeConcat([Resolve(host, ReachTimeoutMs)], rest.calls);
    }
  }

  lemma QueryFreeConcatWhen(c: bool, a: seq<Call>, b: seq<Call>)
    requires QueryFree(a) && (c ==> QueryFree(b))
    ensures c ==> QueryFree(a + b)
  {
    if c {
      QueryFreeConcat(a, b);
    }
  }

  /** `checkDomain` after the reachability probe: the status probe, which
      may throw, then the rest, then the save. */
  function Probe(host: string, reachable: bool, config: Config, world: World): (p: Probed<Result<DomainResult>>)
    ensures p.value.Thrown? <==>
              || StatusEscapes(config, host, world)
              || Refuses(world.store, Collect(host, reachable, StatusOf(config, host, world), config, world).value)
    ensures StatusEscapes(config, host, world) ==>
              p.value == Thrown(CheckHttpStatus(config, host, world.syntax, world.connect).value.error)
    ensures !StatusEscapes(config, host, world) && p.value.Thrown? ==> p.value.error == StoreError(world.store)
    ensures var status := CheckHttpStatus(config, host, world.syntax, world.connect).calls;
            |p.calls| >= |status| && p.calls[..|status|] == status
    ensures p.value.Ok? ==>
              && Recorded(p.value.value, host, reachable, StatusOf(config, host, world), config, world)
              && p.value.value.id == Some(world.store.id)
              && p.value.value.createdAt == Some(world.store.now)
    ensures p.value.Ok? ==> |p.calls| >= 1 && p.calls[|p.calls| - 1] == Persist
    ensures !HasKey(config) ==> QueryFree(p.calls)
  {
    var status := CheckHttpStatus(config, host, world.syntax, world.connect);
    if status.value.Thrown? then
      assert QueryFree(status.calls);
      Probed(Thrown(status.value.error), status.calls)
    else
      var rest := Finish(host, reachable, status.value.value, config, world);
      QueryFreeConcatWhen(!HasKey(config), status.calls, rest.calls);
      assert (status.calls + rest.calls)[..|status.calls|] == status.calls;
      Probed(rest.value, status.calls + rest.calls)
  }

  /** `checkDomain` after both probes that can throw: collect the rest and
      save the record. */
  function Finish(host: string, reachable: bool, status: int, config: Config, world: World): (p: Probed<Result<DomainResult>>)
    ensures p.value.Thrown? <==> Refuses(world.store, Collect(host, reachable, status, config, world).value)
    ensures p.value.Thrown? ==> p.value.error == StoreError(world.store)
    ensures p.value.Ok? ==>
              && Recorded(p.value.value, host, reachable, status, config, world)
              && p.value.value.id == Some(world.store.id)
              && p.value.value.createdAt == Some(world.store.now)
    ensures |p.calls| >= 1 && p.calls[|p.calls| - 1] == Persist
    ensures !HasKey(config) ==> QueryFree(p.calls)
  {
    var rest := Collect(host, reachable, status, config, world);
    QueryFreeTrace([], rest.calls);
    assert [] + rest.calls == rest.calls;
    SavedRecord(rest.value, world.store);
    Probed(Save(rest.value, world.store), rest.calls + [Persist])
  }

  /** `checkDomain`: every probe and the stored record see the cleaned form
      of the input, never the raw input. */
  function CheckDomain(domain: string, config: Config, world: World): (p: Probed<Result<DomainResult>>)
    ensures p.value.Ok? ==> p.value.value.domain == Some(Clean(domain))
    ensures |p.calls| >= 1 && p.calls[0] == Resolve(Clean(domain), ReachTimeoutMs)
    ensures !HasKey(config) ==> QueryFree(p.calls)
  {
    CheckHostRecords(Clean(domain), config, world);
    CheckHostQueryFree(Clean(domain), config, world);
    CheckHost(Clean(domain), config, world)
  }

  /** The browser's strings fit their columns: the title of a loaded page,
      or the error text of a failed session. */
  predicate BrowserFits(browser: Browser)
  {
    if browser.Loaded? then InColumn(browser.title, SeleniumTitle)
    else Utf16Length(ErrorText(browser.error)) <= ColumnLength(SeleniumError)
  }

  /** Whatever the browser does, the check succeeds or fails alike, and a
      successful check stores the same values outside the browser
      properties, as long as a database that enforces the columns gets
      browser strings that fit them. */
  lemma BrowserNeverDecides(host: string, config: Config, world: World, browser: Browser)
    requires world.store.Stored? && world.store.rejects.Some? ==> BrowserFits(world.browser) && BrowserFits(browser)
    ensures var a := CheckHost(host, config, world);
            var b := CheckHost(host, config, world.(browser := browser));
            && (a.value.Ok? <==> b.value.Ok?)
            && (a.value.Ok? ==> WithoutBrowser(a.value.value) == WithoutBrowser(b.value.value))
  {
    var other := world.(browser := browser);
    assert ReachEscapes(other) == ReachEscapes(world);
    assert StatusEscapes(config, host, other) == StatusEscapes(config, host, world);
    CheckHostFails(host, config, world);
    CheckHostFails(host, config, other);
    CheckHostRecords(host, config, world);
    CheckHostRecords(host, config, other);
    if !ReachEscapes(world) && !StatusEscapes(config, host, world) {
      var reach := Reached(host, world);
      assert Reached(host, other) == reach;
      var status := StatusOf(config, host, world);
      CollectIgnoresBrowser(host, reach, status, config, world, browser);
      var a := CheckHost(host, config, world).value;
      var b := CheckHost(host, config, other).value;
      if a.Ok? {
        RecordedIgnoresBrowser(a.value, b.value, host, reach, status, config, world, browser);
      }
    }
  }

  /** The rows collected under two browser outcomes agree outside the
      browser properties, and only the browser strings can make one of them
      break a column the other fits. */
  lemma CollectIgnoresBrowser(host: string, reachable: bool, status: int, config: Config, world: World, browser: Browser)
    ensures var ra := Collect(host, reachable, status, config, world).value;
            var rb := Collect(host, reachable, status, config, world.(browser := browser)).value;
            && WithoutBrowser(ra) == WithoutBrowser(rb)
            && (FitsColumns(ra) <==> CoreColumnsFit(ra) && BrowserFits(world.browser))
            && (FitsColumns(rb) <==> CoreColumnsFit(ra) && BrowserFits(browser))
  {
    var other := world.(browser := browser);
    var ra := Collect(host, reachable, status, config, world).value;
    var rb := Collect(host, reachable, status, config, other).value;
    RecordedIgnoresBrowser(ra, rb, host, reachable, status, config, world, browser);
    CollectFits(host, reachable, status, config, world);
    CollectFits(host, reachable, status, config, other);
    assert CoreColumnsFit(ra) == CoreColumnsFit(WithoutBrowser(ra));
    assert CoreColumnsFit(rb) == CoreColumnsFit(WithoutBrowser(rb));
  }

  /** A collected row fits the table exactly when its probe strings and the
      browser's strings do. */
  lemma CollectFits(host: string, reachable: bool, status: int, config: Config, world: World)
    ensures var r := Collect(host, reachable, status, config, world).value;
            FitsColumns(r) <==> CoreColumnsFit(r) && BrowserFits(world.browser)
  {
    var r := Collect(host, reachable, status, config, world).value;
    assert HoldsBrowserOutcome(r, world.browser, world.renderNanos);
    BrowserColumnsFitOutcome(r, world.browser, world.renderNanos);
  }

  /** The browser columns of a row holding a browser outcome fit exactly
      when the browser's strings do. */
  lemma BrowserColumnsFitOutcome(r: DomainResult, browser: Browser, elapsedNanos: int)
    requires HoldsBrowserOutcome(r, browser, elapsedNanos)
    ensures BrowserColumnsFit(r) <==> BrowserFits(browser)
  {
  }

  /** Two records holding one check's probe values, under two browser
      outcomes, with the same id and timestamp, agree outside the browser
      properties. */
  lemma RecordedIgnoresBrowser(a: DomainResult, b: DomainResult, host: string, reachable: bool, status: int,
                               config: Config, world: World, browser: Browser)
    requires Recorded(a, host, reachable, status, config, world)
    requires Recorded(b, host, reachable, status, config, world.(browser := browser))
    requires a.id == b.id && a.createdAt == b.createdAt
    ensures WithoutBrowser(a) == WithoutBrowser(b)
  {
  }

  /** Saving two records that agree outside the browser properties gives
      records that still agree there, when the store's verdict on the
      browser columns is the same for both. */
  lemma SaveKeepsBrowserFree(a: DomainResult, b: DomainResult, store: Store)
    requires WithoutBrowser(a) == WithoutBrowser(b)
    requires store.Stored? && store.rejects.Some? ==> (BrowserColumnsFit(a) <==> BrowserColumnsFit(b))
    ensures Save(a, store).Ok? <==> Save(b, store).Ok?
    ensures Save(a, store).Ok? ==> WithoutBrowser(Save(a, store).value) == WithoutBrowser(Save(b, store).value)
  {
    assert a.createdAt == WithoutBrowser(a).createdAt;
    assert CoreColumnsFit(a) == CoreColumnsFit(WithoutBrowser(a));
    assert CoreColumnsFit(b) == CoreColumnsFit(WithoutBrowser(b));
  }

  /** With a database that enforces the columns, a page title longer than
      its column makes a check that got past both probes fail, with the
      database's exception. */
  lemma LongTitleFailsCheck(host: string, config: Config, world: World, title: string, source: Option<string>)
    requires world.store.Stored? && world.store.rejects.Some?
    requires !ReachEscapes(world) && !StatusEscapes(config, host, world)
    requires Utf16Length(title) > ColumnLength(SeleniumTitle)
    ensures CheckHost(host, config, world.(browser := Loaded(Some(title), source))).value == Thrown(world.store.rejects.value)
  {
    var other := world.(browser := Loaded(Some(title), source));
    assert ReachEscapes(other) == ReachEscapes(world);
    assert StatusEscapes(config, host, other) == StatusEscapes(config, host, world);
    BrowserRefusedFailsCheck(host, config, other);
  }

  /** With a column-enforcing store, browser strings that break their
      column make the check throw the store's exception, whatever the
      other probes returned. */
  lemma BrowserRefusedFailsCheck(host: string, config: Config, world: World)
    requires world.store.Stored? && world.store.rejects.Some?
    requires !ReachEscapes(world) && !StatusEscapes(config, host, world)
    requires !BrowserFits(world.browser)
    ensures CheckHost(host, config, world).value == Thrown(world.store.rejects.value)
  {
    CheckHostFails(host, config, world);
    CollectFits(host, Reached(host, world), StatusOf(config, host, world), config, world);
  }

  /** Checking the stored host name again is the same check as the first
      one, exactly when the cleaned name has no white space at either end;
      otherwise the recheck runs against the trimmed name. */
  lemma RecheckStoredHost(domain: string, config: Config, world: World)
    ensures Trim(Clean(domain)) == Clean(domain) ==>
              CheckDomain(Clean(domain), config, world) == CheckDomain(domain, config, world)
    ensures CheckDomain(Clean(domain), config, world) == CheckHost(Trim(Clean(domain)), config, world)
  {
    CleanTwice(domain);
  }

  /** A bare scheme is accepted and checked as the empty host. */
  lemma BareSchemeChecksEmptyHost(config: Config, world: World)
    ensures CheckDomain("http://", config, world) == CheckHost("", config, world)
  {
    CleanBareScheme();
  }
}
