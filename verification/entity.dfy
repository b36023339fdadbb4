/** The persisted result of one domain check: a record of nullable columns,
    its two constructors, its per-field accessors and the `@PrePersist`
    timestamp rule. */
module Entity {
  import opened Lang
  import opened Strings

  /** One row of `domain_results`. Timestamps (`createdAt`) are nanoseconds
      since midnight of 1970-01-01 in local time, the resolution of
      `LocalDateTime`. */
  datatype DomainResult = DomainResult(
    id: Option<int>,
    domain: Option<string>,
    reachable: Option<bool>,
    httpStatus: Option<int>,
    virusCheck: Option<string>,
    virusDetails: Option<string>,
    curlCheck: Option<string>,
    createdAt: Option<int>,
    seleniumReachable: Option<bool>,
    seleniumTitle: Option<string>,
    seleniumPageSourceLength: Option<int>,
    seleniumLoadTimeMs: Option<int>,
    seleniumError: Option<string>)

  /** The record's properties, one per getter/setter pair. */
  datatype Field =
    | Id | Domain | Reachable | HttpStatus | VirusCheck | VirusDetails | CurlCheck | CreatedAt
    | SeleniumReachable | SeleniumTitle | SeleniumPageSourceLength | SeleniumLoadTimeMs | SeleniumError

  /** A property value: a nullable string, boolean or number. */
  datatype Value = Text(text: Option<string>) | Flag(flag: Option<bool>) | Number(number: Option<int>)

  predicate IsNull(v: Value)
  {
    match v
    case Text(t) => t.None?
    case Flag(b) => b.None?
    case Number(n) => n.None?
  }

  /** The Java type of each property: `String`, `Boolean`, or one of
      `Long`, `Integer`, `LocalDateTime`. */
  predicate Fits(f: Field, v: Value)
  {
    match f
    case Domain | VirusCheck | VirusDetails | CurlCheck | SeleniumTitle | SeleniumError => v.Text?
    case Reachable | SeleniumReachable => v.Flag?
    case Id | HttpStatus | CreatedAt | SeleniumPageSourceLength | SeleniumLoadTimeMs => v.Number?
  }

  /** The declared `length` of a string column: 4000 for the details, 2000
      for the browser error, and the JPA default of 255 for the others. */
  function ColumnLength(f: Field): nat
  {
    if f == VirusDetails then 4000 else if f == SeleniumError then 2000 else 255
  }

  /** A nullable string fits column `f`, its length counted in Java
      chars. */
  predicate InColumn(s: Option<string>, f: Field)
  {
    s.None? || Utf16Length(s.value) <= ColumnLength(f)
  }

  /** The row satisfies the table outside the browser columns: the two
      `nullable = false` columns are set and each string fits. */
  predicate CoreColumnsFit(r: DomainResult)
  {
    && r.domain.Some? && r.reachable.Some?
    && InColumn(r.domain, Domain) && InColumn(r.virusCheck, VirusCheck)
    && InColumn(r.virusDetails, VirusDetails) && InColumn(r.curlCheck, CurlCheck)
  }

  /** The browser's two string columns fit. */
  predicate BrowserColumnsFit(r: DomainResult)
  {
    InColumn(r.seleniumTitle, SeleniumTitle) && InColumn(r.seleniumError, SeleniumError)
  }

  /** The row can be inserted into a database that enforces the column
      definitions. */
  predicate FitsColumns(r: DomainResult)
  {
    CoreColumnsFit(r) && BrowserColumnsFit(r)
  }

  /** The getters. */
  function Get(r: DomainResult, f: Field): (v: Value)
    ensures Fits(f, v)
  {
    match f
    case Id => Number(r.id)
    case Domain => Text(r.domain)
    case Reachable => Flag(r.reachable)
    case HttpStatus => Number(r.httpStatus)
    case VirusCheck => Text(r.virusCheck)
    case VirusDetails => Text(r.virusDetails)
    case CurlCheck => Text(r.curlCheck)
    case CreatedAt => Number(r.createdAt)
    case SeleniumReachable => Flag(r.seleniumReachable)
    case SeleniumTitle => Text(r.seleniumTitle)
    case SeleniumPageSourceLength => Number(r.seleniumPageSourceLength)
    case SeleniumLoadTimeMs => Number(r.seleniumLoadTimeMs)
    case SeleniumError => Text(r.seleniumError)
  }

  /** Two records are the same exactly when every getter agrees. */
  lemma GettersDetermineRecord(a: DomainResult, b: DomainResult)
    requires forall f :: Get(a, f) == Get(b, f)
    ensures a == b
  {
    assert Get(a, Id) == Get(b, Id);
    assert Get(a, Domain) == Get(b, Domain);
    assert Get(a, Reachable) == Get(b, Reachable);
    assert Get(a, HttpStatus) == Get(b, HttpStatus);
    assert Get(a, VirusCheck) == Get(b, VirusCheck);
    assert Get(a, VirusDetails) == Get(b, VirusDetails);
    assert Get(a, CurlCheck) == Get(b, CurlCheck);
    assert Get(a, CreatedAt) == Get(b, CreatedAt);
    assert Get(a, SeleniumReachable) == Get(b, SeleniumReachable);
    assert Get(a, SeleniumTitle) == Get(b, SeleniumTitle);
    assert Get(a, SeleniumPageSourceLength) == Get(b, SeleniumPageSourceLength);
    assert Get(a, SeleniumLoadTimeMs) == Get(b, SeleniumLoadTimeMs);
    assert Get(a, SeleniumError) == Get(b, SeleniumError);
  }

  /** The setters: `Set(r, f, v)` is `r.setF(v)`. It changes the property it
      names and no other. */
  function Set(r: DomainResult, f: Field, v: Value): (r': DomainResult)
    requires Fits(f, v)
    ensures Get(r', f) == v
    ensures forall g :: g != f ==> Get(r', g) == Get(r, g)
  {
    match f
    case Id => r.(id := v.number)
    case Domain => r.(domain := v.text)
    case Reachable => r.(reachable := v.flag)
    case HttpStatus => r.(httpStatus := v.number)
    case VirusCheck => r.(virusCheck := v.text)
    case VirusDetails => r.(virusDetails := v.text)
    case CurlCheck => r.(curlCheck := v.text)
    case CreatedAt => r.(createdAt := v.number)
    case SeleniumReachable => r.(seleniumReachable := v.flag)
    case SeleniumTitle => r.(seleniumTitle := v.text)
    case SeleniumPageSourceLength => r.(seleniumPageSourceLength := v.number)
    case SeleniumLoadTimeMs => r.(seleniumLoadTimeMs := v.number)
    case SeleniumError => r.(seleniumError := v.text)
  }

  /** Setting a property twice keeps the last value. */
  lemma SetTwice(r: DomainResult, f: Field, v: Value, w: Value)
    requires Fits(f, v) && Fits(f, w)
    ensures Set(Set(r, f, v), f, w) == Set(r, f, w)
  {
    GettersDetermineRecord(Set(Set(r, f, v), f, w), Set(r, f, w));
  }

  /** Setting two different properties commutes. */
  lemma SetCommutes(r: DomainResult, f: Field, g: Field, v: Value, w: Value)
    requires Fits(f, v) && Fits(g, w) && f != g
    ensures Set(Set(r, f, v), g, w) == Set(Set(r, g, w), f, v)
  {
    GettersDetermineRecord(Set(Set(r, f, v), g, w), Set(Set(r, g, w), f, v));
  }

  /** Setting a property to the value its getter returns changes nothing. */
  lemma SetOwnValue(r: DomainResult, f: Field)
    ensures Set(r, f, Get(r, f)) == r
  {
    GettersDetermineRecord(Set(r, f, Get(r, f)), r);
  }

  /** `new DomainResult()`: every property null. */
  function Empty(): (r: DomainResult)
    ensures forall f :: IsNull(Get(r, f))
  {
    DomainResult(None, None, None, None, None, None, None, None, None, None, None, None, None)
  }

  /** The properties the four-argument constructor assigns. */
  predicate SetByConstructor(f: Field)
  {
    f == Domain || f == Reachable || f == HttpStatus || f == VirusCheck
  }

  /** `new DomainResult(domain, reachable, httpStatus, virusCheck)`: those
      four properties hold the arguments, every other one is null. */
  function Create(domain: Option<string>, reachable: Option<bool>, httpStatus: Option<int>, virusCheck: Option<string>): (r: DomainResult)
    ensures Get(r, Domain) == Text(domain)
    ensures Get(r, Reachable) == Flag(reachable)
    ensures Get(r, HttpStatus) == Number(httpStatus)
    ensures Get(r, VirusCheck) == Text(virusCheck)
    ensures forall f :: !SetByConstructor(f) ==> IsNull(Get(r, f))
  {
    Empty().(domain := domain, reachable := reachable, httpStatus := httpStatus, virusCheck := virusCheck)
  }

  /** The `@PrePersist` hook: stamps `createdAt` with the current time `now`
      when it is null, and otherwise leaves the record alone. */
  function OnCreate(r: DomainResult, now: int): (r': DomainResult)
    ensures r.createdAt.Some? ==> r' == r
    ensures r.createdAt.None? ==> r'.createdAt == Some(now)
    ensures forall g :: g != CreatedAt ==> Get(r', g) == Get(r, g)
  {
    if r.createdAt.None? then Set(r, CreatedAt, Number(Some(now))) else r
  }

  /** Once stamped, a record keeps its timestamp: a second `onCreate`, at
      any later time, changes nothing. */
  lemma OnCreateIdempotent(r: DomainResult, now: int, later: int)
    ensures OnCreate(r, now).createdAt.Some?
    ensures OnCreate(OnCreate(r, now), later) == OnCreate(r, now)
  {
  }
}
