/** `DomainController.applyFilters` and its date helpers: the list page's
    five optional request parameters, each either absent (null), blank, or
    a constraint on a record. */
module Filters {
  import opened Lang
  import opened Strings
  import opened Entity

  /** The optional `domain`, `reachable`, `safety`, `startDate` and
      `endDate` request parameters. */
  datatype Filters = Filters(
    domain: Option<string>,
    reachable: Option<string>,
    safety: Option<string>,
    startDate: Option<string>,
    endDate: Option<string>)

  const NoFilters: Filters := Filters(None, None, None, None, None)

  /** `LocalDate.parse`: the ISO calendar date a string denotes, as a day
      number counted from 1970-01-01, or `None` when it does not parse. */
  type DateParser = string -> Option<int>

  const NanosPerSecond: int := 1_000_000_000
  const SecondsPerDay: int := 86_400
  const NanosPerDay: int := SecondsPerDay * NanosPerSecond
  /** 23:59:59 as seconds after midnight. */
  const LastSecond: int := 23 * 3600 + 59 * 60 + 59

  /** `parseDateStart`: midnight at the start of the given day; `None` for a
      null, blank or unparseable parameter. */
  function ParseDateStart(iso: Option<string>, parse: DateParser): (t: Option<int>)
    ensures t.Some? <==> !NullOrBlank(iso) && parse(iso.value).Some?
    ensures t.Some? ==> t.value % NanosPerDay == 0 && t.value / NanosPerDay == parse(iso.value).value
  {
    if NullOrBlank(iso) then None
    else match parse(iso.value)
      case None => None
      case Some(day) => Some(day * NanosPerDay)
  }

  /** `parseDateEnd`: 23:59:59 on the given day; `None` for a null, blank or
      unparseable parameter. */
  function ParseDateEnd(iso: Option<string>, parse: DateParser): (t: Option<int>)
    ensures t.Some? <==> !NullOrBlank(iso) && parse(iso.value).Some?
    ensures t.Some? ==> t.value % NanosPerDay == LastSecond * NanosPerSecond
                        && t.value / NanosPerDay == parse(iso.value).value
  {
    if NullOrBlank(iso) then None
    else match parse(iso.value)
      case None => None
      case Some(day) => Some(day * NanosPerDay + LastSecond * NanosPerSecond)
  }

  /** `normalizeIsoDate`: the parameter itself when it parses as a date, and
      the empty string otherwise, null included. */
  function NormalizeIsoDate(iso: Option<string>, parse: DateParser): (s: string)
    ensures s == [] || (iso.Some? && s == iso.value && parse(s).Some?)
    ensures iso.Some? && parse(iso.value).Some? ==> s == iso.value
  {
    match iso
    case None => []
    case Some(v) => if parse(v).Some? then v else []
  }

  /** Feeding a normalised date back in (as the export links do) yields the
      same bound as the original parameter, provided the empty string does
      not parse. */
  lemma NormalizeKeepsBounds(iso: Option<string>, parse: DateParser)
    requires parse([]).None?
    ensures ParseDateStart(Some(NormalizeIsoDate(iso, parse)), parse) == ParseDateStart(iso, parse)
    ensures ParseDateEnd(Some(NormalizeIsoDate(iso, parse)), parse) == ParseDateEnd(iso, parse)
  {
  }

  /** The inclusive interval the two date parameters bound. */
  datatype Bounds = Bounds(start: Option<int>, end: Option<int>)

  function BoundsOf(f: Filters, parse: DateParser): Bounds
  {
    Bounds(ParseDateStart(f.startDate, parse), ParseDateEnd(f.endDate, parse))
  }

  // ----- the per-record predicates -----

  /** Case-insensitive substring match on the domain. */
  predicate MatchesDomain(r: DomainResult, filter: Option<string>)
  {
    NullOrBlank(filter) || (r.domain.Some? && Contains(ToLower(r.domain.value), ToLower(filter.value)))
  }

  /** `yes` and `no`, in any case, select reachable and unreachable records;
      any other non-blank value selects nothing. */
  predicate MatchesReachable(r: DomainResult, filter: Option<string>)
  {
    || NullOrBlank(filter)
    || (EqualsIgnoreCase("yes", filter.value) && r.reachable == Some(true))
    || (EqualsIgnoreCase("no", filter.value) && r.reachable == Some(false))
  }

  /** `safe` and `unsafe`, in any case, select records whose lower-cased
      reputation label contains that word; any other non-blank value
      selects nothing. */
  predicate MatchesSafety(r: DomainResult, filter: Option<string>)
  {
    || NullOrBlank(filter)
    || (EqualsIgnoreCase("safe", filter.value) && r.virusCheck.Some? && Contains(ToLower(r.virusCheck.value), "safe"))
    || (EqualsIgnoreCase("unsafe", filter.value) && r.virusCheck.Some? && Contains(ToLower(r.virusCheck.value), "unsafe"))
  }

  /** A record without a timestamp never passes; otherwise it must lie
      within both bounds that are present, ends included. */
  predicate CreatedWithin(r: DomainResult, b: Bounds)
  {
    && r.createdAt.Some?
    && (b.start.None? || !(r.createdAt.value < b.start.value))
    && (b.end.None? || !(r.createdAt.value > b.end.value))
  }

  /** What a record is matched against: the three text parameters and the
      parsed date bounds. */
  datatype Criteria = Criteria(domain: Option<string>, reachable: Option<string>, safety: Option<string>, bounds: Bounds)

  function CriteriaOf(f: Filters, parse: DateParser): Criteria
  {
    Criteria(f.domain, f.reachable, f.safety, BoundsOf(f, parse))
  }

  predicate Admits(r: DomainResult, c: Criteria)
  {
    MatchesDomain(r, c.domain) && MatchesReachable(r, c.reachable) && MatchesSafety(r, c.safety) && CreatedWithin(r, c.bounds)
  }

  // ----- the filter itself -----

  /** `a` is `b` with some elements left out, order kept (greedy matching). */
  predicate IsSubsequence(a: seq<DomainResult>, b: seq<DomainResult>)
    decreases |b|
  {
    if |a| == 0 then true
    else if |b| == 0 then false
    else if a[0] == b[0] then IsSubsequence(a[1..], b[1..])
    else IsSubsequence(a, b[1..])
  }

  /** The stream pipeline: the admitted records, in input order. */
  function Select(input: seq<DomainResult>, c: Criteria): (out: seq<DomainResult>)
    ensures |out| <= |input|
    ensures forall r :: r in out <==> r in input && Admits(r, c)
    ensures IsSubsequence(out, input)
    decreases |input|
  {
    if |input| == 0 then []
    else
      var rest := Select(input[1..], c);
      assert input == [input[0]] + input[1..];
      if Admits(input[0], c) then [input[0]] + rest
      else
        assert rest != [] ==> rest[0] in rest;
        rest
  }

  /** Filtering keeps every copy of an admitted record and no copy of any
      other record. */
  lemma {:induction false} SelectCounts(input: seq<DomainResult>, c: Criteria)
    ensures forall r :: multiset(Select(input, c))[r] == if Admits(r, c) then multiset(input)[r] else 0
    decreases |input|
  {
    if |input| > 0 {
      SelectCounts(input[1..], c);
      assert input == [input[0]] + input[1..];
    }
  }

  /** `applyFilters`. */
  function ApplyFilters(input: seq<DomainResult>, f: Filters, parse: DateParser): (out: seq<DomainResult>)
    ensures IsSubsequence(out, input)
    ensures forall r :: r in out <==> r in input && Admits(r, CriteriaOf(f, parse))
    ensures forall r :: multiset(out)[r] == if Admits(r, CriteriaOf(f, parse)) then multiset(input)[r] else 0
  {
    SelectCounts(input, CriteriaOf(f, parse));
    Select(input, CriteriaOf(f, parse))
  }

  /** A criterion no record meets selects nothing. */
  lemma {:induction false} SelectNothing(input: seq<DomainResult>, c: Criteria)
    requires forall r :: !Admits(r, c)
    ensures Select(input, c) == []
    decreases |input|
  {
    if |input| > 0 {
      SelectNothing(input[1..], c);
    }
  }

  /** A list whose every record is admitted passes unchanged. */
  lemma {:induction false} SelectKeepsAdmitted(xs: seq<DomainResult>, c: Criteria)
    requires forall r :: r in xs ==> Admits(r, c)
    ensures Select(xs, c) == xs
    decreases |xs|
  {
    if |xs| > 0 {
      assert xs[0] in xs;
      assert forall r :: r in xs[1..] ==> r in xs;
      SelectKeepsAdmitted(xs[1..], c);
    }
  }

  /** Filtering a list with one more record at the end. */
  lemma {:induction false} SelectSnoc(xs: seq<DomainResult>, x: DomainResult, c: Criteria)
    ensures Select(xs + [x], c) == Select(xs, c) + (if Admits(x, c) then [x] else [])
    decreases |xs|
  {
    if |xs| == 0 {
      assert [x][1..] == [];
    } else {
      assert (xs + [x])[1..] == xs[1..] + [x];
      SelectSnoc(xs[1..], x, c);
    }
  }

  /** Filtering twice with the same parameters is filtering once. */
  lemma ApplyFiltersIdempotent(input: seq<DomainResult>, f: Filters, parse: DateParser)
    ensures ApplyFilters(ApplyFilters(input, f, parse), f, parse) == ApplyFilters(input, f, parse)
  {
    SelectKeepsAdmitted(ApplyFilters(input, f, parse), CriteriaOf(f, parse));
  }

  /** Without any parameter, exactly the time-stamped records remain. */
  lemma NoFiltersKeepStamped(input: seq<DomainResult>, parse: DateParser, r: DomainResult)
    ensures r in ApplyFilters(input, NoFilters, parse) <==> r in input && r.createdAt.Some?
  {
  }

  /** A reachable value other than `yes` or `no` empties the result. */
  lemma UnknownReachableSelectsNothing(input: seq<DomainResult>, f: Filters, parse: DateParser)
    requires !NullOrBlank(f.reachable)
    requires !EqualsIgnoreCase("yes", f.reachable.value) && !EqualsIgnoreCase("no", f.reachable.value)
    ensures ApplyFilters(input, f, parse) == []
  {
    SelectNothing(input, CriteriaOf(f, parse));
  }

  /** A safety value other than `safe` or `unsafe` empties the result. */
  lemma UnknownSafetySelectsNothing(input: seq<DomainResult>, f: Filters, parse: DateParser)
    requires !NullOrBlank(f.safety)
    requires !EqualsIgnoreCase("safe", f.safety.value) && !EqualsIgnoreCase("unsafe", f.safety.value)
    ensures ApplyFilters(input, f, parse) == []
  {
    SelectNothing(input, CriteriaOf(f, parse));
  }

  /** A date that does not parse imposes no bound: the result is the one
      without that parameter. */
  lemma UnparseableDateIsNoBound(input: seq<DomainResult>, f: Filters, parse: DateParser)
    requires f.startDate.Some? && parse(f.startDate.value).None?
    requires f.endDate.Some? && parse(f.endDate.value).None?
    ensures ApplyFilters(input, f, parse) == ApplyFilters(input, f.(startDate := None, endDate := None), parse)
  {
    assert CriteriaOf(f, parse) == CriteriaOf(f.(startDate := None, endDate := None), parse);
  }

  /** `unsafe` contains `safe`: the `safe` filter also admits records
      labelled `Unsafe`. */
  lemma SafeFilterAdmitsUnsafe(r: DomainResult)
    requires r.virusCheck == Some("Unsafe")
    ensures MatchesSafety(r, Some("safe"))
    ensures MatchesSafety(r, Some("unsafe"))
  {
    assert ToLower("Unsafe") == "unsafe";
    assert OccursAt("unsafe", "safe", 2);
    assert OccursAt("unsafe", "unsafe", 0);
    assert EqualsIgnoreCase("safe", "safe");
  }

  /** The end bound is 23:59:59, not the end of the day: a record stamped
      on the end day passes exactly when it is no later than that second. */
  lemma EndOfDayCutoff(iso: string, parse: DateParser, t: int)
    requires !IsBlank(iso) && parse(iso).Some?
    requires t / NanosPerDay == parse(iso).value
    ensures t <= ParseDateEnd(Some(iso), parse).value <==> t % NanosPerDay <= LastSecond * NanosPerSecond
  {
    var day := parse(iso).value;
    assert t == day * NanosPerDay + t % NanosPerDay;
  }
}
