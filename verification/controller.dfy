/** `DomainController`: the single and API check endpoints with their input
    guards, the bulk loop, and the list page's pagination, statistics and
    export query string. */
module Controller {
  import opened Lang
  import opened Strings
  import opened Entity
  import opened Normalizer
  import opened Probes
  import opened Service
  import opened Filters

  /** The controller's view of the injected service: `checkDomain` on the
      string it is handed, returning the saved record or throwing, with the
      calls it made. `ServiceFor` is the service of this model. */
  type Checker = string -> Probed<Result<DomainResult>>

  function ServiceFor(config: Config, world: World): Checker
  {
    d => CheckDomain(d, config, world)
  }

  // ----- single check form -----

  const EmptyDomainMessage: string := "Please enter a domain name"
  const CheckedPrefix: string := "Domain check completed successfully for: "
  const CheckFailedPrefix: string := "Error checking domain: "

  /** Where the form post leads: back to the form with an error, or to the
      list with a success message and the new record, or to the list with
      an error. */
  datatype Submission =
    | Rejected(message: string)
    | Accepted(message: string, latest: DomainResult)
    | CheckFailed(message: string)

  function RedirectOf(s: Submission): string
  {
    if s.Rejected? then "redirect:/" else "redirect:/domains/list"
  }

  /** The form guard: a null parameter, or one that trims to nothing. */
  predicate TrimsToNothing(domain: Option<string>)
  {
    domain.None? || Trim(domain.value) == []
  }

  /** `checkDomain` (the form post): rejects before any request when the
      input trims to nothing; otherwise hands the trimmed input to the
      service and reports the stored host, or the exception's message. */
  function SubmitDomain(domain: Option<string>, service: Checker): (p: Probed<Submission>)
    ensures p.value.Rejected? <==> TrimsToNothing(domain)
    ensures p.value.Rejected? ==> p.value.message == EmptyDomainMessage && p.calls == []
    ensures !TrimsToNothing(domain) ==>
              var check := service(Trim(domain.value));
              && p.calls == check.calls
              && (p.value.Accepted? <==> check.value.Ok?)
              && (p.value.Accepted? ==> p.value.latest == check.value.value
                                        && p.value.message == CheckedPrefix + StringOf(check.value.value.domain))
              && (p.value.CheckFailed? ==> p.value.message == CheckFailedPrefix + StringOf(check.value.error.message))
  {
    if TrimsToNothing(domain) then Probed(Rejected(EmptyDomainMessage), [])
    else
      var check := service(Trim(domain.value));
      match check.value
      case Ok(r) => Probed(Accepted(CheckedPrefix + StringOf(r.domain), r), check.calls)
      case Thrown(e) => Probed(CheckFailed(CheckFailedPrefix + StringOf(e.message)), check.calls)
  }

  /** With this model's service, the form reports the cleaned host, and the
      controller's own trim makes no difference to what is checked. */
  lemma SubmitReportsCleanHost(domain: string, config: Config, world: World)
    requires Trim(domain) != []
    ensures var p := SubmitDomain(Some(domain), ServiceFor(config, world));
            && p.calls == CheckDomain(domain, config, world).calls
            && (p.value.Accepted? <==> CheckDomain(domain, config, world).value.Ok?)
            && (p.value.Accepted? ==> p.value.message == CheckedPrefix + Clean(domain))
  {
    CleanOfTrim(domain);
  }

  /** The guard looks at the raw input only: a bare scheme passes it and is
      checked as the empty host. */
  lemma BareSchemePassesGuard(config: Config, world: World)
    ensures !SubmitDomain(Some("http://"), ServiceFor(config, world)).value.Rejected?
    ensures SubmitDomain(Some("http://"), ServiceFor(config, world)).calls == CheckHost("", config, world).calls
  {
    CleanBareScheme();
    SubmitReportsCleanHost("http://", config, world);
    BareSchemeChecksEmptyHost(config, world);
  }

  // ----- API endpoint -----

  const ApiErrorPrefix: string := "Error: "
  const ApiErrorStatus: int := -1

  /** `apiCheckDomain`: the stored record, or, when the check throws, an
      unsaved record carrying the raw input, unreachable, status -1 and the
      message in place of a reputation label. There is no blank guard. */
  function ApiCheckDomain(domain: string, service: Checker): (p: Probed<DomainResult>)
    ensures p.calls == service(Trim(domain)).calls
    ensures service(Trim(domain)).value.Ok? ==> p.value == service(Trim(domain)).value.value
    ensures service(Trim(domain)).value.Thrown? ==>
              var e := service(Trim(domain)).value.error;
              && Get(p.value, Domain) == Text(Some(domain))
              && Get(p.value, Reachable) == Flag(Some(false))
              && Get(p.value, HttpStatus) == Number(Some(ApiErrorStatus))
              && Get(p.value, VirusCheck) == Text(Some(ApiErrorPrefix + StringOf(e.message)))
              && (forall f :: !SetByConstructor(f) ==> IsNull(Get(p.value, f)))
  {
    var check := service(Trim(domain));
    match check.value
    case Ok(r) => Probed(r, check.calls)
    case Thrown(e) => Probed(Create(Some(domain), Some(false), Some(ApiErrorStatus), Some(ApiErrorPrefix + StringOf(e.message))), check.calls)
  }

  /** With this model's service, an API call checks exactly what the form
      would, and a failure keeps the raw, uncleaned input. */
  lemma ApiMatchesForm(domain: string, config: Config, world: World)
    requires Trim(domain) != []
    ensures var p := ApiCheckDomain(domain, ServiceFor(config, world));
            var q := SubmitDomain(Some(domain), ServiceFor(config, world));
            && p.calls == q.calls
            && (q.value.Accepted? ==> p.value == q.value.latest)
            && (q.value.CheckFailed? ==> p.value.domain == Some(domain) && p.value.id.None?)
  {
  }

  /** An API error record cannot be mistaken for a checked one: its
      reputation text is never one of the four labels. */
  lemma ApiErrorIsNoLabel(message: Option<string>)
    ensures !IsLabel(ApiErrorPrefix + StringOf(message))
  {
    var s := ApiErrorPrefix + StringOf(message);
    assert s[5] == ':';
    assert ErrorLabel[5] == '/';
    assert s[0] != NotCheckedLabel[0] && s[0] != UnsafeLabel[0] && s[0] != SafeLabel[0];
  }

  // ----- bulk check -----

  const BulkEmptyMessage: string := "Please enter domain names"

  /** One line of the bulk text as the loop prepares it: trimmed, then every
      double quote and every tab removed. */
  function BulkDomain(line: string): (d: string)
    ensures '"' !in d && '\t' !in d
    ensures |d| <= |line|
    ensures forall x :: x != '"' && x != '\t' ==> multiset(d)[x] == multiset(Trim(line))[x]
  {
    var inner := RemoveAll(Trim(line), '"');
    assert multiset(RemoveAll(inner, '\t'))['"'] == multiset(inner)['"'];
    RemoveAll(inner, '\t')
  }

  /** Every line of the text, prepared. */
  function Prepared(lines: seq<string>): seq<string>
  {
    seq(|lines|, i requires 0 <= i < |lines| => BulkDomain(lines[i]))
  }

  /** The strings of `xs` that are not empty, in order: the lines the loop
      does not skip. */
  function NonEmpty(xs: seq<string>): (ys: seq<string>)
    ensures |ys| <= |xs|
  {
    if |xs| == 0 then []
    else NonEmpty(xs[..|xs| - 1]) + (if xs[|xs| - 1] == [] then [] else [xs[|xs| - 1]])
  }

  /** `NonEmpty` keeps exactly the non-empty strings: every one it returns
      is one of `xs`, none is empty, and each non-empty string is kept as
      often as it occurs. */
  lemma {:induction false} NonEmptyKeeps(xs: seq<string>)
    ensures forall i :: 0 <= i < |NonEmpty(xs)| ==> NonEmpty(xs)[i] != [] && NonEmpty(xs)[i] in xs
    ensures multiset(NonEmpty(xs)) == multiset(xs)[[] := 0]
  {
    if |xs| > 0 {
      var init := xs[..|xs| - 1];
      NonEmptyKeeps(init);
      assert xs == init + [xs[|xs| - 1]];
      var ys := NonEmpty(xs);
      forall i | 0 <= i < |ys|
        ensures ys[i] != [] && ys[i] in xs
      {
        if i < |NonEmpty(init)| {
          assert ys[i] == NonEmpty(init)[i];
          assert ys[i] in init;
        } else {
          assert ys[i] == xs[|xs| - 1];
        }
      }
    }
  }

  /** The domains the loop checks, in order: the prepared lines that are not
      empty. */
  function Candidates(lines: seq<string>): (ds: seq<string>)
    ensures |ds| <= |lines|
  {
    NonEmpty(Prepared(lines))
  }

  /** Every candidate is non-empty, quote- and tab-free, and is the
      prepared form of a line of the text. */
  lemma CandidatesAreStripped(lines: seq<string>)
    ensures forall d :: d in Candidates(lines) ==>
              d != [] && '"' !in d && '\t' !in d && exists j :: 0 <= j < |lines| && d == BulkDomain(lines[j])
  {
    var ps := Prepared(lines);
    NonEmptyKeeps(ps);
    forall d | d in Candidates(lines)
      ensures d != [] && '"' !in d && '\t' !in d && exists j :: 0 <= j < |lines| && d == BulkDomain(lines[j])
    {
      var i :| 0 <= i < |Candidates(lines)| && Candidates(lines)[i] == d;
      var j :| 0 <= j < |ps| && ps[j] == d;
    }
  }

  /** No line is lost: the prepared form of every line that is not empty
      after preparation is checked, as often as such lines occur. */
  lemma CandidatesKeepEveryDomain(lines: seq<string>)
    ensures forall d :: d != [] ==> multiset(Candidates(lines))[d] == multiset(Prepared(lines))[d]
    ensures forall j :: 0 <= j < |lines| && BulkDomain(lines[j]) != [] ==> BulkDomain(lines[j]) in Candidates(lines)
  {
    var ps := Prepared(lines);
    var cs := Candidates(lines);
    assert cs == NonEmpty(ps);
    NonEmptyKeeps(ps);
    forall d | d != []
      ensures multiset(cs)[d] == multiset(ps)[d]
    {
      assert multiset(ps)[[] := 0][d] == multiset(ps)[d];
    }
    forall j | 0 <= j < |lines| && BulkDomain(lines[j]) != []
      ensures BulkDomain(lines[j]) in cs
    {
      var d := ps[j];
      assert d in multiset(ps);
      assert multiset(cs)[d] == multiset(ps)[d];
    }
  }

  /** How many of the checks succeed, the i-th made by
      `checks(i)`. */
  function Successes(ds: seq<string>, checks: nat -> Checker): (n: nat)
    ensures n <= |ds|
  {
    if |ds| == 0 then 0
    else
      var last := checks(|ds| - 1)(ds[|ds| - 1]);
      Successes(ds[..|ds| - 1], checks) + (if last.value.Ok? then 1 else 0)
  }

  /** The calls of all the checks, one after the other. */
  function BulkCalls(ds: seq<string>, checks: nat -> Checker): seq<Call>
  {
    if |ds| == 0 then []
    else BulkCalls(ds[..|ds| - 1], checks) + checks(|ds| - 1)(ds[|ds| - 1]).calls
  }

  datatype BulkOutcome =
    | BulkRejected(message: string)
    | BulkDone(processed: nat, succeeded: nat, message: string)

  const BulkDonePrefix: string := "Bulk check completed! Processed "
  const BulkDoneMiddle: string := " domains, "
  const BulkDoneSuffix: string := " successful checks."

  function BulkMessage(processed: nat, succeeded: nat): string
  {
    BulkDonePrefix + IntToString(processed) + BulkDoneMiddle + IntToString(succeeded) + BulkDoneSuffix
  }

  /** The report names both counts: two reports read alike only when their
      counts agree. */
  lemma BulkMessageDeterminesCounts(p1: nat, s1: nat, p2: nat, s2: nat)
    ensures BulkMessage(p1, s1) == BulkMessage(p2, s2) ==> p1 == p2 && s1 == s2
  {
    if BulkMessage(p1, s1) == BulkMessage(p2, s2) {
      assert BulkDoneMiddle[0] == ' ' && BulkDoneSuffix[0] == ' ';
      TwoCountsSplit(BulkDonePrefix, IntToString(p1), BulkDoneMiddle, IntToString(s1), BulkDoneSuffix,
                     IntToString(p2), IntToString(s2));
      IntToStringRoundTrip(p1);
      IntToStringRoundTrip(p2);
      IntToStringRoundTrip(s1);
      IntToStringRoundTrip(s2);
    }
  }

  /** Two digit runs, each followed by a text opening with a non-digit, are
      read back from the whole. */
  lemma TwoCountsSplit(pre: string, a1: string, mid: string, b1: string, suf: string, a2: string, b2: string)
    requires AllDigits(a1) && AllDigits(b1) && AllDigits(a2) && AllDigits(b2)
    requires |mid| > 0 && !IsDigit(mid[0]) && |suf| > 0 && !IsDigit(suf[0])
    requires pre + a1 + mid + b1 + suf == pre + a2 + mid + b2 + suf
    ensures a1 == a2 && b1 == b2
  {
    var m1, m2 := pre + a1 + mid + b1 + suf, pre + a2 + mid + b2 + suf;
    var x1, x2 := mid + b1 + suf, mid + b2 + suf;
    assert a1 + x1 == m1[|pre|..];
    assert a2 + x2 == m2[|pre|..];
    DigitsThenOther(a1, x1, a2, x2);
    assert b1 + suf == x1[|mid|..];
    assert b2 + suf == x2[|mid|..];
    DigitsThenOther(b1, suf, b2, suf);
  }


  /** What the bulk endpoint reports: rejection of an input that trims to
      nothing, otherwise every candidate counted as processed, whether its
      check succeeded or threw, and the successful ones counted apart. */
  function BulkSpec(text: Option<string>, checks: nat -> Checker): (o: BulkOutcome)
    ensures o.BulkRejected? <==> TrimsToNothing(text)
    ensures o.BulkRejected? ==> o.message == BulkEmptyMessage
    ensures o.BulkDone? ==> o.processed == |Candidates(SplitLines(text.value))| && o.succeeded <= o.processed
  {
    if TrimsToNothing(text) then BulkRejected(BulkEmptyMessage)
    else
      var ds := Candidates(SplitLines(text.value));
      var n := Successes(ds, checks);
      BulkDone(|ds|, n, BulkMessage(|ds|, n))
  }

  /** The number processed depends on the text alone, never on how the
      checks turn out. */
  lemma ProcessedIgnoresOutcomes(text: Option<string>, checks: nat -> Checker, others: nat -> Checker)
    requires !TrimsToNothing(text)
    ensures BulkSpec(text, checks).processed == BulkSpec(text, others).processed
  {
  }

  /** `checkBulkDomains`: split the text into lines, prepare each, skip the
      empty ones, check the rest one after the other, catching every
      failure, and tally. */
  method CheckBulkDomains(text: Option<string>, checks: nat -> Checker) returns (outcome: BulkOutcome, calls: seq<Call>)
    ensures outcome == BulkSpec(text, checks)
    ensures outcome.BulkDone? ==> outcome.succeeded <= outcome.processed
    ensures outcome.BulkRejected? ==> calls == []
    ensures outcome.BulkDone? ==> calls == BulkCalls(Candidates(SplitLines(text.value)), checks)
  {
    if text.None? || Trim(text.value) == [] {
      return BulkRejected(BulkEmptyMessage), [];
    }
    var processed, succeeded;
    processed, succeeded, calls := CheckLines(Prepared(SplitLines(text.value)), checks);
    outcome := BulkDone(processed, succeeded, BulkMessage(processed, succeeded));
  }

  /** The loop of `checkBulkDomains`, over the prepared lines: empty ones
      are skipped, every other one is checked and counted. */
  method CheckLines(prepared: seq<string>, checks: nat -> Checker) returns (processed: nat, succeeded: nat, calls: seq<Call>)
    ensures processed == |NonEmpty(prepared)|
    ensures succeeded == Successes(NonEmpty(prepared), checks)
    ensures calls == BulkCalls(NonEmpty(prepared), checks)
  {
    processed := 0;
    succeeded := 0;
    calls := [];
    var k := 0;
    while k < |prepared|
      invariant 0 <= k <= |prepared|
      invariant processed == |NonEmpty(prepared[..k])|
      invariant succeeded == Successes(NonEmpty(prepared[..k]), checks)
      invariant calls == BulkCalls(NonEmpty(prepared[..k]), checks)
    {
      ghost var done := NonEmpty(prepared[..k]);
      assert prepared[..k + 1][..k] == prepared[..k];
      var domain := prepared[k];
      if domain != [] {
        assert NonEmpty(prepared[..k + 1]) == done + [domain];
        var check := checks(processed)(domain);
        TallySnoc(done, domain, checks);
        assert check == checks(|done|)(domain);
        if check.value.Ok? {
          succeeded := succeeded + 1;
        }
        calls := calls + check.calls;
        processed := processed + 1;
      } else {
        assert NonEmpty(prepared[..k + 1]) == done + [];
        assert done + [] == done;
      }
      k := k + 1;
    }
    assert prepared[..|prepared|] == prepared;
  }

  lemma TallySnoc(ds: seq<string>, d: string, checks: nat -> Checker)
    ensures Successes(ds + [d], checks) == Successes(ds, checks) + (if checks(|ds|)(d).value.Ok? then 1 else 0)
    ensures BulkCalls(ds + [d], checks) == BulkCalls(ds, checks) + checks(|ds|)(d).calls
  {
    assert (ds + [d])[..|ds|] == ds;
  }

  // ----- list page -----

  const PageSize: int := 50

  /** `Math.min`. */
  function Min(a: int, b: int): int
  {
    if a <= b then a else b
  }

  /** The exception `ArrayList.subList` throws for a negative start. */
  function NegativeStart(from: int): Exception
  {
    Exception(false, "IndexOutOfBoundsException", Some("fromIndex = " + IntToString(from)))
  }

  /** The exception `ArrayList.subList` throws for a start past the end. */
  function StartAfterEnd(from: int, to: int): Exception
  {
    Exception(false, "IllegalArgumentException", Some("fromIndex(" + IntToString(from) + ") > toIndex(" + IntToString(to) + ")"))
  }

  /** The slice `[from, to)` of the listing's pagination as written, with
      Java's 32-bit `int` products and sums. */
  function PageWindowAsWritten(page: JavaInt, total: nat): (w: Result<(int, int)>)
    ensures w.Ok? ==> 0 <= w.value.0 <= w.value.1 <= total
  {
    var from := Min(WrapInt(page * PageSize), total);
    var to := Min(WrapInt(from + PageSize), total);
    if from < 0 then Thrown(NegativeStart(from))
    else if from > to then Thrown(StartAfterEnd(from, to))
    else Ok((from, to))
  }

  /** The slice `[from, to)` of the listing's pagination with exact
      arithmetic: the `page`-th block of 50 results, empty past the end, an
      exception for a negative page. */
  function PageWindow(page: int, total: nat): (w: Result<(int, int)>)
    ensures w.Thrown? <==> page < 0
    ensures w.Ok? ==> var (from, to) := w.value;
                      && 0 <= from <= to <= total && to - from <= PageSize
                      && from == Min(page * PageSize, total)
                      && (to - from == PageSize || to == total)
  {
    var from := Min(page * PageSize, total);
    var to := Min(from + PageSize, total);
    if from < 0 then Thrown(NegativeStart(from)) else Ok((from, to))
  }

  /** `(int) Math.ceil(total / 50.0)`. */
  function TotalPages(total: nat): (n: nat)
    ensures n * PageSize >= total
    ensures total > 0 ==> (n - 1) * PageSize < total
    ensures total == 0 ==> n == 0
  {
    (total + PageSize - 1) / PageSize
  }

  /** The results shown on page `page`: the block of at most 50 starting at
      index `page * 50`, cut at the end of the list. */
  function PageOf<T>(rs: seq<T>, page: int): (r: seq<T>)
    requires page >= 0
    ensures |r| <= PageSize
    ensures page * PageSize >= |rs| ==> r == []
    ensures page * PageSize < |rs| ==> |r| == Min(PageSize, |rs| - page * PageSize)
    ensures forall i :: 0 <= i < |r| ==> r[i] == rs[page * PageSize + i]
  {
    var (from, to) := PageWindow(page, |rs|).value;
    rs[from..to]
  }

  /** Every result lies on exactly the page its index divided by 50 names,
      at the offset the remainder names, and that page is one of the
      `TotalPages` pages. */
  lemma PagesCoverResults<T>(rs: seq<T>, k: nat)
    requires k < |rs|
    ensures k / PageSize < TotalPages(|rs|)
    ensures k % PageSize < |PageOf(rs, k / PageSize)|
    ensures PageOf(rs, k / PageSize)[k % PageSize] == rs[k]
  {
    var page := k / PageSize;
    assert page * PageSize + k % PageSize == k;
  }

  /** A page at or past `TotalPages` is empty; one before it is not. */
  lemma PagePastEndIsEmpty<T>(rs: seq<T>, page: nat)
    ensures PageOf(rs, page) == [] <==> page >= TotalPages(|rs|)
  {
    if page < TotalPages(|rs|) {
      assert page * PageSize < |rs|;
      assert |PageOf(rs, page)| > 0;
    }
  }

  /** While `page * 50 + 50` fits in an `int` the written arithmetic agrees
      with the exact one. */
  lemma AsWrittenAgreesInRange(page: JavaInt, total: nat)
    requires 0 <= page && page * PageSize + PageSize <= IntMax
    ensures PageWindowAsWritten(page, total) == PageWindow(page, total)
  {
  }

  /** The page arithmetic as written overflows: page 85899346 starts at
      85899346 * 50 = 2^32 + 4, which wraps to 4, so a page far past the end
      shows results 4 to 53 instead of nothing. */
  lemma PageOverflowExample()
    ensures PageWindowAsWritten(85899346, 100) == Ok((4, 54))
    ensures PageWindow(85899346, 100) == Ok((100, 100))
  {
    assert 85899346 * PageSize == 0x1_0000_0000 + 4;
    assert WrapInt(0x1_0000_0000 + 4) == 4 by {
      assert (0x1_0000_0000 + 4) % 0x1_0000_0000 == 4;
    }
  }

  /** Records whose reachability is `TRUE`. */
  function ReachableCount(rs: seq<DomainResult>): (n: nat)
    ensures n <= |rs|
  {
    if |rs| == 0 then 0
    else ReachableCount(rs[..|rs| - 1]) + (if rs[|rs| - 1].reachable == Some(true) then 1 else 0)
  }

  /** Whether the statistics count a record as safe: its lower-cased label
      contains `safe`. */
  predicate CountsAsSafe(r: DomainResult)
  {
    r.virusCheck.Some? && Contains(ToLower(r.virusCheck.value), "safe")
  }

  function SafeCount(rs: seq<DomainResult>): (n: nat)
    ensures n <= |rs|
  {
    if |rs| == 0 then 0
    else SafeCount(rs[..|rs| - 1]) + (if CountsAsSafe(rs[|rs| - 1]) then 1 else 0)
  }

  /** Records carrying a given label. */
  function LabelCount(rs: seq<DomainResult>, name: string): (n: nat)
    ensures n <= |rs|
  {
    if |rs| == 0 then 0
    else LabelCount(rs[..|rs| - 1], name) + (if rs[|rs| - 1].virusCheck == Some(name) then 1 else 0)
  }

  /** Of the four labels, exactly `Safe` and `Unsafe` count as safe. */
  lemma SafeLabels(name: string)
    requires IsLabel(name)
    ensures Contains(ToLower(name), "safe") <==> name == SafeLabel || name == UnsafeLabel
  {
    if name == SafeLabel {
      SafeIsSafe();
    } else if name == UnsafeLabel {
      UnsafeIsSafe();
    } else if name == NotCheckedLabel {
      NotCheckedIsNotSafe();
    } else {
      ErrorIsNotSafe();
    }
  }

  lemma SafeIsSafe()
    ensures Contains(ToLower(SafeLabel), "safe")
  {
    assert ToLower(SafeLabel) == "safe";
    assert OccursAt("safe", "safe", 0);
  }

  lemma UnsafeIsSafe()
    ensures Contains(ToLower(UnsafeLabel), "safe")
  {
    assert ToLower(UnsafeLabel) == "unsafe";
    assert OccursAt("unsafe", "safe", 2);
  }

  lemma NotCheckedIsNotSafe()
    ensures !Contains(ToLower(NotCheckedLabel), "safe")
  {
    assert 's' !in NotCheckedLabel && 'S' !in NotCheckedLabel;
    LowerNotContains(NotCheckedLabel, "safe", 's');
  }

  lemma ErrorIsNotSafe()
    ensures !Contains(ToLower(ErrorLabel), "safe")
  {
    assert 's' !in ErrorLabel && 'S' !in ErrorLabel;
    LowerNotContains(ErrorLabel, "safe", 's');
  }

  /** So over checked records the safe count is the number of `Safe`
      records plus the number of `Unsafe` ones. */
  lemma {:induction false} SafeCountCountsUnsafe(rs: seq<DomainResult>)
    requires forall i :: 0 <= i < |rs| ==> rs[i].virusCheck.Some? && IsLabel(rs[i].virusCheck.value)
    ensures SafeCount(rs) == LabelCount(rs, SafeLabel) + LabelCount(rs, UnsafeLabel)
  {
    if |rs| > 0 {
      SafeCountCountsUnsafe(rs[..|rs| - 1]);
      SafeLabels(rs[|rs| - 1].virusCheck.value);
    }
  }

  /** The criteria of a listing filtered by `reachable=yes` alone. */
  const YesCriteria: Criteria := Criteria(None, Some("yes"), None, Bounds(None, None))

  /** A time-stamped record passes the `reachable=yes` filter exactly when
      it is reachable. */
  lemma AdmitsYes(r: DomainResult)
    requires r.createdAt.Some?
    ensures Admits(r, YesCriteria) <==> r.reachable == Some(true)
  {
    assert !IsBlank("yes");
    assert EqualsIgnoreCase("yes", "yes");
    assert !EqualsIgnoreCase("no", "yes");
  }

  /** Over time-stamped records the reachable count is the number of
      records the `reachable=yes` filter lists. */
  lemma {:induction false} ReachableCountIsYesFilter(rs: seq<DomainResult>)
    requires forall i :: 0 <= i < |rs| ==> rs[i].createdAt.Some?
    ensures ReachableCount(rs) == |Select(rs, YesCriteria)|
  {
    if |rs| > 0 {
      var init := rs[..|rs| - 1];
      var last := rs[|rs| - 1];
      ReachableCountIsYesFilter(init);
      SelectSnoc(init, last, YesCriteria);
      assert init + [last] == rs;
      AdmitsYes(last);
    }
  }

  // ----- export query string -----

  /** `URLEncoder.encode` with UTF-8. */
  type Encoder = string -> string

  /** `key=value`, both encoded. */
  function Pair(key: string, value: string, encode: Encoder): (s: string)
    ensures s != []
  {
    encode(key) + "=" + encode(value)
  }

  /** `appendQuery`: nothing for a null or blank value; otherwise the
      encoded pair, after an `&` when something precedes it. */
  function AppendQuery(sb: string, key: string, value: Option<string>, encode: Encoder): (r: string)
    ensures NullOrBlank(value) ==> r == sb
    ensures !NullOrBlank(value) ==> r == (if sb == [] then [] else sb + "&") + Pair(key, value.value, encode)
  {
    if NullOrBlank(value) then sb
    else (if |sb| > 0 then sb + "&" else sb) + encode(key) + "=" + encode(value.value)
  }

  /** `buildFiltersQuery`, with the two dates already normalised. */
  function BuildFiltersQuery(domain: Option<string>, reachable: Option<string>, safety: Option<string>,
                             startDate: string, endDate: string, encode: Encoder): (q: string)
    ensures q == [] <==> NullOrBlank(domain) && NullOrBlank(reachable) && NullOrBlank(safety) && IsBlank(startDate) && IsBlank(endDate)
  {
    var q1 := AppendQuery([], "domain", domain, encode);
    var q2 := AppendQuery(q1, "reachable", reachable, encode);
    var q3 := AppendQuery(q2, "safety", safety, encode);
    var q4 := AppendQuery(q3, "startDate", Some(startDate), encode);
    AppendQuery(q4, "endDate", Some(endDate), encode)
  }

  /** The parameters in the order the query lists them. */
  function QueryParams(domain: Option<string>, reachable: Option<string>, safety: Option<string>,
                       startDate: string, endDate: string): seq<(string, Option<string>)>
  {
    [("domain", domain), ("reachable", reachable), ("safety", safety), ("startDate", Some(startDate)), ("endDate", Some(endDate))]
  }

  /** The encoded pairs of the parameters that are present and not blank,
      in order. */
  function QueryPairs(params: seq<(string, Option<string>)>, encode: Encoder): (ps: seq<string>)
    ensures forall i :: 0 <= i < |ps| ==> ps[i] != []
    ensures |ps| <= |params|
  {
    if |params| == 0 then []
    else
      var last := params[|params| - 1];
      QueryPairs(params[..|params| - 1], encode) + (if NullOrBlank(last.1) then [] else [Pair(last.0, last.1.value, encode)])
  }

  lemma JoinEmpty(sep: string, xs: seq<string>)
    requires forall i :: 0 <= i < |xs| ==> xs[i] != []
    ensures Join(sep, xs) == [] <==> xs == []
  {
    if |xs| > 1 {
      assert Join(sep, xs) == Join(sep, xs[..|xs| - 1]) + sep + xs[|xs| - 1];
    }
  }

  /** One more parameter appends its pair, `&`-separated, to the join of
      the pairs so far. */
  lemma AppendQueryJoins(params: seq<(string, Option<string>)>, key: string, value: Option<string>, encode: Encoder)
    ensures AppendQuery(Join("&", QueryPairs(params, encode)), key, value, encode)
            == Join("&", QueryPairs(params + [(key, value)], encode))
  {
    var ps := QueryPairs(params, encode);
    QueryPairsSnoc(params, key, value, encode);
    JoinEmpty("&", ps);
    if !NullOrBlank(value) {
      var pair := Pair(key, value.value, encode);
      if ps == [] {
        assert ps + [pair] == [pair];
      } else {
        JoinSnoc("&", ps, pair);
      }
    } else {
      assert ps + [] == ps;
    }
  }

  lemma QueryPairsSnoc(params: seq<(string, Option<string>)>, key: string, value: Option<string>, encode: Encoder)
    ensures QueryPairs(params + [(key, value)], encode)
            == QueryPairs(params, encode) + (if NullOrBlank(value) then [] else [Pair(key, value.value, encode)])
  {
    var longer := params + [(key, value)];
    assert longer[..|longer| - 1] == params;
  }

  /** The export query is the `&`-join of the encoded pairs of the present,
      non-blank parameters, in the order domain, reachable, safety,
      startDate, endDate. */
  lemma FiltersQueryIsJoin(domain: Option<string>, reachable: Option<string>, safety: Option<string>,
                           startDate: string, endDate: string, encode: Encoder)
    ensures BuildFiltersQuery(domain, reachable, safety, startDate, endDate, encode)
            == Join("&", QueryPairs(QueryParams(domain, reachable, safety, startDate, endDate), encode))
  {
    var all := QueryParams(domain, reachable, safety, startDate, endDate);
    assert QueryPairs(all[..0], encode) == [];
    AppendQueryJoins(all[..0], "domain", domain, encode);
    assert all[..0] + [all[0]] == all[..1];
    AppendQueryJoins(all[..1], "reachable", reachable, encode);
    assert all[..1] + [all[1]] == all[..2];
    AppendQueryJoins(all[..2], "safety", safety, encode);
    assert all[..2] + [all[2]] == all[..3];
    AppendQueryJoins(all[..3], "startDate", Some(startDate), encode);
    assert all[..3] + [all[3]] == all[..4];
    AppendQueryJoins(all[..4], "endDate", Some(endDate), encode);
    assert all[..4] + [all[4]] == all;
  }

  /** With every parameter blank the query is empty. */
  lemma BlankFiltersGiveEmptyQuery(domain: Option<string>, reachable: Option<string>, safety: Option<string>,
                                   startDate: string, endDate: string, encode: Encoder)
    requires NullOrBlank(domain) && NullOrBlank(reachable) && NullOrBlank(safety)
    requires IsBlank(startDate) && IsBlank(endDate)
    ensures BuildFiltersQuery(domain, reachable, safety, startDate, endDate, encode) == []
  {
  }

  // ----- the list page -----

  const ListErrorPrefix: string := "Error loading domain results: "

  /** The model attributes of the list page. `currentPage` and `totalPages`
      are not set when loading fails. */
  datatype ListView = ListView(
    results: seq<DomainResult>,
    totalResults: int,
    currentPage: Option<int>,
    totalPages: Option<int>,
    reachableCount: int,
    safeCount: int,
    domainFilter: string,
    reachableFilter: string,
    safetyFilter: string,
    startDateFilter: string,
    endDateFilter: string,
    filtersQuery: string,
    error: Option<string>)

  function ErrorView(e: Exception): (v: ListView)
    ensures v.results == [] && v.totalResults == 0 && v.reachableCount == 0 && v.safeCount == 0
    ensures v.currentPage.None? && v.totalPages.None? && v.filtersQuery == []
    ensures v.domainFilter == [] && v.reachableFilter == [] && v.safetyFilter == []
    ensures v.startDateFilter == [] && v.endDateFilter == []
    ensures v.error.Some? && |v.error.value| >= |ListErrorPrefix| && v.error.value[..|ListErrorPrefix|] == ListErrorPrefix
    ensures e.message.Some? ==> v.error.value[|ListErrorPrefix|..] == e.message.value
    ensures e.message.None? ==> v.error.value[|ListErrorPrefix|..] == "null"
  {
    ListView([], 0, None, None, 0, 0, [], [], [], [], [], [], Some(ListErrorPrefix + StringOf(e.message)))
  }

  /** `listDomains`: the stored records (newest first, or the exception
      reading them threw), filtered, cut to the requested page of 50 with
      the page arithmetic in 32-bit `int`, with statistics over the whole
      filtered list and the filters echoed. Reading the records or cutting
      the page can throw; either gives the error view, with every list
      attribute emptied and the exception's message after the prefix. */
  function ListDomains(stored: Result<seq<DomainResult>>, f: Filters, page: JavaInt, parse: DateParser, encode: Encoder): (v: ListView)
    ensures v.error.Some? <==> stored.Thrown? || PageWindowAsWritten(page, |ApplyFilters(stored.value, f, parse)|).Thrown?
    ensures v.error.Some? ==> && v.results == [] && v.totalResults == 0 && v.reachableCount == 0 && v.safeCount == 0
                              && v.currentPage.None? && v.totalPages.None? && v.filtersQuery == []
                              && v.domainFilter == [] && v.reachableFilter == [] && v.safetyFilter == []
                              && v.startDateFilter == [] && v.endDateFilter == []
    ensures stored.Thrown? ==> v.error == Some(ListErrorPrefix + StringOf(stored.error.message))
    ensures stored.Ok? && PageWindowAsWritten(page, |ApplyFilters(stored.value, f, parse)|).Thrown? ==>
              v.error == Some(ListErrorPrefix + StringOf(PageWindowAsWritten(page, |ApplyFilters(stored.value, f, parse)|).error.message))
    ensures v.error.None? ==>
              var rs := ApplyFilters(stored.value, f, parse);
              var w := PageWindowAsWritten(page, |rs|).value;
              && v.results == rs[w.0..w.1]
              && v.totalResults == |rs|
              && v.currentPage == Some(page)
              && v.totalPages == Some(TotalPages(|rs|))
              && v.reachableCount == ReachableCount(rs)
              && v.safeCount == SafeCount(rs)
              && v.domainFilter == OrEmpty(f.domain)
              && v.reachableFilter == OrEmpty(f.reachable)
              && v.safetyFilter == OrEmpty(f.safety)
              && v.startDateFilter == NormalizeIsoDate(f.startDate, parse)
              && v.endDateFilter == NormalizeIsoDate(f.endDate, parse)
              && v.filtersQuery == BuildFiltersQuery(f.domain, f.reachable, f.safety,
                                     NormalizeIsoDate(f.startDate, parse), NormalizeIsoDate(f.endDate, parse), encode)
  {
    match stored
    case Thrown(e) => ErrorView(e)
    case Ok(all) =>
      var rs := ApplyFilters(all, f, parse);
      match PageWindowAsWritten(page, |rs|)
      case Thrown(e) => ErrorView(e)
      case Ok((from, to)) =>
        var start := NormalizeIsoDate(f.startDate, parse);
        var end := NormalizeIsoDate(f.endDate, parse);
        ListView(rs[from..to], |rs|, Some(page), Some(TotalPages(|rs|)), ReachableCount(rs), SafeCount(rs),
                 OrEmpty(f.domain), OrEmpty(f.reachable), OrEmpty(f.safety), start, end,
                 BuildFiltersQuery(f.domain, f.reachable, f.safety, start, end, encode), None)
  }

  /** While `page * 50 + 50` fits in an `int`, the listing shows exactly the
      requested page of the filtered records. */
  lemma ListDomainsInRange(all: seq<DomainResult>, f: Filters, page: JavaInt, parse: DateParser, encode: Encoder)
    requires 0 <= page && page * PageSize + PageSize <= IntMax
    ensures var v := ListDomains(Ok(all), f, page, parse, encode);
            v.error.None? && v.results == PageOf(ApplyFilters(all, f, parse), page)
  {
    AsWrittenAgreesInRange(page, |ApplyFilters(all, f, parse)|);
  }

  /** A negative page that does not wrap gives the error view. */
  lemma ListDomainsNegativePage(all: seq<DomainResult>, f: Filters, page: JavaInt, parse: DateParser, encode: Encoder)
    requires page < 0 && page * PageSize >= IntMin
    ensures ListDomains(Ok(all), f, page, parse, encode).error.Some?
  {
  }

  /** Page 42949673 starts at 42949673 * 50 = 2147483650, which wraps to
      -2147483646, so `subList` throws and the listing shows the error view
      whatever the records are. */
  lemma ListDomainsWrapsToError(all: seq<DomainResult>, f: Filters, parse: DateParser, encode: Encoder)
    ensures ListDomains(Ok(all), f, 42949673, parse, encode).error.Some?
  {
    assert 42949673 * PageSize == 2147483650;
    assert WrapInt(2147483650) == -2147483646 by {
      assert 2147483650 % 0x1_0000_0000 == 2147483650;
    }
  }

  /** Page 85899346 of 100 records wraps to start 4 and shows records 4 to
      53 instead of the empty page past the end. */
  lemma ListDomainsWrapsToWrongPage(all: seq<DomainResult>, f: Filters, parse: DateParser, encode: Encoder)
    requires |ApplyFilters(all, f, parse)| == 100
    ensures var v := ListDomains(Ok(all), f, 85899346, parse, encode);
            var rs := ApplyFilters(all, f, parse);
            v.error.None? && v.results == rs[4..54] && PageOf(rs, 85899346) == []
  {
    PageOverflowExample();
  }
}
