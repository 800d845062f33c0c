/** The sweep's search for the smallest memory limit at which every repetition passes (internal/sweep/search.go). */
module Sweep {
  import opened Arithmetic
  import opened Bytes

  datatype FailureKind = NoFailure | OomFailure | TimeoutFailure | FunctionalFailure | IntegrityFailure

  datatype Attempt = Attempt(
    limit: int, repetition: int, exitCode: int, oom: bool, timedOut: bool,
    functionalPassed: bool, integrityPassed: bool, passed: bool, kind: FailureKind)

  /** An attempt as the search hands it to the runner. */
  function Request(limit: int, repetition: int): Attempt {
    Attempt(limit, repetition, 0, false, false, false, false, false, NoFailure)
  }

  datatype Config = Config(lower: int, upper: int, step: int, repetitions: int) {
    predicate Legal() {
      0 < lower <= upper && step > 0 && repetitions > 0
    }

    /** The aligned limits in range. */
    predicate Candidate(m: int) {
      lower <= m <= upper && Aligned(m, step)
    }
  }

  lemma BetweenCandidates(cfg: Config, a: int, b: int)
    requires cfg.Legal() && cfg.Candidate(a) && cfg.Candidate(b)
    ensures Aligned(a, cfg.step) && Aligned(b, cfg.step) && a > 0 && cfg.step > 0
    ensures forall m :: a <= m <= b && Aligned(m, cfg.step) ==> cfg.Candidate(m)
  {
    hide Aligned;
  }

  /** What the n-th call of the runner answers, and whether the context is cancelled just before it: any behaviour,
      deterministic or not. */
  datatype Runner = Runner(run: (nat, Attempt) -> Attempt, cancelled: nat -> bool)

  datatype SearchError = InvalidConfiguration | EmptyRange | Cancelled | UpperFailed

  datatype SweepReport = SweepReport(
    attempts: seq<Attempt>, oomFailures: nat, functionalFailures: nat, integrityFailures: nat, timeoutFailures: nat,
    minimumPass: int, greatestFail: int, resolved: bool)

  const EMPTY_REPORT := SweepReport([], 0, 0, 0, 0, 0, 0, false)

  /* ---- rounding ---- */

  predicate Aligned(m: int, step: int) {
    step > 0 && m % step == 0
  }

  function Steps(distance: int, step: int): nat
    requires distance >= 0 && step > 0
  {
    distance / step
  }

  function AlignUp(value: int, step: int): (r: int)
    requires value > 0 && step > 0
    ensures Aligned(r, step) && value <= r < value + step
  {
    RoundedDown(value + step - 1, step);
    (value + step - 1) / step * step
  }

  function AlignDown(value: int, step: int): (r: int)
    requires value >= 0 && step > 0
    ensures Aligned(r, step) && r <= value < r + step && r >= 0
  {
    RoundedDown(value, step);
    value / step * step
  }

  lemma RoundedDown(value: nat, step: nat)
    requires step > 0
    ensures var r := value / step * step; r % step == 0 && r <= value < r + step && r >= 0
  {
    Quotient(value / step, step);
  }

  lemma AlignedIs(m: nat, step: int) returns (q: nat)
    requires Aligned(m, step)
    ensures m == q * step
  {
    q := m / step;
  }

  lemma StepsOf(q: nat, step: int)
    requires step > 0
    ensures q * step >= 0 && Steps(q * step, step) == q
  {
    Quotient(q, step);
  }

  /** Two different multiples of the step are at least a step apart, and a whole number of steps. */
  lemma AlignedApart(a: int, b: int, step: int) returns (p: nat, gap: nat)
    requires Aligned(a, step) && Aligned(b, step) && 0 <= a < b
    ensures a == p * step && b == p * step + gap * step
    ensures gap >= 1 && b - a >= step && Steps(b - a, step) == gap
  {
    hide Aligned, Steps;
    p := AlignedIs(a, step);
    var q := AlignedIs(b, step);
    if q <= p {
      MultipleMonotone(q, p, step);
    } else {
      gap := q - p;
      assert q * step == p * step + gap * step;
      MultipleMonotone(1, gap, step);
      StepsOf(gap, step);
    }
  }

  /** The two roundings of the midpoint together halve the distance in steps, rounding down; so the midpoint lies
      strictly between the bounds and the repair step after it is never taken. */
  lemma MidpointHalves(fail: int, pass: int, step: int)
    requires Aligned(fail, step) && Aligned(pass, step) && step > 0 && 0 <= fail && pass - fail > step
    ensures var mid, gap := AlignDown((fail + pass) / 2, step), Steps(pass - fail, step);
      && fail < mid < pass && gap >= 2
      && Steps(mid - fail, step) == gap / 2 && Steps(pass - mid, step) == (gap + 1) / 2
  {
    hide Aligned, Steps, AlignDown;
    var f, gap := AlignedApart(fail, pass, step);
    MoreThanOne(gap, step);
    Midpoint(f, gap, step);
    StepsOf(gap / 2, step);
    StepsOf(gap - gap / 2, step);
  }

  lemma Midpoint(f: nat, gap: nat, step: nat)
    requires step > 0 && gap >= 2
    ensures AlignDown((f * step + (f * step + gap * step)) / 2, step) == f * step + gap / 2 * step
    ensures gap * step == gap / 2 * step + (gap - gap / 2) * step
    ensures gap / 2 * step >= step && (gap - gap / 2) * step >= step
  {
    assert f * step + (f * step + gap * step) == (f + f + gap) * step;
    HalfRounded(f + f + gap, step);
    assert (f + f + gap) / 2 == f + gap / 2;
    assert (f + gap / 2) * step == f * step + gap / 2 * step;
    MultipleMonotone(1, gap / 2, step);
    MultipleMonotone(1, gap - gap / 2, step);
  }

  lemma MoreThanOne(gap: nat, step: nat)
    ensures gap * step > step ==> gap >= 2
  {
    if gap < 2 {
      MultipleMonotone(gap, 1, step);
    }
  }

  lemma HalfRounded(n: nat, step: nat)
    requires step > 0
    ensures n * step / 2 / step == n / 2
  {
    var q, odd := n / 2, n % 2;
    assert n * step == 2 * (q * step) + odd * step;
    assert (2 * (q * step) + odd * step) / 2 == q * step + odd * step / 2;
    Requotient(q, odd * step / 2, step);
  }

  lemma Requotient(q: nat, m: nat, d: nat)
    requires m < d
    ensures (q * d + m) / d == q
  {
    var n := q * d + m;
    var r := n / d;
    assert n == r * d + n % d;
    if r < q {
      MultipleMonotone(r + 1, q, d);
      MultipleMonotone(r, q, d);
    } else if r > q {
      MultipleMonotone(q + 1, r, d);
      MultipleMonotone(q, r, d);
    }
  }

  /* ---- the record of a search ---- */

  /** The answers to repetitions 1 to count of a limit, the runner having been called start times before. */
  function Calls(runner: Runner, start: nat, limit: int, count: nat): seq<Attempt> {
    seq(count, k requires 0 <= k < count => runner.run(start + k, Request(limit, k + 1)))
  }

  /** All answers when each limit in order got all its repetitions. */
  function Log(runner: Runner, repetitions: nat, order: seq<int>): (log: seq<Attempt>)
    ensures |log| == repetitions * |order|
  {
    if order == [] then []
    else
      var n := |order| - 1;
      assert repetitions * |order| == repetitions * n + repetitions;
      Log(runner, repetitions, order[..n]) + Calls(runner, repetitions * n, order[n], repetitions)
  }

  predicate AllPassed(attempts: seq<Attempt>) {
    forall i :: 0 <= i < |attempts| ==> attempts[i].passed
  }

  /** Whether the limit tested in turn j passed all its repetitions. */
  predicate Verdict(runner: Runner, repetitions: nat, order: seq<int>, j: nat)
    requires j < |order|
  {
    AllPassed(Calls(runner, repetitions * j, order[j], repetitions))
  }

  function CountKind(attempts: seq<Attempt>, kind: FailureKind): nat {
    if attempts == [] then 0
    else
      var n := |attempts| - 1;
      CountKind(attempts[..n], kind) + if attempts[n].kind == kind then 1 else 0
  }

  lemma CountKindPush(attempts: seq<Attempt>, a: Attempt, kind: FailureKind)
    ensures CountKind(attempts + [a], kind) == CountKind(attempts, kind) + if a.kind == kind then 1 else 0
  {
    assert (attempts + [a])[..|attempts|] == attempts;
  }

  /** The failure counters agree with the attempts on record. */
  predicate Counted(r: SweepReport) {
    && r.oomFailures == CountKind(r.attempts, OomFailure) && r.timeoutFailures == CountKind(r.attempts, TimeoutFailure)
    && r.functionalFailures == CountKind(r.attempts, FunctionalFailure)
    && r.integrityFailures == CountKind(r.attempts, IntegrityFailure)
  }

  predicate SameAnswer(a: SweepReport, b: SweepReport) {
    a.minimumPass == b.minimumPass && a.greatestFail == b.greatestFail && a.resolved == b.resolved
  }

  ghost predicate Uncancelled(runner: Runner, count: nat) {
    forall i: nat :: i < count ==> !runner.cancelled(i)
  }

  /** The search stopped before some repetition of limit because the context was cancelled there. */
  ghost predicate CutShort(runner: Runner, repetitions: nat, order: seq<int>, limit: int, attempts: seq<Attempt>) {
    exists k: nat ::
      && k < repetitions
      && attempts == Log(runner, repetitions, order) + Calls(runner, repetitions * |order|, limit, k)
      && runner.cancelled(repetitions * |order| + k)
  }

  /* ---- which limit comes next ---- */

  /** The failed and the passed limit between which a search that has tested both ends looks on. */
  function Bounds(cfg: Config, runner: Runner, order: seq<int>): (int, int)
    requires cfg.Legal() && |order| >= 2
  {
    if |order| == 2 then (order[1], order[0])
    else
      var n := |order| - 1;
      var (fail, pass) := Bounds(cfg, runner, order[..n]);
      if Verdict(runner, cfg.repetitions, order, n) then (fail, order[n]) else (order[n], pass)
  }

  /** The largest candidate, the smallest, and then the aligned midpoint between the bounds. */
  function NextLimit(cfg: Config, runner: Runner, order: seq<int>): int
    requires cfg.Legal()
  {
    if order == [] then cfg.upper / cfg.step * cfg.step
    else if |order| == 1 then (cfg.lower + cfg.step - 1) / cfg.step * cfg.step
    else
      var (fail, pass) := Bounds(cfg, runner, order);
      (fail + pass) / 2 / cfg.step * cfg.step
  }

  /** Every limit tested was the next one. */
  ghost predicate InTurn(cfg: Config, runner: Runner, order: seq<int>) {
    cfg.Legal() && forall j :: 0 <= j < |order| ==> order[j] == NextLimit(cfg, runner, order[..j])
  }

  lemma InTurnPush(cfg: Config, runner: Runner, order: seq<int>, limit: int)
    requires InTurn(cfg, runner, order) && limit == NextLimit(cfg, runner, order)
    ensures InTurn(cfg, runner, order + [limit])
  {
    hide NextLimit;
    var more := order + [limit];
    forall j | 0 <= j < |more| ensures more[j] == NextLimit(cfg, runner, more[..j]) {
      assert more[..j] == if j < |order| then order[..j] else order;
    }
  }

  lemma BoundsPush(cfg: Config, runner: Runner, order: seq<int>, limit: int)
    requires cfg.Legal() && |order| >= 2
    ensures var (fail, pass) := Bounds(cfg, runner, order);
      Bounds(cfg, runner, order + [limit])
      == if Verdict(runner, cfg.repetitions, order + [limit], |order|) then (fail, limit) else (limit, pass)
  {
    hide Verdict;
    assert (order + [limit])[..|order|] == order;
  }

  lemma NextLimitIs(cfg: Config, runner: Runner, order: seq<int>)
    requires cfg.Legal()
    ensures order == [] ==> NextLimit(cfg, runner, order) == AlignDown(cfg.upper, cfg.step)
    ensures |order| == 1 ==> NextLimit(cfg, runner, order) == AlignUp(cfg.lower, cfg.step)
    ensures |order| >= 2 && Bounds(cfg, runner, order).0 + Bounds(cfg, runner, order).1 >= 0 ==>
      NextLimit(cfg, runner, order)
      == AlignDown((Bounds(cfg, runner, order).0 + Bounds(cfg, runner, order).1) / 2, cfg.step)
    ensures InTurn(cfg, runner, [])
  {
    hide Bounds;
  }

  /** No repetition was skipped and none was cancelled. */
  ghost predicate Complete(cfg: Config, runner: Runner, order: seq<int>, r: SweepReport) {
    && cfg.Legal() && r.attempts == Log(runner, cfg.repetitions, order) && Uncancelled(runner, |r.attempts|)
  }

  /** The search stopped in the limit that came next. */
  ghost predicate Stopped(cfg: Config, runner: Runner, order: seq<int>, r: SweepReport) {
    && cfg.Legal() && cfg.Candidate(NextLimit(cfg, runner, order)) && NextLimit(cfg, runner, order) !in order
    && CutShort(runner, cfg.repetitions, order, NextLimit(cfg, runner, order), r.attempts)
  }

  ghost predicate Distinct(order: seq<int>) {
    forall i, j :: 0 <= i < j < |order| ==> order[i] != order[j]
  }

  lemma CallsPush(runner: Runner, start: nat, limit: int, count: nat)
    ensures |Calls(runner, start, limit, count)| == count && Calls(runner, start, limit, 0) == []
    ensures var calls, answer := Calls(runner, start, limit, count), runner.run(start + count, Request(limit, count + 1));
      && Calls(runner, start, limit, count + 1) == calls + [answer]
      && (AllPassed(calls + [answer]) <==> AllPassed(calls) && answer.passed)
  {
    var calls, answer := Calls(runner, start, limit, count), runner.run(start + count, Request(limit, count + 1));
    if AllPassed(calls + [answer]) {
      assert (calls + [answer])[count] == answer;
      assert forall i :: 0 <= i < count ==> calls[i] == (calls + [answer])[i];
    }
  }

  lemma LogPush(runner: Runner, repetitions: nat, order: seq<int>, limit: int)
    ensures Log(runner, repetitions, order + [limit])
         == Log(runner, repetitions, order) + Calls(runner, repetitions * |order|, limit, repetitions)
  {
    assert (order + [limit])[..|order|] == order;
  }

  lemma VerdictPush(runner: Runner, repetitions: nat, order: seq<int>, limit: int)
    ensures forall j :: 0 <= j < |order| ==>
      (Verdict(runner, repetitions, order + [limit], j) <==> Verdict(runner, repetitions, order, j))
    ensures Verdict(runner, repetitions, order + [limit], |order|)
       <==> AllPassed(Calls(runner, repetitions * |order|, limit, repetitions))
  {
    hide Calls, AllPassed;
  }

  lemma Regrouped(a: seq<Attempt>, b: seq<Attempt>, c: seq<Attempt>)
    ensures (a + b) + c == a + (b + c) && a + [] == a
  {
  }

  /** Repetition r of the j-th limit on record is the runner's answer to exactly that request, and the verdict on the limit
      is that all its repetitions passed. */
  lemma AttemptRecorded(runner: Runner, repetitions: nat, order: seq<int>, j: nat, r: nat)
    requires j < |order| && 1 <= r <= repetitions
    ensures repetitions * j + r - 1 < |Log(runner, repetitions, order)|
    ensures Log(runner, repetitions, order)[repetitions * j + r - 1] == runner.run(
      repetitions * j + r - 1, Attempt(order[j], r, 0, false, false, false, false, false, NoFailure))
    ensures Verdict(runner, repetitions, order, j) ==> Log(runner, repetitions, order)[repetitions * j + r - 1].passed
  {
    var log, start := Log(runner, repetitions, order), repetitions * j;
    RoundRecorded(runner, repetitions, order, j);
    var calls := Calls(runner, start, order[j], repetitions);
    CallIs(runner, start, order[j], repetitions, r);
    hide Log, Calls, AllPassed;
    InSlice(log, start, start + repetitions, r - 1);
    if Verdict(runner, repetitions, order, j) {
      PassedAt(calls, r - 1);
    }
  }

  lemma CallIs(runner: Runner, start: nat, limit: int, count: nat, r: nat)
    requires 1 <= r <= count
    ensures |Calls(runner, start, limit, count)| == count
    ensures Calls(runner, start, limit, count)[r - 1] == runner.run(
      start + r - 1, Attempt(limit, r, 0, false, false, false, false, false, NoFailure))
  {
    assert start + (r - 1) == start + r - 1;
    assert Calls(runner, start, limit, count)[r - 1] == runner.run(start + (r - 1), Request(limit, r));
  }

  lemma InSlice(log: seq<Attempt>, a: nat, b: nat, i: nat)
    requires a <= b <= |log| && i < b - a
    ensures log[a..b][i] == log[a + i]
  {
  }

  lemma PassedAt(attempts: seq<Attempt>, i: nat)
    requires AllPassed(attempts) && i < |attempts|
    ensures attempts[i].passed
  {
  }

  /** A failed verdict has a failed repetition. */
  lemma FailedRepetition(runner: Runner, repetitions: nat, order: seq<int>, j: nat) returns (r: nat)
    requires j < |order| && !Verdict(runner, repetitions, order, j)
    ensures 1 <= r <= repetitions && repetitions * j + r - 1 < |Log(runner, repetitions, order)|
    ensures !Log(runner, repetitions, order)[repetitions * j + r - 1].passed
  {
    var log, start := Log(runner, repetitions, order), repetitions * j;
    RoundRecorded(runner, repetitions, order, j);
    var calls := Calls(runner, start, order[j], repetitions);
    var i :| 0 <= i < |calls| && !calls[i].passed;
    r := i + 1;
    assert |calls| == repetitions;
    hide *;
    InSlice(log, start, start + repetitions, i);
  }

  /** The answers recorded for turn j are exactly that turn's calls. */
  lemma {:induction false} RoundRecorded(runner: Runner, repetitions: nat, order: seq<int>, j: nat)
    requires j < |order|
    ensures repetitions * j + repetitions <= |Log(runner, repetitions, order)|
    ensures Log(runner, repetitions, order)[repetitions * j..repetitions * j + repetitions]
         == Calls(runner, repetitions * j, order[j], repetitions)
  {
    var n := |order| - 1;
    assert repetitions * |order| == repetitions * n + repetitions;
    if j < n {
      RoundRecorded(runner, repetitions, order[..n], j);
    }
  }

  lemma UncancelledPush(runner: Runner, count: nat)
    requires Uncancelled(runner, count) && !runner.cancelled(count)
    ensures Uncancelled(runner, count + 1)
  {
  }

  lemma CutHere(runner: Runner, repetitions: nat, order: seq<int>, limit: int, k: nat)
    requires k < repetitions && runner.cancelled(repetitions * |order| + k)
    ensures CutShort(runner, repetitions, order, limit,
      Log(runner, repetitions, order) + Calls(runner, repetitions * |order|, limit, k))
  {
    hide Log, Calls;
  }

  /** The memory holds the verdict on every limit tested, and the report the answers that led to it. */
  ghost predicate Consistent(cfg: Config, runner: Runner, order: seq<int>, tested: map<int, bool>, report: SweepReport) {
    && cfg.Legal() && Distinct(order)
    && (forall l :: l in tested <==> l in order)
    && (forall j :: 0 <= j < |order| ==> tested[order[j]] == Verdict(runner, cfg.repetitions, order, j))
    && report.attempts == Log(runner, cfg.repetitions, order) && Counted(report)
    && Uncancelled(runner, |report.attempts|)
  }

  lemma ConsistentPush(cfg: Config, runner: Runner, order: seq<int>, tested: map<int, bool>, before: SweepReport,
                       limit: int, passed: bool, report: SweepReport)
    requires Consistent(cfg, runner, order, tested, before) && limit !in tested
    requires report.attempts == Log(runner, cfg.repetitions, order + [limit]) && Counted(report)
    requires Uncancelled(runner, |report.attempts|)
    requires passed == Verdict(runner, cfg.repetitions, order + [limit], |order|)
    ensures Consistent(cfg, runner, order + [limit], tested[limit := passed], report)
  {
    hide Log, Counted, Verdict, Uncancelled;
    VerdictPush(runner, cfg.repetitions, order, limit);
  }

  lemma ConsistentFacts(cfg: Config, runner: Runner, order: seq<int>, tested: map<int, bool>, report: SweepReport)
    requires Consistent(cfg, runner, order, tested, report)
    ensures cfg.Legal() && cfg.repetitions > 0 && Counted(report) && Uncancelled(runner, |report.attempts|)
    ensures report.attempts == Log(runner, cfg.repetitions, order)
  {
    hide Log, Counted, Verdict, Uncancelled, Distinct;
  }

  /** The search's mutable state: its memory of verdicts and its report.  order lists the limits tested, in turn. */
  class Searcher {
    const cfg: Config
    const runner: Runner
    var tested: map<int, bool>
    var report: SweepReport
    ghost var order: seq<int>

    ghost predicate Valid()
      reads this
    {
      Consistent(cfg, runner, order, tested, report)
    }

    constructor (cfg: Config, runner: Runner)
      requires cfg.Legal()
      ensures Valid() && order == [] && report == EMPTY_REPORT && this.cfg == cfg && this.runner == runner
    {
      this.cfg := cfg;
      this.runner := runner;
      tested := map[];
      report := EMPTY_REPORT;
      order := [];
    }

    lemma Remembers()
      requires Valid()
      ensures cfg.Legal() && cfg.step > 0 && Counted(report)
      ensures Distinct(order) && forall l :: l in tested <==> l in order
      ensures Complete(cfg, runner, order, report)
    {
    }

    method Conclude(minimumPass: int, greatestFail: int, resolved: bool)
      requires Valid()
      modifies this`report
      ensures Valid()
      ensures report.minimumPass == minimumPass && report.greatestFail == greatestFail && report.resolved == resolved
    {
      report := report.(minimumPass := minimumPass, greatestFail := greatestFail, resolved := resolved);
    }

    /** The verdict on the limit tested last is remembered. */
    lemma Latest()
      requires Valid() && order != []
      ensures var n := |order| - 1;
        order[n] in tested && tested[order[n]] == Verdict(runner, cfg.repetitions, order, n)
    {
    }

    lemma Shown(limit: int)
      requires Valid() && limit in tested
      ensures ShownTo(tested[limit], cfg, runner, order, limit)
    {
      var j :| 0 <= j < |order| && order[j] == limit;
      assert tested[order[j]] == Verdict(runner, cfg.repetitions, order, j);
    }

    method Record(attempt: Attempt)
      modifies this`report
      ensures report.attempts == old(report).attempts + [attempt] && (Counted(old(report)) ==> Counted(report))
      ensures SameAnswer(report, old(report))
    {
      var attempts := report.attempts;
      report := report.(attempts := attempts + [attempt]);
      match attempt.kind {
        case OomFailure => report := report.(oomFailures := report.oomFailures + 1);
        case FunctionalFailure => report := report.(functionalFailures := report.functionalFailures + 1);
        case IntegrityFailure => report := report.(integrityFailures := report.integrityFailures + 1);
        case TimeoutFailure => report := report.(timeoutFailures := report.timeoutFailures + 1);
        case NoFailure =>
      }
      CountKindPush(attempts, attempt, OomFailure);
      CountKindPush(attempts, attempt, FunctionalFailure);
      CountKindPush(attempts, attempt, IntegrityFailure);
      CountKindPush(attempts, attempt, TimeoutFailure);
    }

    /** Runs the repetitions of a limit, unless the context is cancelled before one of them. */
    method Repeat(limit: int) returns (r: Result<bool, SearchError>)
      requires cfg.repetitions > 0 && Counted(report) && Uncancelled(runner, |report.attempts|)
      requires report.attempts == Log(runner, cfg.repetitions, order)
      modifies this`report
      ensures Counted(report) && SameAnswer(report, old(report))
      ensures r.Ok? ==>
        && report.attempts == Log(runner, cfg.repetitions, order + [limit]) && Uncancelled(runner, |report.attempts|)
        && r.value == Verdict(runner, cfg.repetitions, order + [limit], |order|)
      ensures r.Err? ==>
        && r.error == Cancelled
        && CutShort(runner, cfg.repetitions, order, limit, report.attempts)
    {
      hide Calls, Log, Counted, Uncancelled, CutShort;
      var passed := true;
      var repetition := 1;
      ghost var log := Log(runner, cfg.repetitions, order);
      ghost var start := |log|;
      CallsPush(runner, start, limit, 0);
      Regrouped(log, [], []);
      while repetition <= cfg.repetitions
        invariant 1 <= repetition <= cfg.repetitions + 1
        invariant report.attempts == log + Calls(runner, start, limit, repetition - 1) && Counted(report)
        invariant passed == AllPassed(Calls(runner, start, limit, repetition - 1))
        invariant Uncancelled(runner, |report.attempts|)
        invariant SameAnswer(report, old(report))
      {
        hide AllPassed;
        ghost var done := Calls(runner, start, limit, repetition - 1);
        CallsPush(runner, start, limit, repetition - 1);
        if runner.cancelled(|report.attempts|) {
          CutHere(runner, cfg.repetitions, order, limit, repetition - 1);
          return Err(Cancelled);
        }
        UncancelledPush(runner, |report.attempts|);
        var attempt := runner.run(|report.attempts|, Request(limit, repetition));
        Record(attempt);
        Regrouped(log, done, [attempt]);
        passed := passed && attempt.passed;
        repetition := repetition + 1;
      }
      LogPush(runner, cfg.repetitions, order, limit);
      return Ok(passed);
    }

    /** The verdict on a limit: remembered, or found by running every repetition of it. */
    method Test(limit: int) returns (r: Result<bool, SearchError>)
      requires Valid()
      modifies this
      ensures limit in old(tested) ==>
        r == Ok(old(tested)[limit]) && tested == old(tested) && report == old(report) && order == old(order)
      ensures limit !in old(tested) && r.Ok? ==>
        && order == old(order) + [limit] && tested == old(tested)[limit := r.value]
      ensures r.Ok? ==> Valid()
      ensures r.Err? ==>
        && r.error == Cancelled && order == old(order)
        && CutShort(runner, cfg.repetitions, order, limit, report.attempts)
        && Counted(report)
      ensures SameAnswer(report, old(report))
    {
      if limit in tested {
        assert SameAnswer(report, report);
        return Ok(tested[limit]);
      }
      hide Log, Counted, Verdict, Uncancelled, CutShort, Consistent, SameAnswer, Distinct;
      ConsistentFacts(cfg, runner, order, tested, report);
      ghost var before := report;
      r := Repeat(limit);
      if r.Ok? {
        ConsistentPush(cfg, runner, order, tested, before, limit, r.value, report);
        tested := tested[limit := r.value];
        order := order + [limit];
      }
    }
  }

  /* ---- the search ---- */

  ghost predicate ShownTo(pass: bool, cfg: Config, runner: Runner, order: seq<int>, m: int) {
    cfg.Legal() && exists j :: 0 <= j < |order| && order[j] == m && Verdict(runner, cfg.repetitions, order, j) == pass
  }

  /** What a search that ended without an error has found out.  Resolved: a limit all of whose repetitions passed, one
      step above a limit with a failed repetition.  Not resolved: the smallest candidate itself passed. */
  ghost predicate Answer(cfg: Config, runner: Runner, order: seq<int>, r: SweepReport) {
    && cfg.Candidate(r.minimumPass) && ShownTo(true, cfg, runner, order, r.minimumPass)
    && (r.resolved ==>
          && cfg.Candidate(r.greatestFail) && ShownTo(false, cfg, runner, order, r.greatestFail)
          && r.minimumPass - r.greatestFail == cfg.step)
    && (!r.resolved ==> r.greatestFail == 0 && forall m :: cfg.Candidate(m) ==> r.minimumPass <= m)
  }

  lemma CandidatesBetween(cfg: Config)
    requires cfg.Legal()
    ensures var bottom, top := AlignUp(cfg.lower, cfg.step), AlignDown(cfg.upper, cfg.step);
      && (forall m :: cfg.Candidate(m) ==> bottom <= m <= top)
      && (bottom <= top ==> cfg.Candidate(bottom) && cfg.Candidate(top))
  {
    var bottom, top := AlignUp(cfg.lower, cfg.step), AlignDown(cfg.upper, cfg.step);
    forall m | cfg.Candidate(m) ensures bottom <= m <= top {
      if m < bottom {
        var _, _ := AlignedApart(m, bottom, cfg.step);
      } else if top < m {
        var _, _ := AlignedApart(top, m, cfg.step);
      }
    }
  }

  /** How many limits a search may test. */
  function Budget(cfg: Config): nat
    requires cfg.Legal()
  {
    var bottom, top := AlignUp(cfg.lower, cfg.step), AlignDown(cfg.upper, cfg.step);
    if top < bottom then 0 else 2 + CeilLog2(Steps(top - bottom, cfg.step))
  }

  /** The limits tested: all different, all candidates, and no more than a binary search needs. */
  ghost predicate Frugal(cfg: Config, order: seq<int>) {
    Distinct(order) && (forall l :: l in order ==> cfg.Candidate(l)) && (cfg.Legal() ==> |order| <= Budget(cfg))
  }

  lemma StoppedAt(cfg: Config, runner: Runner, order: seq<int>, r: SweepReport, l: int)
    requires cfg.Legal() && cfg.Candidate(l) && l !in order && l == NextLimit(cfg, runner, order)
    requires CutShort(runner, cfg.repetitions, order, l, r.attempts)
    ensures Stopped(cfg, runner, order, r)
  {
  }

  lemma Resolves(cfg: Config, runner: Runner, order: seq<int>, r: SweepReport)
    requires cfg.Candidate(r.minimumPass) && ShownTo(true, cfg, runner, order, r.minimumPass)
    requires cfg.Candidate(r.greatestFail) && ShownTo(false, cfg, runner, order, r.greatestFail)
    requires r.resolved && r.minimumPass - r.greatestFail == cfg.step
    ensures Answer(cfg, runner, order, r)
  {
  }

  lemma NothingTested(cfg: Config)
    ensures Frugal(cfg, []) && Counted(EMPTY_REPORT)
  {
  }

  lemma BudgetIs(cfg: Config)
    requires cfg.Legal() && AlignUp(cfg.lower, cfg.step) <= AlignDown(cfg.upper, cfg.step)
    ensures Budget(cfg) == 2 + CeilLog2(Steps(AlignDown(cfg.upper, cfg.step) - AlignUp(cfg.lower, cfg.step), cfg.step))
  {
  }

  method Search(cfg: Config, runner: Runner)
    returns (report: SweepReport, error: Option<SearchError>, ghost order: seq<int>)
    ensures error == Some(InvalidConfiguration) <==>
      !(0 < cfg.lower && cfg.lower <= cfg.upper && cfg.step > 0 && cfg.repetitions > 0)
    ensures error == Some(EmptyRange) <==> cfg.Legal() && forall m :: cfg.lower <= m <= cfg.upper ==> m % cfg.step != 0
    ensures error == Some(InvalidConfiguration) || error == Some(EmptyRange) ==> report == EMPTY_REPORT
    ensures Frugal(cfg, order) && Counted(report)
    ensures report.oomFailures == CountKind(report.attempts, OomFailure)
    ensures report.timeoutFailures == CountKind(report.attempts, TimeoutFailure)
    ensures report.functionalFailures == CountKind(report.attempts, FunctionalFailure)
    ensures report.integrityFailures == CountKind(report.attempts, IntegrityFailure)
    ensures error == Some(Cancelled) ==> Stopped(cfg, runner, order, report) && SameAnswer(report, EMPTY_REPORT)
    ensures order != [] ==> InTurn(cfg, runner, order)
    ensures error == None && report.resolved ==>
      |order| >= 2 && Bounds(cfg, runner, order) == (report.greatestFail, report.minimumPass)
    ensures error == Some(UpperFailed) ==>
      && Complete(cfg, runner, order, report)
      && cfg.Candidate(report.greatestFail) && (forall m :: cfg.Candidate(m) ==> m <= report.greatestFail)
      && ShownTo(false, cfg, runner, order, report.greatestFail)
      && order == [report.greatestFail] && report.minimumPass == 0 && !report.resolved
    ensures error == None ==> Complete(cfg, runner, order, report) && Answer(cfg, runner, order, report)
    ensures error == None ==>
      && cfg.Legal() && ShownTo(true, cfg, runner, order, AlignDown(cfg.upper, cfg.step))
      && ShownTo(!report.resolved, cfg, runner, order, AlignUp(cfg.lower, cfg.step))
  {
    report, error, order := EMPTY_REPORT, None, [];
    NothingTested(cfg);
    KindsCounted(report);
    hide Frugal, Counted, CountKind, Answer, Complete, Stopped, ShownTo, Budget, AlignUp, AlignDown, Steps;
    if !cfg.Legal() {
      error := Some(InvalidConfiguration);
      return;
    }
    var lower, upper := AlignUp(cfg.lower, cfg.step), AlignDown(cfg.upper, cfg.step);
    CandidatesBetween(cfg);
    CandidatesAre(cfg);
    if lower > upper {
      error := Some(EmptyRange);
      return;
    }
    BudgetIs(cfg);
    hide *;
    var search := new Searcher(cfg, runner);
    error := Probe(search, lower, upper);
    report, order := search.report, search.order;
    KindsCounted(report);
  }

  lemma KindsCounted(r: SweepReport)
    requires Counted(r)
    ensures r.oomFailures == CountKind(r.attempts, OomFailure)
    ensures r.timeoutFailures == CountKind(r.attempts, TimeoutFailure)
    ensures r.functionalFailures == CountKind(r.attempts, FunctionalFailure)
    ensures r.integrityFailures == CountKind(r.attempts, IntegrityFailure)
  {
  }

  lemma CandidatesAre(cfg: Config)
    requires cfg.Legal()
    ensures (forall m :: !cfg.Candidate(m)) <==> forall m :: cfg.lower <= m <= cfg.upper ==> m % cfg.step != 0
  {
    if forall m :: !cfg.Candidate(m) {
      forall m | cfg.lower <= m <= cfg.upper ensures m % cfg.step != 0 {
        assert !cfg.Candidate(m);
      }
    }
  }

  /** Tests the largest and the smallest candidate and, when they differ, looks for the boundary between them. */
  method Probe(search: Searcher, lower: int, upper: int) returns (error: Option<SearchError>)
    requires search.Valid() && search.order == []
    requires lower <= upper && search.cfg.Candidate(lower) && search.cfg.Candidate(upper)
    requires forall m :: search.cfg.Candidate(m) ==> lower <= m <= upper
    requires search.cfg.Legal() && Budget(search.cfg) == 2 + CeilLog2(Steps(upper - lower, search.cfg.step))
    requires lower == AlignUp(search.cfg.lower, search.cfg.step) && upper == AlignDown(search.cfg.upper, search.cfg.step)
    modifies search
    ensures error == None || error == Some(Cancelled) || error == Some(UpperFailed)
    ensures Frugal(search.cfg, search.order) && Counted(search.report)
    ensures InTurn(search.cfg, search.runner, search.order)
    ensures error == Some(Cancelled) ==>
      Stopped(search.cfg, search.runner, search.order, search.report) && SameAnswer(search.report, old(search.report))
    ensures error == None && search.report.resolved ==>
      && |search.order| >= 2
      && Bounds(search.cfg, search.runner, search.order) == (search.report.greatestFail, search.report.minimumPass)
    ensures error != Some(Cancelled) ==> Complete(search.cfg, search.runner, search.order, search.report)
    ensures error == Some(UpperFailed) ==>
      && search.order == [upper] && ShownTo(false, search.cfg, search.runner, search.order, upper)
      && search.report.greatestFail == upper && search.report.minimumPass == 0 && !search.report.resolved
    ensures error == None ==>
      && Answer(search.cfg, search.runner, search.order, search.report)
      && ShownTo(true, search.cfg, search.runner, search.order, upper)
      && ShownTo(!search.report.resolved, search.cfg, search.runner, search.order, lower)
  {
    hide *;
    search.Remembers();
    NextLimitIs(search.cfg, search.runner, []);
    var upperPass := search.Test(upper);
    FrugalIs(search.cfg, search.order);
    if upperPass.Err? {
      StoppedAt(search.cfg, search.runner, search.order, search.report, upper);
      return Some(upperPass.error);
    }
    search.Remembers();
    InTurnPush(search.cfg, search.runner, [], upper);
    ghost var first := search.order;
    assert [] + [upper] == first;
    NextLimitIs(search.cfg, search.runner, first);
    if !upperPass.value {
      search.Conclude(0, upper, false);
      search.Remembers();
      search.Shown(upper);
      return Some(UpperFailed);
    }
    ghost var before := search.report;
    var lowerPass := search.Test(lower);
    StillSame(search.report, before, old(search.report));
    if lowerPass.Err? {
      StoppedAt(search.cfg, search.runner, search.order, search.report, lower);
      return Some(lowerPass.error);
    }
    search.Remembers();
    FrugalIs(search.cfg, search.order);
    if lower != upper {
      InTurnPush(search.cfg, search.runner, first, lower);
    }
    if lowerPass.value {
      search.Conclude(lower, 0, false);
      search.Remembers();
      search.Shown(upper);
      search.Shown(lower);
      SmallestPasses(search.cfg, search.runner, search.order, search.report);
      return None;
    }
    before := search.report;
    error := Bisect(search, lower, upper);
    if error == Some(Cancelled) {
      StillSame(search.report, before, old(search.report));
    }
  }

  /** Narrows the interval between a failed and a passed candidate down to one step. */
  method Bisect(search: Searcher, lower: int, upper: int) returns (error: Option<SearchError>)
    requires search.Valid()
    requires lower < upper && search.cfg.Candidate(lower) && search.cfg.Candidate(upper)
    requires search.cfg.Legal() && Budget(search.cfg) == 2 + CeilLog2(Steps(upper - lower, search.cfg.step))
    requires lower in search.tested && !search.tested[lower] && upper in search.tested && search.tested[upper]
    requires search.order == [upper, lower] && InTurn(search.cfg, search.runner, search.order)
    modifies search
    ensures error == None || error == Some(Cancelled)
    ensures Frugal(search.cfg, search.order) && Counted(search.report)
    ensures InTurn(search.cfg, search.runner, search.order)
    ensures error == Some(Cancelled) ==>
      Stopped(search.cfg, search.runner, search.order, search.report) && SameAnswer(search.report, old(search.report))
    ensures error == None ==>
      && |search.order| >= 2
      && Bounds(search.cfg, search.runner, search.order) == (search.report.greatestFail, search.report.minimumPass)
    ensures error == None ==>
      && Complete(search.cfg, search.runner, search.order, search.report)
      && Answer(search.cfg, search.runner, search.order, search.report) && search.report.resolved
      && ShownTo(true, search.cfg, search.runner, search.order, upper)
      && ShownTo(false, search.cfg, search.runner, search.order, lower)
  {
    hide *;
    search.Remembers();
    var cfg, runner := search.cfg, search.runner;
    var fail, pass := lower, upper;
    EndsTested(cfg, runner, lower, upper);
    Unanswered(search.report);
    while pass - fail > cfg.step
      invariant search.Valid() && Distinct(search.order)
      invariant lower <= fail < pass <= upper && cfg.Candidate(fail) && cfg.Candidate(pass)
      invariant fail in search.tested && !search.tested[fail] && pass in search.tested && search.tested[pass]
      invariant lower in search.tested && !search.tested[lower] && upper in search.tested && search.tested[upper]
      invariant forall l :: l in search.tested <==> l in search.order
      invariant forall l :: l in search.order ==> cfg.Candidate(l) && (l <= fail || pass <= l)
      invariant |search.order| >= 2 && Bounds(cfg, runner, search.order) == (fail, pass)
      invariant InTurn(cfg, runner, search.order) && SameAnswer(search.report, old(search.report))
      invariant |search.order| + CeilLog2(Steps(pass - fail, cfg.step)) <= Budget(cfg)
    {
      BetweenCandidates(cfg, fail, pass);
      MidpointHalves(fail, pass, cfg.step);
      GapHalves(Steps(pass - fail, cfg.step));
      var mid := AlignDown((fail + pass) / 2, cfg.step);
      if mid <= fail {
        mid := fail + cfg.step;
      }
      NextLimitIs(cfg, runner, search.order);
      ghost var order, before := search.order, search.report;
      var midPass := search.Test(mid);
      StillSame(search.report, before, old(search.report));
      if midPass.Err? {
        FrugalIs(cfg, search.order);
        StoppedAt(cfg, runner, search.order, search.report, mid);
        return Some(midPass.error);
      }
      search.Remembers();
      search.Latest();
      InTurnPush(cfg, runner, order, mid);
      BoundsPush(cfg, runner, order, mid);
      if midPass.value {
        pass := mid;
      } else {
        fail := mid;
      }
    }
    BetweenCandidates(cfg, fail, pass);
    ghost var _, _ := AlignedApart(fail, pass, cfg.step);
    search.Conclude(pass, fail, true);
    search.Remembers();
    search.Shown(pass);
    search.Shown(fail);
    search.Shown(upper);
    search.Shown(lower);
    FrugalIs(cfg, search.order);
    Resolves(cfg, runner, search.order, search.report);
    return None;
  }

  lemma Unanswered(r: SweepReport)
    ensures SameAnswer(r, r)
  {
  }

  lemma StillSame(a: SweepReport, b: SweepReport, c: SweepReport)
    requires SameAnswer(a, b) && SameAnswer(b, c)
    ensures SameAnswer(a, c)
  {
  }

  lemma EndsTested(cfg: Config, runner: Runner, lower: int, upper: int)
    requires cfg.Legal()
    ensures Bounds(cfg, runner, [upper, lower]) == (lower, upper)
  {
  }

  lemma SmallestPasses(cfg: Config, runner: Runner, order: seq<int>, r: SweepReport)
    requires cfg.Candidate(r.minimumPass) && ShownTo(true, cfg, runner, order, r.minimumPass)
    requires !r.resolved && r.greatestFail == 0 && forall m :: cfg.Candidate(m) ==> r.minimumPass <= m
    ensures Answer(cfg, runner, order, r)
  {
  }

  lemma FrugalIs(cfg: Config, order: seq<int>)
    requires Distinct(order) && (forall l :: l in order ==> cfg.Candidate(l)) && cfg.Legal() && |order| <= Budget(cfg)
    ensures Frugal(cfg, order)
  {
  }

  lemma GapHalves(gap: nat)
    requires gap >= 2
    ensures CeilLog2(gap / 2) + 1 <= CeilLog2(gap) && CeilLog2((gap + 1) / 2) + 1 <= CeilLog2(gap)
  {
    CeilLog2Monotone(gap / 2, (gap + 1) / 2);
  }

  /** The verdicts the search came to, turn by turn, follow the limit alone, and never get worse as it grows. */
  ghost predicate Monotone(cfg: Config, runner: Runner, order: seq<int>, good: int -> bool) {
    && cfg.Legal()
    && (forall j :: 0 <= j < |order| ==> (Verdict(runner, cfg.repetitions, order, j) <==> good(order[j])))
    && forall a, b :: cfg.Candidate(a) && cfg.Candidate(b) && a <= b && good(a) ==> good(b)
  }

  /** With monotone verdicts the search finds the least candidate that passes. */
  lemma MinimumIsLeast(cfg: Config, runner: Runner, order: seq<int>, r: SweepReport, good: int -> bool)
    requires Answer(cfg, runner, order, r) && Monotone(cfg, runner, order, good)
    ensures cfg.Candidate(r.minimumPass) && good(r.minimumPass)
    ensures forall m :: cfg.Candidate(m) && good(m) ==> r.minimumPass <= m
  {
    hide Verdict;
    forall m | cfg.Candidate(m) && good(m) ensures r.minimumPass <= m {
      if r.resolved && m < r.minimumPass {
        var _, _ := AlignedApart(m, r.minimumPass, cfg.step);
      }
    }
  }

  /** With monotone verdicts a failed largest candidate means that none passes. */
  lemma FailedUpperMeansNone(cfg: Config, runner: Runner, order: seq<int>, top: int, good: int -> bool)
    requires ShownTo(false, cfg, runner, order, top) && Monotone(cfg, runner, order, good)
    requires cfg.Candidate(top) && forall m :: cfg.Candidate(m) ==> m <= top
    ensures forall m :: cfg.Candidate(m) ==> !good(m)
  {
    hide Verdict;
  }
}
