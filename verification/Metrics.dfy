/** The cache metrics of a run (internal/metrics/analyze.go), floating point taken as exact reals. */
module Metrics {
  import opened Bytes
  import opened LeastSquares
  import opened Lab
  import opened EventLog

  datatype Sample = Sample(time: int, cache: nat)

  datatype TimedEvent = TimedEvent(time: int, ordinal: nat, phase: Phase)

  const MAX_TIME: int := 0x7FFF_FFFF_FFFF_FFFF

  function Seconds(ns: int): real {
    ns as real / 1_000_000_000.0
  }

  function Caches(samples: seq<Sample>): seq<int> {
    seq(|samples|, i requires 0 <= i < |samples| => samples[i].cache)
  }

  /* ---- rises and falls ---- */

  /** Bytes gained and given back between neighbouring samples, and the time they took; apart from them the changes
      between neighbours whose clock did not advance, which the analysis skips. */
  datatype Flow = Flow(rises: nat, falls: nat, riseTime: int, fallTime: int, skippedRises: nat, skippedFalls: nat)

  function Add(f: Flow, before: Sample, after: Sample): Flow {
    var dt, up, down := after.time - before.time, after.cache - before.cache, before.cache - after.cache;
    if dt <= 0 then
      f.(skippedRises := f.skippedRises + if up > 0 then up else 0,
         skippedFalls := f.skippedFalls + if down > 0 then down else 0)
    else if up >= 0 then f.(rises := f.rises + up, riseTime := f.riseTime + dt)
    else f.(falls := f.falls + down, fallTime := f.fallTime + dt)
  }

  function Flows(samples: seq<Sample>): Flow {
    var n := |samples|;
    if n < 2 then Flow(0, 0, 0, 0, 0, 0) else Add(Flows(samples[..n - 1]), samples[n - 2], samples[n - 1])
  }

  ghost predicate StrictTimes(samples: seq<Sample>) {
    forall i :: 0 <= i < |samples| - 1 ==> samples[i].time < samples[i + 1].time
  }

  /** Everything gained less everything given back is the change from start to end. */
  lemma {:induction false} Telescopes(samples: seq<Sample>)
    requires samples != []
    ensures var f := Flows(samples);
      && f.rises - f.falls + f.skippedRises - f.skippedFalls == samples[|samples| - 1].cache - samples[0].cache
      && (StrictTimes(samples) ==>
            && f.skippedRises == 0 && f.skippedFalls == 0
            && f.riseTime + f.fallTime == samples[|samples| - 1].time - samples[0].time)
  {
    if |samples| > 1 {
      Telescopes(samples[..|samples| - 1]);
    }
  }

  /** A cache that never shrinks under a clock that advances only rises, all the time. */
  lemma {:induction false} SteadyRise(samples: seq<Sample>)
    requires samples != [] && StrictTimes(samples)
    requires forall i :: 0 <= i < |samples| - 1 ==> samples[i].cache <= samples[i + 1].cache
    ensures var first, last := samples[0], samples[|samples| - 1];
      first.cache <= last.cache
      && Flows(samples) == Flow(last.cache - first.cache, 0, last.time - first.time, 0, 0, 0)
  {
    if |samples| > 1 {
      SteadyRise(samples[..|samples| - 1]);
    }
  }

  lemma {:induction false} SteadyFall(samples: seq<Sample>)
    requires samples != [] && StrictTimes(samples)
    requires forall i :: 0 <= i < |samples| - 1 ==> samples[i].cache > samples[i + 1].cache
    ensures var first, last := samples[0], samples[|samples| - 1];
      first.cache >= last.cache
      && Flows(samples) == Flow(0, first.cache - last.cache, 0, last.time - first.time, 0, 0)
  {
    if |samples| > 1 {
      SteadyFall(samples[..|samples| - 1]);
    }
  }

  /** Under a clock that never advances nothing counts. */
  lemma {:induction false} StoppedClock(samples: seq<Sample>)
    requires forall i :: 0 <= i < |samples| - 1 ==> samples[i].time >= samples[i + 1].time
    ensures var f := Flows(samples); f.rises == f.falls == 0 && f.riseTime == f.fallTime == 0
  {
    if |samples| > 1 {
      StoppedClock(samples[..|samples| - 1]);
    }
  }

  /* ---- order statistics ---- */

  ghost predicate Sorted(s: seq<int>) {
    forall i, j :: 0 <= i < j < |s| ==> s[i] <= s[j]
  }

  function Insert(x: int, s: seq<int>): seq<int> {
    if s == [] || s[|s| - 1] <= x then s + [x] else Insert(x, s[..|s| - 1]) + [s[|s| - 1]]
  }

  function Sort(s: seq<int>): (r: seq<int>)
    ensures |r| == |s|
  {
    if s == [] then []
    else
      InsertLength(s[|s| - 1], Sort(s[..|s| - 1]));
      Insert(s[|s| - 1], Sort(s[..|s| - 1]))
  }

  lemma {:induction false} InsertLength(x: int, s: seq<int>)
    ensures |Insert(x, s)| == |s| + 1
  {
    if s != [] && x < s[|s| - 1] {
      InsertLength(x, s[..|s| - 1]);
    }
  }

  lemma {:induction false} InsertSorts(x: int, s: seq<int>)
    requires Sorted(s)
    ensures Sorted(Insert(x, s)) && multiset(Insert(x, s)) == multiset(s) + multiset{x}
    ensures forall v :: x <= v && (s != [] ==> s[|s| - 1] <= v) ==> Bounded(Insert(x, s), v)
  {
    if s != [] && x < s[|s| - 1] {
      var front, last := s[..|s| - 1], s[|s| - 1];
      InsertSorts(x, front);
      assert s == front + [last];
      hide Insert;
      assert Bounded(Insert(x, front), last);
      SortedPush(Insert(x, front), last);
      InsertStep(x, s);
    } else {
      SortedPush(s, x);
    }
  }

  ghost predicate Bounded(s: seq<int>, v: int) {
    forall i :: 0 <= i < |s| ==> s[i] <= v
  }

  lemma InsertStep(x: int, s: seq<int>)
    requires s != [] && x < s[|s| - 1]
    ensures Insert(x, s) == Insert(x, s[..|s| - 1]) + [s[|s| - 1]]
  {
  }

  lemma SortedPush(s: seq<int>, x: int)
    requires Sorted(s) && (Bounded(s, x) || s == [] || s[|s| - 1] <= x)
    ensures Sorted(s + [x]) && forall v :: x <= v ==> Bounded(s + [x], v)
  {
  }

  lemma {:induction false} SortSorts(s: seq<int>)
    ensures Sorted(Sort(s)) && multiset(Sort(s)) == multiset(s)
  {
    if s != [] {
      hide *;
      SortUnfolds(s);
      LastApart(s);
      SortSorts(s[..|s| - 1]);
      InsertSorts(s[|s| - 1], Sort(s[..|s| - 1]));
    }
  }

  lemma SortUnfolds(s: seq<int>)
    requires s != []
    ensures Sort(s) == Insert(s[|s| - 1], Sort(s[..|s| - 1]))
  {
    hide Insert;
  }

  lemma LastApart(s: seq<int>)
    requires s != []
    ensures multiset(s) == multiset(s[..|s| - 1]) + multiset{s[|s| - 1]}
  {
    assert s == s[..|s| - 1] + [s[|s| - 1]];
  }

  /** How many of the values are at most v. */
  function CountUpTo(s: seq<int>, v: int): nat {
    if s == [] then 0 else CountUpTo(s[..|s| - 1], v) + if s[|s| - 1] <= v then 1 else 0
  }

  lemma CountPush(s: seq<int>, x: int, v: int)
    ensures CountUpTo(s + [x], v) == CountUpTo(s, v) + if x <= v then 1 else 0
  {
    assert (s + [x])[..|s|] == s;
  }

  lemma {:induction false} InsertCounts(x: int, s: seq<int>, v: int)
    ensures CountUpTo(Insert(x, s), v) == CountUpTo(s, v) + if x <= v then 1 else 0
  {
    if s == [] || s[|s| - 1] <= x {
      CountPush(s, x, v);
    } else {
      var front, last := s[..|s| - 1], s[|s| - 1];
      InsertCounts(x, front, v);
      CountPush(Insert(x, front), last, v);
    }
  }

  lemma {:induction false} SortCounts(s: seq<int>, v: int)
    ensures CountUpTo(Sort(s), v) == CountUpTo(s, v)
  {
    if s != [] {
      SortCounts(s[..|s| - 1], v);
      InsertCounts(s[|s| - 1], Sort(s[..|s| - 1]), v);
    }
  }

  /** In sorted values those up to v are a prefix. */
  lemma {:induction false} CountPrefix(s: seq<int>, v: int, k: nat)
    requires k <= |s|
    ensures (forall i :: 0 <= i < k ==> s[i] <= v) ==> CountUpTo(s, v) >= k
    ensures (forall i :: k <= i < |s| ==> s[i] > v) ==> CountUpTo(s, v) <= k
  {
    if s != [] {
      var n := |s| - 1;
      CountPrefix(s[..n], v, if k <= n then k else n);
    }
  }

  /** v is the least value that at least k of the values do not exceed. */
  ghost predicate Ranked(s: seq<int>, v: int, k: real) {
    && v in s && CountUpTo(s, v) as real >= k
    && forall w :: w in s && w < v ==> (CountUpTo(s, w) as real) < k
  }

  lemma {:induction false} IndexRanks(s: seq<int>, r: nat, k: real)
    requires r < |s| && r as real < k <= r as real + 1.0
    ensures Ranked(s, Sort(s)[r], k)
  {
    var v := Sort(s)[r];
    SortSorts(s);
    SortCounts(s, v);
    SortedCounts(Sort(s), r);
    hide Sort, CountUpTo, Sorted;
    assert v in multiset(Sort(s));
    forall w | w in s && w < v ensures (CountUpTo(s, w) as real) < k {
      hide *;
      SortCounts(s, w);
      assert CountUpTo(Sort(s), w) <= r;
    }
  }

  lemma {:induction false} SortedCounts(s: seq<int>, r: nat)
    requires Sorted(s) && r < |s|
    ensures CountUpTo(s, s[r]) >= r + 1
    ensures forall w :: w < s[r] ==> CountUpTo(s, w) <= r
  {
    CountPrefix(s, s[r], r + 1);
    forall w | w < s[r] ensures CountUpTo(s, w) <= r {
      CountPrefix(s, w, r);
    }
  }

  function Ceil(x: real): (c: int)
    ensures x <= c as real < x + 1.0
  {
    -(-x).Floor
  }

  function NearestRank(n: nat, p: real): (r: nat)
    requires n > 0
    ensures r < n
    ensures 0.0 < p <= 1.0 ==> r as real < p * n as real <= r as real + 1.0
  {
    Portion(n, p);
    var rank := Ceil(p * n as real) - 1;
    if rank < 0 then 0 else if rank >= n then n - 1 else rank
  }

  lemma Portion(n: nat, p: real)
    requires n > 0
    ensures 0.0 < p <= 1.0 ==> 0.0 < p * n as real <= n as real
  {
    if 0.0 < p <= 1.0 {
      Positive(p, n as real);
      Product(p, n as real);
      Product(1.0 - p, n as real);
      One(n as real);
      Distributes(n as real, 1.0, p);
      if p < 1.0 {
        Positive(1.0 - p, n as real);
      }
    }
  }

  /** The value at the nearest rank of any percentage is the least value that share of the values does not exceed. */
  lemma {:induction false} PercentileIsLeast(s: seq<int>, p: real)
    requires s != [] && 0.0 < p <= 1.0
    ensures Ranked(s, Sort(s)[NearestRank(|s|, p)], p * |s| as real)
  {
    IndexRanks(s, NearestRank(|s|, p), p * |s| as real);
  }

  /* ---- rotation transients ---- */

  predicate Starts(e: TimedEvent) {
    e.phase.CopyStart? || e.phase.Renamed?
  }

  predicate Closes(e: TimedEvent, start: TimedEvent) {
    e.ordinal == start.ordinal && e.phase.RetentionComplete? && e.time >= start.time
  }

  /** The time of the first event from index i on that closes the window, or the end of time. */
  function EndFrom(events: seq<TimedEvent>, start: TimedEvent, i: nat): (end: int)
    requires i <= |events|
    decreases |events| - i
  {
    if i == |events| then MAX_TIME
    else if Closes(events[i], start) then events[i].time
    else EndFrom(events, start, i + 1)
  }

  lemma {:induction false} EndFromFirst(events: seq<TimedEvent>, start: TimedEvent, i: nat, k: nat)
    requires i <= k <= |events| && forall j :: i <= j < k ==> !Closes(events[j], start)
    ensures EndFrom(events, start, i) == EndFrom(events, start, k)
    decreases k - i
  {
    if i < k {
      EndFromFirst(events, start, i + 1, k);
    }
  }

  /** The samples taken between lo and hi. */
  function Inside(samples: seq<Sample>, lo: int, hi: int): seq<Sample> {
    if samples == [] then []
    else
      var last := samples[|samples| - 1];
      Inside(samples[..|samples| - 1], lo, hi) + if lo <= last.time <= hi then [last] else []
  }

  /** Both ends count, and nothing else is left out. */
  lemma {:induction false} InsideExactly(samples: seq<Sample>, lo: int, hi: int, s: Sample)
    ensures multiset(Inside(samples, lo, hi))[s] == if lo <= s.time && s.time <= hi then multiset(samples)[s] else 0
  {
    if samples != [] {
      var front, last := samples[..|samples| - 1], samples[|samples| - 1];
      InsideExactly(front, lo, hi, s);
      assert samples == front + [last];
      InsidePush(front, last, lo, hi);
    }
  }

  lemma InsidePush(samples: seq<Sample>, last: Sample, lo: int, hi: int)
    ensures Inside(samples + [last], lo, hi) == Inside(samples, lo, hi) + if lo <= last.time <= hi then [last] else []
  {
    assert (samples + [last])[..|samples|] == samples;
  }

  /** How far the cache rises above its first sample. */
  function Excess(s: seq<Sample>): (e: nat) {
    if s == [] then 0
    else
      var before, over := Excess(s[..|s| - 1]), s[|s| - 1].cache - s[0].cache;
      if over > before then over else before
  }

  lemma ExcessPush(s: seq<Sample>, last: Sample)
    ensures Excess(s + [last])
         == if s != [] && last.cache - s[0].cache > Excess(s) then last.cache - s[0].cache else Excess(s)
  {
    assert (s + [last])[..|s|] == s;
    assert s == [] ==> last.cache - (s + [last])[0].cache == 0;
  }

  lemma {:induction false} ExcessIs(s: seq<Sample>)
    ensures forall i :: 0 <= i < |s| ==> s[i].cache - s[0].cache <= Excess(s)
    ensures s != [] ==> exists i :: 0 <= i < |s| && s[i].cache - s[0].cache == Excess(s)
  {
    if |s| == 1 {
      assert Excess(s[..0]) == 0;
      assert s[0].cache - s[0].cache == Excess(s);
    } else if |s| > 1 {
      var n := |s| - 1;
      ExcessIs(s[..n]);
      var i :| 0 <= i < n && s[..n][i].cache - s[..n][0].cache == Excess(s[..n]);
      assert s[i].cache - s[0].cache == Excess(s[..n]);
      assert s[n].cache - s[0].cache == Excess(s) || s[i].cache - s[0].cache == Excess(s);
      assert forall j :: 0 <= j < n ==> s[j] == s[..n][j];
    }
  }

  function WindowExcess(samples: seq<Sample>, events: seq<TimedEvent>, k: nat): nat
    requires k < |events|
  {
    Excess(Inside(samples, events[k].time, EndFrom(events, events[k], 0)))
  }

  /** The largest excess over all windows that a copy or a rename starts; zero when there is none. */
  ghost predicate IsTransient(samples: seq<Sample>, events: seq<TimedEvent>, max: nat) {
    && (forall k :: 0 <= k < |events| && Starts(events[k]) ==> WindowExcess(samples, events, k) <= max)
    && (max > 0 ==> exists k :: 0 <= k < |events| && Starts(events[k]) && WindowExcess(samples, events, k) == max)
  }

  method RotationTransient(samples: seq<Sample>, events: seq<TimedEvent>) returns (max: nat)
    ensures IsTransient(samples, events, max)
  {
    max := 0;
    for k := 0 to |events|
      invariant forall j :: 0 <= j < k && Starts(events[j]) ==> WindowExcess(samples, events, j) <= max
      invariant max > 0 ==> exists j :: 0 <= j < k && Starts(events[j]) && WindowExcess(samples, events, j) == max
    {
      var start := events[k];
      if !start.phase.CopyStart? && !start.phase.Renamed? {
        continue;
      }
      var end := WindowEnd(events, start);
      var excess := PeakOverBase(samples, start.time, end);
      if excess > max {
        max := excess;
      }
      hide WindowExcess;
      assert WindowExcess(samples, events, k) == excess by {
        WindowIs(samples, events, k);
      }
    }
  }

  lemma WindowIs(samples: seq<Sample>, events: seq<TimedEvent>, k: nat)
    requires k < |events|
    ensures WindowExcess(samples, events, k)
         == Excess(Inside(samples, events[k].time, EndFrom(events, events[k], 0)))
  {
  }

  method WindowEnd(events: seq<TimedEvent>, start: TimedEvent) returns (end: int)
    ensures end == EndFrom(events, start, 0)
    ensures (forall i :: 0 <= i < |events| ==> !Closes(events[i], start)) ==> end == 0x7FFF_FFFF_FFFF_FFFF
    ensures (exists i :: 0 <= i < |events| && Closes(events[i], start)) ==>
      exists i :: 0 <= i < |events| && end == events[i].time >= start.time
        && events[i].ordinal == start.ordinal && events[i].phase == RetentionComplete
        && forall j :: 0 <= j < i && events[j].ordinal == start.ordinal && events[j].phase == RetentionComplete ==>
             events[j].time < start.time
  {
    end := MAX_TIME;
    var i := 0;
    while i < |events|
      invariant 0 <= i <= |events| && end == MAX_TIME
      invariant forall j :: 0 <= j < i ==> !Closes(events[j], start)
      invariant EndFrom(events, start, 0) == EndFrom(events, start, i)
    {
      var event := events[i];
      if event.ordinal == start.ordinal && event.phase.RetentionComplete? && event.time >= start.time {
        end := event.time;
        break;
      }
      i := i + 1;
    }
  }

  method PeakOverBase(samples: seq<Sample>, lo: int, hi: int) returns (excess: nat)
    ensures excess == Excess(Inside(samples, lo, hi))
  {
    var base: int, peak: int, found := 0, 0, false;
    for i := 0 to |samples|
      invariant found <==> Inside(samples[..i], lo, hi) != []
      invariant found ==> base == Inside(samples[..i], lo, hi)[0].cache && peak - base == Excess(Inside(samples[..i], lo, hi))
    {
      var sample := samples[i];
      ghost var inside := Inside(samples[..i], lo, hi);
      assert samples[..i + 1] == samples[..i] + [sample];
      InsidePush(samples[..i], sample, lo, hi);
      if lo <= sample.time <= hi {
        ExcessPush(inside, sample);
        if !found {
          base, peak, found := sample.cache, sample.cache, true;
        }
        if sample.cache > peak {
          peak := sample.cache;
        }
        assert (inside + [sample])[0].cache == base;
      } else {
        assert inside + [] == inside;
      }
    }
    assert samples[..|samples|] == samples;
    return if found && peak > base then peak - base else 0;
  }

  /** Nothing inside a window lies higher above its first value than all rises together. */
  lemma {:induction false} InsideBounded(samples: seq<Sample>, lo: int, hi: int)
    ensures var inside, f := Inside(samples, lo, hi), Flows(samples);
      inside != [] ==>
        && samples[|samples| - 1].cache <= inside[0].cache + f.rises + f.skippedRises
        && forall i :: 0 <= i < |inside| ==> inside[i].cache <= inside[0].cache + f.rises + f.skippedRises
  {
    if samples != [] {
      InsideBounded(samples[..|samples| - 1], lo, hi);
    }
  }

  /** No transient exceeds the bytes gained; with a clock that always advances none of them were skipped. */
  lemma {:induction false} TransientBounded(samples: seq<Sample>, events: seq<TimedEvent>, max: nat)
    requires samples != [] && IsTransient(samples, events, max)
    ensures max <= Flows(samples).rises + Flows(samples).skippedRises
    ensures StrictTimes(samples) ==> max <= Flows(samples).rises
  {
    Telescopes(samples);
    if max > 0 {
      var k :| 0 <= k < |events| && Starts(events[k]) && WindowExcess(samples, events, k) == max;
      var inside := Inside(samples, events[k].time, EndFrom(events, events[k], 0));
      InsideBounded(samples, events[k].time, EndFrom(events, events[k], 0));
      ExcessIs(inside);
    }
  }

  /* ---- slopes between rotations ---- */

  function Points(samples: seq<Sample>): seq<Point> {
    seq(|samples|, i requires 0 <= i < |samples| => Point(Seconds(samples[i].time), samples[i].cache as real))
  }

  /** The times at which a rotation was complete, in log order. */
  function Completions(events: seq<TimedEvent>): seq<int> {
    if events == [] then []
    else
      var last := events[|events| - 1];
      Completions(events[..|events| - 1]) + if last.phase.RetentionComplete? then [last.time] else []
  }

  /** Every retention-complete gives its time, */
  lemma {:induction false} CompletionIn(events: seq<TimedEvent>, i: nat)
    requires i < |events| && events[i].phase == RetentionComplete
    ensures events[i].time in Completions(events)
  {
    if i < |events| - 1 {
      CompletionIn(events[..|events| - 1], i);
    }
  }

  /** and every time has its retention-complete. */
  lemma {:induction false} CompletionFrom(events: seq<TimedEvent>, k: nat) returns (i: nat)
    requires k < |Completions(events)|
    ensures i < |events| && events[i].phase == RetentionComplete && events[i].time == Completions(events)[k]
  {
    var n := |events| - 1;
    if k < |Completions(events[..n])| {
      i := CompletionFrom(events[..n], k);
    } else {
      i := n;
    }
  }

  /** The times of the first sample, the completions and the last sample, in order. */
  function Cuts(samples: seq<Sample>, events: seq<TimedEvent>): seq<int>
    requires samples != []
  {
    Sort([samples[0].time] + Completions(events) + [samples[|samples| - 1].time])
  }

  lemma {:induction false} CutsAre(samples: seq<Sample>, events: seq<TimedEvent>)
    requires samples != []
    ensures var cuts := Cuts(samples, events);
      && Sorted(cuts) && |cuts| >= 2
      && multiset(cuts) == multiset([samples[0].time] + Completions(events) + [samples[|samples| - 1].time])
  {
    SortSorts([samples[0].time] + Completions(events) + [samples[|samples| - 1].time]);
  }

  /** The stretches between neighbouring cuts that hold at least two samples. */
  function Stretches(samples: seq<Sample>, cuts: seq<int>): seq<seq<Sample>> {
    var n := |cuts|;
    if n < 2 then []
    else
      var stretch := Inside(samples, cuts[n - 2], cuts[n - 1]);
      Stretches(samples, cuts[..n - 1]) + if |stretch| >= 2 then [stretch] else []
  }

  /** Between cut i - 1 and cut i a slope can be taken. */
  predicate Sloped(samples: seq<Sample>, cuts: seq<int>, i: nat) {
    0 < i < |cuts| && |Inside(samples, cuts[i - 1], cuts[i])| > 1
  }

  /** Every pair of neighbouring cuts with more than one sample between them has its stretch, */
  lemma {:induction false} StretchIn(samples: seq<Sample>, cuts: seq<int>, i: nat)
    requires Sloped(samples, cuts, i)
    ensures Inside(samples, cuts[i - 1], cuts[i]) in Stretches(samples, cuts)
  {
    hide Inside;
    var n := |cuts| - 1;
    if i < n {
      StretchIn(samples, cuts[..n], i);
    }
  }

  /** and every stretch has its pair. */
  lemma {:induction false} StretchFrom(samples: seq<Sample>, cuts: seq<int>, k: nat) returns (i: nat)
    requires k < |Stretches(samples, cuts)|
    ensures Sloped(samples, cuts, i) && Stretches(samples, cuts)[k] == Inside(samples, cuts[i - 1], cuts[i])
  {
    hide Inside;
    var n := |cuts| - 1;
    if k < |Stretches(samples, cuts[..n])| {
      i := StretchFrom(samples, cuts[..n], k);
    } else {
      i := n;
    }
  }

  /** The sum of the squared distances, in bytes, of the samples from a line over the seconds. */
  function Misfit(stretch: seq<Sample>, slope: real, intercept: real): real {
    if stretch == [] then 0.0
    else
      var s := stretch[|stretch| - 1];
      var off := s.cache as real - slope * (s.time as real / 1_000_000_000.0) - intercept;
      Misfit(stretch[..|stretch| - 1], slope, intercept) + off * off
  }

  /** No other line is as close to the samples. */
  ghost predicate BestLine(stretch: seq<Sample>, slope: real, intercept: real) {
    forall a, b :: Misfit(stretch, slope, intercept) <= Misfit(stretch, a, b)
      && (Misfit(stretch, slope, intercept) == Misfit(stretch, a, b) ==> a == slope && b == intercept)
  }

  ghost predicate OneTime(stretch: seq<Sample>) {
    forall i, j :: 0 <= i < j < |stretch| ==> stretch[i].time == stretch[j].time
  }

  /** The slope fits the samples: the best one, or zero where they were all taken at one time. */
  ghost predicate Fits(stretch: seq<Sample>, slope: real) {
    if OneTime(stretch) then slope == 0.0 else exists intercept :: BestLine(stretch, slope, intercept)
  }

  lemma {:induction false} MisfitIs(stretch: seq<Sample>, slope: real, intercept: real)
    ensures Misfit(stretch, slope, intercept) == Residual(Points(stretch), slope, intercept)
  {
    if stretch != [] {
      var front, s := stretch[..|stretch| - 1], stretch[|stretch| - 1];
      var points, p := Points(stretch), Point(Seconds(s.time), s.cache as real);
      MisfitIs(front, slope, intercept);
      assert points[..|points| - 1] == Points(front) && points[|points| - 1] == p;
      Product(slope, p.x);
      var off := Off(p, slope, intercept);
      assert off == s.cache as real - slope * (s.time as real / 1_000_000_000.0) - intercept;
      Product(off, off);
    }
  }

  lemma PointsFit(stretch: seq<Sample>, slope: real)
    requires SameX(Points(stretch)) ==> slope == 0.0
    requires !SameX(Points(stretch)) ==> Best(Points(stretch), slope)
    ensures Fits(stretch, slope)
  {
    SameTimes(stretch);
    if !OneTime(stretch) {
      var intercept := Intercept(Points(stretch), slope);
      hide Intercept, Misfit, Residual, Points;
      MisfitIs(stretch, slope, intercept);
      forall a, b
        ensures Misfit(stretch, slope, intercept) <= Misfit(stretch, a, b)
        ensures Misfit(stretch, slope, intercept) == Misfit(stretch, a, b) ==> a == slope && b == intercept
      {
        MisfitIs(stretch, a, b);
      }
      assert BestLine(stretch, slope, intercept);
    }
  }

  lemma SameTimes(stretch: seq<Sample>)
    ensures SameX(Points(stretch)) <==> OneTime(stretch)
  {
    var points := Points(stretch);
    if SameX(points) {
      forall i, j | 0 <= i < j < |stretch| ensures stretch[i].time == stretch[j].time {
        assert points[i].x == points[j].x;
      }
    }
  }

  /** Samples whose cache grows by b bytes a second have the slope b. */
  lemma SteadySlope(stretch: seq<Sample>, slope: real, a: real, b: real)
    requires Fits(stretch, slope) && !OneTime(stretch)
    requires forall i :: 0 <= i < |stretch| ==>
      stretch[i].cache as real == a + b * (stretch[i].time as real / 1_000_000_000.0)
    ensures slope == b
  {
    var intercept :| BestLine(stretch, slope, intercept);
    NoMisfit(stretch, a, b);
    hide Misfit;
    MisfitIs(stretch, slope, intercept);
    ResidualSign(Points(stretch), slope, intercept);
    assert Misfit(stretch, slope, intercept) <= Misfit(stretch, b, a);
  }

  lemma {:induction false} NoMisfit(stretch: seq<Sample>, a: real, b: real)
    requires forall i :: 0 <= i < |stretch| ==>
      stretch[i].cache as real == a + b * (stretch[i].time as real / 1_000_000_000.0)
    ensures Misfit(stretch, b, a) == 0.0
  {
    if stretch != [] {
      NoMisfit(stretch[..|stretch| - 1], a, b);
    }
  }

  ghost predicate AllFit(stretches: seq<seq<Sample>>, slopes: seq<real>) {
    |slopes| == |stretches| && forall i :: 0 <= i < |slopes| ==> Fits(stretches[i], slopes[i])
  }

  lemma NoStretch(samples: seq<Sample>, cuts: seq<int>)
    requires |cuts| < 2
    ensures AllFit(Stretches(samples, cuts), [])
  {
  }

  lemma StretchesPush(samples: seq<Sample>, cuts: seq<int>, slopes: seq<real>, i: nat)
    requires 0 < i < |cuts| && AllFit(Stretches(samples, cuts[..i]), slopes)
    ensures var stretch := Inside(samples, cuts[i - 1], cuts[i]);
      && (|stretch| < 2 ==> AllFit(Stretches(samples, cuts[..i + 1]), slopes))
      && (|stretch| >= 2 ==> forall slope :: Fits(stretch, slope) ==>
            AllFit(Stretches(samples, cuts[..i + 1]), slopes + [slope]))
  {
    hide Fits, Inside;
    assert cuts[..i + 1][..i] == cuts[..i];
  }

  method Boundaries(samples: seq<Sample>, events: seq<TimedEvent>) returns (boundaries: seq<int>)
    requires samples != []
    ensures boundaries == Cuts(samples, events)
  {
    boundaries := [samples[0].time];
    for k := 0 to |events|
      invariant boundaries == [samples[0].time] + Completions(events[..k])
    {
      assert events[..k + 1][..k] == events[..k];
      if events[k].phase.RetentionComplete? {
        boundaries := boundaries + [events[k].time];
      }
    }
    assert events[..|events|] == events;
    boundaries := boundaries + [samples[|samples| - 1].time];
    boundaries := Sort(boundaries);
  }

  method IntervalSlopes(samples: seq<Sample>, events: seq<TimedEvent>) returns (slopes: seq<real>)
    requires samples != []
    ensures AllFit(Stretches(samples, Cuts(samples, events)), slopes)
  {
    var boundaries := Boundaries(samples, events);
    ghost var cuts := boundaries;
    CutsAre(samples, events);
    slopes := [];
    NoStretch(samples, cuts[..1]);
    hide *;
    for i := 1 to |boundaries|
      invariant AllFit(Stretches(samples, cuts[..i]), slopes)
    {
      var segment := Segment(samples, boundaries[i - 1], boundaries[i]);
      StretchesPush(samples, cuts, slopes, i);
      if |segment| >= 2 {
        var slope := LeastSquaresSlope(segment);
        slopes := slopes + [slope];
      }
    }
    assert cuts[..|cuts|] == cuts;
  }

  method Segment(samples: seq<Sample>, lo: int, hi: int) returns (segment: seq<Sample>)
    ensures segment == Inside(samples, lo, hi)
  {
    segment := [];
    for j := 0 to |samples|
      invariant segment == Inside(samples[..j], lo, hi)
    {
      assert samples[..j + 1] == samples[..j] + [samples[j]];
      InsidePush(samples[..j], samples[j], lo, hi);
      if lo <= samples[j].time <= hi {
        segment := segment + [samples[j]];
      }
    }
    assert samples[..|samples|] == samples;
  }

  method LeastSquaresSlope(segment: seq<Sample>) returns (slope: real)
    ensures Fits(segment, slope)
  {
    slope := Fit(Points(segment));
    hide *;
    PointsFit(segment, slope);
  }

  /* ---- the whole analysis ---- */

  datatype CacheMetrics = CacheMetrics(
    startBytes: int, endBytes: int, maxBytes: int, meanBytes: real, medianBytes: int, p95Bytes: int,
    overallRate: real, positiveRate: real, reclaimRate: real, rotationTransient: nat, intervalSlopes: seq<real>)

  const NO_METRICS := CacheMetrics(0, 0, 0, 0.0, 0, 0, 0.0, 0.0, 0.0, 0, [])

  function Sum(s: seq<int>): int {
    if s == [] then 0 else Sum(s[..|s| - 1]) + s[|s| - 1]
  }

  ghost predicate IsMaximum(s: seq<int>, m: int) {
    m in s && forall v :: v in s ==> v <= m
  }

  /** A rate is bytes over seconds, or zero when no time passed. */
  ghost predicate IsRate(rate: real, bytes: int, ns: int) {
    (ns == 0 ==> rate == 0.0) && (ns != 0 ==> rate * (ns as real / 1_000_000_000.0) == bytes as real)
  }

  ghost predicate IsMean(mean: real, sum: real, n: nat) {
    mean * n as real == sum
  }

  /** Start, end, extremes and averages of the samples, and their rates of change. */
  ghost predicate Summarises(samples: seq<Sample>, m: CacheMetrics)
    requires samples != []
  {
    var n, caches, f := |samples|, Caches(samples), Flows(samples);
    var start, end := samples[0], samples[n - 1];
    && m.startBytes == start.cache && m.endBytes == end.cache && IsMaximum(caches, m.maxBytes)
    && IsMean(m.meanBytes, Sum(caches) as real, n)
    && Ranked(caches, m.medianBytes, (n / 2 + 1) as real) && Ranked(caches, m.p95Bytes, 0.95 * n as real)
    && IsRate(m.positiveRate, f.rises, f.riseTime) && IsRate(m.reclaimRate, f.falls, f.fallTime)
    && IsRate(m.overallRate, end.cache - start.cache, if end.time > start.time then end.time - start.time else 0)
  }

  method Analyze(samples: seq<Sample>, events: seq<TimedEvent>) returns (m: CacheMetrics)
    ensures samples == [] ==> m == NO_METRICS
    ensures samples != [] ==>
      && Summarises(samples, m) && IsTransient(samples, events, m.rotationTransient)
      && AllFit(Stretches(samples, Cuts(samples, events)), m.intervalSlopes)
  {
    if samples == [] {
      return NO_METRICS;
    }
    var sums, max := Accumulate(samples);
    m := Averages(samples, sums, max);
    var transient := RotationTransient(samples, events);
    var slopes := IntervalSlopes(samples, events);
    OtherFigures(samples, m, transient, slopes);
    hide *;
    m := m.(rotationTransient := transient, intervalSlopes := slopes);
  }

  lemma OtherFigures(samples: seq<Sample>, m: CacheMetrics, transient: nat, slopes: seq<real>)
    requires samples != [] && Summarises(samples, m)
    ensures Summarises(samples, m.(rotationTransient := transient, intervalSlopes := slopes))
  {
    hide Caches, Flows, IsMaximum, Ranked, IsRate, IsMean, Sum;
  }

  datatype Sums = Sums(
    values: seq<int>, sum: real,
    positiveBytes: real, reclaimBytes: real, positiveSeconds: real, reclaimSeconds: real)

  ghost predicate Summed(samples: seq<Sample>, s: Sums) {
    var f := Flows(samples);
    && s.values == Caches(samples) && s.sum == Sum(s.values) as real
    && s.positiveBytes == f.rises as real && s.reclaimBytes == f.falls as real
    && s.positiveSeconds == Seconds(f.riseTime) && s.reclaimSeconds == Seconds(f.fallTime)
  }

  function WithValue(s: Sums, cache: nat): Sums {
    s.(values := s.values + [cache], sum := s.sum + cache as real)
  }

  lemma SummedPush(samples: seq<Sample>, sample: Sample)
    ensures Caches(samples + [sample]) == Caches(samples) + [sample.cache]
    ensures Sum(Caches(samples) + [sample.cache]) == Sum(Caches(samples)) + sample.cache
    ensures samples != [] ==> Flows(samples + [sample]) == Add(Flows(samples), samples[|samples| - 1], sample)
    ensures samples == [] ==> Flows(samples + [sample]) == Flows(samples)
  {
    assert (samples + [sample])[..|samples|] == samples;
    assert (Caches(samples) + [sample.cache])[..|samples|] == Caches(samples);
  }

  lemma SecondsAdd(a: int, b: int)
    ensures Seconds(a + b) == Seconds(a) + Seconds(b) && (Seconds(a) <= 0.0 <==> a <= 0) && (Seconds(a) == 0.0 <==> a == 0)
  {
  }

  lemma SummedSkip(samples: seq<Sample>, sample: Sample, s: Sums)
    requires Summed(samples, s) && (samples == [] || sample.time <= samples[|samples| - 1].time)
    ensures Summed(samples + [sample], WithValue(s, sample.cache))
  {
    SummedPush(samples, sample);
    hide Flows, Caches, Sum, Seconds;
  }

  lemma SummedMove(samples: seq<Sample>, sample: Sample, s: Sums, s': Sums)
    requires samples != [] && Summed(samples, s)
    requires var before := samples[|samples| - 1];
      && before.time < sample.time
      && s' == if before.cache <= sample.cache
               then WithValue(s, sample.cache).(
                 positiveBytes := s.positiveBytes + (sample.cache - before.cache) as real,
                 positiveSeconds := s.positiveSeconds + Seconds(sample.time - before.time))
               else WithValue(s, sample.cache).(
                 reclaimBytes := s.reclaimBytes + (before.cache - sample.cache) as real,
                 reclaimSeconds := s.reclaimSeconds + Seconds(sample.time - before.time))
    ensures Summed(samples + [sample], s')
  {
    var f, dt := Flows(samples), sample.time - samples[|samples| - 1].time;
    SummedPush(samples, sample);
    SecondsAdd(f.riseTime, dt);
    SecondsAdd(f.fallTime, dt);
    hide Flows, Caches, Sum, Seconds;
  }

  lemma MaximumPush(values: seq<int>, max: int, v: int)
    requires values == [] || IsMaximum(values, max)
    ensures IsMaximum(values + [v], if values == [] || v > max then v else max)
  {
  }

  lemma NothingSummed(s: Sums)
    requires s.values == [] && s.sum == 0.0
    requires s.positiveBytes == s.reclaimBytes == s.positiveSeconds == s.reclaimSeconds == 0.0
    ensures Summed([], s)
  {
  }

  /** The pass over the samples. */
  method Accumulate(samples: seq<Sample>) returns (s: Sums, max: int)
    requires samples != []
    ensures Summed(samples, s) && IsMaximum(s.values, max)
  {
    hide *;
    s, max := Sums([], 0.0, 0.0, 0.0, 0.0, 0.0), samples[0].cache;
    NothingSummed(s);
    assert samples[..0] == [];
    for i := 0 to |samples|
      invariant Summed(samples[..i], s) && |s.values| == i
      invariant i == 0 ==> max == samples[0].cache
      invariant i > 0 ==> IsMaximum(s.values, max)
    {
      var sample := samples[i];
      ghost var was := s;
      assert samples[..i + 1] == samples[..i] + [sample];
      MaximumPush(s.values, max, sample.cache);
      s := s.(values := s.values + [sample.cache], sum := s.sum + sample.cache as real);
      assert s == WithValue(was, sample.cache) by {
        WithValueIs(was, sample.cache);
      }
      if sample.cache > max {
        max := sample.cache;
      }
      if i == 0 {
        SummedSkip(samples[..i], sample, was);
        continue;
      }
      var before := samples[i - 1];
      assert samples[..i][i - 1] == before;
      var dt := Seconds(sample.time - before.time);
      SecondsAdd(sample.time - before.time, 0);
      if dt <= 0.0 {
        SummedSkip(samples[..i], sample, was);
        continue;
      }
      if sample.cache >= before.cache {
        s := s.(positiveBytes := s.positiveBytes + (sample.cache - before.cache) as real,
                positiveSeconds := s.positiveSeconds + dt);
      } else {
        s := s.(reclaimBytes := s.reclaimBytes + (before.cache - sample.cache) as real,
                reclaimSeconds := s.reclaimSeconds + dt);
      }
      SummedMove(samples[..i], sample, was, s);
    }
    assert samples[..|samples|] == samples;
  }

  lemma WithValueIs(s: Sums, cache: nat)
    ensures WithValue(s, cache) == s.(values := s.values + [cache], sum := s.sum + cache as real)
  {
  }

  lemma RateIs(bytes: int, ns: int)
    ensures IsRate(Divide(bytes as real, Seconds(ns)), bytes, ns)
  {
    SecondsAdd(ns, 0);
    assert Seconds(ns) == ns as real / 1_000_000_000.0;
    hide Divide, Seconds;
  }

  lemma {:induction false} MedianAndP95(s: seq<int>)
    requires s != []
    ensures |Sort(s)| == |s| && NearestRank(|s|, 0.95) < |s|
    ensures Ranked(s, Sort(s)[|s| / 2], (|s| / 2 + 1) as real)
    ensures Ranked(s, Sort(s)[NearestRank(|s|, 0.95)], 0.95 * |s| as real)
  {
    hide *;
    IndexRanks(s, |s| / 2, (|s| / 2 + 1) as real);
    PercentileIsLeast(s, 0.95);
  }

  /** The figures that need only the sums and the sorted values. */
  method Averages(samples: seq<Sample>, s: Sums, max: int) returns (m: CacheMetrics)
    requires samples != [] && Summed(samples, s) && IsMaximum(s.values, max)
    ensures Summarises(samples, m)
  {
    var n, start, end := |samples|, samples[0], samples[|samples| - 1];
    assert |s.values| == n;
    MedianAndP95(s.values);
    RateIs(Flows(samples).rises, Flows(samples).riseTime);
    RateIs(Flows(samples).falls, Flows(samples).fallTime);
    hide Flows, Caches, Sum, Sort, Ranked, IsMaximum, NearestRank, Divide, IsRate, OverallRate, Mean, IsMean, Seconds;
    var sorted := Sort(s.values);
    m := CacheMetrics(
      start.cache, end.cache, max, Mean(s.sum, n), sorted[n / 2], sorted[NearestRank(n, 0.95)],
      OverallRate(start, end), Divide(s.positiveBytes, s.positiveSeconds), Divide(s.reclaimBytes, s.reclaimSeconds),
      0, []);
  }

  function OverallRate(start: Sample, end: Sample): (rate: real)
    ensures IsRate(rate, end.cache - start.cache, if end.time > start.time then end.time - start.time else 0)
  {
    RateIs(end.cache - start.cache, end.time - start.time);
    var duration := Seconds(end.time - start.time);
    if duration > 0.0 then Divide(end.cache as real - start.cache as real, duration) else 0.0
  }

  function Mean(sum: real, n: nat): (mean: real)
    requires n > 0
    ensures IsMean(mean, sum, n)
  {
    sum / n as real
  }

  /* ---- windows of a well-formed log ---- */

  function TimedShape(events: seq<TimedEvent>): seq<Entry> {
    seq(|events|, i requires 0 <= i < |events| => Entry(events[i].ordinal, events[i].phase))
  }

  ghost predicate TimesAscend(events: seq<TimedEvent>) {
    forall i, j :: 0 <= i < j < |events| ==> events[i].time <= events[j].time
  }

  /** Event k of a well-formed log stands for step k % 5 of rotation k / 5 + 1. */
  lemma {:induction false} LogEntry(strategy: Strategy, events: seq<TimedEvent>, m: nat, failed: bool, k: nat)
    requires WellFormed(strategy, TimedShape(events), m, failed) && k < |events|
    ensures k < m ==> events[k].ordinal == k / 5 + 1 && events[k].phase == Script(strategy)[k % 5]
    ensures k >= m ==> k == m && events[k].phase.RotationFailed?
    ensures m <= |events|
  {
    var shape := Unbroken(strategy, m) + if failed then [Entry(m / 5 + 1, RotationFailed)] else [];
    assert TimedShape(events)[k] == shape[k];
  }

  /** In a well-formed log with ascending times exactly the second event of each rotation opens a window; it closes
      with that rotation's own retention-complete, or never if there is none; so windows do not cross. */
  lemma {:induction false} WindowsMatch(strategy: Strategy, events: seq<TimedEvent>, m: nat, failed: bool, k: nat)
    requires WellFormed(strategy, TimedShape(events), m, failed) && TimesAscend(events) && k < |events|
    ensures Starts(events[k]) <==> k < m && k % 5 == 1
    ensures Starts(events[k]) ==>
      && EndFrom(events, events[k], 0) == (if k + 3 < m then events[k + 3].time else MAX_TIME)
      && (k + 3 < m ==> events[k + 3].phase.RetentionComplete? && events[k + 3].ordinal == events[k].ordinal)
      && forall l :: k < l < |events| && Starts(events[l]) ==> EndFrom(events, events[k], 0) <= events[l].time
  {
    LogEntry(strategy, events, m, failed, k);
    if Starts(events[k]) {
      OwnEnd(strategy, events, m, failed, k);
      forall l | k < l < |events| && Starts(events[l])
        ensures EndFrom(events, events[k], 0) <= events[l].time
      {
        LogEntry(strategy, events, m, failed, l);
      }
    }
  }

  lemma {:induction false} OwnEnd(strategy: Strategy, events: seq<TimedEvent>, m: nat, failed: bool, k: nat)
    requires WellFormed(strategy, TimedShape(events), m, failed) && TimesAscend(events) && k < |events|
    requires k < m && k % 5 == 1
    ensures m <= |events|
    ensures EndFrom(events, events[k], 0) == if k + 3 < m then events[k + 3].time else MAX_TIME
    ensures k + 3 < m ==> events[k + 3].phase.RetentionComplete? && events[k + 3].ordinal == events[k].ordinal
  {
    hide WellFormed;
    LogEntry(strategy, events, m, failed, k);
    var stop := if k + 3 < m then k + 3 else |events|;
    forall j | 0 <= j < stop ensures !Closes(events[j], events[k]) {
      LogEntry(strategy, events, m, failed, j);
      if j < m && j % 5 == 4 {
        assert j / 5 != k / 5;
      }
    }
    EndFromFirst(events, events[k], 0, stop);
    if k + 3 < m {
      LogEntry(strategy, events, m, failed, k + 3);
    }
  }

  /** So it is for the log of every run, whatever the schedule, as long as the clock does not run backwards. */
  lemma {:induction false} RunWindowsMatch(cfg: Config, labels: seq<Label>, s: World, events: seq<TimedEvent>, k: nat)
    requires Exec(cfg, Init(cfg), labels) == Some(s) && TimedShape(events) == Shape(s.r.events)
    requires TimesAscend(events) && k < |events| && Starts(events[k])
    ensures k % 5 == 1
    ensures EndFrom(events, events[k], 0) < MAX_TIME ==>
      && k + 3 < |events| && events[k + 3].phase.RetentionComplete? && events[k + 3].ordinal == events[k].ordinal
      && EndFrom(events, events[k], 0) == events[k + 3].time
    ensures forall l :: k < l < |events| && Starts(events[l]) ==> EndFrom(events, events[k], 0) <= events[l].time
  {
    hide *;
    var m, failed := LogFollowsGrammar(cfg, labels, s);
    LogEntry(cfg.strategy, events, m, failed, k);
    WindowsMatch(cfg.strategy, events, m, failed, k);
  }
}
