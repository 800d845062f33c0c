/** The Go writer's event loop (internal/writer/writer.go) as a program.  Every system call it makes is one step of the
    laboratory's state machine, and before each of them the rotator may take any steps; so every execution of the
    program is a run of the machine. */
module WriterProgram {
  import opened Arithmetic
  import opened Bytes
  import opened Lab
  import opened RenameResults
  import opened WriterStream
  import R = Record

  ghost predicate Runs(cfg: Config, trace: seq<Label>, s: World) {
    Exec(cfg, Init(cfg), trace) == Some(s)
  }

  lemma RunsOn(cfg: Config, trace: seq<Label>, s: World, l: Label, t: World)
    requires Runs(cfg, trace, s) && Next(cfg, s, l) == Some(t)
    ensures Runs(cfg, trace + [l], t)
  {
    ExecAppend(cfg, Init(cfg), trace, l);
  }

  /** What the environment decides at one point: which steps the rotator takes first, whether the writer's next system
      call fails or is interrupted, and how many bytes a write moves. */
  datatype Turn = Turn(peers: seq<Label>, fails: bool, interrupted: bool, count: nat)

  /** No call fails and every write moves something. */
  ghost predicate Quiet(turns: seq<Turn>) {
    forall i :: 0 <= i < |turns| ==> !turns[i].fails && turns[i].count > 0
  }

  /** What wakes the event loop: a tick dt nanoseconds after the last, the flush timer, or a queued reopen. */
  datatype Wake = Tick(dt: nat) | FlushTimer | Reopen

  /** What the environment has decided next; left to itself it lets the call work and moves everything. */
  function Now(turns: seq<Turn>, most: nat): Turn {
    if turns == [] then Turn([], false, false, most) else turns[0]
  }

  /* ---- what a run does at each wake ---- */

  /** The labels from a up to b are the rotator's. */
  ghost predicate PeersOnly(trace: seq<Label>, a: nat, b: nat) {
    forall k :: a <= k < b && k < |trace| ==> RotatorLabel(trace[k])
  }

  /** Between from and to the run goes from one idle state to another as the item asks. */
  ghost predicate ServedAt<T>(cfg: Config, trace: seq<Label>, item: T, from: nat, to: nat,
                              answered: (Config, T, World, World) -> bool) {
    && from <= to <= |trace|
    && var s, t := Exec(cfg, Init(cfg), trace[..from]), Exec(cfg, Init(cfg), trace[..to]);
       && s.Some? && t.Some? && s.value.w.pc.Idle? && t.value.w.pc.Idle? && answered(cfg, item, s.value, t.value)
  }

  /** The run goes through the items in turn, answering each; between two of them only the rotator takes steps. */
  ghost predicate Served<T(!new)>(cfg: Config, trace: seq<Label>, items: seq<T>, cuts: seq<nat>, ends: seq<nat>,
                            answered: (Config, T, World, World) -> bool) {
    && |cuts| == |ends| == |items|
    && (forall i :: 0 <= i < |items| ==> ServedAt(cfg, trace, items[i], cuts[i], ends[i], answered))
    && forall i :: 0 <= i < |items| - 1 ==> ends[i] <= cuts[i + 1] && PeersOnly(trace, ends[i], cuts[i + 1])
  }

  lemma ServedOn<T(!new)>(cfg: Config, trace: seq<Label>, trace': seq<Label>, items: seq<T>, cuts: seq<nat>,
                          ends: seq<nat>, answered: (Config, T, World, World) -> bool)
    requires Served(cfg, trace, items, cuts, ends, answered) && trace <= trace'
    ensures Served(cfg, trace', items, cuts, ends, answered)
  {
    hide Exec, Init;
    forall i | 0 <= i < |items| ensures ServedAt(cfg, trace', items[i], cuts[i], ends[i], answered) {
      assert ServedAt(cfg, trace, items[i], cuts[i], ends[i], answered);
      assert trace'[..cuts[i]] == trace[..cuts[i]] && trace'[..ends[i]] == trace[..ends[i]];
    }
    hide ServedAt;
    forall i | 0 <= i < |items| - 1 ensures ends[i] <= cuts[i + 1] && PeersOnly(trace', ends[i], cuts[i + 1]) {
      assert PeersOnly(trace, ends[i], cuts[i + 1]);
      assert ServedAt(cfg, trace, items[i + 1], cuts[i + 1], ends[i + 1], answered);
      CutInside(cfg, trace, items[i + 1], cuts[i + 1], ends[i + 1], answered);
    }
  }

  lemma CutInside<T>(cfg: Config, trace: seq<Label>, item: T, from: nat, to: nat,
                     answered: (Config, T, World, World) -> bool)
    requires ServedAt(cfg, trace, item, from, to, answered)
    ensures from <= to <= |trace|
  {
  }

  lemma ServedPush<T(!new)>(cfg: Config, trace: seq<Label>, items: seq<T>, cuts: seq<nat>, ends: seq<nat>, n: nat,
                            from: nat, answered: (Config, T, World, World) -> bool)
    requires n < |items| && Served(cfg, trace, items[..n], cuts, ends, answered)
    requires ServedAt(cfg, trace, items[n], from, |trace|, answered)
    requires n > 0 ==> ends[n - 1] <= from && PeersOnly(trace, ends[n - 1], from)
    ensures Served(cfg, trace, items[..n + 1], cuts + [from], ends + [|trace|], answered)
  {
    hide ServedAt, PeersOnly;
    var cuts', ends' := cuts + [from], ends + [|trace|];
    forall i | 0 <= i < n + 1 ensures ServedAt(cfg, trace, items[..n + 1][i], cuts'[i], ends'[i], answered) {
      if i < n {
        assert items[..n][i] == items[i];
      }
    }
    forall i | 0 <= i < n ensures ends'[i] <= cuts'[i + 1] && PeersOnly(trace, ends'[i], cuts'[i + 1]) {
      if i < n - 1 {
        assert ends'[i] == ends[i] && cuts'[i + 1] == cuts[i + 1];
      }
    }
  }

  lemma NothingServed<T(!new)>(cfg: Config, trace: seq<Label>, items: seq<T>,
                               answered: (Config, T, World, World) -> bool)
    ensures Served(cfg, trace, items[..0], [], [], answered)
  {
  }

  /** One more item, from the run mid in state s to the run trace in state t. */
  lemma ServedMore<T(!new)>(cfg: Config, items: seq<T>, cuts: seq<nat>, ends: seq<nat>, i: nat, before: seq<Label>,
                            mid: seq<Label>, s: World, trace: seq<Label>, t: World,
                            answered: (Config, T, World, World) -> bool)
    requires i < |items| && |cuts| == |ends| == i && (i > 0 ==> ends[i - 1] == |before|)
    requires Served(cfg, before, items[..i], cuts, ends, answered)
    requires before <= mid <= trace && PeersOnly(mid, |before|, |mid|)
    requires Runs(cfg, mid, s) && Runs(cfg, trace, t) && s.w.pc.Idle? && t.w.pc.Idle? && answered(cfg, items[i], s, t)
    ensures Served(cfg, trace, items[..i + 1], cuts + [|mid|], ends + [|trace|], answered)
    ensures Asked(cfg, trace, |mid|) <==> s.os.queued
  {
    assert trace[..|mid|] == mid && trace[..|trace|] == trace;
    assert ServedAt(cfg, trace, items[i], |mid|, |trace|, answered) && (Asked(cfg, trace, |mid|) <==> s.os.queued);
    assert PeersOnly(trace, |before|, |mid|);
    hide *;
    ServedOn(cfg, before, trace, items[..i], cuts, ends, answered);
    ServedPush(cfg, trace, items, cuts, ends, i, |mid|, answered);
  }

  lemma CutsInside<T(!new)>(cfg: Config, trace: seq<Label>, items: seq<T>, cuts: seq<nat>, ends: seq<nat>,
                            answered: (Config, T, World, World) -> bool)
    requires Served(cfg, trace, items, cuts, ends, answered)
    ensures |cuts| == |ends| == |items| && forall i :: 0 <= i < |cuts| ==> cuts[i] <= |trace|
  {
    hide Exec;
    forall i | 0 <= i < |cuts| ensures cuts[i] <= |trace| {
      assert ServedAt(cfg, trace, items[i], cuts[i], ends[i], answered);
    }
  }

  /** From s to t one turn of the Go writer's event loop answers a wake: a reopen takes the request in the slot and
      writes the buffer out, a timer writes it out, and a tick does so exactly when its records fill the buffer. */
  predicate Answered(cfg: Config, wake: Wake, s: World, t: World) {
    match wake
    case Reopen =>
      if s.os.queued then
        t.w.reopenRequests == s.w.reopenRequests + 1 && t.w.buffer == [] && t.w.generated == s.w.generated
      else t == s
    case FlushTimer =>
      t.w.reopenRequests == s.w.reopenRequests && t.w.buffer == [] && t.w.generated == s.w.generated
    case Tick(_) =>
      && t.w.reopenRequests == s.w.reopenRequests && t.w.generated >= s.w.generated
      && if |s.w.buffer| + (t.w.generated - s.w.generated) * cfg.recordBytes >= cfg.bufferBytes then t.w.buffer == []
         else t.w.written == s.w.written
  }

  predicate AsksReopen(wake: Wake) {
    wake.Reopen?
  }

  /** How many of the items that ask for a reopen found a request in the slot. */
  ghost function Found<T(!new)>(cfg: Config, trace: seq<Label>, items: seq<T>, cuts: seq<nat>, asks: T -> bool): nat
    requires |cuts| == |items|
  {
    if items == [] then 0
    else
      var n := |items| - 1;
      Found(cfg, trace, items[..n], cuts[..n], asks) + if asks(items[n]) && Asked(cfg, trace, cuts[n]) then 1 else 0
  }

  /** The slot is full after the first n labels. */
  ghost predicate Asked(cfg: Config, trace: seq<Label>, n: nat) {
    && n <= |trace|
    && var s := Exec(cfg, Init(cfg), trace[..n]);
       s.Some? && s.value.os.queued
  }

  lemma {:induction false} FoundOn<T(!new)>(cfg: Config, trace: seq<Label>, trace': seq<Label>, items: seq<T>,
                                            cuts: seq<nat>, asks: T -> bool)
    requires |cuts| == |items| && trace <= trace' && forall i :: 0 <= i < |cuts| ==> cuts[i] <= |trace|
    ensures Found(cfg, trace', items, cuts, asks) == Found(cfg, trace, items, cuts, asks)
  {
    if items != [] {
      hide Exec, Init;
      var n := |items| - 1;
      FoundOn(cfg, trace, trace', items[..n], cuts[..n], asks);
      assert trace'[..cuts[n]] == trace[..cuts[n]];
    }
  }

  lemma NothingFound<T(!new)>(cfg: Config, trace: seq<Label>, items: seq<T>, asks: T -> bool)
    ensures Found(cfg, trace, items[..0], [], asks) == 0
  {
  }

  lemma FoundPush<T(!new)>(cfg: Config, trace: seq<Label>, items: seq<T>, cuts: seq<nat>, n: nat, from: nat,
                           asks: T -> bool)
    requires n < |items| && |cuts| == n
    ensures Found(cfg, trace, items[..n + 1], cuts + [from], asks)
         == Found(cfg, trace, items[..n], cuts, asks) + if asks(items[n]) && Asked(cfg, trace, from) then 1 else 0
  {
    hide Asked;
    assert items[..n + 1][..n] == items[..n] && (cuts + [from])[..n] == cuts;
  }

  /** The run trace has answered the first i items and ends there, having taken so many requests. */
  ghost predicate Handled<T(!new)>(cfg: Config, trace: seq<Label>, items: seq<T>, i: nat, cuts: seq<nat>,
                                   ends: seq<nat>, requests: nat, answered: (Config, T, World, World) -> bool,
                                   asks: T -> bool) {
    && i <= |items| && |cuts| == |ends| == i && (i > 0 ==> ends[i - 1] == |trace|)
    && Served(cfg, trace, items[..i], cuts, ends, answered) && requests == Found(cfg, trace, items[..i], cuts, asks)
  }

  lemma NothingHandled<T(!new)>(cfg: Config, trace: seq<Label>, items: seq<T>,
                                answered: (Config, T, World, World) -> bool, asks: T -> bool)
    ensures Handled(cfg, trace, items, 0, [], [], 0, answered, asks)
  {
    NothingServed(cfg, trace, items, answered);
    NothingFound(cfg, trace, items, asks);
  }

  lemma HandledMore<T(!new)>(cfg: Config, items: seq<T>, cuts: seq<nat>, ends: seq<nat>, i: nat, before: seq<Label>,
                             mid: seq<Label>, s: World, trace: seq<Label>, t: World,
                             answered: (Config, T, World, World) -> bool, asks: T -> bool)
    requires i < |items| && Handled(cfg, before, items, i, cuts, ends, s.w.reopenRequests, answered, asks)
    requires before <= mid <= trace && PeersOnly(mid, |before|, |mid|)
    requires Runs(cfg, mid, s) && Runs(cfg, trace, t) && s.w.pc.Idle? && t.w.pc.Idle? && answered(cfg, items[i], s, t)
    requires t.w.reopenRequests == s.w.reopenRequests + if asks(items[i]) && s.os.queued then 1 else 0
    ensures Handled(cfg, trace, items, i + 1, cuts + [|mid|], ends + [|trace|], t.w.reopenRequests, answered, asks)
  {
    CutsInside(cfg, before, items[..i], cuts, ends, answered);
    hide Served, Found, Runs, Asked, PeersOnly;
    ServedMore(cfg, items, cuts, ends, i, before, mid, s, trace, t, answered);
    FoundOn(cfg, before, trace, items[..i], cuts, asks);
    FoundPush(cfg, trace, items, cuts, i, |mid|, asks);
  }

  /** The stop adds nothing. */
  lemma AllHandled<T(!new)>(cfg: Config, items: seq<T>, cuts: seq<nat>, ends: seq<nat>, before: seq<Label>,
                            trace: seq<Label>, requests: nat, answered: (Config, T, World, World) -> bool,
                            asks: T -> bool)
    requires Handled(cfg, before, items, |items|, cuts, ends, requests, answered, asks) && before <= trace
    ensures Served(cfg, trace, items, cuts, ends, answered)
    ensures |cuts| == |items| && requests == Found(cfg, trace, items, cuts, asks)
  {
    assert items[..|items|] == items;
    CutsInside(cfg, before, items, cuts, ends, answered);
    hide Served, Found;
    ServedOn(cfg, before, trace, items, cuts, ends, answered);
    FoundOn(cfg, before, trace, items, cuts, asks);
  }

  /** The lengths of the ticks among the wakes. */
  function TicksOf(wakes: seq<Wake>): seq<nat> {
    if wakes == [] then []
    else
      var last := wakes[|wakes| - 1];
      TicksOf(wakes[..|wakes| - 1]) + if last.Tick? then [last.dt] else []
  }

  lemma TicksPush(wakes: seq<Wake>, i: nat)
    requires i < |wakes|
    ensures wakes[i].Tick? ==> TicksOf(wakes[..i + 1]) == TicksOf(wakes[..i]) + [wakes[i].dt]
    ensures !wakes[i].Tick? ==> TicksOf(wakes[..i + 1]) == TicksOf(wakes[..i])
    ensures wakes[..|wakes|] == wakes
  {
    assert wakes[..i + 1][..i] == wakes[..i];
  }

  /** Whole bytes earned over the given tick lengths, each rounded down as the program does. */
  function Earned(rate: int, ticks: seq<nat>): int {
    if ticks == [] then 0 else Earned(rate, ticks[..|ticks| - 1]) + rate * ticks[|ticks| - 1] / NANOSECONDS
  }

  const NANOSECONDS := 1_000_000_000

  lemma Opened(cfg: Config, s: World, ok: bool)
    requires s.w.pc.Opening?
    ensures Next(cfg, s, Open(ok)) == Some(
      if ok then
        var os := if Active in s.os.names then s.os else s.os.Create(Active);
        var pc := if s.w.pc.again && s.w.buffer != [] then Flushing(0, Resume) else Idle;
        s.(os := os, w := s.w.(file := os.names[Active], pc := pc))
      else
        s.(w := s.w.(
          pc := Stopped(false, 0), reopenFailures := s.w.reopenFailures + if s.w.pc.again then 1 else 0)))
  {
  }

  class Process {
    const cfg: Config
    // the writer
    var buffer: seq<byte>
    var byteCredit: int
    var file: nat
    var generated: nat
    var written: nat
    var reopenRequests: nat
    var reopenFailures: nat
    // for stating properties only: calls that failed or moved nothing
    ghost var faults: nat
    // its surroundings
    var os: Os
    var rotator: Rotator
    var history: History
    var turns: seq<Turn>
    ghost var trace: seq<Label>
    ghost var ticks: seq<nat>

    function State(pc: WriterPc): World
      reads this
    {
      World(os, Lab.Writer(pc, file, buffer, generated, written, reopenRequests, reopenFailures), rotator, history)
    }

    /** The program stands at pc after a run of the machine. */
    ghost predicate At(pc: WriterPc)
      reads this
    {
      Runs(cfg, trace, State(pc))
    }

    constructor (cfg: Config, turns: seq<Turn>)
      requires cfg.WriterStarts()
      ensures At(Opening(false)) && this.cfg == cfg && ticks == [] && byteCredit == 0 && generated == 0 && buffer == []
      ensures faults == 0 && this.turns == turns
    {
      var start := Init(cfg);
      this.cfg := cfg;
      this.turns := turns;
      buffer, byteCredit, file, generated, written, reopenRequests, reopenFailures := [], 0, 0, 0, 0, 0, 0;
      os, rotator, history := start.os, start.r, start.h;
      trace, ticks, faults := [], [], 0;
    }

    /** The rotator takes its steps; a label that does not fit is passed over. */
    method Others(pc: WriterPc) returns (turn: Turn)
      requires At(pc)
      modifies this`os, this`rotator, this`history, this`turns, this`trace
      ensures At(pc)
      ensures turn == Now(old(turns), |buffer| + 1) && turns == if old(turns) == [] then [] else old(turns)[1..]
      ensures old(trace) <= trace && PeersOnly(trace, |old(trace)|, |trace|)
      ensures Quiet(old(turns)) ==> Quiet(turns) && !turn.fails && turn.count > 0
    {
      hide Runs, Next;
      turn := Now(turns, |buffer| + 1);
      if turns == [] {
        return;
      }
      turns := turns[1..];
      ghost var rest := turns;
      for i := 0 to |turn.peers|
        invariant At(pc) && turns == rest
        invariant old(trace) <= trace && PeersOnly(trace, |old(trace)|, |trace|)
      {
        Other(pc, turn.peers[i]);
      }
    }

    method Other(pc: WriterPc, l: Label)
      requires At(pc)
      modifies this`os, this`rotator, this`history, this`trace
      ensures At(pc)
      ensures trace == old(trace) || (RotatorLabel(l) && trace == old(trace) + [l])
    {
      hide Runs, Next;
      var s := State(pc);
      var t := Next(cfg, s, l);
      if RotatorLabel(l) && t.Some? {
        RotatorLeavesWriter(cfg, s, l);
        RunsOn(cfg, trace, s, l, t.value);
        os, rotator, history := t.value.os, t.value.r, t.value.h;
        trace := trace + [l];
        assert State(pc) == t.value;
      }
    }

    /** Opens the active file for appending, creating it if need be. */
    method OpenFile(again: bool) returns (ok: bool)
      requires At(Opening(again))
      modifies this`file, this`reopenFailures, this`os, this`rotator, this`history, this`turns, this`trace, this`faults
      ensures ok ==> At(if again && buffer != [] then Flushing(0, Resume) else Idle)
      ensures ok ==> Active in os.names && os.names[Active] == file
      ensures !ok ==> At(Stopped(false, 0))
      ensures ok <==> !Now(old(turns), |buffer| + 1).fails
      ensures faults == old(faults) + if ok then 0 else 1
      ensures reopenFailures == old(reopenFailures) + if again && !ok then 1 else 0
      ensures old(trace) <= trace
      ensures Quiet(old(turns)) ==> Quiet(turns) && ok
    {
      hide Runs;
      var turn := Others(Opening(again));
      ghost var s := State(Opening(again));
      Opened(cfg, s, !turn.fails);
      hide Next, AfterOpen, AfterOpenFailure;
      if turn.fails {
        faults := faults + 1;
        if again {
          reopenFailures := reopenFailures + 1;
        }
        RunsOn(cfg, trace, s, Open(false), State(Stopped(false, 0)));
      } else {
        if Active !in os.names {
          os := os.Create(Active);
        }
        file := os.names[Active];
        RunsOn(cfg, trace, s, Open(true), State(if again && buffer != [] then Flushing(0, Resume) else Idle));
      }
      trace := trace + [Open(!turn.fails)];
      return !turn.fails;
    }

    /** The state once the buffer has been written out completely. */
    function Flushed(after: After): World
      reads this
    {
      var pc := if after.Resume? then Idle else Stopped(after.Finish?, 0);
      var w := Lab.Writer(pc, file, [], generated, written + RecordsIn(cfg, |buffer|), reopenRequests, reopenFailures);
      World(os, w, rotator, history)
    }

    /** One write call on the rest of the buffer: it is interrupted before it starts, or it appends n bytes and may then
        fail. */
    method WriteCall(done: nat, after: After) returns (n: nat, failed: bool, interrupted: bool)
      requires At(Flushing(done, after)) && done < |buffer|
      modifies this`os, this`rotator, this`history, this`turns, this`trace, this`faults
      ensures var turn := Now(old(turns), |buffer| + 1);
        interrupted == turn.interrupted && failed == (turn.fails && !turn.interrupted)
      ensures faults == old(faults) + if failed || (!interrupted && n == 0) then 1 else 0
      ensures old(trace) <= trace
      ensures done + n <= |buffer| && (failed ==> done + n < |buffer|)
      ensures done + n < |buffer| ==> At(Flushing(done + n, after))
      ensures done + n == |buffer| ==> Runs(cfg, trace, Flushed(after))
      ensures interrupted ==> n == 0 && |turns| < |old(turns)|
      ensures |turns| <= |old(turns)|
      ensures Quiet(old(turns)) ==> Quiet(turns) && !failed && (interrupted || n > 0)
    {
      hide Runs;
      var turn := Others(Flushing(done, after));
      var rest := |buffer| - done;
      failed, interrupted := turn.fails && !turn.interrupted, turn.interrupted;
      n := if interrupted then 0
           else if !cfg.shortWrites then (if failed then 0 else rest)
           else if turn.count < rest then turn.count
           else if failed then rest - 1 else rest;
      if n > 0 {
        Append(done, after, n);
      }
      faults := faults + if failed || (!interrupted && n == 0) then 1 else 0;
      hide *;
    }

    /** The kernel takes n bytes. */
    method Append(done: nat, after: After, n: nat)
      requires At(Flushing(done, after)) && WriteAllowed(cfg, State(Flushing(done, after)), n)
      modifies this`os, this`history, this`trace
      ensures old(trace) <= trace
      ensures done + n < |buffer| ==> At(Flushing(done + n, after))
      ensures done + n == |buffer| ==> Runs(cfg, trace, Flushed(after))
    {
      hide Runs;
      ghost var s := State(Flushing(done, after));
      var chunk := buffer[done..done + n];
      Wrote(cfg, s, n);
      hide Next, AfterWrite;
      os := os.Append(file, chunk);
      history := history.(
        out := history.out + chunk, window := if InWindow(rotator) then history.window + chunk else history.window);
      RunsOn(cfg, trace, s, Write(n), if done + n < |buffer| then State(Flushing(done + n, after)) else Flushed(after));
      trace := trace + [Write(n)];
    }

    /** Writes the whole buffer out, in as many calls as it takes; on a failure the buffer keeps every byte. */
    method Flush(after: After) returns (ok: bool)
      requires cfg.implementation.GoWriter? && cfg.recordBytes > 0
      requires buffer != [] ==> At(Flushing(0, after))
      modifies this`buffer, this`written, this`os, this`rotator, this`history, this`turns, this`trace, this`faults
      ensures old(buffer) == [] ==> ok && unchanged(this)
      ensures ok <==> faults == old(faults)
      ensures faults >= old(faults) && old(trace) <= trace
      ensures Quiet(old(turns)) ==> Quiet(turns) && ok
      ensures ok ==> buffer == [] && written == old(written) + |old(buffer)| / cfg.recordBytes
      ensures old(buffer) != [] && ok ==> At(if after.Resume? then Idle else Stopped(after.Finish?, 0))
      ensures !ok ==> buffer == old(buffer) && written == old(written)
      ensures !ok && after.Resume? ==> At(Flushing(0, Abort))
      ensures !ok && !after.Resume? ==> exists n :: At(Stopped(false, n))
    {
      if buffer == [] {
        return true;
      }
      hide *;
      var done: nat := 0;
      while done < |buffer|
        invariant done <= |buffer| && buffer == old(buffer) && written == old(written)
        invariant done < |buffer| ==> At(Flushing(done, after))
        invariant done == |buffer| ==> Runs(cfg, trace, Flushed(after))
        invariant Quiet(old(turns)) ==> Quiet(turns)
        invariant faults == old(faults) && old(trace) <= trace
        decreases |turns|, |buffer| - done
      {
        var n, failed, interrupted := WriteCall(done, after);
        if interrupted {
          continue; // the runtime repeats an interrupted write by itself
        }
        done := done + n;
        if failed || n == 0 {
          FlushFailed(done, after);
          return false;
        }
      }
      Emptied(after);
      return true;
    }

    /** Everything has been written. */
    method Emptied(after: After)
      requires cfg.recordBytes > 0 && Runs(cfg, trace, Flushed(after))
      modifies this`buffer, this`written
      ensures buffer == [] && written == old(written) + |old(buffer)| / cfg.recordBytes
      ensures At(if after.Resume? then Idle else Stopped(after.Finish?, 0))
    {
      hide Runs;
      written := written + |buffer| / cfg.recordBytes;
      buffer := [];
    }

    /** A write failed.  In the Go writer's event loop the error leads to one more flush of the whole buffer before the
        exit; elsewhere, and in the C++ writer, it is the end. */
    method FlushFailed(done: nat, after: After)
      requires At(Flushing(done, after))
      modifies this`history, this`trace
      ensures old(trace) <= trace
      ensures At(if cfg.implementation.GoWriter? && after.Resume? then Flushing(0, Abort) else Stopped(false, done))
    {
      ghost var s := State(Flushing(done, after));
      hide Runs;
      if cfg.implementation.GoWriter? && after.Resume? {
        history := history.(mark := |history.out|, replayed := done);
        RunsOn(cfg, trace, s, WriteError, State(Flushing(0, Abort)));
      } else {
        RunsOn(cfg, trace, s, WriteError, State(Stopped(false, done)));
      }
      trace := trace + [WriteError];
    }

    /** Bytes generated and credit left over are exactly what the ticks so far have earned. */
    ghost predicate Paced()
      reads this`byteCredit, this`generated, this`ticks
    {
      0 <= byteCredit < cfg.recordBytes && generated * cfg.recordBytes + byteCredit == Earned(cfg.bytesPerSecond, ticks)
    }

    /** Appends the next record to the buffer; a record that cannot be encoded ends the run. */
    method GenerateOne() returns (ok: bool)
      requires At(Idle) && cfg.implementation.GoWriter?
      modifies this`buffer, this`generated, this`trace
      ensures generated == old(generated) + 1 && old(trace) <= trace
      ensures ok ==> |buffer| == |old(buffer)| + cfg.recordBytes
      ensures ok ==> At(Idle)
      ensures ok <==> cfg.Encodable()
      ensures !ok ==> At(Stopped(false, 0)) && buffer == []
    {
      hide Runs;
      ghost var s := State(Idle);
      generated := generated + 1;
      var encoded := R.Encode(cfg.runID, generated, cfg.recordBytes);
      ok := encoded.Ok?;
      if ok {
        OneRecord(cfg, generated);
        buffer := buffer + encoded.value;
      }
      RunsOn(cfg, trace, s, Label.Generate(1), State(if ok then Idle else Stopped(false, 0)));
      trace := trace + [Label.Generate(1)];
      if !ok {
        NothingBuffered(cfg, trace, State(Stopped(false, 0)));
      }
    }

    /** Turns the credit of a tick into records. */
    method Generate(dt: nat) returns (ok: bool)
      requires At(Idle) && Paced() && cfg.implementation.GoWriter? && cfg.WriterStarts()
      modifies this`buffer, this`byteCredit, this`generated, this`trace, this`ticks
      ensures ticks == old(ticks) + [dt] && old(trace) <= trace
      ensures ok ==> At(Idle) && Paced()
      ensures ok ==> |buffer| == |old(buffer)| + (generated - old(generated)) * cfg.recordBytes
      ensures !ok ==> At(Stopped(false, 0)) && buffer == []
      ensures generated >= old(generated)
      ensures cfg.Encodable() ==> ok
    {
      EarnedMore(cfg.bytesPerSecond, ticks, dt);
      byteCredit := byteCredit + cfg.bytesPerSecond * dt / NANOSECONDS;
      ticks := ticks + [dt];
      hide *;
      ghost var made: nat := 0;
      while byteCredit >= cfg.recordBytes
        invariant At(Idle) && byteCredit >= 0 && ticks == old(ticks) + [dt] && old(trace) <= trace
        invariant generated == old(generated) + made && |buffer| == |old(buffer)| + made * cfg.recordBytes
        invariant generated * cfg.recordBytes + byteCredit == Earned(cfg.bytesPerSecond, ticks)
      {
        MultipleMonotone(generated, generated + 1, cfg.recordBytes);
        MultipleMonotone(made, made + 1, cfg.recordBytes);
        made := made + 1;
        ok := GenerateOne();
        if !ok {
          return;
        }
        byteCredit := byteCredit - cfg.recordBytes;
      }
      return true;
    }

    /** The flush of the event loop. */
    method FlushNow() returns (ok: bool)
      requires At(Idle) && cfg.implementation.GoWriter? && cfg.recordBytes > 0
      modifies this`buffer, this`written, this`os, this`rotator, this`history, this`turns, this`trace, this`faults
      ensures ok ==> At(Idle) && buffer == []
      ensures !ok ==> At(Flushing(0, Abort)) && buffer != []
      ensures ok <==> faults == old(faults)
      ensures faults >= old(faults) && old(trace) <= trace
      ensures old(buffer) == [] ==> unchanged(this)
      ensures Quiet(old(turns)) ==> Quiet(turns) && ok
    {
      if buffer != [] {
        hide Runs;
        RunsOn(cfg, trace, State(Idle), BeginFlush, State(Flushing(0, Resume)));
        trace := trace + [BeginFlush];
      }
      ok := Flush(Resume);
    }

    /** A tick: generate, and flush exactly if that fills the buffer. */
    method OnTick(dt: nat) returns (ok: bool)
      requires At(Idle) && Paced() && cfg.implementation.GoWriter? && cfg.WriterStarts()
      modifies this`buffer, this`byteCredit, this`generated, this`written, this`os, this`rotator, this`history, this`turns,
        this`trace, this`ticks, this`faults
      ensures ticks == old(ticks) + [dt] && old(trace) <= trace
      ensures ok ==> At(Idle) && Paced() && |buffer| < cfg.bufferBytes && generated >= old(generated)
      ensures ok ==>
        if |old(buffer)| + (generated - old(generated)) * cfg.recordBytes >= cfg.bufferBytes then buffer == []
        else written == old(written)
      ensures cfg.Encodable() ==> (ok <==> faults == old(faults))
      ensures faults >= old(faults) && (ok ==> faults == old(faults))
      ensures !ok ==> At(if buffer == [] then Stopped(false, 0) else Flushing(0, Abort))
      ensures Quiet(old(turns)) && cfg.Encodable() ==> Quiet(turns) && ok
    {
      ok := Generate(dt);
      if ok && |buffer| >= cfg.bufferBytes {
        ok := FlushNow();
      }
    }

    /** The way out: one last flush, whose error counts only if there was none before. */
    method Finish(clean: bool) returns (ok: bool)
      requires cfg.implementation.GoWriter? && cfg.recordBytes > 0
      requires clean ==> At(Idle)
      requires !clean ==> At(if buffer == [] then Stopped(false, 0) else Flushing(0, Abort))
      modifies this`buffer, this`written, this`os, this`rotator, this`history, this`turns, this`trace, this`faults
      ensures ok <==> clean && faults == old(faults)
      ensures faults >= old(faults) && old(trace) <= trace
      ensures ok ==> clean && At(Stopped(true, 0)) && buffer == []
      ensures !ok ==> exists n :: At(Stopped(false, n))
      ensures Quiet(old(turns)) && clean ==> ok
    {
      var after := if clean then After.Finish else Abort;
      if clean {
        hide Runs;
        RunsOn(cfg, trace, State(Idle), Stop, State(if buffer == [] then Stopped(true, 0) else Flushing(0, after)));
        trace := trace + [Stop];
      }
      ok := Flush(after);
      ok := ok && clean;
    }

    method TakeRequest()
      requires At(Idle) && os.queued
      modifies this`os, this`reopenRequests, this`trace
      ensures At(Opening(true)) && reopenRequests == old(reopenRequests) + 1 && !os.queued && old(trace) <= trace
    {
      hide Runs;
      ghost var s := State(Idle);
      os := os.(queued := false);
      reopenRequests := reopenRequests + 1;
      RunsOn(cfg, trace, s, Label.TakeReopen, State(Opening(true)));
      trace := trace + [Label.TakeReopen];
    }

    lemma AllDelivered()
      requires At(Stopped(true, 0))
      ensures written == generated && history.out == Stream(cfg, 0, generated)
      ensures cfg.strategy.RenameReopen? && cfg.maxBackups <= 0 ==> LogBytes(os) == Stream(cfg, 0, generated)
    {
      CleanStop(cfg, trace, State(Stopped(true, 0)));
      CleanLog(cfg, trace, State(Stopped(true, 0)));
      hide Stream, LogBytes;
    }

    lemma NothingDone(wakes: seq<Wake>)
      requires At(Idle) && cfg.WriterStarts()
      requires ticks == [] && byteCredit == 0 && generated == 0 && buffer == [] && reopenRequests == 0
      ensures Between(wakes, 0, [], [])
    {
      NothingHandled(cfg, trace, wakes, Answered, AsksReopen);
      hide Runs, Handled;
    }

    lemma AllDone(wakes: seq<Wake>, cuts: seq<nat>, ends: seq<nat>)
      requires Between(wakes, |wakes|, cuts, ends)
      ensures At(Idle) && Paced() && ticks == TicksOf(wakes)
      ensures Handled(cfg, trace, wakes, |wakes|, cuts, ends, reopenRequests, Answered, AsksReopen)
    {
      hide Runs, Handled, Paced, TicksOf;
      assert wakes[..|wakes|] == wakes;
    }

    /** Takes the request in the slot, reopens the file and flushes into it.  When the file cannot be reopened, the
        descriptor is closed and the last flush can write nothing. */
    method Reopened() returns (reopened: bool, ok: bool)
      requires At(Idle) && os.queued && cfg.implementation.GoWriter? && cfg.recordBytes > 0
      modifies this`buffer, this`written, this`file, this`reopenRequests, this`reopenFailures, this`os, this`rotator,
        this`history, this`turns, this`trace, this`faults
      ensures reopenRequests == old(reopenRequests) + 1 && old(trace) <= trace
      ensures ok ==> reopened && At(Idle) && buffer == []
      ensures reopened && !ok ==> At(Flushing(0, Abort)) && buffer != []
      ensures !reopened ==> At(Stopped(false, 0))
      ensures faults >= old(faults) && (ok <==> faults == old(faults))
      ensures Quiet(old(turns)) ==> Quiet(turns) && ok
    {
      hide *;
      TakeRequest();
      reopened := OpenFile(true);
      ok := reopened;
      if reopened {
        ok := Flush(Resume);
      }
    }

    /** One turn of the event loop; when it fails, the program has ended.  A request in the slot is taken and counted
        even if opening the file then fails. */
    method OnWake(wake: Wake) returns (ok: bool)
      requires At(Idle) && Paced() && cfg.WriterStarts() && cfg.implementation.GoWriter? && |buffer| < cfg.bufferBytes
      modifies this
      ensures ok ==> At(Idle) && Paced() && |buffer| < cfg.bufferBytes
      ensures ticks == old(ticks) + if wake.Tick? then [wake.dt] else []
      ensures !ok ==> exists n :: At(Stopped(false, n))
      ensures ok ==> Answered(cfg, wake, old(State(Idle)), State(Idle))
      ensures reopenRequests == old(reopenRequests) + if wake.Reopen? && old(os.queued) then 1 else 0
      ensures cfg.Encodable() ==> (ok <==> faults == old(faults))
      ensures faults >= old(faults) && (ok ==> faults == old(faults)) && old(trace) <= trace
      ensures Quiet(old(turns)) && cfg.Encodable() ==> Quiet(turns) && ok
    {
      StartsPositive(cfg);
      hide *;
      ok := true;
      match wake {
        case Tick(dt) =>
          ok := OnTick(dt);
        case FlushTimer =>
          ok := FlushNow();
        case Reopen =>
          if os.queued {
            var reopened;
            reopened, ok := Reopened();
            if !reopened {
              return;
            }
          }
      }
      if !ok {
        ok := Finish(false);
      }
    }

    /** The program stands between two turns of the loop, with the first i wakes answered. */
    ghost predicate Between(wakes: seq<Wake>, i: nat, cuts: seq<nat>, ends: seq<nat>)
      reads this
    {
      && At(Idle) && Paced() && i <= |wakes| && ticks == TicksOf(wakes[..i]) && |buffer| < cfg.bufferBytes
      && Handled(cfg, trace, wakes, i, cuts, ends, reopenRequests, Answered, AsksReopen)
    }

    /** Lets the rotator take its steps, then answers the wake. */
    method Serve(wakes: seq<Wake>, i: nat, ghost cuts: seq<nat>, ghost ends: seq<nat>)
      returns (ok: bool, ghost cuts': seq<nat>, ghost ends': seq<nat>)
      requires cfg.WriterStarts() && cfg.implementation.GoWriter? && Between(wakes, i, cuts, ends) && i < |wakes|
      modifies this
      ensures ok ==> Between(wakes, i + 1, cuts', ends')
      ensures !ok ==> exists n :: At(Stopped(false, n))
      ensures cfg.Encodable() ==> (ok <==> faults == old(faults))
      ensures faults >= old(faults) && (ok ==> faults == old(faults))
      ensures Quiet(old(turns)) && cfg.Encodable() ==> Quiet(turns) && ok
    {
      hide Runs, Handled, Answered, Paced, PeersOnly, Quiet, Now, TicksOf;
      TicksPush(wakes, i);
      ghost var before := trace;
      var _ := Others(Idle);
      ghost var mid, s := trace, State(Idle);
      ok := OnWake(wakes[i]);
      cuts', ends' := cuts + [|mid|], ends + [|trace|];
      if ok {
        HandledMore(cfg, wakes, cuts, ends, i, before, mid, s, trace, State(Idle), Answered, AsksReopen);
      }
    }

    /** The event loop: takes the wakes in order and stops after the last. */
    method Run(wakes: seq<Wake>) returns (ok: bool, ghost cuts: seq<nat>, ghost ends: seq<nat>)
      requires At(Opening(false)) && cfg.WriterStarts() && cfg.implementation.GoWriter?
      requires ticks == [] && byteCredit == 0 && generated == 0 && buffer == [] && reopenRequests == 0 && faults == 0
      modifies this
      ensures ok ==> At(Stopped(true, 0)) && Paced() && ticks == TicksOf(wakes)
      ensures ok ==> written == generated && history.out == Stream(cfg, 0, generated)
      ensures ok && cfg.strategy.RenameReopen? && cfg.maxBackups <= 0 ==> LogBytes(os) == Stream(cfg, 0, generated)
      ensures ok ==>
        && Served(cfg, trace, wakes, cuts, ends, Answered)
        && reopenRequests == Found(cfg, trace, wakes, cuts, AsksReopen)
      ensures !ok ==> exists n :: At(Stopped(false, n))
      ensures cfg.Encodable() ==> (ok <==> faults == 0)
      ensures ok ==> faults == 0
      ensures Quiet(old(turns)) && cfg.Encodable() ==> ok
    {
      hide *;
      cuts, ends := [], [];
      ok := OpenFile(false);
      if !ok {
        return;
      }
      NothingDone(wakes);
      for i := 0 to |wakes|
        invariant Between(wakes, i, cuts, ends)
        invariant faults == 0 && (Quiet(old(turns)) && cfg.Encodable() ==> Quiet(turns))
      {
        ok, cuts, ends := Serve(wakes, i, cuts, ends);
        if !ok {
          return;
        }
      }
      AllDone(wakes, cuts, ends);
      StartsPositive(cfg);
      ghost var before := trace;
      ok := Finish(true);
      if ok {
        AllDelivered();
        AllHandled(cfg, wakes, cuts, ends, before, trace, reopenRequests, Answered, AsksReopen);
      }
    }
  }

  lemma StartsPositive(cfg: Config)
    requires cfg.WriterStarts()
    ensures cfg.recordBytes > 0 && cfg.bufferBytes > 0
  {
  }

  lemma Wrote(cfg: Config, s: World, n: nat)
    requires WriteAllowed(cfg, s, n)
    ensures Next(cfg, s, Write(n)) == Some(AfterWrite(cfg, s, n))
    ensures var done, after := s.w.pc.done, s.w.pc.after;
      var chunk := s.w.buffer[done..done + n];
      var h := s.h.(out := s.h.out + chunk, window := if InWindow(s.r) then s.h.window + chunk else s.h.window);
      AfterWrite(cfg, s, n) == World(
        s.os.Append(s.w.file, chunk),
        if done + n < |s.w.buffer| then s.w.(pc := Flushing(done + n, after))
        else s.w.(pc := if after.Resume? then Idle else Stopped(after.Finish?, 0),
                  written := s.w.written + RecordsIn(cfg, |s.w.buffer|), buffer := []),
        s.r, h)
  {
    hide Os.Append, RecordsIn, InWindow;
  }

  lemma EarnedMore(rate: int, ticks: seq<nat>, dt: nat)
    requires rate > 0
    ensures Earned(rate, ticks + [dt]) == Earned(rate, ticks) + rate * dt / NANOSECONDS
    ensures rate * dt / NANOSECONDS >= 0
  {
    assert (ticks + [dt])[..|ticks|] == ticks;
    MultipleMonotone(0, dt, rate);
  }

  function Total(ticks: seq<nat>): nat {
    if ticks == [] then 0 else Total(ticks[..|ticks| - 1]) + ticks[|ticks| - 1]
  }

  /** Rounding down at every tick loses less than one byte a tick. */
  lemma {:induction false} EarnedBounds(rate: int, ticks: seq<nat>)
    requires rate > 0
    ensures rate * Total(ticks) - |ticks| * NANOSECONDS <= NANOSECONDS * Earned(rate, ticks) <= rate * Total(ticks)
  {
    if ticks != [] {
      var front, dt := ticks[..|ticks| - 1], ticks[|ticks| - 1];
      EarnedBounds(rate, front);
      var p := rate * dt;
      assert p - NANOSECONDS <= NANOSECONDS * (p / NANOSECONDS) <= p;
      assert rate * (Total(front) + dt) == rate * Total(front) + p;
    }
  }

  /** However the ticks fall, the bytes generated lag behind the configured rate by less than one byte for each tick and
      one record, and never run ahead of it. */
  lemma RateBounded(cfg: Config, ticks: seq<nat>, generated: nat, credit: int)
    requires cfg.WriterStarts() && 0 <= credit < cfg.recordBytes
    requires generated * cfg.recordBytes + credit == Earned(cfg.bytesPerSecond, ticks)
    ensures var bytes, due := generated * cfg.recordBytes, cfg.bytesPerSecond * Total(ticks);
      due - 1_000_000_000 * (|ticks| + cfg.recordBytes) < 1_000_000_000 * bytes <= due
  {
    hide Earned, Total;
    EarnedBounds(cfg.bytesPerSecond, ticks);
  }

  lemma OneRecord(cfg: Config, n: nat)
    requires cfg.Encodable() && n > 0
    ensures Stream(cfg, n - 1, n) == R.Encoded(cfg.runID, n, cfg.recordBytes)
  {
  }

  lemma NothingBuffered(cfg: Config, trace: seq<Label>, s: World)
    requires Runs(cfg, trace, s) && !cfg.Encodable()
    ensures s.w.buffer == []
  {
    WriterRun(cfg, trace, s);
  }
}
