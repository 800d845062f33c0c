/** What the writer alone guarantees, whichever rotator runs beside it: the bytes it handed to the kernel followed by
    the unwritten tail of its buffer are the records it generated, in order, unless a failed flush was replayed. */
module WriterStream {
  import opened Arithmetic
  import opened Bytes
  import opened Lab
  import R = Record

  /* ---- the stream of records ---- */

  lemma {:induction false} StreamSplit(cfg: Config, lo: nat, mid: nat, hi: nat)
    requires lo <= mid <= hi
    ensures Stream(cfg, lo, hi) == Stream(cfg, lo, mid) + Stream(cfg, mid, hi)
    decreases hi
  {
    if mid < hi && cfg.Encodable() {
      StreamSplit(cfg, lo, mid, hi - 1);
    }
  }

  lemma {:induction false} StreamLength(cfg: Config, lo: nat, hi: nat)
    requires lo <= hi && cfg.Encodable()
    ensures |Stream(cfg, lo, hi)| == (hi - lo) * cfg.recordBytes
    ensures RecordsIn(cfg, |Stream(cfg, lo, hi)|) == hi - lo
    ensures Stream(cfg, lo, hi) == [] ==> lo == hi
    decreases hi
  {
    if lo < hi {
      StreamLength(cfg, lo, hi - 1);
      MultipleMonotone(hi - 1 - lo, hi - lo, cfg.recordBytes);
    }
    Quotient(hi - lo, cfg.recordBytes);
  }

  /** Where byte j of record i + 1 stands in the stream. */
  function Offset(size: nat, i: nat, j: nat): nat {
    i * size + j
  }

  lemma RecordAt(cfg: Config, n: nat, i: nat, j: nat)
    requires cfg.Encodable() && i < n && j < cfg.recordBytes
    ensures Offset(cfg.recordBytes, i, j) < |Stream(cfg, 0, n)|
    ensures Stream(cfg, 0, n)[Offset(cfg.recordBytes, i, j)] == R.Encoded(cfg.runID, i + 1, cfg.recordBytes)[j]
  {
    StreamSplit(cfg, 0, i + 1, n);
    StreamLength(cfg, 0, i);
    assert Stream(cfg, 0, i + 1) == Stream(cfg, 0, i) + R.Encoded(cfg.runID, i + 1, cfg.recordBytes);
  }

  /* ---- the invariant ---- */

  /** all with the replayed bytes that end at mark written twice. */
  function Replayed(all: seq<byte>, mark: nat, replayed: nat): seq<byte>
    requires replayed <= mark <= |all|
  {
    all[..mark] + all[mark - replayed..]
  }

  /** What went out and what is pending make up all, up to the replay the history recorded. */
  ghost predicate Accounted(h: History, pending: seq<byte>, all: seq<byte>) {
    h.replayed <= h.mark <= |all| && h.out + pending == Replayed(all, h.mark, h.replayed)
  }

  predicate Reporting(pc: WriterPc) {
    (pc.Flushing? && pc.after.Abort?) || (pc.Stopped? && !pc.ok)
  }

  ghost predicate WriterInv(cfg: Config, s: World) {
    var w := s.w;
    && w.written <= w.generated
    && w.buffer == Stream(cfg, w.written, w.generated)
    && Accounted(s.h, w.Pending(), Stream(cfg, 0, w.generated))
    && (!Reporting(w.pc) ==> s.h.replayed == 0)
    && (w.pc.Flushing? ==> w.pc.done < |w.buffer|)
    && (w.pc.Stopped? ==> w.pc.flushed <= |w.buffer|)
    && (w.pc.Stopped? && w.pc.ok ==> w.buffer == [] && w.written == w.generated)
    && (!cfg.Encodable() ==> w.buffer == [] && (w.generated == 0 || w.pc == Stopped(false, 0)))
    && (w.pc == Opening(false) ==> w.generated == 0)
    && (!cfg.WriterStarts() ==> w.pc == Stopped(false, 0))
    && (w.reopenFailures > 0 ==> w.pc == Stopped(false, 0))
  }

  lemma AccountedOnce(h: History, pending: seq<byte>, all: seq<byte>)
    requires h.replayed == 0
    ensures Accounted(h, pending, all) <==> h.mark <= |all| && h.out + pending == all
  {
    if h.mark <= |all| {
      assert Replayed(all, h.mark, 0) == all;
    }
  }

  lemma AccountedExactly(h: History, pending: seq<byte>, all: seq<byte>)
    requires Accounted(h, pending, all)
    ensures h.out + pending == all <==> h.replayed == 0
  {
    if h.replayed == 0 {
      AccountedOnce(h, pending, all);
    } else {
      assert |h.out + pending| == |all| + h.replayed;
    }
  }

  lemma AccountGenerated(h: History, pending: seq<byte>, all: seq<byte>, more: seq<byte>)
    requires h.replayed == 0 && Accounted(h, pending, all)
    ensures Accounted(h, pending + more, all + more)
  {
    hide Accounted;
    AccountedOnce(h, pending, all);
    AccountedOnce(h, pending + more, all + more);
    assert h.out + (pending + more) == (h.out + pending) + more;
  }

  lemma AccountWritten(h: History, h': History, chunk: seq<byte>, rest: seq<byte>, all: seq<byte>)
    requires Accounted(h, chunk + rest, all)
    requires h'.out == h.out + chunk && h'.mark == h.mark && h'.replayed == h.replayed
    ensures Accounted(h', rest, all)
  {
    assert h.out + (chunk + rest) == (h.out + chunk) + rest;
  }

  /** Starting the buffer again after done bytes of it went out writes those bytes twice. */
  lemma AccountReplayed(h: History, h': History, before: seq<byte>, buffer: seq<byte>, done: nat)
    requires done <= |buffer| && h.replayed == 0 && Accounted(h, buffer[done..], before + buffer)
    requires h' == h.(mark := |h.out|, replayed := done)
    ensures Accounted(h', buffer, before + buffer)
  {
    AccountedOnce(h, buffer[done..], before + buffer);
    assert |h.out| == |before| + done;
    assert h.out == (before + buffer)[..|h.out|];
    assert (before + buffer)[|before|..] == buffer;
  }

  lemma InitWriter(cfg: Config)
    ensures WriterInv(cfg, Init(cfg))
  {
  }

  lemma GenerateKeeps(cfg: Config, s: World, n: nat)
    requires WriterInv(cfg, s) && s.w.pc.Idle?
    ensures WriterInv(cfg, AfterGenerate(cfg, s, n))
  {
    hide Accounted, Stream;
    var g, g' := s.w.generated, s.w.generated + n;
    StreamSplit(cfg, 0, g, g');
    StreamSplit(cfg, s.w.written, g, g');
    assert s.w.Pending() == s.w.buffer;
    AccountGenerated(s.h, s.w.buffer, Stream(cfg, 0, g), Stream(cfg, g, g'));
    if !cfg.Encodable() {
      NothingEncoded(cfg, 0, g);
      NothingEncoded(cfg, 0, g + 1);
      NothingEncoded(cfg, s.w.written, g + 1);
    }
  }

  lemma NothingEncoded(cfg: Config, from: nat, to: nat)
    requires from <= to && !cfg.Encodable()
    ensures Stream(cfg, from, to) == []
  {
  }

  lemma FlushStartKeeps(cfg: Config, s: World, after: After)
    requires WriterInv(cfg, s) && s.w.pc.Idle? && !after.Abort?
    ensures WriterInv(cfg, AfterFlushStart(s, after))
  {
    hide Accounted, Stream;
    assert s.w.buffer[0..] == s.w.buffer;
    if cfg.Encodable() {
      StreamLength(cfg, s.w.written, s.w.generated);
    }
  }

  lemma WriteKeeps(cfg: Config, s: World, n: nat)
    requires WriterInv(cfg, s) && WriteAllowed(cfg, s, n)
    ensures WriterInv(cfg, AfterWrite(cfg, s, n))
  {
    hide Accounted, Stream;
    var w, done := s.w, s.w.pc.done;
    var chunk, rest := w.buffer[done..done + n], w.buffer[done + n..];
    assert w.Pending() == chunk + rest;
    AccountWritten(s.h, AfterWrite(cfg, s, n).h, chunk, rest, Stream(cfg, 0, w.generated));
    RecordsInBuffer(cfg, w.written, w.generated);
    assert AfterWrite(cfg, s, n).w.Pending() == rest;
    hide RecordsIn, Os.Append, Writer.Pending;
  }

  lemma RecordsInBuffer(cfg: Config, lo: nat, hi: nat)
    requires lo <= hi && cfg.Encodable()
    ensures RecordsIn(cfg, |Stream(cfg, lo, hi)|) == hi - lo && Stream(cfg, hi, hi) == []
  {
    StreamLength(cfg, lo, hi);
  }

  lemma WriteErrorKeeps(cfg: Config, s: World)
    requires WriterInv(cfg, s) && s.w.pc.Flushing?
    ensures WriterInv(cfg, AfterWriteError(cfg, s))
  {
    hide Accounted, Stream;
    if cfg.implementation.GoWriter? && s.w.pc.after.Resume? {
      ReplayKeepsAccount(cfg, s);
      hide Writer.Pending;
    } else {
      assert AfterWriteError(cfg, s).w.Pending() == s.w.Pending();
      hide Writer.Pending;
    }
  }

  lemma ReplayKeepsAccount(cfg: Config, s: World)
    requires WriterInv(cfg, s) && s.w.pc.Flushing? && s.w.pc.after.Resume? && cfg.implementation.GoWriter?
    ensures var t := AfterWriteError(cfg, s);
      Accounted(t.h, t.w.Pending(), Stream(cfg, 0, t.w.generated))
  {
    hide Accounted, Stream;
    var before := Stream(cfg, 0, s.w.written);
    StreamSplit(cfg, 0, s.w.written, s.w.generated);
    assert s.w.Pending() == s.w.buffer[s.w.pc.done..];
    AccountReplayed(s.h, AfterWriteError(cfg, s).h, before, s.w.buffer, s.w.pc.done);
    assert s.w.buffer[0..] == s.w.buffer;
  }

  lemma OpenKeeps(cfg: Config, s: World, ok: bool)
    requires WriterInv(cfg, s) && s.w.pc.Opening?
    ensures WriterInv(cfg, if ok then AfterOpen(s) else AfterOpenFailure(s))
  {
    hide Accounted, Stream;
  }

  lemma TakeReopenKeeps(cfg: Config, s: World)
    requires WriterInv(cfg, s) && s.w.pc.Idle?
    ensures WriterInv(cfg, AfterTakeReopen(s))
  {
    hide Accounted, Stream;
  }

  lemma WriterInvDepends(cfg: Config, s: World, t: World)
    requires WriterInv(cfg, s)
    requires t.w == s.w && t.h.out == s.h.out && t.h.mark == s.h.mark && t.h.replayed == s.h.replayed
    ensures WriterInv(cfg, t)
  {
    hide Stream;
  }

  lemma WriterStep(cfg: Config, s: World, l: Label)
    requires WriterInv(cfg, s) && Next(cfg, s, l).Some?
    ensures WriterInv(cfg, Next(cfg, s, l).value)
  {
    hide WriterInv;
    match l
    case Open(ok) => OpenKeeps(cfg, s, ok);
    case Generate(n) => GenerateKeeps(cfg, s, n);
    case BeginFlush => FlushStartKeeps(cfg, s, Resume);
    case Stop => FlushStartKeeps(cfg, s, Finish);
    case Write(n) => WriteKeeps(cfg, s, n);
    case WriteError => WriteErrorKeeps(cfg, s);
    case TakeReopen => TakeReopenKeeps(cfg, s);
    case _ =>
      RotatorLeavesWriter(cfg, s, l);
      WriterInvDepends(cfg, s, Next(cfg, s, l).value);
  }

  predicate RotatorLabel(l: Label) {
    l.Advance? || l.CopyChunk? || l.Deliver? || l.Fault?
  }

  /** No rotator step touches the writer's own state or what it has written so far. */
  lemma RotatorLeavesWriter(cfg: Config, s: World, l: Label)
    requires Next(cfg, s, l).Some? && RotatorLabel(l)
    ensures var t := Next(cfg, s, l).value;
      t.w == s.w && t.h.out == s.h.out && t.h.mark == s.h.mark && t.h.replayed == s.h.replayed
  {
  }

  /** The rotator steps that neither write, make nor rename a file, nor open or close a window. */
  predicate Plain(pc: RotatorPc) {
    && !pc.RenameActive? && !pc.CreateReplacement? && !pc.CreateBackup? && !pc.Copy? && !pc.LogSynced?
    && !pc.TruncateActive?
  }

  lemma PlainAdvance(cfg: Config, s: World)
    requires Plain(s.r.pc) && AfterAdvance(cfg, s).Some?
    ensures var t := AfterAdvance(cfg, s).value;
      && t.w == s.w && t.os.data == s.os.data && t.os.queued == s.os.queued
      && t.h == s.h.(removed := t.h.removed) && !InWindow(t.r)
  {
    hide Victims, AfterRename, AfterCreateBackup, AfterTruncate;
    if s.r.pc.Remove? {
      hide AfterPoll, AfterComplete;
    } else {
      hide AfterRemove;
    }
  }

  lemma {:induction false} WriterRun(cfg: Config, labels: seq<Label>, s: World)
    requires Exec(cfg, Init(cfg), labels) == Some(s)
    ensures WriterInv(cfg, s)
  {
    if labels == [] {
      InitWriter(cfg);
    } else {
      var front := labels[..|labels| - 1];
      WriterRun(cfg, front, Exec(cfg, Init(cfg), front).value);
      WriterStep(cfg, Exec(cfg, Init(cfg), front).value, labels[|labels| - 1]);
    }
  }

  /** A writer that exited without an error has written every record it generated, each once and in order. */
  lemma CleanlyStopped(cfg: Config, s: World)
    requires WriterInv(cfg, s) && s.w.pc.Stopped? && s.w.pc.ok
    ensures s.h.out == Stream(cfg, 0, s.w.generated)
    ensures s.w.written == s.w.generated && s.w.reopenFailures == 0
  {
    hide Stream;
    AccountedOnce(s.h, s.w.Pending(), Stream(cfg, 0, s.w.generated));
    assert s.h.out + [] == s.h.out;
  }

  lemma CleanStop(cfg: Config, labels: seq<Label>, s: World)
    requires Exec(cfg, Init(cfg), labels) == Some(s) && s.w.pc.Stopped? && s.w.pc.ok
    ensures s.h.out == Stream(cfg, 0, s.w.generated)
    ensures s.w.written == s.w.generated && s.w.reopenFailures == 0
  {
    WriterRun(cfg, labels, s);
    hide *;
    CleanlyStopped(cfg, s);
  }

  /** Between flushes the buffer holds exactly the records generated and not yet written. */
  lemma BufferHoldsTheRest(cfg: Config, labels: seq<Label>, s: World)
    requires cfg.Encodable() && Exec(cfg, Init(cfg), labels) == Some(s)
    ensures s.w.written <= s.w.generated
    ensures s.w.written * cfg.recordBytes + |s.w.buffer| == s.w.generated * cfg.recordBytes
  {
    WriterRun(cfg, labels, s);
    hide *;
    BufferIs(cfg, s);
  }

  lemma BufferIs(cfg: Config, s: World)
    requires cfg.Encodable() && WriterInv(cfg, s)
    ensures s.w.written <= s.w.generated
    ensures s.w.written * cfg.recordBytes + |s.w.buffer| == s.w.generated * cfg.recordBytes
  {
    assert s.w.written <= s.w.generated && s.w.buffer == Stream(cfg, s.w.written, s.w.generated);
    assert cfg.recordBytes > 0;
    StreamLength(cfg, s.w.written, s.w.generated);
    hide *;
    MultipleDifference(s.w.written, s.w.generated, cfg.recordBytes, |s.w.buffer|);
  }

  /* ---- exactly when the stream is conserved ---- */

  /** The one branch that writes bytes twice: a resuming Go flush that fails after part of its buffer went out. */
  predicate Replays(cfg: Config, s: World, l: Label) {
    && l.WriteError? && cfg.implementation.GoWriter?
    && s.w.pc.Flushing? && s.w.pc.after.Resume? && s.w.pc.done > 0
  }

  ghost predicate EverReplays(cfg: Config, labels: seq<Label>) {
    labels != [] &&
    var front := labels[..|labels| - 1];
    || EverReplays(cfg, front)
    || (var m := Exec(cfg, Init(cfg), front); m.Some? && Replays(cfg, m.value, labels[|labels| - 1]))
  }

  lemma {:induction false} ReplayedExactly(cfg: Config, labels: seq<Label>, s: World)
    requires Exec(cfg, Init(cfg), labels) == Some(s)
    ensures s.h.replayed > 0 <==> EverReplays(cfg, labels)
  {
    if labels != [] {
      var front, l := labels[..|labels| - 1], labels[|labels| - 1];
      var m := Exec(cfg, Init(cfg), front).value;
      ReplayedExactly(cfg, front, m);
      WriterRun(cfg, front, m);
      ReplayedStep(cfg, m, l);
    }
  }

  lemma ReplayedStep(cfg: Config, s: World, l: Label)
    requires WriterInv(cfg, s) && Next(cfg, s, l).Some?
    ensures Next(cfg, s, l).value.h.replayed > 0 <==> s.h.replayed > 0 || Replays(cfg, s, l)
  {
    hide Stream, Accounted;
    if RotatorLabel(l) {
      RotatorLeavesWriter(cfg, s, l);
    }
  }

  /** For every schedule: what went out followed by what is pending is the generated stream, in order and once,
      exactly when no flush was replayed after a partial write. */
  lemma StreamConservedExactly(cfg: Config, labels: seq<Label>, s: World)
    requires Exec(cfg, Init(cfg), labels) == Some(s)
    ensures s.h.out + s.w.Pending() == Stream(cfg, 0, s.w.generated) <==> !EverReplays(cfg, labels)
  {
    hide Stream, Accounted, EverReplays, Exec;
    WriterRun(cfg, labels, s);
    ReplayedExactly(cfg, labels, s);
    AccountedExactly(s.h, s.w.Pending(), Stream(cfg, 0, s.w.generated));
  }

  /** The C++ writer, which stops at the first failed write, never replays; nor does anyone when writes are whole. */
  lemma {:induction false} NeverReplays(cfg: Config, labels: seq<Label>, s: World)
    requires Exec(cfg, Init(cfg), labels) == Some(s)
    requires cfg.implementation.CppWriter? || !cfg.shortWrites
    ensures !EverReplays(cfg, labels)
    ensures !cfg.shortWrites && s.w.pc.Flushing? ==> s.w.pc.done == 0
  {
    if labels != [] {
      var front, l := labels[..|labels| - 1], labels[|labels| - 1];
      var m := Exec(cfg, Init(cfg), front).value;
      NeverReplays(cfg, front, m);
      if RotatorLabel(l) {
        RotatorLeavesWriter(cfg, m, l);
      }
    }
  }

  const WITNESS := Config([ZERO], 24, 1, 1, 1, 1, 0, RenameReopen, GoWriter, true)

  const FIRST_FLUSH := [Open(true), Generate(1), BeginFlush, Write(1)]

  /** The exception is real: the first flush of a Go writer fails after one byte, and that byte is written twice. */
  lemma ReplayHappens() returns (labels: seq<Label>, s: World)
    ensures labels == FIRST_FLUSH + [WriteError] + [Write(24)] && Exec(WITNESS, Init(WITNESS), labels) == Some(s)
    ensures EverReplays(WITNESS, labels)
    ensures s.w.generated == 1 && s.w.pc == Stopped(false, 0)
    ensures |Stream(WITNESS, 0, 1)| == 24 && s.h.out == Stream(WITNESS, 0, 1)[..1] + Stream(WITNESS, 0, 1)
  {
    var before := FirstFlush();
    var failed := FIRST_FLUSH + [WriteError];
    var again := AfterWriteError(WITNESS, before);
    ExecAppend(WITNESS, Init(WITNESS), FIRST_FLUSH, WriteError);
    assert EverReplays(WITNESS, failed) by {
      assert failed[..4] == FIRST_FLUSH && Replays(WITNESS, before, WriteError);
    }
    labels := failed + [Write(24)];
    ExecAppend(WITNESS, Init(WITNESS), failed, Write(24));
    assert labels[..5] == failed;
    hide Stream, Exec;
    assert again.w.buffer[0..24] == again.w.buffer;
    s := AfterWrite(WITNESS, again, 24);
  }

  /** Up to the write that moves one byte. */
  lemma FirstFlush() returns (s: World)
    ensures Exec(WITNESS, Init(WITNESS), FIRST_FLUSH) == Some(s)
    ensures s.w.pc == Flushing(1, Resume) && s.w.generated == 1 && s.w.written == 0
    ensures s.w.buffer == Stream(WITNESS, 0, 1) && |s.w.buffer| == 24 && s.h.out == s.w.buffer[..1]
  {
    var start := Init(WITNESS);
    var ready := AfterOpen(start);
    var generated := AfterGenerate(WITNESS, ready, 1);
    var flushing := AfterFlushStart(generated, Resume);
    StreamLength(WITNESS, 0, 1);
    hide Stream;
    assert generated.w.buffer == Stream(WITNESS, 0, 1);
    s := AfterWrite(WITNESS, flushing, 1);
    assert s.w.buffer[0..1] == s.w.buffer[..1];
    ExecAppend(WITNESS, start, [], Open(true));
    assert [] + [Open(true)] == [Open(true)];
    ExecAppend(WITNESS, start, [Open(true)], Generate(1));
    assert [Open(true)] + [Generate(1)] == [Open(true), Generate(1)];
    ExecAppend(WITNESS, start, [Open(true), Generate(1)], BeginFlush);
    assert [Open(true), Generate(1)] + [BeginFlush] == [Open(true), Generate(1), BeginFlush];
    ExecAppend(WITNESS, start, [Open(true), Generate(1), BeginFlush], Write(1));
    assert [Open(true), Generate(1), BeginFlush] + [Write(1)] == FIRST_FLUSH;
    hide Exec;
  }
}
