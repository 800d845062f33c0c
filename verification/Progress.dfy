/** Nothing in either protocol can block a rotation: from every reachable state in which the threshold is met the rotator
    alone can finish it, and completed runs exist. */
module Progress {
  import opened Arithmetic
  import opened Bytes
  import opened Lab
  import opened WriterStream
  import opened RenameReopen
  import opened RenameResults
  import opened WriterProgram
  import CT = CopyTruncate

  ghost predicate ByRotator(labels: seq<Label>) {
    forall l :: l in labels ==> RotatorLabel(l)
  }

  /** t is reached from s by labels of the rotator alone. */
  ghost predicate Leads(cfg: Config, trace: seq<Label>, s: World, more: seq<Label>, t: World) {
    Runs(cfg, trace + more, t) && ByRotator(more) && t.w == s.w
  }

  lemma LeadsNowhere(cfg: Config, trace: seq<Label>, s: World)
    requires Runs(cfg, trace, s)
    ensures Leads(cfg, trace, s, [], s)
  {
    assert trace + [] == trace;
  }

  lemma LeadsOn(cfg: Config, trace: seq<Label>, s: World, more: seq<Label>, t: World, l: Label)
    returns (more': seq<Label>, u: World)
    requires Leads(cfg, trace, s, more, t) && RotatorLabel(l) && Next(cfg, t, l).Some?
    ensures more' == more + [l] && Some(u) == Next(cfg, t, l) && Leads(cfg, trace, s, more', u)
    ensures Invariant(cfg, u)
  {
    more', u := more + [l], Next(cfg, t, l).value;
    RotatorLeavesWriter(cfg, t, l);
    hide Next, Invariant;
    RunsOn(cfg, trace + more, t, l, u);
    assert trace + more' == (trace + more) + [l];
    Holds(cfg, trace + more', u);
  }

  lemma LeadsAdvance(cfg: Config, trace: seq<Label>, s: World, more: seq<Label>, t: World)
    returns (more': seq<Label>, u: World)
    requires Leads(cfg, trace, s, more, t) && AfterAdvance(cfg, t).Some?
    ensures Some(u) == AfterAdvance(cfg, t) && Leads(cfg, trace, s, more', u) && Invariant(cfg, u)
  {
    hide Leads, Invariant, AfterAdvance;
    more', u := LeadsOn(cfg, trace, s, more, t, Advance);
  }

  /** What the protocol in use keeps. */
  ghost predicate Invariant(cfg: Config, s: World) {
    if cfg.strategy.RenameReopen? then RenameInv(cfg, s) else CT.CopyInv(cfg, s)
  }

  lemma Holds(cfg: Config, trace: seq<Label>, s: World)
    requires Runs(cfg, trace, s)
    ensures Invariant(cfg, s)
  {
    hide RenameInv, CT.CopyInv;
    if cfg.strategy.RenameReopen? {
      RenameRun(cfg, trace, s);
    } else {
      CT.CopyRun(cfg, trace, s);
    }
  }

  /** From the poll that sees a full file to the logged threshold. */
  lemma Decides(cfg: Config, trace: seq<Label>, s: World) returns (more: seq<Label>, t: World)
    requires Runs(cfg, trace, s) && s.r.pc.Poll?
    requires Active in s.os.names && |s.os.ReadPath(Active)| >= cfg.maxFileBytes
    ensures Leads(cfg, trace, s, more, t) && t.r.ordinal == s.r.ordinal && Active in t.os.names && Invariant(cfg, t)
    ensures t.r.pc == if cfg.strategy.RenameReopen? then RenameActive else LogCopyStart
  {
    hide Leads, Invariant, Runs;
    LeadsNowhere(cfg, trace, s);
    more, t := LeadsAdvance(cfg, trace, s, [], s);
    more, t := LeadsAdvance(cfg, trace, s, more, t);
    more, t := LeadsAdvance(cfg, trace, s, more, t);
  }

  /** From the rename to the request. */
  lemma Renames(cfg: Config, trace: seq<Label>, s: World, more0: seq<Label>, t0: World)
    returns (more: seq<Label>, t: World)
    requires Leads(cfg, trace, s, more0, t0) && t0.r.pc.RenameActive? && Active in t0.os.names
    ensures Leads(cfg, trace, s, more, t) && t.r.pc.Post? && t.r.ordinal == t0.r.ordinal && Invariant(cfg, t)
  {
    hide Leads, Invariant;
    more, t := LeadsAdvance(cfg, trace, s, more0, t0);
    more, t := LeadsAdvance(cfg, trace, s, more, t);
    more, t := LeadsAdvance(cfg, trace, s, more, t);
    more, t := LeadsAdvance(cfg, trace, s, more, t);
  }

  /** From the request to the end of the listing. */
  lemma Requests(cfg: Config, trace: seq<Label>, s: World, more0: seq<Label>, t0: World)
    returns (more: seq<Label>, t: World)
    requires Leads(cfg, trace, s, more0, t0) && cfg.strategy.RenameReopen? && Invariant(cfg, t0)
    requires t0.r.pc.Post? && !s.w.pc.Stopped?
    ensures Leads(cfg, trace, s, more, t) && t.r.pc.Remove? && t.r.ordinal == t0.r.ordinal && Invariant(cfg, t)
  {
    assert t0.w == s.w;
    hide Leads, Invariant, Victims;
    SlotIsFree(cfg, t0);
    more, t := LeadsOn(cfg, trace, s, more0, t0, Deliver(true, true));
    more, t := LeadsAdvance(cfg, trace, s, more, t);
    more, t := LeadsAdvance(cfg, trace, s, more, t);
  }

  lemma SlotIsFree(cfg: Config, s: World)
    requires Invariant(cfg, s) && cfg.strategy.RenameReopen? && s.r.pc.Post?
    ensures !s.os.queued
  {
  }

  /** From the start of a copy to its empty backup. */
  lemma StartsCopy(cfg: Config, trace: seq<Label>, s: World, more0: seq<Label>, t0: World)
    returns (more: seq<Label>, t: World)
    requires Leads(cfg, trace, s, more0, t0) && cfg.strategy.CopyTruncate? && Invariant(cfg, t0)
    requires t0.r.pc.LogCopyStart? && Active in t0.os.names
    ensures Leads(cfg, trace, s, more, t) && t.r.pc.Copy? && t.r.ordinal == t0.r.ordinal && Invariant(cfg, t)
    ensures Active in t.os.names
  {
    hide Leads, Invariant;
    NameIsFree(cfg, t0);
    more, t := LeadsAdvance(cfg, trace, s, more0, t0);
    more, t := LeadsAdvance(cfg, trace, s, more, t);
    more, t := LeadsAdvance(cfg, trace, s, more, t);
  }

  lemma NameIsFree(cfg: Config, s: World)
    requires Invariant(cfg, s) && cfg.strategy.CopyTruncate? && s.r.pc.LogCopyStart?
    ensures Backup(s.r.ordinal) !in s.os.names
  {
    hide CT.InodeInv, CT.ContentInv, CT.PartialInv;
  }

  /** The whole file in one chunk, then its end. */
  lemma Copies(cfg: Config, trace: seq<Label>, s: World, more0: seq<Label>, t0: World)
    returns (more: seq<Label>, t: World)
    requires Leads(cfg, trace, s, more0, t0) && cfg.strategy.CopyTruncate? && Invariant(cfg, t0)
    requires t0.r.pc.Copy? && Active in t0.os.names
    ensures Leads(cfg, trace, s, more, t) && t.r.pc.LogSynced? && t.r.ordinal == t0.r.ordinal && Active in t.os.names
  {
    var n := |t0.os.Read(t0.r.source)| - t0.r.copied;
    more, t := more0, t0;
    hide Leads, Invariant;
    FilesDiffer(cfg, t0);
    if n > 0 {
      more, t := LeadsOn(cfg, trace, s, more, t, CopyChunk(n));
    }
    more, t := LeadsAdvance(cfg, trace, s, more, t);
  }

  lemma FilesDiffer(cfg: Config, s: World)
    requires Invariant(cfg, s) && cfg.strategy.CopyTruncate? && s.r.pc.Copy?
    ensures s.r.target != s.r.source
  {
    hide CT.ContentInv;
  }

  lemma Truncates(cfg: Config, trace: seq<Label>, s: World, more0: seq<Label>, t0: World)
    returns (more: seq<Label>, t: World)
    requires Leads(cfg, trace, s, more0, t0) && t0.r.pc.LogSynced? && Active in t0.os.names
    ensures Leads(cfg, trace, s, more, t) && t.r.pc.Remove? && t.r.ordinal == t0.r.ordinal && Invariant(cfg, t)
  {
    hide Leads, Invariant, Victims;
    more, t := LeadsAdvance(cfg, trace, s, more0, t0);
    more, t := LeadsAdvance(cfg, trace, s, more, t);
    more, t := LeadsAdvance(cfg, trace, s, more, t);
    more, t := LeadsAdvance(cfg, trace, s, more, t);
  }

  lemma VictimIsThere(cfg: Config, s: World)
    requires Invariant(cfg, s) && s.r.pc.Remove? && s.r.victims != []
    ensures Backup(s.r.victims[0]) in s.os.names
  {
    if cfg.strategy.RenameReopen? {
      RetentionInv(cfg, s);
    } else {
      hide CT.InodeInv, CT.ContentInv, CT.PartialInv;
      assert s.r.victims[0] == s.h.removed + 1;
    }
  }

  /** From the listing to the end of the rotation, one removal at a time. */
  lemma {:induction false} Removes(cfg: Config, trace: seq<Label>, s: World, more0: seq<Label>, t0: World)
    returns (more: seq<Label>, t: World)
    requires Leads(cfg, trace, s, more0, t0) && t0.r.pc.Remove? && Invariant(cfg, t0)
    ensures Leads(cfg, trace, s, more, t) && t.r.ordinal == t0.r.ordinal + 1
    ensures t.r.pc == if t0.r.ordinal + 1 > cfg.rotations then Exited(true) else Poll
    decreases |t0.r.victims|
  {
    hide Leads, Invariant;
    if t0.r.victims == [] {
      more, t := LeadsAdvance(cfg, trace, s, more0, t0);
      more, t := LeadsAdvance(cfg, trace, s, more, t);
    } else {
      VictimIsThere(cfg, t0);
      more, t := LeadsAdvance(cfg, trace, s, more0, t0);
      hide Next;
      more, t := Removes(cfg, trace, s, more, t);
    }
  }

  /** Whenever the rotator polls, the file is full and the writer has not stopped, the rotator alone can finish the
      rotation: no create collides, no slot is full, no backup to remove is gone, no truncate misses its file. */
  lemma RotationCanComplete(cfg: Config, labels: seq<Label>, s: World) returns (more: seq<Label>, t: World)
    requires Exec(cfg, Init(cfg), labels) == Some(s) && s.r.pc.Poll? && !s.w.pc.Stopped?
    requires Active in s.os.names && |s.os.ReadPath(Active)| >= cfg.maxFileBytes
    ensures Exec(cfg, Init(cfg), labels + more) == Some(t) && ByRotator(more) && t.w == s.w
    ensures t.r.ordinal == s.r.ordinal + 1
    ensures t.r.pc == if s.r.ordinal + 1 > cfg.rotations then Exited(true) else Poll
  {
    assert Runs(cfg, labels, s);
    hide Exec, Init, Invariant, ByRotator;
    more, t := Decides(cfg, labels, s);
    if cfg.strategy.RenameReopen? {
      more, t := Renames(cfg, labels, s, more, t);
      more, t := Requests(cfg, labels, s, more, t);
    } else {
      more, t := StartsCopy(cfg, labels, s, more, t);
      more, t := Copies(cfg, labels, s, more, t);
      more, t := Truncates(cfg, labels, s, more, t);
    }
    more, t := Removes(cfg, labels, s, more, t);
  }

  /* ---- completed runs exist ---- */

  /** Between rotations, with nothing buffered and no reopen outstanding. */
  ghost predicate AtRest(s: World) {
    s.w.pc.Idle? && s.w.buffer == [] && !s.os.queued && Active in s.os.names && s.os.names[Active] == s.w.file
  }

  lemma StepOn(cfg: Config, trace: seq<Label>, s: World, l: Label) returns (trace': seq<Label>, t: World)
    requires Runs(cfg, trace, s) && Next(cfg, s, l).Some?
    ensures trace' == trace + [l] && Some(t) == Next(cfg, s, l) && Runs(cfg, trace', t)
  {
    trace', t := trace + [l], Next(cfg, s, l).value;
    hide Next;
    RunsOn(cfg, trace, s, l, t);
  }

  /** The writer fills the file up to the threshold. */
  lemma Fills(cfg: Config, trace: seq<Label>, s: World) returns (trace': seq<Label>, t: World)
    requires Runs(cfg, trace, s) && AtRest(s) && cfg.Encodable() && cfg.maxFileBytes > 0
    ensures Runs(cfg, trace', t) && AtRest(t) && t.r == s.r && |t.os.ReadPath(Active)| >= cfg.maxFileBytes
    ensures t.w.generated == s.w.generated + cfg.maxFileBytes
  {
    hide Runs;
    trace', t := Buffers(cfg, trace, s);
    trace', t := StepOn(cfg, trace', t, BeginFlush);
    hide AfterAdvance, RecordsIn;
    var size := |t.w.buffer|;
    trace', t := StepOn(cfg, trace', t, Write(size));
  }

  lemma Buffers(cfg: Config, trace: seq<Label>, s: World) returns (trace': seq<Label>, t: World)
    requires Runs(cfg, trace, s) && AtRest(s) && cfg.Encodable() && cfg.maxFileBytes > 0
    ensures Runs(cfg, trace', t) && t.r == s.r && t.os == s.os && t.w.file == s.w.file && t.w.pc.Idle?
    ensures |t.w.buffer| >= cfg.maxFileBytes && t.w.generated == s.w.generated + cfg.maxFileBytes
  {
    var n := cfg.maxFileBytes;
    hide Stream, Runs, RecordsIn, AfterAdvance;
    StreamAtLeast(cfg, s.w.generated, n);
    trace', t := StepOn(cfg, trace, s, Label.Generate(n));
    assert t.w.buffer == Stream(cfg, s.w.generated, s.w.generated + n);
  }

  lemma StreamAtLeast(cfg: Config, from: nat, n: nat)
    requires cfg.Encodable()
    ensures |Stream(cfg, from, from + n)| >= n
  {
    StreamLength(cfg, from, from + n);
    assert from + n - from == n;
    hide *;
    Enough(n, cfg.recordBytes);
  }

  lemma Enough(n: nat, d: int)
    requires d > 0
    ensures n * d >= n
  {
  }

  /** The writer answers a queued reopen. */
  lemma Answers(cfg: Config, trace: seq<Label>, s: World) returns (trace': seq<Label>, t: World)
    requires Runs(cfg, trace, s) && s.w.pc.Idle? && s.w.buffer == [] && Active in s.os.names
    requires !s.os.queued ==> s.os.names[Active] == s.w.file
    ensures Runs(cfg, trace', t) && AtRest(t) && t.r == s.r && t.w.generated == s.w.generated
  {
    hide Runs;
    if s.os.queued {
      trace', t := StepOn(cfg, trace, s, Label.TakeReopen);
      trace', t := StepOn(cfg, trace', t, Open(true));
    } else {
      trace', t := trace, s;
    }
  }

  lemma OneRotation(cfg: Config, trace: seq<Label>, s: World) returns (trace': seq<Label>, t: World)
    requires Runs(cfg, trace, s) && AtRest(s) && s.r.pc.Poll?
    requires cfg.Encodable() && cfg.maxFileBytes > 0
    ensures Runs(cfg, trace', t) && AtRest(t) && t.r.ordinal == s.r.ordinal + 1
    ensures t.w.generated == s.w.generated + cfg.maxFileBytes
    ensures t.r.pc == if s.r.ordinal + 1 > cfg.rotations then Exited(true) else Poll
  {
    trace', t := Fills(cfg, trace, s);
    var more, u := RotationCanComplete(cfg, trace', t);
    assert Runs(cfg, trace' + more, u);
    Holds(cfg, trace' + more, u);
    AttachedOrQueued(cfg, u);
    hide Invariant, Runs, ByRotator;
    trace', t := Answers(cfg, trace' + more, u);
  }

  lemma AttachedOrQueued(cfg: Config, s: World)
    requires Invariant(cfg, s) && s.w.pc.Idle? && (s.r.pc.Poll? || s.r.pc == Exited(true))
    ensures Active in s.os.names && (!s.os.queued ==> s.os.names[Active] == s.w.file)
  {
  }

  lemma {:induction false} Rotations(cfg: Config, trace: seq<Label>, s: World) returns (trace': seq<Label>, t: World)
    requires Runs(cfg, trace, s) && AtRest(s) && s.r.pc.Poll? && s.r.ordinal <= cfg.rotations
    requires cfg.Encodable() && cfg.maxFileBytes > 0
    ensures Runs(cfg, trace', t) && AtRest(t) && t.r.pc == Exited(true)
    ensures t.w.generated == s.w.generated + (cfg.rotations - s.r.ordinal + 1) * cfg.maxFileBytes
    decreases cfg.rotations - s.r.ordinal
  {
    hide Runs, AtRest;
    var left := cfg.rotations - s.r.ordinal;
    MultipleMonotone(left, left, cfg.maxFileBytes);
    trace', t := OneRotation(cfg, trace, s);
    if t.r.pc.Poll? {
      trace', t := Rotations(cfg, trace', t);
    }
  }

  /** Every legal configuration has a run in which all rotations happen and both processes end without an error, having
      written MaxFileBytes records for each rotation. */
  lemma CompletedRunExists(cfg: Config) returns (labels: seq<Label>, s: World)
    requires cfg.WriterStarts() && cfg.Encodable() && cfg.RotatorStarts()
    ensures Exec(cfg, Init(cfg), labels) == Some(s)
    ensures s.r.pc == Exited(true) && s.w.pc == Stopped(true, 0) && |s.h.made| == cfg.rotations
    ensures s.w.generated == cfg.rotations * cfg.maxFileBytes
  {
    s := Init(cfg);
    assert Runs(cfg, [], s);
    labels, s := StepOn(cfg, [], s, Open(true));
    assert AtRest(s);
    hide Runs, Invariant;
    labels, s := Rotations(cfg, labels, s);
    labels, s := StepOn(cfg, labels, s, Stop);
    Holds(cfg, labels, s);
    Made(cfg, labels, s);
  }

  lemma Made(cfg: Config, labels: seq<Label>, s: World)
    requires Runs(cfg, labels, s) && Invariant(cfg, s) && s.r.pc == Exited(true)
    ensures Exec(cfg, Init(cfg), labels) == Some(s) && |s.h.made| == cfg.rotations
  {
    hide Exec;
  }
}
