/** The copytruncate rotation beside the same writer: what every interleaving keeps, and exactly which bytes it loses. */
module CopyTruncate {
  import opened Bytes
  import opened Lab
  import opened Ordered
  import RR = RenameReopen

  predicate Before(pc: RotatorPc) {
    pc.Poll? || pc.Stat? || pc.LogThreshold? || pc.LogCopyStart? || pc.OpenSource? || pc.CreateBackup?
  }

  predicate Copying(pc: RotatorPc) {
    pc.Copy? || pc.LogSynced? || pc.TruncateActive?
  }

  predicate Concluding(pc: RotatorPc) {
    pc.LogTruncate? || pc.List? || pc.Remove? || pc.LogComplete?
  }

  /** Backup 1, window 1, ..., for as many windows as there are. */
  function Woven(os: Os, made: seq<nat>, windows: seq<seq<byte>>): seq<byte>
    requires |windows| <= |made|
  {
    var t := |windows|;
    if t == 0 then [] else Woven(os, made, windows[..t - 1]) + os.Read(made[t - 1]) + windows[t - 1]
  }

  ghost predicate InodeInv(os: Os, h: History, active: nat) {
    && active < os.next
    && (forall i :: 0 <= i < |h.made| ==> h.made[i] < os.next && h.made[i] != active)
    && (forall i, j :: 0 <= i < j < |h.made| ==> h.made[i] != h.made[j])
  }

  /** Everything written is the backups and their windows in turn, then the active file. */
  ghost predicate ContentInv(os: Os, h: History, active: nat) {
    |h.windows| <= |h.made| && Woven(os, h.made, h.windows) + os.Read(active) == h.out
  }

  /** The backup being made is a prefix of the active file, and once the copy is complete the window is the rest. */
  ghost predicate PartialInv(os: Os, r: Rotator, h: History, active: nat) {
    && (r.pc.CreateBackup? || Copying(r.pc) ==> r.source == active)
    && (Copying(r.pc) ==> h.made != [] && r.target == h.made[|h.made| - 1] && r.copied == |os.Read(r.target)|)
    && (Copying(r.pc) ==> os.Read(r.target) <= os.Read(active))
    && (InWindow(r) ==> os.Read(r.target) + h.window == os.Read(active))
    && (|h.windows| < |h.made| ==> os.Read(h.made[|h.made| - 1]) <= os.Read(active))
  }

  ghost predicate CountInv(cfg: Config, s: World) {
    var pc, k, t, o := s.r.pc, |s.h.made|, |s.h.windows|, s.r.ordinal;
    && (Before(pc) || Copying(pc) || Concluding(pc) || RR.Ended(pc))
    && (pc == Exited(false) || cfg.RotatorStarts())
    && o >= 1
    && (Before(pc) || pc == Exited(true) ==> k == o - 1 && t == k)
    && (Copying(pc) ==> k == o && t == k - 1)
    && (Concluding(pc) ==> k == o && t == k)
    && (RR.Ended(pc) ==> (k == o - 1 || k == o) && (t == k || t == k - 1))
    && (pc == Exited(true) ==> k == cfg.rotations)
    && (!pc.Exited? ==> o <= cfg.rotations)
    && (pc.Remove? ==> s.r.victims == Numbers(s.h.removed, RR.LetGo(cfg, s.h)))
    && (pc.LogComplete? || Before(pc) || pc == Exited(true) ==> s.h.removed == RR.LetGo(cfg, s.h))
  }

  /** Once it has opened the active inode the writer keeps it open for good. */
  ghost predicate CopyInv(cfg: Config, s: World) {
    && RR.DirectoryInv(cfg, s.os, s.h) && CountInv(cfg, s)
    && (|| (RR.Unopened(s) && s.h.windows == [])
        || (&& RR.Attached(s) && InodeInv(s.os, s.h, s.w.file) && ContentInv(s.os, s.h, s.w.file)
            && PartialInv(s.os, s.r, s.h, s.w.file)))
    && (!s.r.pc.Poll? && !s.r.pc.Exited? ==> RR.Attached(s))
  }

  lemma InitCopy(cfg: Config)
    ensures CopyInv(cfg, Init(cfg))
  {
  }

  /* ---- contents ---- */

  lemma {:induction false} WovenSame(os: Os, os': Os, made: seq<nat>, made': seq<nat>, windows: seq<seq<byte>>)
    requires |windows| <= |made| && made <= made'
    requires forall i :: 0 <= i < |windows| ==> os'.Read(made[i]) == os.Read(made[i])
    ensures Woven(os', made', windows) == Woven(os, made, windows)
    decreases |windows|
  {
    if windows != [] {
      WovenSame(os, os', made, made', windows[..|windows| - 1]);
    }
  }

  lemma AppendActive(os: Os, h: History, h': History, active: nat, chunk: seq<byte>)
    requires InodeInv(os, h, active) && ContentInv(os, h, active)
    requires h'.made == h.made && h'.windows == h.windows && h'.out == h.out + chunk
    ensures InodeInv(os.Append(active, chunk), h', active) && ContentInv(os.Append(active, chunk), h', active)
  {
    WovenSame(os, os.Append(active, chunk), h.made, h.made, h.windows);
    Regroup(Woven(os, h.made, h.windows), os.Read(active), chunk);
  }

  lemma AppendTarget(os: Os, h: History, active: nat, chunk: seq<byte>)
    requires InodeInv(os, h, active) && ContentInv(os, h, active) && |h.windows| < |h.made|
    ensures var os' := os.Append(h.made[|h.made| - 1], chunk);
      InodeInv(os', h, active) && ContentInv(os', h, active) && os'.Read(active) == os.Read(active)
  {
    WovenSame(os, os.Append(h.made[|h.made| - 1], chunk), h.made, h.made, h.windows);
  }

  lemma CreateContents(os: Os, h: History, active: nat, o: nat)
    requires InodeInv(os, h, active) && ContentInv(os, h, active)
    ensures var os', h' := os.Create(Backup(o)), h.(made := h.made + [os.next]);
      InodeInv(os', h', active) && ContentInv(os', h', active)
  {
    WovenSame(os, os.Create(Backup(o)), h.made, h.made + [os.next], h.windows);
  }

  /** Truncating moves the backup and its window into what has been accounted for. */
  lemma TruncateContents(os: Os, h: History, active: nat)
    requires InodeInv(os, h, active) && ContentInv(os, h, active) && |h.windows| + 1 == |h.made|
    requires os.Read(h.made[|h.made| - 1]) + h.window == os.Read(active)
    ensures var os', h' := os.Truncate(active), h.(windows := h.windows + [h.window]);
      InodeInv(os', h', active) && ContentInv(os', h', active)
  {
    var os', windows := os.Truncate(active), h.windows + [h.window];
    var last := os.Read(h.made[|h.made| - 1]);
    WovenSame(os, os', h.made, h.made, h.windows);
    assert Woven(os', h.made, windows) == Woven(os, h.made, h.windows) + last + h.window by {
      assert windows[..|h.windows|] == h.windows;
    }
    hide Woven;
    Regroup(Woven(os, h.made, h.windows), last, h.window);
  }

  lemma SameContents(os: Os, os': Os, h: History, h': History, active: nat)
    requires InodeInv(os, h, active) && ContentInv(os, h, active)
    requires os'.data == os.data && os'.next == os.next
    requires h'.made == h.made && h'.windows == h.windows && h'.out == h.out
    ensures InodeInv(os', h', active) && ContentInv(os', h', active)
  {
    WovenSame(os, os', h.made, h.made, h.windows);
  }

  lemma FirstContents(os: Os, h: History, active: nat)
    requires h.made == [] && h.windows == [] && h.out == [] && os.Read(active) == [] && active < os.next
    ensures InodeInv(os, h, active) && ContentInv(os, h, active)
  {
  }

  /* ---- the writer's steps ---- */

  lemma QuietWriterStep(cfg: Config, s: World, t: World)
    requires CopyInv(cfg, s)
    requires s.w.pc.Idle? || s.w.pc.Flushing?
    requires !t.w.pc.Opening? && t.os == s.os && t.r == s.r && t.w.file == s.w.file
    requires t.h == s.h.(mark := t.h.mark, replayed := t.h.replayed)
    ensures CopyInv(cfg, t)
  {
    hide InodeInv, ContentInv;
    SameContents(s.os, t.os, s.h, t.h, s.w.file);
  }

  lemma OpenStep(cfg: Config, s: World, ok: bool)
    requires CopyInv(cfg, s) && s.w.pc.Opening?
    ensures CopyInv(cfg, if ok then AfterOpen(s) else AfterOpenFailure(s))
  {
    hide InodeInv, ContentInv;
    if ok {
      var t := AfterOpen(s);
      FirstContents(t.os, t.h, t.w.file);
    }
  }

  lemma PartialGrows(os: Os, r: Rotator, h: History, h': History, active: nat, chunk: seq<byte>)
    requires InodeInv(os, h, active) && PartialInv(os, r, h, active)
    requires h' == h.(out := h'.out, window := if InWindow(r) then h.window + chunk else h.window)
    ensures PartialInv(os.Append(active, chunk), r, h', active)
  {
    if InWindow(r) {
      Regroup(os.Read(r.target), h.window, chunk);
    }
  }

  lemma WriteStep(cfg: Config, s: World, n: nat)
    requires CopyInv(cfg, s) && WriteAllowed(cfg, s, n)
    ensures CopyInv(cfg, AfterWrite(cfg, s, n))
  {
    hide ContentInv, InodeInv, PartialInv, RecordsIn;
    var t := AfterWrite(cfg, s, n);
    var chunk := s.w.buffer[s.w.pc.done..s.w.pc.done + n];
    AppendActive(s.os, s.h, t.h, s.w.file, chunk);
    PartialGrows(s.os, s.r, s.h, t.h, s.w.file, chunk);
    hide Os.Append;
  }

  /* ---- the rotator's steps ---- */

  lemma QuietRotatorStep(cfg: Config, s: World, t: World)
    requires CopyInv(cfg, s) && t.os == s.os && t.w == s.w && t.h == s.h
    requires t.r == s.r.(
      pc := t.r.pc, source := t.r.source, size := t.r.size, stat := t.r.stat, events := t.r.events,
      polled := t.r.polled, full := t.r.full)
    requires
      || (s.r.pc.Poll? && (t.r.pc == Exited(false) || t.r.pc == s.r.pc) && t.r.source == s.r.source)
      || (s.r.pc.Poll? && RR.Attached(s) && t.r.pc.Stat? && t.r.source == s.r.source)
      || (!s.r.pc.Poll? && Before(s.r.pc) && Before(t.r.pc) && (t.r.pc.CreateBackup? ==> t.r.source == s.w.file))
      || (s.r.pc.LogSynced? && t.r.pc.TruncateActive? && t.r.source == s.r.source)
      || (s.r.pc.LogTruncate? && t.r.pc.List?)
      || (!s.r.pc.Poll? && !s.r.pc.Exited? && t.r.pc.LogFailed?)
      || (s.r.pc.LogFailed? && t.r.pc == Exited(false))
    ensures CopyInv(cfg, t)
  {
    hide InodeInv, ContentInv, Victims;
  }

  lemma CreateStep(cfg: Config, s: World)
    requires CopyInv(cfg, s) && s.r.pc.CreateBackup?
    ensures CopyInv(cfg, AfterCreateBackup(s))
  {
    hide ContentInv;
    CreateContents(s.os, s.h, s.w.file, s.r.ordinal);
  }

  lemma CopyStep(cfg: Config, s: World, n: nat)
    requires CopyInv(cfg, s) && s.r.pc.Copy? && s.r.copied + n <= |s.os.Read(s.r.source)|
    ensures CopyInv(cfg, AfterCopyChunk(s, n))
  {
    hide ContentInv;
    var active := s.os.Read(s.w.file);
    AppendTarget(s.os, s.h, s.w.file, active[s.r.copied..s.r.copied + n]);
    assert active[..s.r.copied] + active[s.r.copied..s.r.copied + n] == active[..s.r.copied + n];
  }

  lemma EndOfFileStep(cfg: Config, s: World)
    requires CopyInv(cfg, s) && s.r.pc.Copy? && AfterAdvance(cfg, s).Some?
    ensures CopyInv(cfg, AfterAdvance(cfg, s).value)
  {
    hide InodeInv, ContentInv;
    var t := AfterAdvance(cfg, s).value;
    SameContents(s.os, t.os, s.h, t.h, s.w.file);
    assert s.os.Read(s.r.target) + [] == s.os.Read(s.w.file);
  }

  lemma TruncateStep(cfg: Config, s: World)
    requires CopyInv(cfg, s) && s.r.pc.TruncateActive?
    ensures CopyInv(cfg, AfterTruncate(s))
  {
    hide InodeInv, ContentInv;
    TruncateContents(s.os, s.h, s.w.file);
  }

  lemma ListStep(cfg: Config, s: World)
    requires CopyInv(cfg, s) && s.r.pc.List?
    ensures CopyInv(cfg, AfterAdvance(cfg, s).value)
  {
    hide InodeInv, ContentInv;
    RR.VictimsAre(cfg, s.os, s.h);
  }

  lemma RemoveStep(cfg: Config, s: World)
    requires CopyInv(cfg, s) && s.r.pc.Remove?
    ensures CopyInv(cfg, AfterRemove(s))
  {
    hide InodeInv, ContentInv;
    if s.r.victims != [] {
      SameContents(s.os, AfterRemove(s).os, s.h, AfterRemove(s).h, s.w.file);
    }
  }

  lemma CompleteStep(cfg: Config, s: World)
    requires CopyInv(cfg, s) && s.r.pc.LogComplete?
    ensures CopyInv(cfg, AfterComplete(cfg, s))
  {
    hide InodeInv, ContentInv;
  }

  /* ---- every run ---- */

  lemma Pcs(cfg: Config, s: World)
    requires CopyInv(cfg, s)
    ensures Before(s.r.pc) || Copying(s.r.pc) || Concluding(s.r.pc) || RR.Ended(s.r.pc)
    ensures s.r.pc == Exited(false) || cfg.RotatorStarts()
    ensures !s.os.queued && (!s.r.pc.Poll? && !s.r.pc.Exited? ==> RR.Attached(s))
    ensures Active in s.os.names ==> RR.Attached(s)
  {
  }

  lemma AdvanceKeeps(cfg: Config, s: World)
    requires CopyInv(cfg, s) && cfg.strategy.CopyTruncate? && AfterAdvance(cfg, s).Some?
    ensures CopyInv(cfg, AfterAdvance(cfg, s).value)
  {
    hide CopyInv;
    Pcs(cfg, s);
    var pc, t := s.r.pc, AfterAdvance(cfg, s).value;
    if pc.CreateBackup? {
      CreateStep(cfg, s);
    } else if pc.Copy? {
      EndOfFileStep(cfg, s);
    } else if pc.TruncateActive? {
      TruncateStep(cfg, s);
    } else if pc.List? {
      ListStep(cfg, s);
    } else if pc.Remove? {
      RemoveStep(cfg, s);
    } else if pc.LogComplete? {
      CompleteStep(cfg, s);
    } else {
      QuietRotatorStep(cfg, s, t);
    }
  }

  lemma CopyKeeps(cfg: Config, s: World, l: Label)
    requires CopyInv(cfg, s) && cfg.strategy.CopyTruncate? && Next(cfg, s, l).Some?
    ensures CopyInv(cfg, Next(cfg, s, l).value)
  {
    hide CopyInv;
    Pcs(cfg, s);
    var t := Next(cfg, s, l).value;
    if l.Advance? {
      AdvanceKeeps(cfg, s);
    } else if l.CopyChunk? {
      CopyStep(cfg, s, l.size);
    } else if l.Fault? {
      QuietRotatorStep(cfg, s, t);
    } else if l.Open? {
      OpenStep(cfg, s, l.ok);
    } else if l.Write? {
      WriteStep(cfg, s, l.count);
    } else {
      QuietWriterStep(cfg, s, t);
    }
  }

  lemma {:induction false} CopyRun(cfg: Config, labels: seq<Label>, s: World)
    requires cfg.strategy.CopyTruncate? && Exec(cfg, Init(cfg), labels) == Some(s)
    ensures CopyInv(cfg, s)
  {
    if labels == [] {
      InitCopy(cfg);
    } else {
      hide CopyInv;
      var front := labels[..|labels| - 1];
      CopyRun(cfg, front, Exec(cfg, Init(cfg), front).value);
      CopyKeeps(cfg, Exec(cfg, Init(cfg), front).value, labels[|labels| - 1]);
    }
  }
}
