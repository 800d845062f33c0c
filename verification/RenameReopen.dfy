/** The rename-reopen rotation beside a buffering writer: the inductive invariant of every interleaving.  The
    replacement inode stays empty until the writer opens it, so the next threshold cannot be met while a reopen is
    outstanding; that is what makes the protocol synchronise itself. */
module RenameReopen {
  import opened Bytes
  import opened Ordered
  import opened Lab
  import opened WriterStream

  /* ---- where the rotator stands in one rotation ---- */

  predicate Deciding(pc: RotatorPc) {
    pc.Stat? || pc.LogThreshold? || pc.RenameActive?
  }

  predicate Unlinked(pc: RotatorPc) {
    pc.LogRename? || pc.CreateReplacement?
  }

  predicate Asking(pc: RotatorPc) {
    pc.LogCreated? || pc.Post?
  }

  predicate Closing(pc: RotatorPc) {
    pc.LogRequested? || pc.List? || pc.Remove? || pc.LogComplete?
  }

  /** The request of the last rotation, if there was one, has been accepted. */
  predicate Settled(pc: RotatorPc) {
    pc.Poll? || Closing(pc) || pc == Exited(true)
  }

  predicate Ended(pc: RotatorPc) {
    pc.LogFailed? || pc.Exited?
  }

  /* ---- where the writer's descriptor stands ---- */

  /** The writer has opened nothing yet, or never will. */
  predicate Unopened(s: World) {
    && s.os.names == map[] && !s.os.queued && s.h.made == [] && s.h.out == []
    && (s.w.pc == Opening(false) || s.w.pc == Stopped(false, 0))
    && (s.r.pc.Poll? || s.r.pc.Exited?)
  }

  /** The writer's descriptor is the active inode. */
  predicate Attached(s: World) {
    Active in s.os.names && s.os.names[Active] == s.w.file && !s.os.queued && !s.w.pc.Opening?
  }

  /** The writer's descriptor is, or last was, the newest backup; the active inode is missing or empty. */
  predicate Detached(s: World) {
    && s.h.made != [] && s.w.file == s.h.made[|s.h.made| - 1] && s.os.ReadPath(Active) == []
    && (s.os.queued || s.w.pc.Opening? ==> Active in s.os.names)
    && (s.w.pc.Opening? ==> s.w.pc.again && !s.os.queued)
  }

  /* ---- the invariant, in four parts ---- */

  /** The directory holds the active file and exactly the backups removed + 1, ..., |made|. */
  ghost predicate DirectoryInv(cfg: Config, os: Os, h: History) {
    && h.removed <= |h.made|
    && (h.removed > 0 ==> 0 < cfg.maxBackups <= |h.made| - h.removed)
    && (forall o: nat :: Backup(o) in os.names <==> h.removed < o <= |h.made|)
    && (forall o: nat :: h.removed < o <= |h.made| ==> os.names[Backup(o)] == h.made[o - 1])
  }

  /** Backups and active file are different inodes; together they hold what the writer wrote. */
  ghost predicate ContentInv(os: Os, h: History) {
    && (forall i :: 0 <= i < |h.made| ==> h.made[i] < os.next)
    && (forall i, j :: 0 <= i < j < |h.made| ==> h.made[i] != h.made[j])
    && (Active in os.names ==> os.names[Active] < os.next && os.names[Active] !in h.made)
    && Joined(os, h.made) + os.ReadPath(Active) == h.out
  }

  /** How the two processes stand to each other; once a request has been accepted, a writer that still holds the backup
      has the request before it, is reopening, or has stopped. */
  ghost predicate LinkInv(cfg: Config, s: World) {
    && (Unopened(s) || Attached(s) || Detached(s))
    && (Active !in s.os.names ==> Unopened(s) || Unlinked(s.r.pc) || Ended(s.r.pc))
    && (s.r.pc == Exited(true) ==> Active in s.os.names)
    && (Deciding(s.r.pc) ==> Attached(s) && s.os.ReadPath(Active) != [])
    && (Unlinked(s.r.pc) ==> Active !in s.os.names)
    && (Asking(s.r.pc) ==> Detached(s) && !s.os.queued && s.w.pc != Opening(true) && Active in s.os.names)
    && (Settled(s.r.pc) && Detached(s) ==> s.os.queued || s.w.pc.Opening? || s.w.pc.Stopped?)
    && (s.r.pc == Exited(false) || cfg.RotatorStarts())
  }

  ghost predicate CountInv(cfg: Config, s: World) {
    var pc, k, o := s.r.pc, |s.h.made|, s.r.ordinal;
    && (pc.Poll? || Deciding(pc) || Unlinked(pc) || Asking(pc) || Closing(pc) || Ended(pc))
    && o >= 1
    && (pc.Poll? || Deciding(pc) || pc == Exited(true) ==> k == o - 1)
    && (Unlinked(pc) || Asking(pc) || Closing(pc) ==> k == o)
    && (Ended(pc) ==> k == o - 1 || k == o)
    && (pc == Exited(true) ==> k == cfg.rotations)
    && (!pc.Exited? ==> o <= cfg.rotations)
    && s.w.reopenRequests + (if s.os.queued then 1 else 0) == s.h.accepted
    && (pc.Poll? || Deciding(pc) || Closing(pc) || pc == Exited(true) ==> s.h.accepted == k)
    && (Unlinked(pc) || Asking(pc) ==> s.h.accepted == k - 1)
    && (Ended(pc) ==> s.h.accepted == k || s.h.accepted == k - 1)
    && (pc.Remove? ==> s.r.victims == Numbers(s.h.removed, LetGo(cfg, s.h)))
    && (pc.LogComplete? || pc.Poll? || Deciding(pc) || pc == Exited(true) ==> s.h.removed == LetGo(cfg, s.h))
  }

  /** How many backups retention lets go of in all. */
  function LetGo(cfg: Config, h: History): (r: nat)
    ensures r >= h.removed
  {
    if cfg.maxBackups > 0 && |h.made| - cfg.maxBackups > h.removed then |h.made| - cfg.maxBackups else h.removed
  }

  ghost predicate RenameInv(cfg: Config, s: World) {
    DirectoryInv(cfg, s.os, s.h) && ContentInv(s.os, s.h) && LinkInv(cfg, s) && CountInv(cfg, s)
  }

  lemma InitRename(cfg: Config)
    ensures RenameInv(cfg, Init(cfg))
  {
    NothingThere(cfg, Init(cfg));
    hide DirectoryInv, ContentInv;
  }

  lemma NothingThere(cfg: Config, s: World)
    requires s.os.names == map[] && s.h.made == [] && s.h.removed == 0 && s.h.out == []
    ensures DirectoryInv(cfg, s.os, s.h) && ContentInv(s.os, s.h)
  {
  }

  /* ---- contents ---- */

  lemma {:induction false} JoinedSame(os: Os, os': Os, inodes: seq<nat>)
    requires forall i :: 0 <= i < |inodes| ==> os'.Read(inodes[i]) == os.Read(inodes[i])
    ensures Joined(os', inodes) == Joined(os, inodes)
  {
    if inodes != [] {
      JoinedSame(os, os', inodes[..|inodes| - 1]);
    }
  }

  lemma JoinedPush(os: Os, inodes: seq<nat>, inode: nat)
    ensures Joined(os, inodes + [inode]) == Joined(os, inodes) + os.Read(inode)
  {
    assert (inodes + [inode])[..|inodes|] == inodes;
  }

  lemma {:induction false} JoinedConcat(os: Os, a: seq<nat>, b: seq<nat>)
    ensures Joined(os, a + b) == Joined(os, a) + Joined(os, b)
  {
    if b == [] {
      assert a + b == a;
    } else {
      hide Joined;
      var init, last := b[..|b| - 1], b[|b| - 1];
      assert a + b == (a + init) + [last];
      JoinedPush(os, a + init, last);
      JoinedConcat(os, a, init);
      assert b == init + [last];
      JoinedPush(os, init, last);
      Regroup(Joined(os, a), Joined(os, init), os.Read(last));
    }
  }

  lemma {:induction false} JoinedAtLeast(os: Os, inodes: seq<nat>, i: nat)
    requires i < |inodes|
    ensures |Joined(os, inodes)| >= |os.Read(inodes[i])|
  {
    if i < |inodes| - 1 {
      JoinedAtLeast(os, inodes[..|inodes| - 1], i);
    }
  }

  /** Appending to the active inode appends to the whole. */
  lemma AppendActive(os: Os, h: History, h': History, chunk: seq<byte>)
    requires ContentInv(os, h) && Active in os.names
    requires h'.made == h.made && h'.out == h.out + chunk
    ensures ContentInv(os.Append(os.names[Active], chunk), h')
  {
    var os' := os.Append(os.names[Active], chunk);
    JoinedSame(os, os', h.made);
    Regroup(Joined(os, h.made), os.ReadPath(Active), chunk);
  }

  /** So does appending to the newest backup while the active inode is empty. */
  lemma AppendNewest(os: Os, h: History, h': History, chunk: seq<byte>)
    requires ContentInv(os, h) && h.made != [] && os.ReadPath(Active) == []
    requires h'.made == h.made && h'.out == h.out + chunk
    ensures ContentInv(os.Append(h.made[|h.made| - 1], chunk), h')
  {
    hide Joined;
    var os' := os.Append(h.made[|h.made| - 1], chunk);
    JoinedAppended(os, h.made, chunk);
    assert Joined(os', h.made) + os'.ReadPath(Active) == h'.out by {
      assert os'.ReadPath(Active) == [];
    }
  }

  lemma JoinedAppended(os: Os, inodes: seq<nat>, chunk: seq<byte>)
    requires inodes != [] && forall i, j :: 0 <= i < j < |inodes| ==> inodes[i] != inodes[j]
    ensures Joined(os.Append(inodes[|inodes| - 1], chunk), inodes) == Joined(os, inodes) + chunk
  {
    var init, last := inodes[..|inodes| - 1], inodes[|inodes| - 1];
    JoinedSame(os, os.Append(last, chunk), init);
    Regroup(Joined(os, init), os.Read(last), chunk);
  }

  lemma RenameContents(os: Os, h: History, o: nat)
    requires ContentInv(os, h) && Active in os.names
    ensures ContentInv(os.Rename(Active, Backup(o)), h.(made := h.made + [os.names[Active]]))
  {
    var os' := os.Rename(Active, Backup(o));
    JoinedSame(os, os', h.made);
    JoinedPush(os', h.made, os.names[Active]);
  }

  lemma CreateContents(os: Os, h: History)
    requires ContentInv(os, h) && Active !in os.names
    ensures ContentInv(os.Create(Active), h)
  {
    JoinedSame(os, os.Create(Active), h.made);
  }

  /** A change of the directory that leaves the active name and the inodes alone. */
  lemma SameContents(os: Os, os': Os, h: History, h': History)
    requires ContentInv(os, h)
    requires os'.data == os.data && os'.next == os.next && h'.made == h.made && h'.out == h.out
    requires Active in os'.names <==> Active in os.names
    requires Active in os.names ==> os'.names[Active] == os.names[Active]
    ensures ContentInv(os', h')
  {
    JoinedSame(os, os', h.made);
  }

  /* ---- the writer's steps keep the invariant ---- */

  /** Steps that change neither the files nor the writer's descriptor. */
  lemma QuietWriterStep(cfg: Config, s: World, t: World)
    requires RenameInv(cfg, s)
    requires s.w.pc.Idle? || s.w.pc.Flushing?
    requires !t.w.pc.Opening? && t.os == s.os && t.r == s.r
    requires t.h == s.h.(mark := t.h.mark, replayed := t.h.replayed)
    requires t.w.file == s.w.file && t.w.reopenRequests == s.w.reopenRequests
    ensures RenameInv(cfg, t)
  {
    hide ContentInv, DirectoryInv, LinkInv, CountInv;
    SameContents(s.os, t.os, s.h, t.h);
    SameDirectory(cfg, s.os, t.os, s.h, t.h);
    QuietWriterLink(cfg, s, t);
    SameCounts(cfg, s, t);
  }

  lemma SameDirectory(cfg: Config, os: Os, os': Os, h: History, h': History)
    requires DirectoryInv(cfg, os, h) && h'.made == h.made && h'.removed == h.removed
    requires forall o: nat :: Backup(o) in os'.names <==> Backup(o) in os.names
    requires forall o: nat :: Backup(o) in os.names ==> os'.names[Backup(o)] == os.names[Backup(o)]
    ensures DirectoryInv(cfg, os', h')
  {
  }

  lemma QuietWriterLink(cfg: Config, s: World, t: World)
    requires LinkInv(cfg, s) && (s.w.pc.Idle? || s.w.pc.Flushing?)
    requires !t.w.pc.Opening? && t.os == s.os && t.r == s.r && t.h.made == s.h.made && t.w.file == s.w.file
    ensures LinkInv(cfg, t)
  {
  }

  lemma SameCounts(cfg: Config, s: World, t: World)
    requires CountInv(cfg, s)
    requires t.r == s.r && t.h.made == s.h.made && t.h.removed == s.h.removed && t.h.accepted == s.h.accepted
    requires t.w.reopenRequests + (if t.os.queued then 1 else 0)
      == s.w.reopenRequests + (if s.os.queued then 1 else 0)
    ensures CountInv(cfg, t)
  {
  }

  lemma OpenStep(cfg: Config, s: World, ok: bool)
    requires RenameInv(cfg, s) && s.w.pc.Opening?
    ensures RenameInv(cfg, if ok then AfterOpen(s) else AfterOpenFailure(s))
  {
    hide ContentInv, DirectoryInv, LinkInv, CountInv;
    var t := if ok then AfterOpen(s) else AfterOpenFailure(s);
    if ok && Active !in s.os.names {
      CreateContents(s.os, s.h);
    } else {
      SameContents(s.os, t.os, s.h, t.h);
    }
    SameDirectory(cfg, s.os, t.os, s.h, t.h);
    OpenLink(cfg, s, ok);
    SameCounts(cfg, s, t);
  }

  lemma OpenLink(cfg: Config, s: World, ok: bool)
    requires ContentInv(s.os, s.h) && LinkInv(cfg, s) && s.w.pc.Opening?
    ensures LinkInv(cfg, if ok then AfterOpen(s) else AfterOpenFailure(s))
  {
  }

  lemma WriteStep(cfg: Config, s: World, n: nat)
    requires RenameInv(cfg, s) && WriteAllowed(cfg, s, n)
    ensures RenameInv(cfg, AfterWrite(cfg, s, n))
  {
    hide ContentInv, DirectoryInv, LinkInv, CountInv;
    var t := AfterWrite(cfg, s, n);
    var chunk := s.w.buffer[s.w.pc.done..s.w.pc.done + n];
    WriteLink(cfg, s, n);
    if Attached(s) {
      AppendActive(s.os, s.h, t.h, chunk);
    } else {
      AppendNewest(s.os, s.h, t.h, chunk);
    }
    SameDirectory(cfg, s.os, t.os, s.h, t.h);
    SameCounts(cfg, s, t);
  }

  lemma WriteLink(cfg: Config, s: World, n: nat)
    requires ContentInv(s.os, s.h) && LinkInv(cfg, s) && WriteAllowed(cfg, s, n)
    ensures Attached(s) || Detached(s)
    ensures LinkInv(cfg, AfterWrite(cfg, s, n))
  {
    if !Attached(s) {
      NewestIsNotActive(s.os, s.h);
    }
    hide ContentInv;
  }

  lemma NewestIsNotActive(os: Os, h: History)
    requires ContentInv(os, h) && h.made != []
    ensures Active in os.names ==> os.names[Active] != h.made[|h.made| - 1]
  {
  }

  lemma TakeReopenStep(cfg: Config, s: World)
    requires RenameInv(cfg, s) && s.w.pc.Idle? && s.os.queued
    ensures RenameInv(cfg, AfterTakeReopen(s))
  {
    hide ContentInv, DirectoryInv, CountInv;
    var t := AfterTakeReopen(s);
    SameContents(s.os, t.os, s.h, t.h);
    SameDirectory(cfg, s.os, t.os, s.h, t.h);
    SameCounts(cfg, s, t);
  }

  /* ---- the rotator's steps keep the invariant ---- */

  /** Steps that only move the rotator on or log an event. */
  lemma QuietRotatorStep(cfg: Config, s: World, t: World)
    requires RenameInv(cfg, s) && t.os == s.os && t.w == s.w && t.h == s.h && t.r.ordinal == s.r.ordinal
    requires
      || (s.r.pc.Poll? && (t.r.pc == Exited(false) || t.r.pc == s.r.pc))
      || (s.r.pc.Poll? && t.r.pc.Stat? && s.os.ReadPath(Active) != [])
      || (Deciding(s.r.pc) && Deciding(t.r.pc))
      || (Unlinked(s.r.pc) && Unlinked(t.r.pc))
      || (Asking(s.r.pc) && Asking(t.r.pc))
      || (s.r.pc.LogRequested? && t.r.pc.List?)
      || (!s.r.pc.Poll? && !s.r.pc.Exited? && t.r.pc.LogFailed?)
      || (s.r.pc.LogFailed? && t.r.pc == Exited(false))
    ensures RenameInv(cfg, t)
  {
    hide Joined, ContentInv;
    if s.r.pc.Poll? && t.r.pc.Stat? {
      NonemptyMeansAttached(cfg, s);
    }
  }

  /** A non-empty active file is the one the writer has open, with no reopen outstanding. */
  lemma NonemptyMeansAttached(cfg: Config, s: World)
    requires RenameInv(cfg, s) && s.os.ReadPath(Active) != []
    ensures Attached(s)
  {
  }

  lemma RenameStep(cfg: Config, s: World)
    requires RenameInv(cfg, s) && s.r.pc.RenameActive?
    ensures RenameInv(cfg, AfterRename(s))
  {
    hide Joined, ContentInv;
    RenameContents(s.os, s.h, s.r.ordinal);
  }

  lemma CreateStep(cfg: Config, s: World)
    requires RenameInv(cfg, s) && s.r.pc.CreateReplacement?
    ensures Active !in s.os.names
    ensures RenameInv(cfg, AfterAdvance(cfg, s).value)
  {
    hide Joined, ContentInv;
    CreateContents(s.os, s.h);
  }

  lemma DeliverStep(cfg: Config, s: World, arrives: bool, answered: bool)
    requires RenameInv(cfg, s) && s.r.pc.Post?
    ensures RenameInv(cfg, AfterDeliver(s, arrives, answered))
  {
    hide Joined, ContentInv;
    SameContents(s.os, AfterDeliver(s, arrives, answered).os, s.h, AfterDeliver(s, arrives, answered).h);
  }

  lemma ListStep(cfg: Config, s: World)
    requires RenameInv(cfg, s) && s.r.pc.List?
    ensures RenameInv(cfg, AfterAdvance(cfg, s).value)
  {
    hide ContentInv, DirectoryInv, LinkInv, Victims;
    VictimsAre(cfg, s.os, s.h);
    ListLink(cfg, s);
  }

  lemma ListLink(cfg: Config, s: World)
    requires LinkInv(cfg, s) && s.r.pc.List?
    ensures LinkInv(cfg, AfterAdvance(cfg, s).value)
  {
    hide Victims;
  }

  lemma OrdinalsAre(cfg: Config, os: Os, h: History)
    requires DirectoryInv(cfg, os, h)
    ensures Ascending(os.Ordinals()) == Numbers(h.removed, |h.made|)
    ensures forall o: nat :: o in os.Ordinals() <==> h.removed < o <= |h.made|
  {
    hide Ascending;
    forall o: nat
      ensures o in os.Ordinals() <==> h.removed < o <= |h.made|
    {
      assert Backup(o) in os.names <==> h.removed < o <= |h.made|;
      if o in os.Ordinals() {
        var p :| p in os.names && p.Backup? && p.ordinal == o;
        assert p == Backup(o);
      }
    }
    AscendingInterval(os.Ordinals(), h.removed, |h.made|);
  }

  /** Retention picks the oldest backups beyond maxBackups, in ascending order. */
  lemma VictimsAre(cfg: Config, os: Os, h: History)
    requires DirectoryInv(cfg, os, h)
    ensures Victims(cfg, os) == Numbers(h.removed, LetGo(cfg, h))
  {
    hide Ascending, Os.Ordinals;
    OrdinalsAre(cfg, os, h);
    var listed := Numbers(h.removed, |h.made|);
    assert listed[..LetGo(cfg, h) - h.removed] == Numbers(h.removed, LetGo(cfg, h));
  }

  lemma RemoveStep(cfg: Config, s: World)
    requires RenameInv(cfg, s) && s.r.pc.Remove?
    ensures RenameInv(cfg, AfterRemove(s))
  {
    hide Joined, ContentInv;
    var t := AfterRemove(s);
    if s.r.victims != [] {
      SameContents(s.os, t.os, s.h, t.h);
    }
  }

  lemma CompleteStep(cfg: Config, s: World)
    requires RenameInv(cfg, s) && s.r.pc.LogComplete?
    ensures RenameInv(cfg, AfterComplete(cfg, s))
  {
    hide Joined, ContentInv;
  }

  /* ---- every run ---- */

  lemma WriterKeeps(cfg: Config, s: World, l: Label)
    requires RenameInv(cfg, s) && Next(cfg, s, l).Some? && !RotatorLabel(l)
    ensures RenameInv(cfg, Next(cfg, s, l).value)
  {
    hide RenameInv;
    var t := Next(cfg, s, l).value;
    if l.Open? {
      OpenStep(cfg, s, l.ok);
    } else if l.Write? {
      WriteStep(cfg, s, l.count);
    } else if l.TakeReopen? {
      TakeReopenStep(cfg, s);
    } else {
      QuietWriterStep(cfg, s, t);
    }
  }

  lemma RotatorKeeps(cfg: Config, s: World, l: Label)
    requires RenameInv(cfg, s) && cfg.strategy.RenameReopen? && Next(cfg, s, l).Some? && RotatorLabel(l)
    ensures RenameInv(cfg, Next(cfg, s, l).value)
  {
    hide RenameInv;
    RotatorPcs(cfg, s);
    var t := Next(cfg, s, l).value;
    if l.Advance? {
      AdvanceKeeps(cfg, s);
    } else if l.Deliver? {
      DeliverStep(cfg, s, l.arrives, l.answered);
    } else {
      QuietRotatorStep(cfg, s, t);
    }
  }

  lemma RotatorPcs(cfg: Config, s: World)
    requires RenameInv(cfg, s)
    ensures var pc := s.r.pc;
      pc.Poll? || Deciding(pc) || Unlinked(pc) || Asking(pc) || Closing(pc) || Ended(pc)
    ensures s.r.pc.Exited? || cfg.RotatorStarts()
    ensures s.r.pc.CreateReplacement? ==> Active !in s.os.names
  {
  }

  lemma AdvanceKeeps(cfg: Config, s: World)
    requires RenameInv(cfg, s) && cfg.strategy.RenameReopen? && AfterAdvance(cfg, s).Some?
    ensures RenameInv(cfg, AfterAdvance(cfg, s).value)
  {
    hide RenameInv;
    RotatorPcs(cfg, s);
    var pc, t := s.r.pc, AfterAdvance(cfg, s).value;
    if pc.RenameActive? {
      RenameStep(cfg, s);
    } else if pc.CreateReplacement? {
      CreateStep(cfg, s);
    } else if pc.List? {
      ListStep(cfg, s);
    } else if pc.Remove? {
      RemoveStep(cfg, s);
    } else if pc.LogComplete? {
      CompleteStep(cfg, s);
    } else {
      QuietRotatorStep(cfg, s, t);
    }
  }

  lemma {:induction false} RenameRun(cfg: Config, labels: seq<Label>, s: World)
    requires cfg.strategy.RenameReopen? && Exec(cfg, Init(cfg), labels) == Some(s)
    ensures RenameInv(cfg, s)
  {
    if labels == [] {
      InitRename(cfg);
    } else {
      hide RenameInv;
      var front, l := labels[..|labels| - 1], labels[|labels| - 1];
      var m := Exec(cfg, Init(cfg), front).value;
      RenameRun(cfg, front, m);
      if RotatorLabel(l) {
        RotatorKeeps(cfg, m, l);
      } else {
        WriterKeeps(cfg, m, l);
      }
    }
  }
}
