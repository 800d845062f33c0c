/** Every finished backup is at least as large as the threshold: the file only grows between the decision to rotate and
    the rename or the end of the copy, and afterwards a backup never shrinks. */
module FullBackups {
  import opened Bytes
  import opened Lab
  import opened WriterStream
  import opened RenameReopen
  import CT = CopyTruncate

  ghost predicate FullInv(cfg: Config, s: World) {
    && (Deciding(s.r.pc) ==> |s.os.ReadPath(Active)| >= cfg.maxFileBytes)
    && forall i :: 0 <= i < |s.h.made| ==> |s.os.Read(s.h.made[i])| >= cfg.maxFileBytes
  }

  lemma WriterKeepsFull(cfg: Config, s: World, l: Label)
    requires FullInv(cfg, s) && RenameInv(cfg, s) && Next(cfg, s, l).Some? && !RotatorLabel(l)
    ensures FullInv(cfg, Next(cfg, s, l).value)
  {
    hide FullInv, RenameInv, AfterAdvance, Stream, RecordsIn;
    var t := Next(cfg, s, l).value;
    if l.Write? {
      AppendKeepsFull(cfg, s, t, s.w.buffer[s.w.pc.done..s.w.pc.done + l.count]);
    } else if l.Open? && l.ok {
      OpenKeepsFull(cfg, s);
    } else {
      QuietKeepsFull(cfg, s, t);
    }
  }

  lemma AppendKeepsFull(cfg: Config, s: World, t: World, chunk: seq<byte>)
    requires FullInv(cfg, s) && t.r == s.r && t.h.made == s.h.made && t.os == s.os.Append(s.w.file, chunk)
    ensures FullInv(cfg, t)
  {
    assert forall inode :: |t.os.Read(inode)| >= |s.os.Read(inode)|;
    hide Os.Append, Os.Read;
  }

  lemma OpenKeepsFull(cfg: Config, s: World)
    requires FullInv(cfg, s) && RenameInv(cfg, s) && s.w.pc.Opening?
    ensures FullInv(cfg, AfterOpen(s))
  {
    hide DirectoryInv, CountInv, Joined;
    var t := AfterOpen(s);
    assert forall i :: 0 <= i < |s.h.made| ==> t.os.Read(s.h.made[i]) == s.os.Read(s.h.made[i]);
  }

  lemma RotatorKeepsFull(cfg: Config, s: World, l: Label)
    requires FullInv(cfg, s) && RenameInv(cfg, s) && cfg.strategy.RenameReopen?
    requires Next(cfg, s, l).Some? && RotatorLabel(l)
    ensures FullInv(cfg, Next(cfg, s, l).value)
  {
    hide FullInv, RenameInv, AfterAdvance;
    RotatorPcs(cfg, s);
    if l.Advance? {
      AdvanceKeepsFull(cfg, s);
    } else {
      QuietKeepsFull(cfg, s, Next(cfg, s, l).value);
    }
  }

  lemma AdvanceKeepsFull(cfg: Config, s: World)
    requires FullInv(cfg, s) && RenameInv(cfg, s) && cfg.strategy.RenameReopen? && AfterAdvance(cfg, s).Some?
    ensures FullInv(cfg, AfterAdvance(cfg, s).value)
  {
    hide FullInv, RenameInv;
    RotatorPcs(cfg, s);
    if s.r.pc.Poll? {
      PollKeepsFull(cfg, s);
    } else if s.r.pc.RenameActive? {
      RenameKeepsFull(cfg, s);
    } else if s.r.pc.CreateReplacement? {
      CreateKeepsFull(cfg, s);
    } else {
      PlainAdvance(cfg, s);
      SameActive(cfg, s);
      QuietKeepsFull(cfg, s, AfterAdvance(cfg, s).value);
    }
  }

  lemma SameActive(cfg: Config, s: World)
    requires Plain(s.r.pc) && !s.r.pc.Poll? && AfterAdvance(cfg, s).Some?
    ensures var t := AfterAdvance(cfg, s).value;
      Deciding(t.r.pc) ==> Deciding(s.r.pc) && t.os == s.os
  {
    hide Victims;
  }

  /** Steps that change no inode and enter no decision. */
  lemma QuietKeepsFull(cfg: Config, s: World, t: World)
    requires FullInv(cfg, s) && t.os.data == s.os.data && t.h.made == s.h.made
    requires Deciding(t.r.pc) ==> Deciding(s.r.pc) && t.os.names == s.os.names
    ensures FullInv(cfg, t)
  {
  }

  lemma PollKeepsFull(cfg: Config, s: World)
    requires FullInv(cfg, s) && s.r.pc.Poll?
    ensures FullInv(cfg, AfterPoll(cfg, s))
  {
  }

  lemma RenameKeepsFull(cfg: Config, s: World)
    requires FullInv(cfg, s) && s.r.pc.RenameActive?
    ensures FullInv(cfg, AfterRename(s))
  {
  }

  lemma CreateKeepsFull(cfg: Config, s: World)
    requires FullInv(cfg, s) && RenameInv(cfg, s) && s.r.pc.CreateReplacement?
    ensures FullInv(cfg, AfterAdvance(cfg, s).value)
  {
    hide DirectoryInv, CountInv, Joined;
    var t := AfterAdvance(cfg, s).value;
    assert forall i :: 0 <= i < |s.h.made| ==> t.os.Read(s.h.made[i]) == s.os.Read(s.h.made[i]);
  }

  lemma {:induction false} FullRun(cfg: Config, labels: seq<Label>, s: World)
    requires cfg.strategy.RenameReopen? && Exec(cfg, Init(cfg), labels) == Some(s)
    ensures FullInv(cfg, s)
  {
    if labels != [] {
      hide FullInv, RenameInv;
      var front, l := labels[..|labels| - 1], labels[|labels| - 1];
      var m := Exec(cfg, Init(cfg), front).value;
      FullRun(cfg, front, m);
      RenameRun(cfg, front, m);
      if RotatorLabel(l) {
        RotatorKeepsFull(cfg, m, l);
      } else {
        WriterKeepsFull(cfg, m, l);
      }
    }
  }

  /** In every reachable state each backup in the directory holds at least MaxFileBytes bytes. */
  lemma BackupsAreFull(cfg: Config, labels: seq<Label>, s: World, o: nat)
    requires cfg.strategy.RenameReopen? && Exec(cfg, Init(cfg), labels) == Some(s) && Backup(o) in s.os.names
    ensures |s.os.ReadPath(Backup(o))| >= cfg.maxFileBytes
  {
    hide *;
    FullRun(cfg, labels, s);
    RenameRun(cfg, labels, s);
    BackupInode(cfg, s, o);
  }

  lemma BackupInode(cfg: Config, s: World, o: nat)
    requires FullInv(cfg, s) && RenameInv(cfg, s) && Backup(o) in s.os.names
    ensures |s.os.ReadPath(Backup(o))| >= cfg.maxFileBytes
  {
    hide ContentInv, LinkInv, CountInv;
    assert s.os.names[Backup(o)] == s.h.made[o - 1];
  }

  /* ---- copytruncate ---- */

  predicate Decided(pc: RotatorPc) {
    (CT.Before(pc) && !pc.Poll?) || CT.Copying(pc)
  }

  ghost predicate CopyFullInv(cfg: Config, s: World) {
    && (Decided(s.r.pc) ==> |s.os.ReadPath(Active)| >= cfg.maxFileBytes)
    && (InWindow(s.r) ==> |s.os.Read(s.r.target)| >= cfg.maxFileBytes)
    && forall i :: 0 <= i < |s.h.windows| && i < |s.h.made| ==> |s.os.Read(s.h.made[i])| >= cfg.maxFileBytes
  }

  lemma CopyStepKeepsFull(cfg: Config, s: World, l: Label)
    requires CopyFullInv(cfg, s) && CT.CopyInv(cfg, s) && cfg.strategy.CopyTruncate? && Next(cfg, s, l).Some?
    ensures CopyFullInv(cfg, Next(cfg, s, l).value)
  {
    hide CopyFullInv, CT.CopyInv, Grows, AfterAdvance, Stream, RecordsIn;
    CT.Pcs(cfg, s);
    if l.Advance? {
      CopyAdvanceKeepsFull(cfg, s);
    } else {
      if RotatorLabel(l) {
        RotatorGrows(cfg, s, l);
      } else {
        WriterGrows(cfg, s, l);
      }
      GrowthKeepsFull(cfg, s, Next(cfg, s, l).value);
    }
  }

  /** Nothing shrinks, the active name stays where it is, and no decision is entered. */
  ghost predicate Grows(s: World, t: World) {
    && t.h.made == s.h.made && t.h.windows == s.h.windows
    && (Decided(t.r.pc) ==> Decided(s.r.pc)) && (InWindow(t.r) ==> InWindow(s.r)) && t.r.target == s.r.target
    && (Active in s.os.names ==> Active in t.os.names && t.os.names[Active] == s.os.names[Active])
    && forall inode: nat :: inode < s.os.next ==> |t.os.Read(inode)| >= |s.os.Read(inode)|
  }

  /** So it is for every step outside the rotator's own. */
  lemma WriterGrows(cfg: Config, s: World, l: Label)
    requires Next(cfg, s, l).Some? && !RotatorLabel(l)
    ensures Grows(s, Next(cfg, s, l).value)
  {
    hide AfterAdvance, Grows, Stream, RecordsIn;
    var t := Next(cfg, s, l).value;
    if l.Write? {
      AppendGrows(s, t, s.w.file, s.w.buffer[s.w.pc.done..s.w.pc.done + l.count]);
    } else if l.Open? && l.ok {
      OpenGrows(cfg, s);
    } else {
      QuietGrows(s, t);
    }
  }

  lemma RotatorGrows(cfg: Config, s: World, l: Label)
    requires CT.CopyInv(cfg, s) && Next(cfg, s, l).Some? && RotatorLabel(l) && !l.Advance?
    ensures Grows(s, Next(cfg, s, l).value)
  {
    CT.Pcs(cfg, s);
    hide CT.CopyInv, Grows, AfterAdvance, AfterCopyChunk, AfterFault, AfterDeliver;
    if l.CopyChunk? {
      ChunkGrows(s, l.size);
    } else {
      FaultGrows(s);
    }
  }

  lemma ChunkGrows(s: World, n: nat)
    requires s.r.copied + n <= |s.os.Read(s.r.source)|
    ensures Grows(s, AfterCopyChunk(s, n))
  {
    AppendGrows(s, AfterCopyChunk(s, n), s.r.target, s.os.Read(s.r.source)[s.r.copied..s.r.copied + n]);
  }

  lemma FaultGrows(s: World)
    requires AfterFault(s).Some?
    ensures Grows(s, AfterFault(s).value)
  {
    QuietGrows(s, AfterFault(s).value);
  }

  lemma AppendGrows(s: World, t: World, inode: nat, bytes: seq<byte>)
    requires t.os == s.os.Append(inode, bytes) && t.h.made == s.h.made && t.h.windows == s.h.windows
    requires t.r.pc == s.r.pc && t.r.target == s.r.target
    ensures Grows(s, t)
  {
  }

  lemma OpenGrows(cfg: Config, s: World)
    requires s.w.pc.Opening?
    ensures Grows(s, AfterOpen(s))
  {
  }

  lemma QuietGrows(s: World, t: World)
    requires t.os.data == s.os.data && t.h.made == s.h.made && t.h.windows == s.h.windows
    requires t.os.names == s.os.names && t.r.target == s.r.target && (Decided(t.r.pc) ==> t.r.pc == s.r.pc)
    requires InWindow(t.r) ==> InWindow(s.r)
    ensures Grows(s, t)
  {
  }

  lemma CopyInodes(cfg: Config, s: World)
    requires CT.CopyInv(cfg, s)
    ensures Active in s.os.names ==> s.os.names[Active] < s.os.next
    ensures forall i :: 0 <= i < |s.h.made| ==> s.h.made[i] < s.os.next
    ensures CT.Copying(s.r.pc) ==> s.r.target < s.os.next
  {
    hide CT.ContentInv, DirectoryInv;
  }

  lemma GrowthKeepsFull(cfg: Config, s: World, t: World)
    requires CopyFullInv(cfg, s) && CT.CopyInv(cfg, s) && Grows(s, t)
    ensures CopyFullInv(cfg, t)
  {
    CopyInodes(cfg, s);
    hide Os.Read, CT.CopyInv;
  }

  lemma CopyAdvanceKeepsFull(cfg: Config, s: World)
    requires CopyFullInv(cfg, s) && CT.CopyInv(cfg, s) && cfg.strategy.CopyTruncate? && AfterAdvance(cfg, s).Some?
    ensures CopyFullInv(cfg, AfterAdvance(cfg, s).value)
  {
    hide CopyFullInv, CT.CopyInv;
    CT.Pcs(cfg, s);
    if s.r.pc.Poll? {
      CopyPollKeepsFull(cfg, s);
    } else if s.r.pc.Copy? {
      EndOfFileKeepsFull(cfg, s);
    } else if s.r.pc.TruncateActive? {
      TruncateKeepsFull(cfg, s);
    } else if s.r.pc.CreateBackup? {
      CreateBackupKeepsFull(cfg, s);
    } else {
      OthersKeepFull(cfg, s);
    }
  }

  lemma CopyPollKeepsFull(cfg: Config, s: World)
    requires CopyFullInv(cfg, s) && s.r.pc.Poll?
    ensures CopyFullInv(cfg, AfterPoll(cfg, s))
  {
  }

  lemma EndOfFileKeepsFull(cfg: Config, s: World)
    requires CopyFullInv(cfg, s) && CT.CopyInv(cfg, s) && s.r.pc.Copy? && AfterAdvance(cfg, s).Some?
    ensures CopyFullInv(cfg, AfterAdvance(cfg, s).value)
  {
    hide CT.ContentInv, CT.InodeInv, DirectoryInv;
  }

  lemma TruncateKeepsFull(cfg: Config, s: World)
    requires CopyFullInv(cfg, s) && CT.CopyInv(cfg, s) && s.r.pc.TruncateActive?
    ensures CopyFullInv(cfg, AfterTruncate(s))
  {
    hide CT.ContentInv, DirectoryInv;
  }

  lemma CreateBackupKeepsFull(cfg: Config, s: World)
    requires CopyFullInv(cfg, s) && CT.CopyInv(cfg, s) && s.r.pc.CreateBackup?
    ensures CopyFullInv(cfg, AfterCreateBackup(s))
  {
    hide CT.ContentInv, DirectoryInv;
  }

  lemma OthersKeepFull(cfg: Config, s: World)
    requires CopyFullInv(cfg, s) && cfg.strategy.CopyTruncate? && AfterAdvance(cfg, s).Some?
    requires CT.Before(s.r.pc) || CT.Copying(s.r.pc) || CT.Concluding(s.r.pc) || Ended(s.r.pc)
    requires !s.r.pc.Poll? && !s.r.pc.Copy? && !s.r.pc.TruncateActive? && !s.r.pc.CreateBackup?
    ensures CopyFullInv(cfg, AfterAdvance(cfg, s).value)
  {
    OthersLeaveFiles(cfg, s);
    hide AfterAdvance, CT.Before, CT.Copying;
  }

  lemma OthersLeaveFiles(cfg: Config, s: World)
    requires cfg.strategy.CopyTruncate? && AfterAdvance(cfg, s).Some?
    requires CT.Before(s.r.pc) || CT.Copying(s.r.pc) || CT.Concluding(s.r.pc) || Ended(s.r.pc)
    requires !s.r.pc.Poll? && !s.r.pc.Copy? && !s.r.pc.TruncateActive? && !s.r.pc.CreateBackup?
    ensures var t := AfterAdvance(cfg, s).value;
      && t.os.data == s.os.data && t.h.made == s.h.made && t.h.windows == s.h.windows && t.r.target == s.r.target
      && (Decided(t.r.pc) ==> Decided(s.r.pc) && t.os.names == s.os.names) && (InWindow(t.r) ==> InWindow(s.r))
  {
    hide Victims;
  }

  lemma {:induction false} CopyFullRun(cfg: Config, labels: seq<Label>, s: World)
    requires cfg.strategy.CopyTruncate? && Exec(cfg, Init(cfg), labels) == Some(s)
    ensures CopyFullInv(cfg, s)
  {
    if labels != [] {
      hide CopyFullInv, CT.CopyInv;
      var front := labels[..|labels| - 1];
      CopyFullRun(cfg, front, Exec(cfg, Init(cfg), front).value);
      CT.CopyRun(cfg, front, Exec(cfg, Init(cfg), front).value);
      CopyStepKeepsFull(cfg, Exec(cfg, Init(cfg), front).value, labels[|labels| - 1]);
    }
  }

  /** Under copytruncate the same holds of every backup whose truncate has happened. */
  lemma FinishedCopiesAreFull(cfg: Config, labels: seq<Label>, s: World, o: nat)
    requires cfg.strategy.CopyTruncate? && Exec(cfg, Init(cfg), labels) == Some(s)
    requires Backup(o) in s.os.names && o <= |s.h.windows|
    ensures |s.os.ReadPath(Backup(o))| >= cfg.maxFileBytes
  {
    hide *;
    CopyFullRun(cfg, labels, s);
    CT.CopyRun(cfg, labels, s);
    CopyInode(cfg, s, o);
  }

  lemma CopyInode(cfg: Config, s: World, o: nat)
    requires CopyFullInv(cfg, s) && CT.CopyInv(cfg, s) && Backup(o) in s.os.names && o <= |s.h.windows|
    ensures |s.os.ReadPath(Backup(o))| >= cfg.maxFileBytes
  {
    hide CT.ContentInv, CT.PartialInv, CT.InodeInv;
    assert s.os.names[Backup(o)] == s.h.made[o - 1];
  }
}
