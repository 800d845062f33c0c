/** What the rename-reopen invariant means for the files on disk. */
module RenameResults {
  import opened Bytes
  import opened Ordered
  import opened Lab
  import opened WriterStream
  import opened RenameReopen

  /* ---- the log as a reader of the directory sees it ---- */

  predicate Listed(os: Os, ordinals: seq<nat>) {
    forall i :: 0 <= i < |ordinals| ==> Backup(ordinals[i]) in os.names
  }

  function BackupInodes(os: Os, ordinals: seq<nat>): seq<nat>
    requires Listed(os, ordinals)
  {
    seq(|ordinals|, i requires 0 <= i < |ordinals| => os.names[Backup(ordinals[i])])
  }

  /** The backups still in the directory, oldest first, then the active file. */
  function LogBytes(os: Os): seq<byte> {
    ListedExist(os);
    Joined(os, BackupInodes(os, Ascending(os.Ordinals()))) + os.ReadPath(Active)
  }

  lemma ListedExist(os: Os)
    ensures Listed(os, Ascending(os.Ordinals()))
  {
    forall o | o in os.Ordinals() ensures Backup(o) in os.names {
      var p :| p in os.names && p.Backup? && p.ordinal == o;
      assert p == Backup(o);
    }
  }

  ghost predicate IsSuffix(tail: seq<byte>, whole: seq<byte>) {
    |tail| <= |whole| && whole[|whole| - |tail|..] == tail
  }

  lemma LogIsWhatWentOut(cfg: Config, s: World)
    requires RenameInv(cfg, s)
    ensures s.h.removed <= |s.h.made|
    ensures s.h.out == Joined(s.os, s.h.made[..s.h.removed]) + LogBytes(s.os)
    ensures cfg.maxBackups <= 0 ==> LogBytes(s.os) == s.h.out
  {
    hide Joined, LinkInv, CountInv, Ascending, BackupInodes;
    var gone, kept := s.h.made[..s.h.removed], s.h.made[s.h.removed..];
    KeptInodes(cfg, s.os, s.h);
    assert s.h.made == gone + kept;
    JoinedConcat(s.os, gone, kept);
    Regroup(Joined(s.os, gone), Joined(s.os, kept), s.os.ReadPath(Active));
    if cfg.maxBackups <= 0 {
      JoinedNothing(s.os, gone);
    }
  }

  lemma KeptInodes(cfg: Config, os: Os, h: History)
    requires DirectoryInv(cfg, os, h)
    ensures Listed(os, Ascending(os.Ordinals()))
    ensures BackupInodes(os, Ascending(os.Ordinals())) == h.made[h.removed..]
  {
    hide Ascending;
    OrdinalsAre(cfg, os, h);
    ListedExist(os);
  }

  lemma JoinedNothing(os: Os, inodes: seq<nat>)
    requires inodes == []
    ensures Joined(os, inodes) == []
  {
  }

  /** Conservation.  For every interleaving, fault and stop: with every backup kept, the backups in ordinal order, the
      active file and the unwritten tail of the buffer are together the generated records, none lost, repeated or out
      of order, exactly when the writer never replayed a partly written flush. */
  lemma StreamConserved(cfg: Config, labels: seq<Label>, s: World)
    requires cfg.strategy.RenameReopen? && cfg.maxBackups <= 0
    requires Exec(cfg, Init(cfg), labels) == Some(s)
    ensures LogBytes(s.os) + s.w.Pending() == Stream(cfg, 0, s.w.generated) <==> !EverReplays(cfg, labels)
  {
    hide *;
    RenameRun(cfg, labels, s);
    LogIsWhatWentOut(cfg, s);
    StreamConservedExactly(cfg, labels, s);
  }

  /** Once the writer has exited without an error, the files alone are all the records. */
  lemma CleanLog(cfg: Config, labels: seq<Label>, s: World)
    requires Exec(cfg, Init(cfg), labels) == Some(s) && s.w.pc.Stopped? && s.w.pc.ok
    ensures cfg.strategy.RenameReopen? && cfg.maxBackups <= 0 ==> LogBytes(s.os) == Stream(cfg, 0, s.w.generated)
  {
    hide *;
    if cfg.strategy.RenameReopen? {
      RenameRun(cfg, labels, s);
      LogIsWhatWentOut(cfg, s);
      CleanStop(cfg, labels, s);
    }
  }

  /** With retention the surviving log is a suffix of the generated records: only whole oldest backups are missing. */
  lemma SurvivorsAreSuffix(cfg: Config, labels: seq<Label>, s: World)
    requires cfg.strategy.RenameReopen? && !EverReplays(cfg, labels)
    requires Exec(cfg, Init(cfg), labels) == Some(s)
    ensures IsSuffix(LogBytes(s.os) + s.w.Pending(), Stream(cfg, 0, s.w.generated))
  {
    hide Exec, EverReplays, ContentInv, LinkInv, CountInv, LogBytes, Stream, Joined;
    RenameRun(cfg, labels, s);
    LogIsWhatWentOut(cfg, s);
    StreamConservedExactly(cfg, labels, s);
    var gone := Joined(s.os, s.h.made[..s.h.removed]);
    Regroup(gone, LogBytes(s.os), s.w.Pending());
  }

  /** The protocol synchronises itself.  Whenever a rotation is past the threshold no reopen is outstanding and the
      writer holds the active inode; the rename overwrites nothing; the exclusive create never meets an existing file;
      the reopen request never meets a full slot. */
  lemma SelfSynchronising(cfg: Config, labels: seq<Label>, s: World)
    requires cfg.strategy.RenameReopen? && Exec(cfg, Init(cfg), labels) == Some(s)
    ensures Deciding(s.r.pc) ==>
      && !s.os.queued && !s.w.pc.Opening?
      && Active in s.os.names && s.os.names[Active] == s.w.file
      && Backup(s.r.ordinal) !in s.os.names
    ensures s.r.pc.CreateReplacement? ==> Active !in s.os.names
    ensures s.r.pc.Post? ==> !s.os.queued
  {
    RenameRun(cfg, labels, s);
  }

  /** Every accepted request is either taken by the writer or still in the slot, so once all rotations are done the
      writer has reopened as often as there were rotations exactly when the slot is empty. */
  lemma ReopensAccountedFor(cfg: Config, labels: seq<Label>, s: World)
    requires cfg.strategy.RenameReopen? && Exec(cfg, Init(cfg), labels) == Some(s)
    ensures s.w.reopenRequests + (if s.os.queued then 1 else 0) == s.h.accepted
    ensures s.r.pc == Exited(true) ==>
      && s.h.accepted == cfg.rotations && s.w.reopenRequests <= cfg.rotations
      && (s.w.reopenRequests >= cfg.rotations <==> !s.os.queued)
  {
    RenameRun(cfg, labels, s);
  }

  /** Retention never unlinks the inode the writer has open, and a completed rotation leaves exactly the newest
      maxBackups backups. */
  lemma RetentionIsSafe(cfg: Config, labels: seq<Label>, s: World)
    requires cfg.strategy.RenameReopen? && Exec(cfg, Init(cfg), labels) == Some(s)
    ensures s.r.pc.Remove? && s.r.victims != [] ==>
      && Backup(s.r.victims[0]) in s.os.names
      && s.os.names[Backup(s.r.victims[0])] != s.w.file
    ensures s.r.pc.LogComplete? && cfg.maxBackups > 0 ==>
      forall o: nat :: Backup(o) in s.os.names <==> s.r.ordinal - cfg.maxBackups < o <= s.r.ordinal && o >= 1
  {
    RenameRun(cfg, labels, s);
    RetentionInv(cfg, s);
  }

  lemma RetentionInv(cfg: Config, s: World)
    requires RenameInv(cfg, s)
    ensures s.r.pc.Remove? && s.r.victims != [] ==>
      && Backup(s.r.victims[0]) in s.os.names
      && s.os.names[Backup(s.r.victims[0])] != s.w.file
    ensures s.r.pc.LogComplete? && cfg.maxBackups > 0 ==>
      forall o: nat :: Backup(o) in s.os.names <==> s.r.ordinal - cfg.maxBackups < o <= s.r.ordinal && o >= 1
  {
    hide Joined;
    if s.r.pc.Remove? && s.r.victims != [] {
      var v := s.r.victims[0];
      assert v == s.h.removed + 1 && v < |s.h.made|;
      assert s.os.names[Backup(v)] == s.h.made[v - 1];
    }
  }
}
