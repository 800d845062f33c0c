/** What copytruncate loses: exactly the bytes written between the end of a copy and its truncate. */
module CopyResults {
  import opened Bytes
  import opened Lab
  import opened WriterStream
  import opened CopyTruncate
  import opened Boundaries
  import RR = RenameReopen

  /* ---- losing exactly the windows ---- */

  /** Backup 1, window 1, backup 2, window 2, ..., read through the directory. */
  function BackupsAndWindows(os: Os, windows: seq<seq<byte>>): seq<byte> {
    var t := |windows|;
    if t == 0 then [] else BackupsAndWindows(os, windows[..t - 1]) + os.ReadPath(Backup(t)) + windows[t - 1]
  }

  lemma {:induction false} WovenByName(os: Os, h: History, t: nat)
    requires t <= |h.windows| <= |h.made|
    requires forall o: nat :: 0 < o <= |h.made| ==> Backup(o) in os.names && os.names[Backup(o)] == h.made[o - 1]
    ensures Woven(os, h.made, h.windows[..t]) == BackupsAndWindows(os, h.windows[..t])
  {
    if t > 0 {
      WovenByName(os, h, t - 1);
      assert h.windows[..t][..t - 1] == h.windows[..t - 1];
      assert os.ReadPath(Backup(t)) == os.Read(h.made[t - 1]);
    }
  }

  /** For every interleaving with every backup kept: the bytes ever written are backup 1, window 1, ..., backup t,
      window t and the active file, one window for each truncate that happened. */
  lemma LosesExactlyTheWindows(cfg: Config, labels: seq<Label>, s: World)
    requires cfg.strategy.CopyTruncate? && cfg.maxBackups <= 0
    requires Exec(cfg, Init(cfg), labels) == Some(s)
    ensures s.h.out == BackupsAndWindows(s.os, s.h.windows) + s.os.ReadPath(Active)
  {
    CopyRun(cfg, labels, s);
    WrittenByName(cfg, s);
  }

  lemma WrittenByName(cfg: Config, s: World)
    requires CopyInv(cfg, s) && s.h.removed == 0
    ensures s.h.out == BackupsAndWindows(s.os, s.h.windows) + s.os.ReadPath(Active)
  {
    if RR.Attached(s) {
      hide CountInv, PartialInv, InodeInv, Woven, BackupsAndWindows;
      WovenByName(s.os, s.h, |s.h.windows|);
      assert s.h.windows[..|s.h.windows|] == s.h.windows;
    }
  }

  /** While a copy runs its backup is always a prefix of the active file. */
  lemma PartialBackupIsPrefix(cfg: Config, labels: seq<Label>, s: World)
    requires cfg.strategy.CopyTruncate? && Exec(cfg, Init(cfg), labels) == Some(s)
    requires s.r.pc.Copy? || InWindow(s.r)
    ensures s.os.ReadPath(Backup(s.r.ordinal)) <= s.os.ReadPath(Active)
    ensures InWindow(s.r) ==> s.os.ReadPath(Backup(s.r.ordinal)) + s.h.window == s.os.ReadPath(Active)
  {
    CopyRun(cfg, labels, s);
    hide Exec, Woven;
    assert s.os.names[Backup(s.r.ordinal)] == s.h.made[s.r.ordinal - 1] by {
      assert s.h.removed < s.r.ordinal <= |s.h.made|;
    }
  }

  /** No step changes a backup whose copy has been followed by its truncate. */
  lemma FinishedBackupsStay(cfg: Config, labels: seq<Label>, s: World, l: Label, i: nat)
    requires cfg.strategy.CopyTruncate? && Exec(cfg, Init(cfg), labels) == Some(s) && Next(cfg, s, l).Some?
    requires i < |s.h.windows|
    ensures i < |s.h.made| && i < |Next(cfg, s, l).value.h.made|
    ensures Next(cfg, s, l).value.h.made[i] == s.h.made[i]
    ensures Next(cfg, s, l).value.os.Read(s.h.made[i]) == s.os.Read(s.h.made[i])
  {
    CopyRun(cfg, labels, s);
    WindowsBehind(cfg, s);
    hide *;
    BackupStays(cfg, s, l, i);
  }

  lemma WindowsBehind(cfg: Config, s: World)
    requires CopyInv(cfg, s)
    ensures |s.h.windows| <= |s.h.made| && (s.r.pc.Copy? ==> |s.h.windows| < |s.h.made|)
  {
    hide RR.DirectoryInv, Woven;
  }

  /** No step changes a backup unless it is being copied. */
  lemma BackupStays(cfg: Config, s: World, l: Label, i: nat)
    requires CopyInv(cfg, s) && cfg.strategy.CopyTruncate? && Next(cfg, s, l).Some? && i < |s.h.made|
    requires s.r.pc.Copy? ==> i < |s.h.made| - 1
    ensures i < |s.h.made| && i < |Next(cfg, s, l).value.h.made|
    ensures Next(cfg, s, l).value.h.made[i] == s.h.made[i]
    ensures Next(cfg, s, l).value.os.Read(s.h.made[i]) == s.os.Read(s.h.made[i])
  {
    Pcs(cfg, s);
    InodesApart(cfg, s, i);
    hide CopyInv;
    if RotatorLabel(l) {
      RotatorStays(cfg, s, l, i);
    } else {
      WriterStays(cfg, s, l, i);
    }
  }

  lemma WriterStays(cfg: Config, s: World, l: Label, i: nat)
    requires Next(cfg, s, l).Some? && !RotatorLabel(l)
    requires RR.Attached(s) && i < |s.h.made| && s.h.made[i] != s.w.file
    ensures var t := Next(cfg, s, l).value;
      t.h.made == s.h.made && t.os.Read(s.h.made[i]) == s.os.Read(s.h.made[i])
  {
    hide RecordsIn, Stream;
  }

  lemma RotatorStays(cfg: Config, s: World, l: Label, i: nat)
    requires cfg.strategy.CopyTruncate? && Next(cfg, s, l).Some? && RotatorLabel(l)
    requires Before(s.r.pc) || Copying(s.r.pc) || Concluding(s.r.pc) || RR.Ended(s.r.pc)
    requires RR.Attached(s) && i < |s.h.made| && s.h.made[i] != s.w.file && s.h.made[i] < s.os.next
    requires s.r.pc.Copy? ==> s.h.made[i] != s.r.target
    ensures var t := Next(cfg, s, l).value;
      i < |t.h.made| && t.h.made[i] == s.h.made[i] && t.os.Read(s.h.made[i]) == s.os.Read(s.h.made[i])
  {
    if l.Advance? {
      AdvanceStays(cfg, s, i);
    }
    hide AfterAdvance;
  }

  lemma InodesApart(cfg: Config, s: World, i: nat)
    requires CopyInv(cfg, s) && i < |s.h.made|
    ensures RR.Attached(s) && s.h.made[i] != s.w.file && s.h.made[i] < s.os.next
    ensures s.r.pc.Copy? && i < |s.h.made| - 1 ==> s.h.made[i] != s.r.target
  {
    hide RR.DirectoryInv, Woven;
  }

  lemma AdvanceStays(cfg: Config, s: World, i: nat)
    requires cfg.strategy.CopyTruncate? && AfterAdvance(cfg, s).Some?
    requires Before(s.r.pc) || Copying(s.r.pc) || Concluding(s.r.pc) || RR.Ended(s.r.pc)
    requires RR.Attached(s) && i < |s.h.made| && s.h.made[i] != s.w.file && s.h.made[i] < s.os.next
    ensures var t := AfterAdvance(cfg, s).value;
      i < |t.h.made| && t.h.made[i] == s.h.made[i] && t.os.Read(s.h.made[i]) == s.os.Read(s.h.made[i])
  {
    hide Victims;
  }

  /** The recorded window is what was written since this rotation's copy met the end of the file. */
  lemma {:induction false} WindowSinceEndOfFile(cfg: Config, labels: seq<Label>, s: World) returns (n: nat)
    requires Exec(cfg, Init(cfg), labels) == Some(s) && InWindow(s.r)
    ensures n < |labels| && Exec(cfg, Init(cfg), labels[..n]).Some?
    ensures var m := Exec(cfg, Init(cfg), labels[..n]).value;
      && m.r.pc.Copy? && m.r.copied >= |m.os.Read(m.r.source)| && labels[n].Advance?
      && m.r.ordinal == s.r.ordinal && s.h.out == m.h.out + s.h.window
  {
    var last := |labels| - 1;
    var front, l := labels[..last], labels[last];
    var m := Exec(cfg, Init(cfg), front).value;
    if InWindow(m.r) {
      n := WindowSinceEndOfFile(cfg, front, m);
      assert front[..n] == labels[..n];
      hide Exec;
      WindowGrows(cfg, m, l, Exec(cfg, Init(cfg), labels[..n]).value.h.out);
    } else {
      n := last;
      hide Exec;
      WindowOpens(cfg, m, l);
    }
  }

  lemma WindowGrows(cfg: Config, m: World, l: Label, before: seq<byte>)
    requires Next(cfg, m, l).Some? && InWindow(m.r) && InWindow(Next(cfg, m, l).value.r)
    requires m.h.out == before + m.h.window
    ensures var t := Next(cfg, m, l).value; t.h.out == before + t.h.window && t.r.ordinal == m.r.ordinal
  {
    hide Stream, RecordsIn;
    if l.Write? {
      hide AfterAdvance;
      Regroup(before, m.h.window, m.w.buffer[m.w.pc.done..m.w.pc.done + l.count]);
    } else {
      hide AfterWrite;
    }
  }

  lemma WindowOpens(cfg: Config, m: World, l: Label)
    requires Next(cfg, m, l).Some? && !InWindow(m.r) && InWindow(Next(cfg, m, l).value.r)
    ensures l.Advance? && m.r.pc.Copy? && m.r.copied >= |m.os.Read(m.r.source)|
    ensures var t := Next(cfg, m, l).value; t.h.out == m.h.out && t.h.window == [] && t.r.ordinal == m.r.ordinal
  {
    hide Stream;
  }

  /** Retention under copytruncate: what is removed is there and is not the file the writer has open, and after each
      retention pass exactly the newest maxBackups backups exist. */
  lemma RetentionIsSafe(cfg: Config, labels: seq<Label>, s: World)
    requires cfg.strategy.CopyTruncate? && Exec(cfg, Init(cfg), labels) == Some(s)
    ensures s.r.pc.Remove? && s.r.victims != [] ==>
      && Backup(s.r.victims[0]) in s.os.names
      && s.os.names[Backup(s.r.victims[0])] != s.w.file
    ensures s.r.pc.LogComplete? && cfg.maxBackups > 0 ==>
      forall o: nat :: Backup(o) in s.os.names <==> s.r.ordinal - cfg.maxBackups < o <= s.r.ordinal && o >= 1
  {
    CopyRun(cfg, labels, s);
    hide Exec, Woven, PartialInv;
    if s.r.pc.Remove? && s.r.victims != [] {
      var v := s.r.victims[0];
      assert v == s.h.removed + 1 && v <= |s.h.made|;
      assert s.os.names[Backup(v)] == s.h.made[v - 1];
    }
  }

  /* ---- a rotation needs something written ---- */

  ghost predicate WroteInv(s: World) {
    s.h.made != [] || (!s.r.pc.Poll? && !s.r.pc.Exited?) ==> s.h.out != []
  }

  lemma WroteStep(cfg: Config, s: World, l: Label)
    requires WroteInv(s) && CopyInv(cfg, s) && cfg.strategy.CopyTruncate? && Next(cfg, s, l).Some?
    ensures WroteInv(Next(cfg, s, l).value)
  {
    Pcs(cfg, s);
    OutGrows(cfg, s, l);
    if s.h.out == [] {
      NothingYet(cfg, s);
      hide CopyInv, Stream, RecordsIn;
    }
  }

  lemma OutGrows(cfg: Config, s: World, l: Label)
    requires Next(cfg, s, l).Some?
    ensures s.h.out <= Next(cfg, s, l).value.h.out
  {
    hide Stream, RecordsIn;
    if RotatorLabel(l) {
      RotatorLeavesWriter(cfg, s, l);
      hide Next;
    } else {
      hide AfterAdvance;
    }
  }

  lemma NothingYet(cfg: Config, s: World)
    requires CopyInv(cfg, s) && s.h.out == []
    ensures s.os.ReadPath(Active) == []
  {
    if s.os.ReadPath(Active) != [] {
      FullMeansWritten(cfg, s);
    }
  }

  lemma FullMeansWritten(cfg: Config, s: World)
    requires CopyInv(cfg, s) && s.os.ReadPath(Active) != []
    ensures s.h.out != []
  {
    hide RR.DirectoryInv, CountInv, Woven, PartialInv;
  }

  lemma {:induction false} WroteRun(cfg: Config, labels: seq<Label>, s: World)
    requires cfg.strategy.CopyTruncate? && Exec(cfg, Init(cfg), labels) == Some(s)
    ensures WroteInv(s)
  {
    if labels != [] {
      hide WroteInv, CopyInv;
      var front := labels[..|labels| - 1];
      WroteRun(cfg, front, Exec(cfg, Init(cfg), front).value);
      CopyRun(cfg, front, Exec(cfg, Init(cfg), front).value);
      WroteStep(cfg, Exec(cfg, Init(cfg), front).value, labels[|labels| - 1]);
    }
  }

  /* ---- whole records when every write takes its whole batch ---- */

  ghost predicate WholeInv(cfg: Config, s: World)
    requires cfg.Encodable()
  {
    && Whole(cfg, |s.os.Read(s.w.file)|) && Whole(cfg, |s.h.window|)
    && (forall i :: 0 <= i < |s.h.windows| ==> Whole(cfg, |s.h.windows[i]|))
    && (forall i :: 0 <= i < |s.h.windows| && i < |s.h.made| ==> Whole(cfg, |s.os.Read(s.h.made[i])|))
    && (InWindow(s.r) ==> Whole(cfg, |s.os.Read(s.r.target)|))
  }

  lemma WholeWrite(cfg: Config, s: World, n: nat)
    requires cfg.Encodable() && !cfg.shortWrites && WriteAllowed(cfg, s, n) && s.w.pc.done == 0
    requires WholeInv(cfg, s) && WriterInv(cfg, s) && CopyInv(cfg, s)
    ensures WholeInv(cfg, AfterWrite(cfg, s, n))
  {
    WriteApart(cfg, s);
    hide CopyInv, WholeInv, Stream, Whole, Accounted;
    WholeStream(cfg, s.w.written, s.w.generated);
    WholeGrows(cfg, s, n);
  }

  lemma WholeGrows(cfg: Config, s: World, n: nat)
    requires cfg.Encodable() && WriteAllowed(cfg, s, n) && WholeInv(cfg, s) && Whole(cfg, n)
    requires forall i :: 0 <= i < |s.h.made| ==> s.h.made[i] != s.w.file
    requires InWindow(s.r) ==> s.r.target != s.w.file
    ensures WholeInv(cfg, AfterWrite(cfg, s, n))
  {
    hide Whole, RecordsIn;
    assert |s.w.buffer[s.w.pc.done..s.w.pc.done + n]| == n;
    WholeSum(cfg, |s.os.Read(s.w.file)|, n);
    WholeSum(cfg, |s.h.window|, n);
  }

  /** What is written goes into no backup. */
  lemma WriteApart(cfg: Config, s: World)
    requires CopyInv(cfg, s) && s.w.pc.Flushing?
    ensures forall i :: 0 <= i < |s.h.made| ==> s.h.made[i] != s.w.file
    ensures InWindow(s.r) ==> s.r.target != s.w.file
  {
    hide RR.DirectoryInv, Woven;
  }

  lemma WholeNothing(cfg: Config)
    requires cfg.Encodable()
    ensures Whole(cfg, 0)
  {
  }

  lemma WholeAdvance(cfg: Config, s: World)
    requires cfg.Encodable() && cfg.strategy.CopyTruncate? && AfterAdvance(cfg, s).Some?
    requires WholeInv(cfg, s) && CopyInv(cfg, s)
    ensures WholeInv(cfg, AfterAdvance(cfg, s).value)
  {
    hide Whole, Woven, RR.DirectoryInv, ContentInv;
    WholeNothing(cfg);
    if Plain(s.r.pc) {
      PlainAdvance(cfg, s);
      hide AfterAdvance, CopyInv;
    } else {
      Pcs(cfg, s);
      if s.r.pc.TruncateActive? {
        WholeTruncate(cfg, s);
        hide AfterTruncate, CopyInv;
      }
    }
  }

  lemma WholeTruncate(cfg: Config, s: World)
    requires cfg.Encodable() && s.r.pc.TruncateActive? && WholeInv(cfg, s) && CopyInv(cfg, s)
    ensures WholeInv(cfg, AfterTruncate(s))
  {
    hide Whole, Woven, RR.DirectoryInv, ContentInv;
    WholeNothing(cfg);
  }

  lemma WholeChunk(cfg: Config, s: World, n: nat)
    requires cfg.Encodable() && s.r.pc.Copy? && s.r.copied + n <= |s.os.Read(s.r.source)|
    requires WholeInv(cfg, s) && CopyInv(cfg, s)
    ensures WholeInv(cfg, AfterCopyChunk(s, n))
  {
    hide Whole, Woven, RR.DirectoryInv, ContentInv;
  }

  lemma WholeOpen(cfg: Config, s: World)
    requires cfg.Encodable() && s.w.pc.Opening? && WholeInv(cfg, s) && CopyInv(cfg, s)
    ensures WholeInv(cfg, AfterOpen(s))
  {
    hide Whole, Woven, RR.DirectoryInv, ContentInv;
    WholeNothing(cfg);
  }

  lemma WholeOther(cfg: Config, s: World, l: Label)
    requires cfg.Encodable() && cfg.strategy.CopyTruncate? && Next(cfg, s, l).Some? && !l.Write?
    requires WholeInv(cfg, s) && CopyInv(cfg, s)
    ensures WholeInv(cfg, Next(cfg, s, l).value)
  {
    hide WholeInv, CopyInv, AfterAdvance, Stream;
    if l.Advance? {
      WholeAdvance(cfg, s);
    } else if l.CopyChunk? {
      WholeChunk(cfg, s, l.size);
    } else if l.Open? && l.ok {
      WholeOpen(cfg, s);
    } else {
      WholeQuiet(cfg, s, Next(cfg, s, l).value);
    }
  }

  /** Steps that touch no file and no window. */
  lemma WholeQuiet(cfg: Config, s: World, t: World)
    requires cfg.Encodable() && WholeInv(cfg, s)
    requires t.os.data == s.os.data && t.w.file == s.w.file && t.r.target == s.r.target
    requires t.h.made == s.h.made && t.h.window == s.h.window && t.h.windows == s.h.windows
    requires InWindow(t.r) ==> InWindow(s.r)
    ensures WholeInv(cfg, t)
  {
    hide Whole;
  }

  lemma {:induction false} WholeRun(cfg: Config, labels: seq<Label>, s: World)
    requires cfg.Encodable() && !cfg.shortWrites && cfg.strategy.CopyTruncate?
    requires Exec(cfg, Init(cfg), labels) == Some(s)
    ensures WholeInv(cfg, s)
  {
    if labels == [] {
      WholeNothing(cfg);
    } else {
      hide WholeInv, CopyInv;
      var front, l := labels[..|labels| - 1], labels[|labels| - 1];
      var m := Exec(cfg, Init(cfg), front).value;
      WholeRun(cfg, front, m);
      CopyRun(cfg, front, m);
      WriterRun(cfg, front, m);
      NeverReplays(cfg, front, m);
      if l.Write? {
        WholeWrite(cfg, m, l.count);
      } else {
        WholeOther(cfg, m, l);
      }
    }
  }

  /** Backup i is records cuts[i] + 1 to losses[i], and its window records losses[i] + 1 to cuts[i + 1]. */
  ghost predicate CutAt(cfg: Config, os: Os, made: seq<nat>, windows: seq<seq<byte>>, cuts: seq<nat>, losses: seq<nat>) {
    && |windows| <= |made| && |cuts| == |windows| + 1 && |losses| == |windows| && cuts[0] == 0
    && forall i :: 0 <= i < |windows| ==> Between(cfg, cuts[i], os.Read(made[i]), losses[i], windows[i], cuts[i + 1])
  }

  /** The backup holds records lo + 1 to lost, the window those from there to hi. */
  ghost predicate Between(cfg: Config, lo: nat, backup: seq<byte>, lost: nat, window: seq<byte>, hi: nat) {
    lo <= lost <= hi && backup == Stream(cfg, lo, lost) && window == Stream(cfg, lost, hi)
  }

  /** Backups and windows that hold whole records are consecutive ranges of the records written. */
  lemma {:induction false} CutWoven(cfg: Config, os: Os, made: seq<nat>, windows: seq<seq<byte>>, n: nat)
    returns (cuts: seq<nat>, losses: seq<nat>)
    requires cfg.Encodable() && |windows| <= |made| && Woven(os, made, windows) == Stream(cfg, 0, n)
    requires forall i :: 0 <= i < |windows| ==> Whole(cfg, |windows[i]|) && Whole(cfg, |os.Read(made[i])|)
    ensures CutAt(cfg, os, made, windows, cuts, losses) && cuts[|windows|] == n
    decreases |windows|
  {
    var t := |windows|;
    if t == 0 {
      StreamLength(cfg, 0, n);
      cuts, losses := [0], [];
    } else {
      hide Whole, Stream, CutAt;
      var init, backup, window := windows[..t - 1], os.Read(made[t - 1]), windows[t - 1];
      assert Woven(os, made, windows) == Woven(os, made, init) + backup + window;
      hide Woven;
      var lost := SplitTail(cfg, Woven(os, made, init) + backup, window, n);
      var cut := SplitTail(cfg, Woven(os, made, init), backup, lost);
      var cuts', losses' := CutWoven(cfg, os, made, init, cut);
      cuts, losses := cuts' + [n], losses' + [lost];
      CutFurther(cfg, os, made, windows, cuts', losses', lost, n);
    }
  }

  lemma CutFurther(cfg: Config, os: Os, made: seq<nat>, windows: seq<seq<byte>>, cuts: seq<nat>, losses: seq<nat>,
                   lost: nat, n: nat)
    requires 0 < |windows| <= |made|
    requires CutAt(cfg, os, made, windows[..|windows| - 1], cuts, losses)
    requires Between(cfg, cuts[|windows| - 1], os.Read(made[|windows| - 1]), lost, windows[|windows| - 1], n)
    ensures CutAt(cfg, os, made, windows, cuts + [n], losses + [lost])
  {
    hide Between, Os.Read;
    var m, cuts', losses' := |windows| - 1, cuts + [n], losses + [lost];
    forall i | 0 <= i < |windows|
      ensures Between(cfg, cuts'[i], os.Read(made[i]), losses'[i], windows[i], cuts'[i + 1])
    {
      if i < m {
        assert windows[..m][i] == windows[i] && cuts'[i + 1] == cuts[i + 1];
      }
    }
  }
}
