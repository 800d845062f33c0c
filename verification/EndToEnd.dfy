/** Protocol, codec and analyzer together: what the analyzer reports on the files a completed run leaves behind. */
module EndToEnd {
  import opened Bytes
  import opened Ordered
  import opened Lab
  import opened WriterStream
  import opened Boundaries
  import opened FullBackups
  import opened Integrity
  import opened IntegrityLaws
  import opened Ranges
  import opened Acceptance
  import RR = RenameReopen
  import CT = CopyTruncate
  import CopyResults
  import Progress
  import R = Record
  import RenameResults
  import Retention
  import Sweep

  /** The harness's paths: every backup, then the active file. */
  function Listing(os: Os, active: string): seq<Source> {
    var ordinals := Ascending(os.Ordinals());
    seq(|ordinals|, i requires 0 <= i < |ordinals| =>
      Source(Retention.BackupPath(active, ordinals[i]), Some(os.ReadPath(Backup(ordinals[i])))))
    + [Source(active, if Active in os.names then Some(os.ReadPath(Active)) else None)]
  }

  /** Both processes ended without an error. */
  predicate Completed(s: World) {
    s.r.pc == Exited(true) && s.w.pc.Stopped? && s.w.pc.ok
  }

  lemma AllWritten(cfg: Config, s: World)
    requires WriterInv(cfg, s) && Completed(s)
    ensures s.h.out == Stream(cfg, 0, s.w.generated)
    ensures s.w.written == s.w.generated && s.w.reopenFailures == 0
  {
    hide WriterInv, Stream;
    CleanlyStopped(cfg, s);
  }

  /** The inodes of the files still there: backups, oldest first, then the active file. */
  function KeptInodes(s: World): seq<nat> {
    (if s.h.removed <= |s.h.made| then s.h.made[s.h.removed..] else [])
    + if Active in s.os.names then [s.os.names[Active]] else []
  }

  ghost predicate FilesAre(cfg: Config, os: Os, inodes: seq<nat>, rs: seq<Range>) {
    |rs| == |inodes| && forall i :: 0 <= i < |rs| ==> Records(cfg, os.Read(inodes[i]), rs[i])
  }

  lemma ListingIs(cfg: Config, s: World, active: string)
    requires RR.DirectoryInv(cfg, s.os, s.h) && Active in s.os.names
    ensures var list, kept := Listing(s.os, active), KeptInodes(s);
      |list| == |kept| && forall i :: 0 <= i < |list| ==> list[i].content == Some(s.os.Read(kept[i]))
  {
    hide Ascending;
    RR.OrdinalsAre(cfg, s.os, s.h);
    var list, from, k := Listing(s.os, active), s.h.removed, |s.h.made|;
    forall i | 0 <= i < k - from ensures list[i].content == Some(s.os.Read(KeptInodes(s)[i])) {
      assert Numbers(from, k)[i] == from + i + 1;
      NameOf(cfg, s.os, s.h, from + i + 1);
    }
  }

  lemma NameOf(cfg: Config, os: Os, h: History, o: nat)
    requires RR.DirectoryInv(cfg, os, h) && h.removed < o <= |h.made|
    ensures Backup(o) in os.names && os.names[Backup(o)] == h.made[o - 1]
  {
  }

  lemma InodesHold(cfg: Config, s: World, active: string, rs: seq<Range>)
    requires RR.DirectoryInv(cfg, s.os, s.h) && Active in s.os.names && FilesAre(cfg, s.os, KeptInodes(s), rs)
    ensures AllHold(cfg, Listing(s.os, active), rs)
  {
    ListingIs(cfg, s, active);
    hide Listing, Records, RR.DirectoryInv, KeptInodes, Os.Read;
  }

  /* ---- rename-reopen ---- */

  ghost predicate Rising(cuts: seq<nat>) {
    forall i :: 0 <= i < |cuts| - 1 ==> cuts[i] <= cuts[i + 1]
  }

  function Consecutive(cuts: seq<nat>): (rs: seq<Range>)
    requires cuts != []
    ensures |rs| == |cuts| - 1
    ensures forall i :: 0 <= i < |rs| ==> rs[i] == Range(cuts[i], cuts[i + 1])
  {
    seq(|cuts| - 1, i requires 0 <= i < |cuts| - 1 => Range(cuts[i], cuts[i + 1]))
  }

  /** Consecutive ranges of the records m + 1 to n, with nothing between them. */
  ghost predicate Gapless(rs: seq<Range>, m: nat, n: nat) {
    && rs != [] && InOrder(rs) && m <= n && rs[0].lo == m && rs[|rs| - 1].hi == n
    && Size(Gaps(rs)) == 0 && Size(rs) == n - m
  }

  lemma ConsecutiveHasNoGaps(cuts: seq<nat>)
    requires |cuts| >= 2 && Rising(cuts)
    ensures Gapless(Consecutive(cuts), cuts[0], cuts[|cuts| - 1])
  {
    NoGaps(Consecutive(cuts));
    SizesAddUp(Consecutive(cuts));
  }

  /** The inodes are cut into the records at the cuts. */
  ghost predicate CutAt(cfg: Config, os: Os, inodes: seq<nat>, cuts: seq<nat>) {
    && |cuts| == |inodes| + 1
    && forall i :: 0 <= i < |inodes| ==>
         cuts[i] <= cuts[i + 1] && os.Read(inodes[i]) == Stream(cfg, cuts[i], cuts[i + 1])
  }

  lemma {:induction false} JoinedUpTo(cfg: Config, os: Os, inodes: seq<nat>, cuts: seq<nat>, i: nat)
    requires CutAt(cfg, os, inodes, cuts) && cuts[0] == 0 && i <= |inodes|
    ensures Joined(os, inodes[..i]) == Stream(cfg, 0, cuts[i])
  {
    if i == 0 {
      NoRecords(cfg);
    } else {
      assert inodes[..i] == inodes[..i - 1] + [inodes[i - 1]];
      var lo, hi := cuts[i - 1], cuts[i];
      assert lo <= hi && os.Read(inodes[i - 1]) == Stream(cfg, lo, hi) by {
        assert i - 1 + 1 == i;
        hide Stream;
      }
      hide *;
      JoinedUpTo(cfg, os, inodes, cuts, i - 1);
      RR.JoinedPush(os, inodes[..i - 1], inodes[i - 1]);
      StreamSplit(cfg, 0, lo, hi);
    }
  }

  lemma NoRecords(cfg: Config)
    ensures Stream(cfg, 0, 0) == []
  {
  }

  /** The bytes of the backups retention has removed. */
  function RemovedBytes(s: World): seq<byte> {
    if s.h.removed <= |s.h.made| then Joined(s.os, s.h.made[..s.h.removed]) else []
  }

  /** After a completed run the files still there, oldest backup first, are consecutive ranges of the generated records;
      the records before them were in the backups removed. */
  lemma RenameFiles(cfg: Config, labels: seq<Label>, s: World, active: string) returns (m: nat, rs: seq<Range>)
    requires cfg.Encodable() && cfg.strategy.RenameReopen?
    requires Exec(cfg, Init(cfg), labels) == Some(s) && Completed(s)
    ensures AllHold(cfg, Listing(s.os, active), rs) && Gapless(rs, m, s.w.generated)
    ensures RemovedBytes(s) == Stream(cfg, 0, m)
  {
    hide *;
    RR.RenameRun(cfg, labels, s);
    WriterRun(cfg, labels, s);
    BoundaryRun(cfg, labels, s);
    m, rs := CompletedFiles(cfg, s, active);
  }

  lemma CompletedFiles(cfg: Config, s: World, active: string) returns (m: nat, rs: seq<Range>)
    requires cfg.Encodable() && Completed(s)
    requires RR.RenameInv(cfg, s) && BoundaryInv(cfg, s) && WriterInv(cfg, s)
    ensures AllHold(cfg, Listing(s.os, active), rs) && Gapless(rs, m, s.w.generated)
    ensures RemovedBytes(s) == Stream(cfg, 0, m)
  {
    hide *;
    FinalInodes(cfg, s);
    AllWritten(cfg, s);
    var inodes := s.h.made + [s.os.names[Active]];
    var cuts := CutIntoRanges(cfg, s.os, inodes, s.w.generated);
    CutsAre(cfg, s.os, inodes, cuts);
    m, rs := KeptRanges(cfg, s, inodes, cuts);
    InodesHold(cfg, s, active, rs);
  }

  lemma CutsAre(cfg: Config, os: Os, inodes: seq<nat>, cuts: seq<nat>)
    requires |cuts| == |inodes| + 1
    requires forall i :: 0 <= i < |inodes| ==>
      cuts[i] <= cuts[i + 1] && os.Read(inodes[i]) == Stream(cfg, cuts[i], cuts[i + 1])
    ensures CutAt(cfg, os, inodes, cuts)
  {
    hide Stream;
  }

  lemma KeptRanges(cfg: Config, s: World, inodes: seq<nat>, cuts: seq<nat>) returns (m: nat, rs: seq<Range>)
    requires Active in s.os.names && inodes == s.h.made + [s.os.names[Active]] && s.h.removed <= |s.h.made|
    requires CutAt(cfg, s.os, inodes, cuts) && cuts[0] == 0
    ensures Gapless(rs, m, cuts[|inodes|]) && FilesAre(cfg, s.os, KeptInodes(s), rs)
    ensures RemovedBytes(s) == Stream(cfg, 0, m)
  {
    var from := s.h.removed;
    assert |cuts| == |inodes| + 1;
    var kept, ends := inodes[from..], cuts[from..];
    m, rs := cuts[from], Consecutive(ends);
    assert inodes[..from] == s.h.made[..from] && kept == KeptInodes(s);
    assert RemovedBytes(s) == Stream(cfg, 0, m) by {
      hide Stream, Joined, CutAt;
      JoinedUpTo(cfg, s.os, inodes, cuts, from);
    }
    SuffixCut(cfg, s.os, inodes, cuts, from);
    hide *;
    CutRanges(cfg, s.os, kept, ends);
    ConsecutiveHasNoGaps(ends);
  }

  lemma SuffixCut(cfg: Config, os: Os, inodes: seq<nat>, cuts: seq<nat>, from: nat)
    requires CutAt(cfg, os, inodes, cuts) && from <= |inodes|
    ensures CutAt(cfg, os, inodes[from..], cuts[from..])
  {
    hide Stream;
    var kept, ends := inodes[from..], cuts[from..];
    forall i | 0 <= i < |kept|
      ensures ends[i] <= ends[i + 1] && os.Read(kept[i]) == Stream(cfg, ends[i], ends[i + 1])
    {
      assert kept[i] == inodes[from + i] && ends[i] == cuts[from + i] && ends[i + 1] == cuts[from + i + 1];
    }
  }

  lemma CutRanges(cfg: Config, os: Os, inodes: seq<nat>, cuts: seq<nat>)
    requires CutAt(cfg, os, inodes, cuts)
    ensures Rising(cuts) && cuts != [] && FilesAre(cfg, os, inodes, Consecutive(cuts))
  {
    hide Stream, Os.Read;
  }

  lemma FinalInodes(cfg: Config, s: World)
    requires cfg.Encodable() && RR.RenameInv(cfg, s) && BoundaryInv(cfg, s) && WriterInv(cfg, s)
    requires Completed(s)
    ensures RR.DirectoryInv(cfg, s.os, s.h) && s.h.removed <= |s.h.made| && Active in s.os.names
    ensures var inodes := s.h.made + [s.os.names[Active]];
      && Joined(s.os, inodes) == s.h.out
      && forall i :: 0 <= i < |inodes| ==> Whole(cfg, |s.os.Read(inodes[i])|)
  {
    hide Joined, RR.CountInv, Whole, Stream, Accounted;
    RR.JoinedPush(s.os, s.h.made, s.os.names[Active]);
    MultipleIsWhole(cfg, 0);
    assert s.w.Done() == 0;
  }

  /** What a completed run has done in any case: it wrote records, all of them, and retention went as far as it goes. */
  lemma CompletedRun(cfg: Config, labels: seq<Label>, s: World)
    requires cfg.strategy.RenameReopen? && Exec(cfg, Init(cfg), labels) == Some(s) && Completed(s)
    ensures cfg.Encodable() && cfg.runID != []
    ensures s.w.written == s.w.generated > 0 && s.w.reopenFailures == 0
    ensures s.h.removed < |s.h.made|
    ensures RemovedBytes(s) != [] <==> 0 < cfg.maxBackups < cfg.rotations
    ensures |RemovedBytes(s)| < |s.h.out| && s.h.out == Stream(cfg, 0, s.w.generated)
  {
    hide *;
    RR.RenameRun(cfg, labels, s);
    WriterRun(cfg, labels, s);
    FullRun(cfg, labels, s);
    AllWritten(cfg, s);
    RetentionDone(cfg, s);
    BytesRemoved(cfg, s);
    SomethingWritten(cfg, s);
  }

  lemma RetentionDone(cfg: Config, s: World)
    requires RR.RenameInv(cfg, s) && Completed(s)
    ensures cfg.maxFileBytes > 0 && |s.h.made| == cfg.rotations > s.h.removed
    ensures s.h.removed > 0 <==> 0 < cfg.maxBackups < cfg.rotations
  {
    hide RR.ContentInv;
  }

  lemma BytesRemoved(cfg: Config, s: World)
    requires RR.RenameInv(cfg, s) && FullInv(cfg, s) && cfg.maxFileBytes > 0 && s.h.removed < |s.h.made|
    ensures RemovedBytes(s) != [] <==> s.h.removed > 0
    ensures |RemovedBytes(s)| < |s.h.out|
  {
    var from := s.h.removed;
    var gone, rest := s.h.made[..from], s.h.made[from..];
    hide *;
    RemovedBytesAre(s);
    assert s.h.made == gone + rest && rest[0] == s.h.made[from];
    OutIs(cfg, s);
    RR.JoinedConcat(s.os, gone, rest);
    BackupHolds(cfg, s, from);
    RR.JoinedAtLeast(s.os, rest, 0);
    if from > 0 {
      BackupHolds(cfg, s, 0);
      assert gone[0] == s.h.made[0];
      RR.JoinedAtLeast(s.os, gone, 0);
    } else {
      RenameResults.JoinedNothing(s.os, gone);
    }
  }

  lemma RemovedBytesAre(s: World)
    requires s.h.removed <= |s.h.made|
    ensures RemovedBytes(s) == Joined(s.os, s.h.made[..s.h.removed])
  {
  }

  lemma OutIs(cfg: Config, s: World)
    requires RR.RenameInv(cfg, s)
    ensures s.h.out == Joined(s.os, s.h.made) + s.os.ReadPath(Active)
  {
    hide Joined, RR.DirectoryInv, RR.LinkInv, RR.CountInv;
  }

  lemma BackupHolds(cfg: Config, s: World, i: nat)
    requires FullInv(cfg, s) && cfg.maxFileBytes > 0 && i < |s.h.made|
    ensures |s.os.Read(s.h.made[i])| > 0
  {
  }

  lemma SomethingWritten(cfg: Config, s: World)
    requires WriterInv(cfg, s) && Completed(s) && s.h.out == Stream(cfg, 0, s.w.generated) && s.h.out != []
    ensures cfg.Encodable() && cfg.runID != [] && s.w.generated > 0
  {
    hide Accounted;
  }

  /** The analyzer accepts the files of the run: all readable, nothing counted against it, every record there. */
  ghost predicate Accepted(cfg: Config, generated: nat, sources: seq<Source>) {
    && AllReadable(sources, |sources|)
    && var r := ReportOf(generated, Total(cfg.runID, sources), FileSets(cfg.runID, sources));
       Clean(r) && r.validUnique == generated
  }

  /** Readable records, and no backup beyond those that are kept. */
  predicate Acceptable(cfg: Config) {
    Legible(cfg) && !(0 < cfg.maxBackups < cfg.rotations)
  }

  /** A completed rename-reopen run whose records can be read back: the analyzer over its files, in any order, misses
      exactly the records of the backups that retention removed, and has no other complaint. */
  lemma RenameRunReport(cfg: Config, labels: seq<Label>, s: World, active: string, sources: seq<Source>)
    returns (m: nat)
    requires cfg.strategy.RenameReopen? && Legible(cfg) && s.w.generated < MAX_UINT64
    requires Exec(cfg, Init(cfg), labels) == Some(s) && Completed(s)
    requires multiset(sources) == multiset(Listing(s.os, active))
    ensures AllReadable(sources, |sources|)
    ensures RemovedBytes(s) == Stream(cfg, 0, m) && (m > 0 <==> 0 < cfg.maxBackups < cfg.rotations)
    ensures forall k :: k in MissingSet(Total(cfg.runID, sources).valid, s.w.generated) <==> 1 <= k <= m
    ensures var r := ReportOf(s.w.generated, Total(cfg.runID, sources), FileSets(cfg.runID, sources));
      && r.missing == m && r.validUnique == s.w.generated - m && r.duplicates == 0
      && r.malformed == 0 && r.wrongRunID == 0 && r.descendingTransitions == 0
  {
    hide *;
    CompletedRun(cfg, labels, s);
    var rs;
    m, rs := RenameFiles(cfg, labels, s, active);
    StreamLength(cfg, 0, m);
    NoRecords(cfg);
    IsReadback(cfg, s.w.generated);
    GaplessReport(cfg, s.w.generated, sources, Listing(s.os, active), m, rs);
  }

  lemma IsReadback(cfg: Config, generated: nat)
    requires cfg.Encodable() && cfg.runID != [] && Legible(cfg) && generated < MAX_UINT64
    ensures Readback(cfg, generated)
  {
  }

  lemma GaplessReport(cfg: Config, generated: nat, sources: seq<Source>, listed: seq<Source>, m: nat, rs: seq<Range>)
    requires Readback(cfg, generated) && AllHold(cfg, listed, rs) && multiset(sources) == multiset(listed)
    requires Gapless(rs, m, generated)
    ensures AllReadable(sources, |sources|)
    ensures forall k :: k in MissingSet(Total(cfg.runID, sources).valid, generated) <==> 1 <= k <= m
    ensures var r := ReportOf(generated, Total(cfg.runID, sources), FileSets(cfg.runID, sources));
      && r.missing == m && r.validUnique == generated - m && r.duplicates == 0
      && r.malformed == 0 && r.wrongRunID == 0 && r.descendingTransitions == 0
  {
    hide Total, FileSets, AllReadable, AllHold, Readback, ReportOf, InOrder, Size, Gaps, MissingSet, Covered, FromStart;
    ReportOnRanges(cfg, generated, sources, listed, rs);
    OnlyTheStart(rs, m);
  }

  /** What is missing lies before the first range or between two of them. */
  lemma BeforeAndBetween(rs: seq<Range>)
    requires rs != []
    ensures Size(Gaps(FromStart(rs))) == rs[0].lo + Size(Gaps(rs))
    ensures forall k :: k in Covered(Gaps(FromStart(rs))) <==> 1 <= k <= rs[0].lo || k in Covered(Gaps(rs))
  {
    hide Size, Covered, Gaps, FromStart;
    var m := rs[0].lo;
    GapsCons(rs);
    CoveredCons(Range(0, m), Gaps(rs));
    Appended([], Range(0, m));
    Regrouped(Span(Range(0, m)), [], []);
  }

  /** Nothing is missing between gapless ranges, only what lies before the first. */
  lemma OnlyTheStart(rs: seq<Range>, m: nat)
    requires rs != [] && InOrder(rs) && rs[0].lo == m && Size(Gaps(rs)) == 0
    ensures Size(Gaps(FromStart(rs))) == m
    ensures forall k :: k in Covered(Gaps(FromStart(rs))) <==> 1 <= k <= m
  {
    hide Size, Covered, Gaps, InOrder, FromStart;
    GapsInOrder(rs);
    CoveredIncreases(Gaps(rs));
    assert Covered(Gaps(rs)) == [];
    BeforeAndBetween(rs);
  }

  /** End to end, exactly.  Every completed rename-reopen run has written every record it generated; and the analyzer
      over its files, in any order, accepts them if and only if the run id has no space or newline, a record fits the
      scanner, and retention had nothing to remove.  Otherwise a file cannot be read or records are missing. */
  lemma RenameRunIsAccepted(cfg: Config, labels: seq<Label>, s: World, active: string, sources: seq<Source>)
    requires cfg.strategy.RenameReopen? && s.w.generated < MAX_UINT64
    requires Exec(cfg, Init(cfg), labels) == Some(s) && Completed(s)
    requires multiset(sources) == multiset(Listing(s.os, active))
    ensures s.w.written == s.w.generated > 0 && s.w.reopenFailures == 0
    ensures Accepted(cfg, s.w.generated, sources) <==> Acceptable(cfg)
    ensures !Acceptable(cfg) && AllReadable(sources, |sources|) ==>
      ReportOf(s.w.generated, Total(cfg.runID, sources), FileSets(cfg.runID, sources)).missing > 0
  {
    hide *;
    CompletedRun(cfg, labels, s);
    if Legible(cfg) {
      var m := RenameRunReport(cfg, labels, s, active, sources);
      LegibleVerdict(cfg, s.w.generated, sources, m);
    } else {
      NotPlainOrTooLong(cfg);
      if R.PlainRunID(cfg.runID) {
        var m, rs := RenameFiles(cfg, labels, s, active);
        SomeKept(cfg, s, m, rs);
        RangesTooLong(cfg, s.w.generated, sources, Listing(s.os, active), rs);
      } else {
        NothingValid(cfg.runID, sources);
        AllMissing(cfg, s.w.generated, sources);
      }
      IllegibleVerdict(cfg, s.w.generated, sources);
    }
  }

  lemma LegibleVerdict(cfg: Config, generated: nat, sources: seq<Source>, m: nat)
    requires Legible(cfg) && AllReadable(sources, |sources|) && (m > 0 <==> 0 < cfg.maxBackups < cfg.rotations)
    requires m <= generated
    requires var r := ReportOf(generated, Total(cfg.runID, sources), FileSets(cfg.runID, sources));
      && r.missing == m && r.validUnique == generated - m && r.duplicates == 0
      && r.malformed == 0 && r.wrongRunID == 0 && r.descendingTransitions == 0
    ensures Accepted(cfg, generated, sources) <==> Acceptable(cfg)
    ensures !Acceptable(cfg) ==> ReportOf(generated, Total(cfg.runID, sources), FileSets(cfg.runID, sources)).missing > 0
  {
    hide Total, FileSets, AllReadable, ReportOf;
  }

  lemma IllegibleVerdict(cfg: Config, generated: nat, sources: seq<Source>)
    requires !Legible(cfg)
    requires AllReadable(sources, |sources|) ==>
      ReportOf(generated, Total(cfg.runID, sources), FileSets(cfg.runID, sources)).missing > 0
    ensures !Acceptable(cfg) && !Accepted(cfg, generated, sources)
  {
    hide Total, FileSets, AllReadable, ReportOf;
  }

  lemma NotPlainOrTooLong(cfg: Config)
    requires !Legible(cfg)
    ensures !R.PlainRunID(cfg.runID) || cfg.recordBytes > MAX_LINE
  {
  }

  lemma AllMissing(cfg: Config, generated: nat, sources: seq<Source>)
    requires Total(cfg.runID, sources).valid == multiset{}
    ensures ReportOf(generated, Total(cfg.runID, sources), FileSets(cfg.runID, sources)).missing == generated
  {
    hide Total, FileSets;
    MissingListIs(multiset{}, generated);
    assert MissingSet(multiset{}, generated) == OneTo(generated);
  }

  lemma SomeKept(cfg: Config, s: World, m: nat, rs: seq<Range>)
    requires Gapless(rs, m, s.w.generated) && RemovedBytes(s) == Stream(cfg, 0, m)
    requires |RemovedBytes(s)| < |s.h.out| && s.h.out == Stream(cfg, 0, s.w.generated)
    ensures rs != [] && InOrder(rs) && rs[|rs| - 1].hi == s.w.generated && Size(rs) > 0
  {
    hide Stream, RemovedBytes, InOrder, Size, Gaps;
  }

  const SPACED := Config([ZERO, SPACE, ZERO], 32, 1, 1, 1, 1, 0, RenameReopen, CppWriter, false)

  /** A completed run of the C++ writer with a space in its run id: the writer and the rotator have nothing to complain
      about, and the files are not accepted. */
  lemma SpacedRunFails(active: string) returns (labels: seq<Label>, s: World)
    ensures Exec(SPACED, Init(SPACED), labels) == Some(s) && Completed(s) && s.w.generated == 1
    ensures !Accepted(SPACED, 1, Listing(s.os, active))
  {
    assert SPACED.WriterStarts() && SPACED.Encodable() && SPACED.RotatorStarts();
    assert !Acceptable(SPACED) by {
      assert SPACED.runID[1] == SPACE;
    }
    hide Exec, Init, Accepted, Acceptable, Listing;
    labels, s := Progress.CompletedRunExists(SPACED);
    RenameRunIsAccepted(SPACED, labels, s, active, Listing(s.os, active));
  }

  /** The same, carried through the harness and the sweep: the run succeeds and the attempt passes if and only if the
      configuration is acceptable and everything around the run went well; otherwise the run command fails, so that the
      sweep counts a functional failure and never one of integrity. */
  method JudgeCompletedRun(cfg: Config, ghost labels: seq<Label>, s: World, ghost active: string, sources: seq<Source>,
                           around: Finish, limit: int, repetition: int)
    returns (verdict: Result<Summary, RunError>, attempt: Sweep.Attempt)
    requires cfg.strategy.RenameReopen? && s.w.generated < MAX_UINT64
    requires Exec(cfg, Init(cfg), labels) == Some(s) && Completed(s)
    requires multiset(sources) == multiset(Listing(s.os, active))
    ensures verdict.Ok? && verdict.value.success <==> around.Around() && Acceptable(cfg)
    ensures attempt.passed <==> around.Around() && Acceptable(cfg)
    ensures attempt.kind == if attempt.passed then Sweep.NoFailure else Sweep.FunctionalFailure
    ensures attempt.passed ==>
      verdict.value.report.validUnique == verdict.value.report.expected == s.w.generated == s.w.written
  {
    hide Exec, Init, Total, FileSets, AllReadable, Listing, MissingList, Distinct, Repeats, Acceptable;
    RenameRunIsAccepted(cfg, labels, s, active, sources);
    var finish := around.(rotator := s.r.pc == Exited(true), writer := s.w.pc.Stopped? && s.w.pc.ok);
    verdict := Conclude(cfg.strategy, cfg.runID, finish, s.w.generated, s.w.reopenFailures, sources);
    attempt := ClassifyRun(cfg.strategy, Sweep.Request(limit, repetition), verdict);
  }

  /* ---- copytruncate ---- */

  function Kept(cuts: seq<nat>, losses: seq<nat>, end: nat): (rs: seq<Range>)
    requires |cuts| == |losses| + 1
    ensures |rs| == |cuts| && rs[|losses|] == Range(cuts[|losses|], end)
    ensures forall i :: 0 <= i < |losses| ==> rs[i] == Range(cuts[i], losses[i])
  {
    seq(|losses|, i requires 0 <= i < |losses| => Range(cuts[i], losses[i])) + [Range(cuts[|losses|], end)]
  }

  /** The ranges are in order from the first record to the last, and each window is the gap after its backup. */
  ghost predicate WindowsBetween(cfg: Config, windows: seq<seq<byte>>, rs: seq<Range>, n: nat) {
    && |rs| == |windows| + 1 && InOrder(rs) && rs[0].lo == 0 && rs[|rs| - 1].hi == n
    && forall i :: 0 <= i < |windows| ==> Records(cfg, windows[i], Range(rs[i].hi, rs[i + 1].lo))
  }

  /** How many backups retention removes in a completed run. */
  function Gone(cfg: Config): nat {
    if 0 < cfg.maxBackups < cfg.rotations then cfg.rotations - cfg.maxBackups else 0
  }

  /** After a completed run whose writes were whole the backups and the active file are ranges of records in order, and
      the window lost by each rotation is the gap after its backup; the files still there are the last of those ranges. */
  lemma CopyFiles(cfg: Config, labels: seq<Label>, s: World, active: string) returns (rs: seq<Range>)
    requires cfg.Encodable() && cfg.strategy.CopyTruncate? && !cfg.shortWrites
    requires Exec(cfg, Init(cfg), labels) == Some(s) && Completed(s)
    ensures |s.h.windows| == cfg.rotations >= Gone(cfg) && |rs| == cfg.rotations + 1
    ensures WindowsBetween(cfg, s.h.windows, rs, s.w.generated)
    ensures AllHold(cfg, Listing(s.os, active), rs[Gone(cfg)..])
  {
    hide *;
    CT.CopyRun(cfg, labels, s);
    WriterRun(cfg, labels, s);
    CopyResults.WholeRun(cfg, labels, s);
    FinalFiles(cfg, s);
    FinalWhole(cfg, s);
    AllWritten(cfg, s);
    var m := SplitTail(cfg, CT.Woven(s.os, s.h.made, s.h.windows), s.os.ReadPath(Active), s.w.generated);
    var cuts, losses := CopyResults.CutWoven(cfg, s.os, s.h.made, s.h.windows, m);
    CutsInOrder(cfg, s, cuts, losses, m);
    rs := Kept(cuts, losses, s.w.generated);
    LastFiles(cfg, s, rs);
    InodesHold(cfg, s, active, rs[Gone(cfg)..]);
  }

  lemma FinalFiles(cfg: Config, s: World)
    requires CT.CopyInv(cfg, s) && Completed(s)
    ensures RR.DirectoryInv(cfg, s.os, s.h) && s.h.removed == Gone(cfg) <= |s.h.made| && Active in s.os.names
    ensures |s.h.windows| == |s.h.made| == cfg.rotations
    ensures CT.Woven(s.os, s.h.made, s.h.windows) + s.os.ReadPath(Active) == s.h.out
  {
    hide CT.Woven;
  }

  lemma FinalWhole(cfg: Config, s: World)
    requires cfg.Encodable() && CT.CopyInv(cfg, s) && CopyResults.WholeInv(cfg, s) && Completed(s)
    ensures Whole(cfg, |s.os.ReadPath(Active)|)
    ensures forall i :: 0 <= i < |s.h.windows| ==>
      Whole(cfg, |s.h.windows[i]|) && Whole(cfg, |s.os.Read(s.h.made[i])|)
  {
    hide Whole, CT.Woven;
  }

  lemma CutsInOrder(cfg: Config, s: World, cuts: seq<nat>, losses: seq<nat>, m: nat)
    requires |s.h.windows| == |s.h.made| && m <= s.w.generated && Active in s.os.names
    requires CopyResults.CutAt(cfg, s.os, s.h.made, s.h.windows, cuts, losses) && cuts[|s.h.windows|] == m
    requires s.os.ReadPath(Active) == Stream(cfg, m, s.w.generated)
    ensures |cuts| == |losses| + 1 == |s.h.windows| + 1
    ensures WindowsBetween(cfg, s.h.windows, Kept(cuts, losses, s.w.generated), s.w.generated)
    ensures FilesAre(cfg, s.os, s.h.made + [s.os.names[Active]], Kept(cuts, losses, s.w.generated))
  {
    hide Stream;
    var rs, inodes := Kept(cuts, losses, s.w.generated), s.h.made + [s.os.names[Active]];
    forall i | 0 <= i < |losses|
      ensures rs[i].hi <= rs[i + 1].lo && Records(cfg, s.h.windows[i], Range(rs[i].hi, rs[i + 1].lo))
      ensures Records(cfg, s.os.Read(inodes[i]), rs[i])
    {
      assert CopyResults.Between(cfg, cuts[i], s.os.Read(s.h.made[i]), losses[i], s.h.windows[i], cuts[i + 1]);
    }
    hide Records;
  }

  lemma LastFiles(cfg: Config, s: World, rs: seq<Range>)
    requires Active in s.os.names && s.h.removed <= |s.h.made|
    requires FilesAre(cfg, s.os, s.h.made + [s.os.names[Active]], rs)
    ensures FilesAre(cfg, s.os, KeptInodes(s), rs[s.h.removed..])
  {
    hide Records, Os.Read;
    var all, from := s.h.made + [s.os.names[Active]], s.h.removed;
    assert KeptInodes(s) == all[from..];
    forall i | 0 <= i < |all| - from ensures Records(cfg, s.os.Read(all[from..][i]), rs[from..][i]) {
      assert all[from..][i] == all[from + i] && rs[from..][i] == rs[from + i];
    }
  }

  /** A completed copytruncate run has written records. */
  lemma CompletedCopy(cfg: Config, labels: seq<Label>, s: World)
    requires cfg.strategy.CopyTruncate? && Exec(cfg, Init(cfg), labels) == Some(s) && Completed(s)
    ensures cfg.Encodable() && cfg.runID != [] && s.w.generated > 0
  {
    hide *;
    CT.CopyRun(cfg, labels, s);
    WriterRun(cfg, labels, s);
    CopyResults.WroteRun(cfg, labels, s);
    AllWritten(cfg, s);
    SomethingCopied(cfg, s);
    SomethingWritten(cfg, s);
  }

  lemma SomethingCopied(cfg: Config, s: World)
    requires CT.CopyInv(cfg, s) && CopyResults.WroteInv(s) && Completed(s)
    ensures s.h.out != []
  {
    hide CT.ContentInv, CT.PartialInv, RR.DirectoryInv;
  }

  /** Where the first file still there begins: after the window of the last backup removed. */
  function FirstKept(lost: seq<Range>, gone: nat): nat {
    if 0 < gone <= |lost| then lost[gone - 1].hi else 0
  }

  /** A completed copytruncate run whose writes were whole and whose records can be read back: the analyzer finds nothing
      repeated, malformed, foreign or descending, and the missing numbers are exactly those up to the first file still
      there and, from there on, those of one contiguous interval a rotation, the records of that rotation's window. */
  lemma CopyRunLosesIntervals(cfg: Config, labels: seq<Label>, s: World, active: string, sources: seq<Source>)
    returns (lost: seq<Range>)
    requires cfg.strategy.CopyTruncate? && !cfg.shortWrites
    requires Legible(cfg) && s.w.generated < MAX_UINT64
    requires Exec(cfg, Init(cfg), labels) == Some(s) && Completed(s)
    requires multiset(sources) == multiset(Listing(s.os, active))
    ensures AllReadable(sources, |sources|)
    ensures WindowsAre(cfg, s.h.windows, lost) && |lost| == cfg.rotations >= Gone(cfg)
    ensures forall k :: k in MissingSet(Total(cfg.runID, sources).valid, s.w.generated) <==>
      1 <= k <= FirstKept(lost, Gone(cfg)) || k in Covered(lost[Gone(cfg)..])
    ensures var r := ReportOf(s.w.generated, Total(cfg.runID, sources), FileSets(cfg.runID, sources));
      && r.missing == FirstKept(lost, Gone(cfg)) + Size(lost[Gone(cfg)..])
      && r.validUnique == s.w.generated - r.missing && r.duplicates == 0
      && r.malformed == 0 && r.wrongRunID == 0 && r.descendingTransitions == 0
  {
    hide *;
    CompletedCopy(cfg, labels, s);
    IsReadback(cfg, s.w.generated);
    var rs := CopyFiles(cfg, labels, s, active);
    WindowsReport(cfg, s.w.generated, sources, Listing(s.os, active), s.h.windows, rs, Gone(cfg));
    lost := Gaps(rs);
  }

  /** And when the records cannot be read back, a file is unreadable or every record is missing: what legibility is
      asked for above is needed. */
  lemma CopyRunIllegible(cfg: Config, labels: seq<Label>, s: World, active: string, sources: seq<Source>)
    requires cfg.strategy.CopyTruncate? && !cfg.shortWrites
    requires !Legible(cfg) && s.w.generated < MAX_UINT64
    requires Exec(cfg, Init(cfg), labels) == Some(s) && Completed(s)
    requires multiset(sources) == multiset(Listing(s.os, active))
    ensures AllReadable(sources, |sources|) ==>
      ReportOf(s.w.generated, Total(cfg.runID, sources), FileSets(cfg.runID, sources)).missing == s.w.generated > 0
  {
    hide *;
    CompletedCopy(cfg, labels, s);
    NotPlainOrTooLong(cfg);
    if R.PlainRunID(cfg.runID) {
      var rs := CopyFiles(cfg, labels, s, active);
      WindowsInOrder(cfg, s.h.windows, rs, s.w.generated, Gone(cfg));
      var kept := rs[Gone(cfg)..];
      if Size(kept) > 0 {
        RangesTooLong(cfg, s.w.generated, sources, Listing(s.os, active), kept);
      } else {
        EmptyFiles(cfg, sources, Listing(s.os, active), kept);
      }
    } else {
      NothingValid(cfg.runID, sources);
    }
    if Total(cfg.runID, sources).valid == multiset{} {
      AllMissing(cfg, s.w.generated, sources);
    }
  }

  /** The ranges still there are in order, begin after the window of the last one gone, and have the later windows as
      their gaps. */
  lemma WindowsInOrder(cfg: Config, windows: seq<seq<byte>>, rs: seq<Range>, n: nat, gone: nat)
    requires WindowsBetween(cfg, windows, rs, n) && gone <= |windows|
    ensures |rs| == |windows| + 1
    ensures var kept := rs[gone..];
      && kept != [] && InOrder(kept) && kept[|kept| - 1].hi == n && kept[0].lo == FirstKept(Gaps(rs), gone)
    ensures InOrder(rs) && |Gaps(rs)| == |windows| && Gaps(rs[gone..]) == Gaps(rs)[gone..]
  {
    hide Records, Gaps;
    GapsInOrder(rs);
    LaterInOrder(rs, gone);
    hide InOrder;
    GapsInOrder(rs[gone..]);
    forall i | 0 <= i < |rs| - gone - 1 ensures Gaps(rs[gone..])[i] == Gaps(rs)[gone..][i] {
      assert rs[gone..][i] == rs[gone + i] && rs[gone..][i + 1] == rs[gone + i + 1];
    }
  }

  lemma LaterInOrder(rs: seq<Range>, gone: nat)
    requires InOrder(rs) && gone <= |rs|
    ensures InOrder(rs[gone..])
  {
  }

  /** Range i is what window i held, and the ranges are in order. */
  ghost predicate WindowsAre(cfg: Config, windows: seq<seq<byte>>, lost: seq<Range>) {
    |lost| == |windows| && InOrder(lost) && forall i :: 0 <= i < |lost| ==> Records(cfg, windows[i], lost[i])
  }

  lemma GapsAreWindows(cfg: Config, windows: seq<seq<byte>>, rs: seq<Range>, n: nat)
    requires WindowsBetween(cfg, windows, rs, n)
    ensures WindowsAre(cfg, windows, Gaps(rs))
  {
    hide InOrder, Records, Gaps;
    GapsInOrder(rs);
    forall i | 0 <= i < |windows| ensures Records(cfg, windows[i], Gaps(rs)[i]) {
      assert Gaps(rs)[i] == Range(rs[i].hi, rs[i + 1].lo);
    }
  }

  lemma WindowsReport(cfg: Config, generated: nat, sources: seq<Source>, listed: seq<Source>,
                      windows: seq<seq<byte>>, rs: seq<Range>, gone: nat)
    requires WindowsBetween(cfg, windows, rs, generated) && gone <= |windows|
    requires Readback(cfg, generated) && AllHold(cfg, listed, rs[gone..]) && multiset(sources) == multiset(listed)
    ensures AllReadable(sources, |sources|)
    ensures WindowsAre(cfg, windows, Gaps(rs)) && |Gaps(rs)| == |windows|
    ensures forall k :: k in MissingSet(Total(cfg.runID, sources).valid, generated) <==>
      1 <= k <= FirstKept(Gaps(rs), gone) || k in Covered(Gaps(rs)[gone..])
    ensures var r := ReportOf(generated, Total(cfg.runID, sources), FileSets(cfg.runID, sources));
      && r.missing == FirstKept(Gaps(rs), gone) + Size(Gaps(rs)[gone..])
      && r.validUnique == generated - r.missing && r.duplicates == 0
      && r.malformed == 0 && r.wrongRunID == 0 && r.descendingTransitions == 0
  {
    hide *;
    GapsAreWindows(cfg, windows, rs, generated);
    WindowsInOrder(cfg, windows, rs, generated, gone);
    var kept := rs[gone..];
    ReportOnRanges(cfg, generated, sources, listed, kept);
    BeforeAndBetween(kept);
    SizesAddUp(kept);
  }
}
