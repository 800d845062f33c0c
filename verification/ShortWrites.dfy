/** Copytruncate whatever the kernel accepts of each write: every file is cut at arbitrary bytes, and the analyzer finds
    exactly the records whose prefix one of the files holds. */
module ShortWrites {
  import opened Bytes
  import opened Lab
  import opened WriterStream
  import opened Integrity
  import opened IntegrityLaws
  import opened Ranges
  import opened TornFiles
  import opened EndToEnd
  import opened Acceptance
  import Sweep
  import CT = CopyTruncate
  import RR = RenameReopen

  /* ---- where the files are cut ---- */

  /** A backup holds bytes x to y of the stream and its window those from there to z. */
  ghost predicate Between(all: seq<byte>, x: nat, backup: seq<byte>, y: nat, window: seq<byte>, z: nat) {
    x <= y <= z <= |all| && backup == all[x..y] && window == all[y..z]
  }

  /** Backup i holds bytes starts[i] to stops[i], and its window those from there to starts[i + 1]. */
  ghost predicate CutAtBytes(os: Os, made: seq<nat>, windows: seq<seq<byte>>, all: seq<byte>, starts: seq<nat>,
                             stops: seq<nat>) {
    && |windows| <= |made| && |starts| == |windows| + 1 && |stops| == |windows| && starts[0] == 0
    && starts[|windows|] <= |all|
    && forall i :: 0 <= i < |windows| ==>
         Between(all, starts[i], os.Read(made[i]), stops[i], windows[i], starts[i + 1])
  }

  lemma {:induction false} WovenIsCut(os: Os, made: seq<nat>, windows: seq<seq<byte>>, all: seq<byte>, m: nat)
    returns (starts: seq<nat>, stops: seq<nat>)
    requires |windows| <= |made| && m <= |all| && CT.Woven(os, made, windows) == all[..m]
    ensures CutAtBytes(os, made, windows, all, starts, stops) && starts[|windows|] == m
    decreases |windows|
  {
    hide *;
    var t := |windows|;
    WovenUnfolds(os, made, windows);
    if t == 0 {
      starts, stops := [0], [];
      NothingCut(os, made, all);
    } else {
      var front, backup, window := windows[..t - 1], os.Read(made[t - 1]), windows[t - 1];
      var before := CT.Woven(os, made, front);
      var y := |before| + |backup|;
      ThreePieces(all, m, before, backup, window);
      starts, stops := WovenIsCut(os, made, front, all, |before|);
      CutLengths(os, made, front, all, starts, stops);
      CutFurther(os, made, windows, all, starts, stops, y, m);
      starts, stops := starts + [m], stops + [y];
    }
  }

  lemma WovenUnfolds(os: Os, made: seq<nat>, windows: seq<seq<byte>>)
    requires |windows| <= |made|
    ensures CT.Woven(os, made, windows) ==
      if windows == [] then []
      else
        var t := |windows| - 1;
        CT.Woven(os, made, windows[..t]) + os.Read(made[t]) + windows[t]
  {
    hide Os.Read;
  }

  lemma NothingCut(os: Os, made: seq<nat>, all: seq<byte>)
    ensures CutAtBytes(os, made, [], all, [0], [])
  {
  }

  lemma ThreePieces(all: seq<byte>, m: nat, before: seq<byte>, backup: seq<byte>, window: seq<byte>)
    requires m <= |all| && before + backup + window == all[..m]
    ensures before == all[..|before|] && |before| + |backup| <= m
    ensures Between(all, |before|, backup, |before| + |backup|, window, m)
  {
    var x, y := |before|, |before| + |backup|;
    var whole := before + backup + window;
    assert forall i :: 0 <= i < m ==> whole[i] == all[i];
    assert before == whole[..x] && backup == whole[x..y] && window == whole[y..];
  }

  lemma CutFurther(os: Os, made: seq<nat>, windows: seq<seq<byte>>, all: seq<byte>, starts: seq<nat>, stops: seq<nat>,
                   y: nat, m: nat)
    requires 0 < |windows| <= |made|
    requires CutAtBytes(os, made, windows[..|windows| - 1], all, starts, stops)
    requires Between(all, starts[|windows| - 1], os.Read(made[|windows| - 1]), y, windows[|windows| - 1], m)
    requires m <= |all|
    ensures CutAtBytes(os, made, windows, all, starts + [m], stops + [y])
  {
    hide Between, Os.Read;
    var t, starts', stops' := |windows| - 1, starts + [m], stops + [y];
    forall i | 0 <= i < |windows|
      ensures Between(all, starts'[i], os.Read(made[i]), stops'[i], windows[i], starts'[i + 1])
    {
      if i < t {
        assert windows[..t][i] == windows[i] && starts'[i + 1] == starts[i + 1];
      }
    }
  }

  /** The same of all files of a completed run, the last of which is the active one. */
  ghost predicate FilesCut(cfg: Config, s: World, starts: seq<nat>, stops: seq<nat>) {
    var t, all := |s.h.windows|, Stream(cfg, 0, s.w.generated);
    && |starts| == |stops| == t + 1 && stops[t] == |all| && starts[t] <= |all|
    && CutAtBytes(s.os, s.h.made, s.h.windows, all, starts, stops[..t])
    && s.os.ReadPath(Active) == all[starts[t]..]
  }

  lemma FilesAreCut(cfg: Config, s: World) returns (starts: seq<nat>, stops: seq<nat>)
    requires |s.h.windows| == |s.h.made|
    requires CT.Woven(s.os, s.h.made, s.h.windows) + s.os.ReadPath(Active) == Stream(cfg, 0, s.w.generated)
    ensures FilesCut(cfg, s, starts, stops)
  {
    var all, front := Stream(cfg, 0, s.w.generated), CT.Woven(s.os, s.h.made, s.h.windows);
    hide *;
    FrontAndRest(front, s.os.ReadPath(Active), all);
    starts, stops := WovenIsCut(s.os, s.h.made, s.h.windows, all, |front|);
    CutLengths(s.os, s.h.made, s.h.windows, all, starts, stops);
    ActiveIsLast(cfg, s, starts, stops);
    stops := stops + [|all|];
  }

  lemma ActiveIsLast(cfg: Config, s: World, starts: seq<nat>, stops: seq<nat>)
    requires var all := Stream(cfg, 0, s.w.generated);
      && |starts| == |s.h.windows| + 1 && |stops| == |s.h.windows| && starts[|s.h.windows|] <= |all|
      && CutAtBytes(s.os, s.h.made, s.h.windows, all, starts, stops)
      && s.os.ReadPath(Active) == all[starts[|s.h.windows|]..]
    ensures FilesCut(cfg, s, starts, stops + [|Stream(cfg, 0, s.w.generated)|])
  {
    hide Stream, CutAtBytes, Os.ReadPath;
    assert (stops + [|Stream(cfg, 0, s.w.generated)|])[..|s.h.windows|] == stops;
  }

  lemma FrontAndRest(front: seq<byte>, rest: seq<byte>, all: seq<byte>)
    requires front + rest == all
    ensures front == all[..|front|] && rest == all[|front|..]
  {
  }

  lemma CutLengths(os: Os, made: seq<nat>, windows: seq<seq<byte>>, all: seq<byte>, starts: seq<nat>, stops: seq<nat>)
    requires CutAtBytes(os, made, windows, all, starts, stops)
    ensures |starts| == |windows| + 1 && |stops| == |windows| && starts[|windows|] <= |all|
  {
  }

  /* ---- what the files read as ---- */

  function ReadRanges(cfg: Config, starts: seq<nat>, stops: seq<nat>): (rs: seq<Range>)
    requires cfg.recordBytes > 0 && |starts| == |stops|
    ensures |rs| == |starts| && forall i :: 0 <= i < |rs| ==> rs[i] == ReadRange(cfg, starts[i], stops[i])
  {
    seq(|starts|, i requires 0 <= i < |starts| => ReadRange(cfg, starts[i], stops[i]))
  }

  function TornLines(cfg: Config, starts: seq<nat>, stops: seq<nat>): (bads: seq<nat>)
    requires cfg.recordBytes > 0 && |starts| == |stops|
    ensures |bads| == |starts| && forall i :: 0 <= i < |bads| ==> bads[i] == Torn(cfg, starts[i], stops[i])
  {
    seq(|starts|, i requires 0 <= i < |starts| => Torn(cfg, starts[i], stops[i]))
  }

  /** Each file holds its stretch of the stream, and the stretches follow each other. */
  ghost predicate Stretches(all: seq<byte>, sources: seq<Source>, starts: seq<nat>, stops: seq<nat>) {
    && |sources| == |starts| == |stops|
    && (forall i :: 0 <= i < |starts| ==> starts[i] <= stops[i] <= |all|)
    && (forall i :: 0 <= i < |starts| - 1 ==> stops[i] <= starts[i + 1])
    && forall i :: 0 <= i < |starts| ==> sources[i].content == Some(all[starts[i]..stops[i]])
  }

  lemma StretchesRead(cfg: Config, n: nat, sources: seq<Source>, starts: seq<nat>, stops: seq<nat>)
    requires Readback(cfg, n) && Stretches(Stream(cfg, 0, n), sources, starts, stops) && starts != []
    requires stops[|stops| - 1] == |Stream(cfg, 0, n)|
    ensures cfg.recordBytes > 0
    ensures AllRead(cfg.runID, sources, ReadRanges(cfg, starts, stops), TornLines(cfg, starts, stops))
    ensures var rs := ReadRanges(cfg, starts, stops); InOrder(rs) && rs[|rs| - 1].hi == n
  {
    ReadbackFacts(cfg, n);
    hide Readback, Stream, ReadRange, Torn, ReadsAs, PrefixBytes;
    var rs, bads := ReadRanges(cfg, starts, stops), TornLines(cfg, starts, stops);
    forall i | 0 <= i < |rs| ensures ReadsAs(cfg.runID, sources[i], rs[i], bads[i]) && rs[i].lo <= rs[i].hi {
      SliceReads(cfg, n, starts[i], stops[i], sources[i]);
      LoBeforeHi(cfg, starts[i], stops[i]);
    }
    forall i | 0 <= i < |rs| - 1 ensures rs[i].hi <= rs[i + 1].lo {
      ReadInOrder(cfg, starts[i], stops[i], starts[i + 1], stops[i + 1]);
    }
    ReadToTheEnd(cfg, n, starts[|starts| - 1]);
  }

  lemma LoBeforeHi(cfg: Config, x: nat, y: nat)
    requires cfg.recordBytes > 0
    ensures ReadRange(cfg, x, y).lo <= ReadRange(cfg, x, y).hi
  {
  }

  /** The inodes, backups first, hold their stretches of the stream. */
  ghost predicate InodesCut(os: Os, inodes: seq<nat>, all: seq<byte>, starts: seq<nat>, stops: seq<nat>) {
    && |inodes| == |starts| == |stops|
    && (forall i :: 0 <= i < |starts| ==> starts[i] <= stops[i] <= |all|)
    && (forall i :: 0 <= i < |starts| - 1 ==> stops[i] <= starts[i + 1])
    && forall i :: 0 <= i < |starts| ==> os.Read(inodes[i]) == all[starts[i]..stops[i]]
  }

  lemma AllInodesCut(cfg: Config, s: World, starts: seq<nat>, stops: seq<nat>)
    requires Active in s.os.names && |s.h.windows| == |s.h.made| && FilesCut(cfg, s, starts, stops)
    ensures InodesCut(s.os, s.h.made + [s.os.names[Active]], Stream(cfg, 0, s.w.generated), starts, stops)
  {
    hide Stream, Os.Read;
    var all, t := Stream(cfg, 0, s.w.generated), |s.h.windows|;
    var inodes := s.h.made + [s.os.names[Active]];
    forall i | 0 <= i <= t
      ensures starts[i] <= stops[i] <= |all| && s.os.Read(inodes[i]) == all[starts[i]..stops[i]]
      ensures i < t ==> stops[i] <= starts[i + 1]
    {
      if i < t {
        assert stops[..t][i] == stops[i];
        assert Between(all, starts[i], s.os.Read(s.h.made[i]), stops[..t][i], s.h.windows[i], starts[i + 1]);
      }
    }
  }

  lemma LaterCut(os: Os, inodes: seq<nat>, all: seq<byte>, starts: seq<nat>, stops: seq<nat>, from: nat)
    requires InodesCut(os, inodes, all, starts, stops) && from <= |inodes|
    ensures InodesCut(os, inodes[from..], all, starts[from..], stops[from..])
  {
    hide Os.Read;
    forall i | 0 <= i < |inodes| - from
      ensures starts[from..][i] <= stops[from..][i] <= |all|
      ensures os.Read(inodes[from..][i]) == all[starts[from..][i]..stops[from..][i]]
      ensures i < |inodes| - from - 1 ==> stops[from..][i] <= starts[from..][i + 1]
    {
      assert starts[from..][i] == starts[from + i] && stops[from..][i] == stops[from + i];
      assert inodes[from..][i] == inodes[from + i];
    }
  }

  /** The files still there, from the first that retention has kept. */
  lemma KeptStretches(cfg: Config, s: World, active: string, starts: seq<nat>, stops: seq<nat>)
    requires RR.DirectoryInv(cfg, s.os, s.h) && Active in s.os.names && |s.h.windows| == |s.h.made|
    requires FilesCut(cfg, s, starts, stops) && s.h.removed <= |s.h.made|
    ensures |starts| == |stops| == |s.h.made| + 1
    ensures Stretches(Stream(cfg, 0, s.w.generated), Listing(s.os, active), starts[s.h.removed..], stops[s.h.removed..])
  {
    var inodes := s.h.made + [s.os.names[Active]];
    FilesCutFacts(cfg, s, starts, stops);
    assert KeptInodes(s) == inodes[s.h.removed..];
    hide Stream, Listing, Os.Read, RR.DirectoryInv, KeptInodes, InodesCut, FilesCut;
    AllInodesCut(cfg, s, starts, stops);
    LaterCut(s.os, inodes, Stream(cfg, 0, s.w.generated), starts, stops, s.h.removed);
    ListingIs(cfg, s, active);
    ListedStretches(s, Listing(s.os, active), Stream(cfg, 0, s.w.generated), starts[s.h.removed..],
                    stops[s.h.removed..]);
  }

  lemma ListedStretches(s: World, listed: seq<Source>, all: seq<byte>, starts: seq<nat>, stops: seq<nat>)
    requires InodesCut(s.os, KeptInodes(s), all, starts, stops) && |listed| == |KeptInodes(s)|
    requires forall i :: 0 <= i < |listed| ==> listed[i].content == Some(s.os.Read(KeptInodes(s)[i]))
    ensures Stretches(all, listed, starts, stops)
  {
    hide KeptInodes, Os.Read;
  }

  /* ---- the report ---- */

  /** Some file, from the one numbered gone on, holds the whole prefix of record k. */
  ghost predicate PrefixKept(cfg: Config, starts: seq<nat>, stops: seq<nat>, gone: nat, k: nat)
    requires cfg.recordBytes > 0 && k > 0 && |starts| == |stops|
  {
    var at := Offset(cfg.recordBytes, k - 1, 0);
    exists i :: gone <= i < |starts| && starts[i] <= at && at + PrefixBytes(cfg) <= stops[i]
  }

  lemma {:induction false} CoveredIn(rs: seq<Range>, k: nat)
    ensures k in Covered(rs) <==> exists i :: 0 <= i < |rs| && k in Span(rs[i])
  {
    if rs != [] {
      var front, last := rs[..|rs| - 1], rs[|rs| - 1];
      CoveredSplit(rs, k);
      CoveredIn(front, k);
      hide Covered, Span;
      if i :| 0 <= i < |rs| && k in Span(rs[i]) {
        assert i < |front| ==> front[i] == rs[i];
      }
      if i :| 0 <= i < |front| && k in Span(front[i]) {
        assert rs[i] == front[i];
      }
    }
  }

  lemma ReadIsKept(cfg: Config, starts: seq<nat>, stops: seq<nat>, k: nat)
    requires 0 < PrefixBytes(cfg) < cfg.recordBytes && k > 0 && |starts| == |stops|
    ensures k in Covered(ReadRanges(cfg, starts, stops)) <==> PrefixKept(cfg, starts, stops, 0, k)
  {
    var rs := ReadRanges(cfg, starts, stops);
    CoveredIn(rs, k);
    hide PrefixBytes, Covered, Span, ReadRange, Offset;
    forall i | 0 <= i < |rs|
      ensures k in Span(rs[i]) <==>
        starts[i] <= Offset(cfg.recordBytes, k - 1, 0) && Offset(cfg.recordBytes, k - 1, 0) + PrefixBytes(cfg) <= stops[i]
    {
      ReadExactly(cfg, starts[i], stops[i], k);
    }
  }

  lemma LaterKept(cfg: Config, starts: seq<nat>, stops: seq<nat>, gone: nat, k: nat)
    requires cfg.recordBytes > 0 && k > 0 && |starts| == |stops| && gone <= |starts|
    ensures PrefixKept(cfg, starts[gone..], stops[gone..], 0, k) <==> PrefixKept(cfg, starts, stops, gone, k)
  {
    hide Offset, PrefixBytes;
    var at := Offset(cfg.recordBytes, k - 1, 0);
    if i :| gone <= i < |starts| && starts[i] <= at && at + PrefixBytes(cfg) <= stops[i] {
      assert starts[gone..][i - gone] == starts[i] && stops[gone..][i - gone] == stops[i];
    }
    if i :| 0 <= i < |starts| - gone && starts[gone..][i] <= at && at + PrefixBytes(cfg) <= stops[gone..][i] {
      assert starts[gone..][i] == starts[gone + i] && stops[gone..][i] == stops[gone + i];
    }
  }

  lemma {:induction false} SumAtMost(s: seq<nat>)
    requires forall i :: 0 <= i < |s| ==> s[i] <= 2
    ensures Sum(s) <= 2 * |s| && (s != [] && s[0] <= 1 ==> Sum(s) <= 2 * |s| - 1)
  {
    if s != [] {
      SumAtMost(s[..|s| - 1]);
    }
  }

  /** No more than two torn lines a rotation. */
  lemma TornBound(cfg: Config, n: nat, starts: seq<nat>, stops: seq<nat>, gone: nat)
    requires Readback(cfg, n) && |starts| == |stops| > 1 && gone < |starts| && starts[0] == 0
    requires starts[|starts| - 1] <= |Stream(cfg, 0, n)| == stops[|stops| - 1]
    ensures cfg.recordBytes > 0
    ensures Sum(TornLines(cfg, starts[gone..], stops[gone..])) <= 2 * (|starts| - 1)
  {
    ReadbackFacts(cfg, n);
    hide Readback, Stream, Torn, PrefixBytes;
    var bads := TornLines(cfg, starts[gone..], stops[gone..]);
    forall i | 0 <= i < |bads| ensures bads[i] <= 2 && (gone == i == 0 ==> bads[i] <= 1) {
      TornAtMostTwo(cfg, starts[gone..][i], stops[gone..][i]);
    }
    ReadToTheEnd(cfg, n, starts[|starts| - 1]);
    var front, last := bads[..|bads| - 1], bads[|bads| - 1];
    assert Sum(bads) == Sum(front) + last && last <= 1;
    SumAtMost(front);
  }

  /** The analyzer over files that hold stretches of the stream. */
  lemma StretchesReport(cfg: Config, n: nat, sources: seq<Source>, listed: seq<Source>, starts: seq<nat>,
                        stops: seq<nat>)
    requires Readback(cfg, n) && Stretches(Stream(cfg, 0, n), listed, starts, stops)
    requires |starts| == |stops| > 0 && stops[|stops| - 1] == |Stream(cfg, 0, n)| && multiset(sources) == multiset(listed)
    ensures cfg.recordBytes > 0 && AllReadable(sources, |sources|)
    ensures forall k :: 1 <= k <= n ==>
      (k in MissingSet(Total(cfg.runID, sources).valid, n) <==> !PrefixKept(cfg, starts, stops, 0, k))
    ensures var r := ReportOf(n, Total(cfg.runID, sources), FileSets(cfg.runID, sources));
      && r.duplicates == 0 && r.descendingTransitions == 0 && r.validUnique == n - r.missing
      && r.malformed + r.wrongRunID == Sum(TornLines(cfg, starts, stops))
  {
    hide *;
    ReadbackFacts(cfg, n);
    StretchesRead(cfg, n, listed, starts, stops);
    var rs, bads := ReadRanges(cfg, starts, stops), TornLines(cfg, starts, stops);
    ReportOnRead(cfg.runID, n, sources, listed, rs, bads);
    FromStartInOrder(rs);
    FromStartCovers(rs);
    SizesAddUp(FromStart(rs));
    forall k | 1 <= k <= n
      ensures k in MissingSet(Total(cfg.runID, sources).valid, n) <==> !PrefixKept(cfg, starts, stops, 0, k)
    {
      CoveredOrMissed(FromStart(rs), k);
      ReadIsKept(cfg, starts, stops, k);
    }
  }

  /** Every completed copytruncate run with a readable configuration, whatever the kernel accepted of each write and
      whatever retention removed: each file is a stretch of the records' bytes and each window the stretch after its
      backup; the analyzer over the files, in any order, finds nothing repeated or descending, misses exactly the records
      whose prefix no file still there holds, and complains of the torn lines, at most two a rotation. */
  lemma CopyRunReads(cfg: Config, labels: seq<Label>, s: World, active: string, sources: seq<Source>)
    returns (starts: seq<nat>, stops: seq<nat>)
    requires cfg.strategy.CopyTruncate? && Legible(cfg) && s.w.generated < MAX_UINT64
    requires Exec(cfg, Init(cfg), labels) == Some(s) && Completed(s)
    requires multiset(sources) == multiset(Listing(s.os, active))
    ensures FilesCut(cfg, s, starts, stops) && |starts| == |stops| == cfg.rotations + 1 > Gone(cfg)
    ensures cfg.recordBytes > 0 && AllReadable(sources, |sources|)
    ensures forall k :: 1 <= k <= s.w.generated ==>
      (k in MissingSet(Total(cfg.runID, sources).valid, s.w.generated) <==>
       !PrefixKept(cfg, starts, stops, Gone(cfg), k))
    ensures var r := ReportOf(s.w.generated, Total(cfg.runID, sources), FileSets(cfg.runID, sources));
      && r.duplicates == 0 && r.descendingTransitions == 0 && r.validUnique == s.w.generated - r.missing
      && r.malformed + r.wrongRunID == Sum(TornLines(cfg, starts[Gone(cfg)..], stops[Gone(cfg)..]))
      && r.malformed + r.wrongRunID <= 2 * cfg.rotations
  {
    hide *;
    CompletedCopy(cfg, labels, s);
    IsReadback(cfg, s.w.generated);
    CT.CopyRun(cfg, labels, s);
    WriterRun(cfg, labels, s);
    FinalFiles(cfg, s);
    AllWritten(cfg, s);
    starts, stops := FilesAreCut(cfg, s);
    FilesCutFacts(cfg, s, starts, stops);
    KeptStretches(cfg, s, active, starts, stops);
    var gone := Gone(cfg);
    RotationsAre(cfg, labels, s);
    StretchesReport(cfg, s.w.generated, sources, Listing(s.os, active), starts[gone..], stops[gone..]);
    TornBound(cfg, s.w.generated, starts, stops, gone);
    forall k | 1 <= k <= s.w.generated
      ensures k in MissingSet(Total(cfg.runID, sources).valid, s.w.generated) <==>
        !PrefixKept(cfg, starts, stops, gone, k)
    {
      LaterKept(cfg, starts, stops, gone, k);
    }
  }

  lemma RotationsAre(cfg: Config, labels: seq<Label>, s: World)
    requires cfg.strategy.CopyTruncate? && Exec(cfg, Init(cfg), labels) == Some(s) && Completed(s)
    ensures cfg.rotations > 0
  {
    CT.CopyRun(cfg, labels, s);
  }

  lemma FilesCutFacts(cfg: Config, s: World, starts: seq<nat>, stops: seq<nat>)
    requires FilesCut(cfg, s, starts, stops)
    ensures |starts| == |stops| == |s.h.windows| + 1 && starts[0] == 0
    ensures starts[|starts| - 1] <= |Stream(cfg, 0, s.w.generated)| == stops[|stops| - 1]
  {
  }

  /** A completed copytruncate run through the harness and the sweep: whatever its rotations lost, tore or let repeat, the
      run succeeds and the attempt passes if and only if everything around the run went well and its files could be read,
      which they can when the configuration is legible. */
  method JudgeCopyRun(cfg: Config, ghost labels: seq<Label>, s: World, ghost active: string, sources: seq<Source>,
                      around: Finish, limit: int, repetition: int)
    returns (verdict: Result<Summary, RunError>, attempt: Sweep.Attempt)
    requires cfg.strategy.CopyTruncate? && s.w.generated < MAX_UINT64
    requires Exec(cfg, Init(cfg), labels) == Some(s) && Completed(s)
    requires multiset(sources) == multiset(Listing(s.os, active))
    ensures verdict.Ok? && verdict.value.success <==> around.Around() && AllReadable(sources, |sources|)
    ensures attempt.passed <==> around.Around() && AllReadable(sources, |sources|)
    ensures attempt.kind == if attempt.passed then Sweep.NoFailure else Sweep.FunctionalFailure
    ensures Legible(cfg) ==> AllReadable(sources, |sources|)
    ensures verdict.Ok? ==> verdict.value.report.expected == s.w.generated
    ensures verdict.Ok? && Legible(cfg) ==>
      var r := verdict.value.report;
      r.duplicates == 0 && r.descendingTransitions == 0 && r.malformed + r.wrongRunID <= 2 * cfg.rotations
  {
    hide Exec, Init, Total, FileSets, AllReadable, Listing, MissingList, Distinct, Repeats, FilesCut, PrefixKept, TornLines,
      Legible, Sum;
    if Legible(cfg) {
      var starts, stops := CopyRunReads(cfg, labels, s, active, sources);
    }
    NoFailedReopen(cfg, labels, s);
    var finish := around.(rotator := s.r.pc == Exited(true), writer := s.w.pc.Stopped? && s.w.pc.ok);
    verdict := Conclude(cfg.strategy, cfg.runID, finish, s.w.generated, s.w.reopenFailures, sources);
    attempt := ClassifyRun(cfg.strategy, Sweep.Request(limit, repetition), verdict);
  }

  lemma NoFailedReopen(cfg: Config, labels: seq<Label>, s: World)
    requires Exec(cfg, Init(cfg), labels) == Some(s) && Completed(s)
    ensures s.w.reopenFailures == 0
  {
    hide *;
    WriterRun(cfg, labels, s);
    AllWritten(cfg, s);
  }
}
