/** Retention and the replay: the files that survive are the end of the generated records exactly when no flush was
    replayed. */
module Survivors {
  import opened Arithmetic
  import opened Bytes
  import opened Lab
  import opened WriterStream
  import opened RenameReopen
  import opened RenameResults
  import opened Boundaries
  import R = Record

  /* ---- both copies of replayed bytes are in the file the writer has open ---- */

  /** The file the writer has open holds what went out of the flush in progress; after a replay it holds everything since
      the start of the replayed buffer, which was a record boundary. */
  ghost predicate ReplayInv(cfg: Config, s: World) {
    && (s.w.pc.Flushing? ==> |s.os.Read(s.w.file)| >= s.w.pc.done)
    && (s.h.replayed > 0 ==>
          && cfg.implementation.GoWriter? && cfg.Encodable()
          && s.h.mark >= s.h.replayed && Whole(cfg, s.h.mark - s.h.replayed)
          && |s.h.out| - |s.os.Read(s.w.file)| <= s.h.mark - s.h.replayed)
  }

  lemma WriterReplay(cfg: Config, s: World, l: Label)
    requires ReplayInv(cfg, s) && WriterInv(cfg, s) && Next(cfg, s, l).Some? && !RotatorLabel(l)
    ensures ReplayInv(cfg, Next(cfg, s, l).value)
  {
    hide Stream, RecordsIn, Accounted, Whole, AfterAdvance;
    if l.WriteError? && Replays(cfg, s, l) {
      ReplayStarts(cfg, s);
    } else if l.Write? {
      hide WriterInv, AfterWriteError;
      assert |AfterWrite(cfg, s, l.count).os.Read(s.w.file)| == |s.os.Read(s.w.file)| + l.count;
    }
  }

  lemma ReplayStarts(cfg: Config, s: World)
    requires ReplayInv(cfg, s) && WriterInv(cfg, s) && Replays(cfg, s, WriteError)
    ensures ReplayInv(cfg, AfterWriteError(cfg, s))
  {
    hide Stream, Whole, Accounted;
    assert cfg.Encodable();
    AccountedOnce(s.h, s.w.Pending(), Stream(cfg, 0, s.w.generated));
    StreamSplit(cfg, 0, s.w.written, s.w.generated);
    assert |s.h.out| - s.w.pc.done == |Stream(cfg, 0, s.w.written)|;
    WholeStream(cfg, 0, s.w.written);
  }

  lemma RotatorReplay(cfg: Config, s: World, l: Label)
    requires ReplayInv(cfg, s) && RenameInv(cfg, s) && cfg.strategy.RenameReopen?
    requires Next(cfg, s, l).Some? && RotatorLabel(l)
    ensures ReplayInv(cfg, Next(cfg, s, l).value)
  {
    RotatorPcs(cfg, s);
    RotatorLeavesWriter(cfg, s, l);
    FileStays(cfg, s, l);
    hide Next, RenameInv, Os.Read;
  }

  lemma FileStays(cfg: Config, s: World, l: Label)
    requires RenameInv(cfg, s) && cfg.strategy.RenameReopen? && Next(cfg, s, l).Some? && RotatorLabel(l)
    ensures Next(cfg, s, l).value.os.Read(s.w.file) == s.os.Read(s.w.file)
  {
    hide RenameInv, AfterAdvance;
    RotatorPcs(cfg, s);
    if l.Advance? {
      if s.r.pc.CreateReplacement? {
        CreateLeavesFile(cfg, s);
      } else if s.r.pc.RenameActive? {
        RenameLeavesData(cfg, s);
      } else {
        PlainAdvance(cfg, s);
      }
    }
  }

  lemma RenameLeavesData(cfg: Config, s: World)
    requires s.r.pc.RenameActive?
    ensures AfterAdvance(cfg, s).value.os.data == s.os.data
  {
  }

  lemma CreateLeavesFile(cfg: Config, s: World)
    requires RenameInv(cfg, s) && s.r.pc.CreateReplacement?
    ensures AfterAdvance(cfg, s).value.os.Read(s.w.file) == s.os.Read(s.w.file)
  {
    hide Joined, DirectoryInv, CountInv;
  }

  lemma {:induction false} ReplayRun(cfg: Config, labels: seq<Label>, s: World)
    requires cfg.strategy.RenameReopen? && Exec(cfg, Init(cfg), labels) == Some(s)
    ensures ReplayInv(cfg, s)
  {
    if labels != [] {
      hide ReplayInv, RenameInv, WriterInv;
      var front, l := labels[..|labels| - 1], labels[|labels| - 1];
      var m := Exec(cfg, Init(cfg), front).value;
      ReplayRun(cfg, front, m);
      RenameRun(cfg, front, m);
      WriterRun(cfg, front, m);
      if RotatorLabel(l) {
        RotatorReplay(cfg, m, l);
      } else {
        WriterReplay(cfg, m, l);
      }
    }
  }

  /** What retention has removed went out before the file the writer has open. */
  lemma RemovedBeforeOpenFile(cfg: Config, s: World)
    requires RenameInv(cfg, s)
    ensures s.h.removed <= |s.h.made|
    ensures |Joined(s.os, s.h.made[..s.h.removed])| + |s.os.Read(s.w.file)| <= |s.h.out| || s.h.out == []
  {
    OpenFileIsKept(cfg, s);
    OutParts(cfg, s);
    hide RenameInv, Joined, Attached;
    var kept := s.h.made[s.h.removed..];
    if kept != [] && kept[|kept| - 1] == s.w.file {
      JoinedAtLeast(s.os, kept, |kept| - 1);
    }
  }

  /** The open file is the active one or the newest backup, which retention has kept. */
  lemma OpenFileIsKept(cfg: Config, s: World)
    requires RenameInv(cfg, s)
    ensures s.h.removed <= |s.h.made|
    ensures var kept := s.h.made[s.h.removed..];
      || s.h.out == [] || s.os.ReadPath(Active) == s.os.Read(s.w.file)
      || (kept != [] && kept[|kept| - 1] == s.w.file)
  {
    hide ContentInv, CountInv;
  }

  lemma OutParts(cfg: Config, s: World)
    requires RenameInv(cfg, s) && s.h.removed <= |s.h.made|
    ensures |s.h.out| == |Joined(s.os, s.h.made[..s.h.removed])| + |Joined(s.os, s.h.made[s.h.removed..])|
                         + |s.os.ReadPath(Active)|
  {
    hide Joined, DirectoryInv, LinkInv, CountInv;
    assert s.h.made == s.h.made[..s.h.removed] + s.h.made[s.h.removed..];
    JoinedConcat(s.os, s.h.made[..s.h.removed], s.h.made[s.h.removed..]);
  }

  /* ---- a replay shows ---- */

  /** The newlines of the stream are the ends of its records. */
  lemma NewlineEnds(cfg: Config, n: nat, i: nat, j: nat)
    requires cfg.Encodable() && NEWLINE !in cfg.runID && i < n && j < cfg.recordBytes
    ensures Offset(cfg.recordBytes, i, j) < |Stream(cfg, 0, n)|
    ensures Stream(cfg, 0, n)[Offset(cfg.recordBytes, i, j)] == NEWLINE <==> j == cfg.recordBytes - 1
  {
    RecordAt(cfg, n, i, j);
    R.NoNewlineInside(cfg.runID, i + 1, cfg.recordBytes);
    var record := R.Encoded(cfg.runID, i + 1, cfg.recordBytes);
    hide *;
    if j < cfg.recordBytes - 1 {
      assert record[j] == record[..cfg.recordBytes - 1][j];
    }
  }

  /** No record is the same as another. */
  lemma RecordsDiffer(runID: seq<byte>, a: nat, b: nat, size: nat)
    requires R.LegalRunID(runID) && size >= R.MinimumSize(runID) && a < b <= MAX_UINT64
    ensures R.Encoded(runID, a, size) != R.Encoded(runID, b, size)
  {
    R.EncodeThenParse(runID, a, size);
    R.EncodeThenParse(runID, b, size);
  }

  lemma SomeByteDiffers(cfg: Config, n: nat, a: nat, b: nat) returns (t: nat)
    requires cfg.Encodable() && cfg.implementation.GoWriter? && a < b < n <= MAX_UINT64
    ensures t < cfg.recordBytes
    ensures var all, p, q := Stream(cfg, 0, n), Offset(cfg.recordBytes, a, t), Offset(cfg.recordBytes, b, t);
      p < |all| && q < |all| && all[p] != all[q]
  {
    hide Offset;
    RecordsDiffer(cfg.runID, a + 1, b + 1, cfg.recordBytes);
    t := Difference(R.Encoded(cfg.runID, a + 1, cfg.recordBytes), R.Encoded(cfg.runID, b + 1, cfg.recordBytes));
    RecordAt(cfg, n, a, t);
    RecordAt(cfg, n, b, t);
  }

  lemma Difference(a: seq<byte>, b: seq<byte>) returns (t: nat)
    requires |a| == |b| && a != b
    ensures t < |a| && a[t] != b[t]
  {
    t :| t < |a| && a[t] != b[t];
  }

  /** Where a stretch of replayed bytes up to mark begins with a record, the stretch before it is not the same. */
  lemma NothingRepeats(cfg: Config, n: nat, mark: nat, replayed: nat) returns (k: nat)
    requires cfg.Encodable() && cfg.implementation.GoWriter? && n <= MAX_UINT64
    requires 0 < replayed && 2 * replayed <= mark <= |Stream(cfg, 0, n)| && Whole(cfg, mark - replayed)
    ensures mark - replayed <= k < mark && Stream(cfg, 0, n)[k] != Stream(cfg, 0, n)[k - replayed]
  {
    var size := cfg.recordBytes;
    hide *;
    GoRunID(cfg);
    var a, b, i, j := Places(cfg, n, mark, replayed);
    if j < size - 1 {
      k := mark - 1;
      NewlineEnds(cfg, n, i, j);
      NewlineEnds(cfg, n, b - 1, size - 1);
    } else {
      var t := SomeByteDiffers(cfg, n, a, b);
      k := Offset(size, b, t);
      ApartAt(size, a, b, mark, replayed, t);
    }
  }

  lemma GoRunID(cfg: Config)
    requires cfg.Encodable() && cfg.implementation.GoWriter?
    ensures cfg.recordBytes > 0 && NEWLINE !in cfg.runID
  {
  }

  /** Record b + 1 stands before mark, and replayed bytes after record a + 1. */
  ghost predicate Apart(size: nat, a: nat, b: nat, mark: nat, replayed: nat) {
    forall t :: 0 <= t < size ==>
      && Offset(size, a, t) == Offset(size, b, t) - replayed
      && mark - replayed <= Offset(size, b, t) < mark
  }

  lemma ApartAt(size: nat, a: nat, b: nat, mark: nat, replayed: nat, t: nat)
    requires Apart(size, a, b, mark, replayed) && t < size
    ensures Offset(size, a, t) == Offset(size, b, t) - replayed
    ensures mark - replayed <= Offset(size, b, t) < mark
  {
    hide Offset;
  }

  /** The stretch begins with record b + 1 and ends with byte j of record i + 1; when that is its last byte, record a + 1
      stands as far before record b + 1 as the stretch is long. */
  lemma Places(cfg: Config, n: nat, mark: nat, replayed: nat) returns (a: nat, b: nat, i: nat, j: nat)
    requires cfg.Encodable()
    requires 0 < replayed && 2 * replayed <= mark <= |Stream(cfg, 0, n)| && Whole(cfg, mark - replayed)
    ensures i < n && 0 < b <= n && j < cfg.recordBytes && mark - 1 == Offset(cfg.recordBytes, i, j)
    ensures mark - 1 - replayed == Offset(cfg.recordBytes, b - 1, cfg.recordBytes - 1)
    ensures j == cfg.recordBytes - 1 ==> a < b < n && Apart(cfg.recordBytes, a, b, mark, replayed)
  {
    var size := cfg.recordBytes;
    assert size > 0;
    hide *;
    StreamLength(cfg, 0, n);
    b := WholeIs(cfg, mark - replayed);
    i, j := Divide(mark - 1, size);
    Positions(size, b, i, j, n, mark, replayed);
    a := 0;
    if j == size - 1 {
      a := RecordsApart(size, b, i + 1, mark, replayed);
    }
  }

  lemma Positions(size: nat, b: nat, i: nat, j: nat, n: nat, mark: nat, replayed: nat)
    requires mark - replayed == b * size && mark - 1 == i * size + j && j < size
    requires mark <= n * size && 0 < replayed && 2 * replayed <= mark
    ensures b > 0 && mark - 1 == Offset(size, i, j) && mark - 1 - replayed == Offset(size, b - 1, size - 1)
    ensures i < n && b <= n && (j == size - 1 ==> mark == (i + 1) * size)
  {
    BelowMultiple(i, j, n, size);
    BelowMultiple(b, 0, n, size);
    NotZero(b, size);
    MultipleMonotone(b - 1, b, size);
    MultipleMonotone(i, n, size);
  }

  lemma NotZero(b: nat, size: nat)
    requires b * size > 0
    ensures b > 0
  {
  }

  /** The record as far before the b-th as the e-th is after it. */
  lemma RecordsApart(size: nat, b: nat, e: nat, mark: nat, replayed: nat) returns (a: nat)
    requires mark - replayed == b * size && mark == e * size && 0 < replayed && 2 * replayed <= mark
    ensures a < b < e && Apart(size, a, b, mark, replayed)
  {
    BelowMultiple(b, 0, e, size);
    assert (b - (e - b)) * size == mark - 2 * replayed;
    NotNegative(b - (e - b), size);
    a := b - (e - b);
    forall t | 0 <= t < size
      ensures Offset(size, a, t) == Offset(size, b, t) - replayed && mark - replayed <= Offset(size, b, t) < mark
    {
      Moved(size, a, b, e, t, mark, replayed);
    }
  }

  lemma Moved(size: nat, a: nat, b: nat, e: nat, t: nat, mark: nat, replayed: nat)
    requires mark - replayed == b * size && mark == e * size && b < e && a == b - (e - b) && t < size
    ensures Offset(size, a, t) == Offset(size, b, t) - replayed
    ensures mark - replayed <= Offset(size, b, t) < mark
  {
    MultipleMonotone(b + 1, e, size);
  }

  lemma NotNegative(a: int, d: nat)
    requires a * d >= 0 && d > 0
    ensures a >= 0
  {
  }

  /* ---- exactly when ---- */

  lemma SuffixRepeats(all: seq<byte>, mark: nat, replayed: nat, gone: seq<byte>, rest: seq<byte>)
    requires replayed <= mark <= |all| && |gone| <= mark - replayed
    requires gone + rest == Replayed(all, mark, replayed) && IsSuffix(rest, all)
    ensures |gone| >= replayed && forall k :: |gone| <= k < mark ==> all[k] == all[k - replayed]
  {
    assert |rest| == |all| + replayed - |gone|;
    forall k | |gone| <= k < mark ensures all[k] == all[k - replayed] {
      assert (gone + rest)[k] == all[k];
      assert all[|all| - |rest|..][k - |gone|] == all[k - replayed];
    }
  }

  /** A replayed stream from which no more than what came before the replayed bytes is cut is not the end of the stream. */
  lemma NotASuffix(cfg: Config, n: nat, h: History, gone: seq<byte>, rest: seq<byte>)
    requires cfg.Encodable() && cfg.implementation.GoWriter? && n <= MAX_UINT64
    requires 0 < h.replayed <= h.mark <= |Stream(cfg, 0, n)| && Whole(cfg, h.mark - h.replayed)
    requires gone + rest == Replayed(Stream(cfg, 0, n), h.mark, h.replayed) && |gone| <= h.mark - h.replayed
    ensures !IsSuffix(rest, Stream(cfg, 0, n))
  {
    hide *;
    if IsSuffix(rest, Stream(cfg, 0, n)) {
      SuffixRepeats(Stream(cfg, 0, n), h.mark, h.replayed, gone, rest);
      var k := NothingRepeats(cfg, n, h.mark, h.replayed);
    }
  }

  /** Under any retention: the surviving backups, the active file and the unwritten tail are the end of the generated
      records exactly when the writer never replayed a partly written flush. */
  lemma SuffixExactly(cfg: Config, labels: seq<Label>, s: World)
    requires cfg.strategy.RenameReopen? && s.w.generated <= MAX_UINT64
    requires Exec(cfg, Init(cfg), labels) == Some(s)
    ensures IsSuffix(LogBytes(s.os) + s.w.Pending(), Stream(cfg, 0, s.w.generated)) <==> !EverReplays(cfg, labels)
  {
    hide *;
    if EverReplays(cfg, labels) {
      RenameRun(cfg, labels, s);
      WriterRun(cfg, labels, s);
      ReplayRun(cfg, labels, s);
      ReplayedExactly(cfg, labels, s);
      ReplayShows(cfg, s);
    } else {
      SurvivorsAreSuffix(cfg, labels, s);
    }
  }

  lemma ReplayShows(cfg: Config, s: World)
    requires RenameInv(cfg, s) && WriterInv(cfg, s) && ReplayInv(cfg, s) && s.h.replayed > 0
    requires s.w.generated <= MAX_UINT64
    ensures !IsSuffix(LogBytes(s.os) + s.w.Pending(), Stream(cfg, 0, s.w.generated))
  {
    hide *;
    RemovedBeforeReplay(cfg, s);
    var gone := Joined(s.os, s.h.made[..s.h.removed]);
    WhatIsLeft(cfg, s, gone);
    NotASuffix(cfg, s.w.generated, s.h, gone, LogBytes(s.os) + s.w.Pending());
  }

  lemma RemovedBeforeReplay(cfg: Config, s: World)
    requires RenameInv(cfg, s) && WriterInv(cfg, s) && ReplayInv(cfg, s) && s.h.replayed > 0
    ensures cfg.Encodable() && cfg.implementation.GoWriter? && s.h.removed <= |s.h.made|
    ensures s.h.replayed <= s.h.mark && Whole(cfg, s.h.mark - s.h.replayed)
    ensures |Joined(s.os, s.h.made[..s.h.removed])| <= s.h.mark - s.h.replayed
  {
    RemovedBeforeOpenFile(cfg, s);
    if s.h.out == [] {
      NothingRemovedYet(cfg, s);
    }
    hide RenameInv, WriterInv, Whole, Joined, Os.Read;
  }

  lemma NothingRemovedYet(cfg: Config, s: World)
    requires RenameInv(cfg, s) && s.h.out == []
    ensures s.h.removed <= |s.h.made| && Joined(s.os, s.h.made[..s.h.removed]) == []
  {
    OpenFileIsKept(cfg, s);
    OutParts(cfg, s);
    hide *;
  }

  lemma WhatIsLeft(cfg: Config, s: World, gone: seq<byte>)
    requires RenameInv(cfg, s) && WriterInv(cfg, s) && s.h.removed <= |s.h.made|
    requires gone == Joined(s.os, s.h.made[..s.h.removed])
    ensures |gone| <= |s.h.out| && s.h.replayed <= s.h.mark <= |Stream(cfg, 0, s.w.generated)|
    ensures gone + (LogBytes(s.os) + s.w.Pending())
         == Replayed(Stream(cfg, 0, s.w.generated), s.h.mark, s.h.replayed)
  {
    LogIsWhatWentOut(cfg, s);
    hide RenameInv, Stream, Joined, LogBytes, Replayed, Writer.Pending;
    Regroup(gone, LogBytes(s.os), s.w.Pending());
  }
}
