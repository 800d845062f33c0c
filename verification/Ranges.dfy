/** Files that hold consecutive ranges of records, the gaps between them, and what the analyzer reports on them. */
module Ranges {
  import opened Bytes
  import opened Ordered
  import opened Lab
  import opened Integrity
  import opened IntegrityLaws
  import R = Record

  /** Records lo + 1 to hi. */
  datatype Range = Range(lo: nat, hi: nat)

  function Span(r: Range): seq<nat> {
    if r.lo <= r.hi then Numbers(r.lo, r.hi) else []
  }

  ghost predicate InOrder(rs: seq<Range>) {
    && (forall i :: 0 <= i < |rs| ==> rs[i].lo <= rs[i].hi)
    && (forall i :: 0 <= i < |rs| - 1 ==> rs[i].hi <= rs[i + 1].lo)
  }

  /** The numbers in the ranges, in order. */
  function Covered(rs: seq<Range>): seq<nat> {
    if rs == [] then [] else Covered(rs[..|rs| - 1]) + Span(rs[|rs| - 1])
  }

  /** What lies between one range and the next. */
  function Gaps(rs: seq<Range>): seq<Range> {
    if |rs| < 2 then [] else Gaps(rs[..|rs| - 1]) + [Range(rs[|rs| - 2].hi, rs[|rs| - 1].lo)]
  }

  function Size(rs: seq<Range>): nat {
    if rs == [] then 0 else Size(rs[..|rs| - 1]) + |Span(rs[|rs| - 1])|
  }

  lemma {:induction false} CoveredIncreases(rs: seq<Range>)
    requires InOrder(rs)
    ensures Increasing(Covered(rs)) && |Covered(rs)| == Size(rs)
    ensures rs != [] ==> rs[0].lo <= rs[|rs| - 1].hi
    ensures rs != [] ==> forall x :: x in Covered(rs) ==> rs[0].lo < x <= rs[|rs| - 1].hi
  {
    if rs != [] {
      var front, last := rs[..|rs| - 1], rs[|rs| - 1];
      CoveredIncreases(front);
      Appended(Covered(front), last);
    }
  }

  lemma Appended(front: seq<nat>, last: Range)
    requires Increasing(front) && last.lo <= last.hi && forall x :: x in front ==> x <= last.lo
    ensures Increasing(front + Span(last)) && forall x :: x in Span(last) <==> last.lo < x <= last.hi
  {
    var span := Span(last);
    forall x | last.lo < x <= last.hi ensures x in span {
      assert span[x - last.lo - 1] == x;
    }
    assert forall i :: 0 <= i < |front| ==> front[i] in front;
  }

  lemma {:induction false} GapsInOrder(rs: seq<Range>)
    requires InOrder(rs) && rs != []
    ensures InOrder(Gaps(rs)) && |Gaps(rs)| == |rs| - 1
    ensures forall i :: 0 <= i < |rs| - 1 ==> Gaps(rs)[i] == Range(rs[i].hi, rs[i + 1].lo)
  {
    if |rs| >= 2 {
      GapsInOrder(rs[..|rs| - 1]);
    }
  }

  /** Up to the end of the last range every number is either covered or in a gap, never both. */
  lemma {:induction false} CoveredOrMissed(rs: seq<Range>, k: nat)
    requires InOrder(rs) && rs != [] && rs[0].lo == 0 && 1 <= k <= rs[|rs| - 1].hi
    ensures k in Covered(rs) <==> k !in Covered(Gaps(rs))
  {
    var n := |rs| - 1;
    var front, last := rs[..n], rs[n];
    CoveredIncreases(front);
    Appended(Covered(front), last);
    if n == 0 {
      assert Covered(front) == [];
    } else {
      hide InOrder, Increasing, Covered;
      MoreGaps(rs);
      if k <= rs[n - 1].hi {
        assert front[0].lo == 0;
        CoveredOrMissed(front, k);
      }
      CoveredSplit(rs, k);
    }
  }

  lemma CoveredSplit(rs: seq<Range>, k: nat)
    requires rs != []
    ensures k in Covered(rs) <==> k in Covered(rs[..|rs| - 1]) || k in Span(rs[|rs| - 1])
  {
  }

  /** The gaps before the last range, then the one in front of it. */
  lemma MoreGaps(rs: seq<Range>)
    requires InOrder(rs) && |rs| >= 2
    ensures var n := |rs| - 1;
      && InOrder(rs[..n]) && rs[n - 1].hi <= rs[n].lo
      && (forall k :: k in Covered(Gaps(rs)) <==> k in Covered(Gaps(rs[..n])) || rs[n - 1].hi < k <= rs[n].lo)
      && (forall k :: k in Covered(Gaps(rs[..n])) ==> k <= rs[n - 1].hi)
  {
    var n := |rs| - 1;
    var front, gap := rs[..n], Range(rs[n - 1].hi, rs[n].lo);
    assert InOrder(front) && rs[n - 1].hi <= rs[n].lo;
    hide InOrder, Span;
    GapsInOrder(front);
    GapsBounded(front);
    CoveredIncreases(Gaps(front));
    Appended(Covered(Gaps(front)), gap);
    hide Increasing;
    LastGap(rs);
    CoveredPush(Gaps(front), gap);
  }

  lemma LastGap(rs: seq<Range>)
    requires |rs| >= 2
    ensures Gaps(rs) == Gaps(rs[..|rs| - 1]) + [Range(rs[|rs| - 2].hi, rs[|rs| - 1].lo)]
  {
  }

  lemma CoveredPush(front: seq<Range>, r: Range)
    ensures Covered(front + [r]) == Covered(front) + Span(r)
  {
    assert (front + [r])[..|front|] == front;
  }

  lemma GapsBounded(rs: seq<Range>)
    requires InOrder(rs) && rs != []
    ensures forall x :: x in Covered(Gaps(rs)) ==> 1 <= x <= rs[|rs| - 1].hi
  {
    GapsInOrder(rs);
    CoveredIncreases(Gaps(rs));
    if |rs| >= 2 {
      assert Gaps(rs)[|rs| - 2] == Range(rs[|rs| - 2].hi, rs[|rs| - 1].lo);
    }
  }

  /** What is covered and what is missed add up to the whole span. */
  lemma {:induction false} SizesAddUp(rs: seq<Range>)
    requires InOrder(rs) && rs != []
    ensures Size(rs) + Size(Gaps(rs)) + rs[0].lo == rs[|rs| - 1].hi
  {
    var n := |rs| - 1;
    var front, last := rs[..n], rs[n];
    SizePush(front, last);
    assert front + [last] == rs;
    if n > 0 {
      var gap := Range(rs[n - 1].hi, last.lo);
      SizesAddUp(front);
      SizePush(Gaps(front), gap);
    }
  }

  lemma SizePush(front: seq<Range>, r: Range)
    ensures Size(front + [r]) == Size(front) + |Span(r)|
  {
    assert (front + [r])[..|front|] == front;
  }

  lemma {:induction false} NoGaps(rs: seq<Range>)
    requires forall i :: 0 <= i < |rs| - 1 ==> rs[i].hi == rs[i + 1].lo
    ensures Size(Gaps(rs)) == 0
  {
    if |rs| >= 2 {
      var n := |rs| - 1;
      NoGaps(rs[..n]);
      SizePush(Gaps(rs[..n]), Range(rs[n - 1].hi, rs[n].lo));
    }
  }

  function Elements(s: seq<nat>): set<nat> {
    set x | x in s
  }

  lemma {:induction false} IncreasingSize(s: seq<nat>)
    requires Increasing(s)
    ensures |Elements(s)| == |s|
  {
    if s == [] {
      assert Elements(s) == {};
    } else {
      var front, last := s[..|s| - 1], s[|s| - 1];
      IncreasingSize(front);
      NewElement(front, last);
      assert s == front + [last];
    }
  }

  lemma NewElement(front: seq<nat>, last: nat)
    requires Increasing(front + [last])
    ensures |Elements(front + [last])| == |Elements(front)| + 1
  {
    var s := front + [last];
    assert Elements(s) == Elements(front) + {last};
    forall i | 0 <= i < |front| ensures front[i] != last {
      assert s[i] < s[|front|];
    }
  }

  lemma IncreasingOnce(s: seq<nat>)
    requires Increasing(s)
    ensures Repeats(multiset(s)) == 0 && |Distinct(multiset(s))| == |s|
  {
    IncreasingSize(s);
    assert Distinct(multiset(s)) == Elements(s);
  }

  /* ---- what the analyzer reads in such files ---- */

  lemma {:induction false} StreamIsEncoded(cfg: Config, lo: nat, hi: nat)
    requires lo <= hi && cfg.Encodable()
    ensures Stream(cfg, lo, hi) == R.EncodedAll(cfg.runID, Numbers(lo, hi), cfg.recordBytes)
    decreases hi
  {
    if lo == hi {
      assert Numbers(lo, hi) == [];
    } else {
      hide *;
      StreamIsEncoded(cfg, lo, hi - 1);
      StreamLast(cfg, lo, hi);
      NumbersLast(lo, hi);
      EncodedLast(cfg, Numbers(lo, hi - 1), hi);
    }
  }

  lemma StreamLast(cfg: Config, lo: nat, hi: nat)
    requires lo < hi && cfg.Encodable()
    ensures Stream(cfg, lo, hi) == Stream(cfg, lo, hi - 1) + R.Encoded(cfg.runID, hi, cfg.recordBytes)
  {
  }

  lemma NumbersLast(lo: nat, hi: nat)
    requires lo < hi
    ensures Numbers(lo, hi) == Numbers(lo, hi - 1) + [hi]
  {
  }

  lemma EncodedLast(cfg: Config, front: seq<nat>, n: nat)
    requires cfg.Encodable()
    ensures R.EncodedAll(cfg.runID, front + [n], cfg.recordBytes)
         == R.EncodedAll(cfg.runID, front, cfg.recordBytes) + R.Encoded(cfg.runID, n, cfg.recordBytes)
  {
    R.EncodedAllAppend(cfg.runID, front, n, cfg.recordBytes);
  }

  /** What makes the records of a run readable again: a run id without space or newline and lines within the scanner's
      buffer. */
  predicate Legible(cfg: Config) {
    SPACE !in cfg.runID && NEWLINE !in cfg.runID && cfg.recordBytes <= MAX_LINE
  }

  /** Sequence numbers stay below the largest 64-bit value, for which the analyzer would not finish. */
  predicate Readback(cfg: Config, generated: nat) {
    cfg.Encodable() && cfg.runID != [] && Legible(cfg) && generated < MAX_UINT64
  }

  /** The bytes are the records of the range. */
  ghost predicate Records(cfg: Config, bytes: seq<byte>, r: Range) {
    r.lo <= r.hi && bytes == Stream(cfg, r.lo, r.hi)
  }

  ghost predicate Holds(cfg: Config, source: Source, r: Range) {
    source.content.Some? && Records(cfg, source.content.value, r)
  }

  ghost predicate AllHold(cfg: Config, sources: seq<Source>, rs: seq<Range>) {
    |sources| == |rs| && forall i :: 0 <= i < |rs| ==> Holds(cfg, sources[i], rs[i])
  }

  function ValidAll(s: seq<nat>): seq<Class> {
    seq(|s|, i requires 0 <= i < |s| => Valid(s[i]))
  }

  lemma {:induction false} ValidSequences(s: seq<nat>)
    ensures Sequences(ValidAll(s)) == s
    ensures Count(ValidAll(s), Bad) == 0 && Count(ValidAll(s), Foreign) == 0
  {
    if s != [] {
      var front, last := s[..|s| - 1], s[|s| - 1];
      ValidSequences(front);
      ValidAllPush(front, last);
      hide *;
      assert front + [last] == s;
      SequencesPush(ValidAll(front), Valid(last));
    }
  }

  lemma ValidAllPush(front: seq<nat>, last: nat)
    ensures ValidAll(front + [last]) == ValidAll(front) + [Valid(last)]
  {
  }

  lemma {:induction false} NoDescent(s: seq<nat>)
    requires Increasing(s)
    ensures Descents(s) == 0
  {
    if |s| >= 2 {
      NoDescent(s[..|s| - 1]);
    }
  }

  /** A file of records: its lines are those records, and none is too long exactly when a record fits the scanner. */
  lemma FileOfNumbers(runID: seq<byte>, size: nat, source: Source, numbers: seq<nat>)
    requires R.PlainRunID(runID) && size >= R.MinimumSize(runID)
    requires forall i :: 0 <= i < |numbers| ==> numbers[i] <= MAX_UINT64
    requires source.content == Some(R.EncodedAll(runID, numbers, size))
    ensures SourceClasses(runID, source) == ValidAll(numbers)
    ensures Readable(source) <==> numbers == [] || size <= 4_194_304
  {
    var lines := R.RawLines(source.content.value);
    R.FramingRoundTrip(runID, numbers, size);
    hide R.RawLines, R.EncodedAll, R.Parse, R.DropReturn, R.PlainRunID, R.MinimumSize;
    FramesClasses(lines, runID, numbers, size);
    if numbers != [] && size > MAX_LINE {
      assert TooLong(lines[0]);
    }
  }

  lemma FramesClasses(lines: seq<seq<byte>>, runID: seq<byte>, numbers: seq<nat>, size: nat)
    requires R.Frames(lines, runID, numbers, size)
    ensures Classes(runID, lines) == ValidAll(numbers)
  {
    hide R.Parse, R.DropReturn;
  }

  /** A file of records reads back as exactly its numbers, with no complaint about any line. */
  lemma FileOfRange(cfg: Config, generated: nat, source: Source, r: Range)
    requires Readback(cfg, generated) && Holds(cfg, source, r) && r.hi <= generated
    ensures Readable(source)
    ensures ClassTally(SourceClasses(cfg.runID, source)) == Tally(multiset(Span(r)), 0, 0, 0, |Span(r)|)
  {
    var numbers := Numbers(r.lo, r.hi);
    StreamIsEncoded(cfg, r.lo, r.hi);
    hide R.EncodedAll, Stream, SourceClasses, Readable;
    FileOfNumbers(cfg.runID, cfg.recordBytes, source, numbers);
    ValidSequences(numbers);
    Appended([], r);
    assert [] + Span(r) == Span(r);
    NoDescent(numbers);
  }

  /** A file with a record in it cannot be read when records do not fit the scanner. */
  lemma FileTooLong(cfg: Config, generated: nat, source: Source, r: Range)
    requires cfg.Encodable() && R.PlainRunID(cfg.runID) && cfg.recordBytes > MAX_LINE && generated < MAX_UINT64
    requires Holds(cfg, source, r) && r.lo < r.hi <= generated
    ensures !Readable(source)
  {
    var numbers := Numbers(r.lo, r.hi);
    StreamIsEncoded(cfg, r.lo, r.hi);
    hide R.EncodedAll, Stream, SourceClasses, Readable;
    FileOfNumbers(cfg.runID, cfg.recordBytes, source, numbers);
  }

  /** The conditions are needed: the minimum of a file with records 0 and 1 comes out as 1, because zero stands for
      "nothing yet"; */
  lemma ZeroIsForgotten(name: string) returns (source: Source)
    ensures source == Source(name, Some(R.EncodedAll([ZERO], [0, 1], 24)))
    ensures Readable(source) && FileSets([ZERO], [source])[name].min == 1
  {
    source := Source(name, Some(R.EncodedAll([ZERO], [0, 1], 24)));
    FileOfNumbers([ZERO], 24, source, [0, 1]);
    ValidSequences([0, 1]);
    hide SourceClasses, Sequences, R.EncodedAll;
    assert [0, 1][..1] == [0] && [0][..0] == [];
    assert [source][..0] == [];
  }

  /** and with records 1 and 2 where one is expected nothing is missing or repeated, yet two numbers were read. */
  lemma OneTooMany(name: string) returns (source: Source)
    ensures source == Source(name, Some(R.EncodedAll([ZERO], [1, 2], 24))) && Readable(source)
    ensures var r := ReportOf(1, Total([ZERO], [source]), FileSets([ZERO], [source]));
      r.missing == 0 && r.duplicates == 0 && r.validUnique == 2
  {
    source := Source(name, Some(R.EncodedAll([ZERO], [1, 2], 24)));
    FileOfNumbers([ZERO], 24, source, [1, 2]);
    hide R.EncodedAll, Readable;
    assert Total([ZERO], [source]).valid == multiset([1, 2]) by {
      ValidSequences([1, 2]);
      hide SourceClasses, Sequences, ValidAll;
      assert [source][..0] == [];
    }
    hide Total, FileSets, SourceClasses;
    OneOfTwo();
  }

  lemma OneOfTwo()
    ensures |MissingList(multiset([1, 2]), 1)| == 0
    ensures Repeats(multiset([1, 2])) == 0 && |Distinct(multiset([1, 2]))| == 2
  {
    MissingListIs(multiset([1, 2]), 1);
    hide MissingList;
    assert MissingSet(multiset([1, 2]), 1) == {};
    IncreasingOnce([1, 2]);
  }

  ghost predicate Ends(rs: seq<Range>, n: nat) {
    forall i :: 0 <= i < |rs| ==> rs[i].hi <= n
  }

  /** What the analyzer makes of a file: the records of the range in order, and bad lines that do not count. */
  ghost predicate ReadsAs(runID: seq<byte>, source: Source, r: Range, bad: nat) {
    && Readable(source)
    && var t := ClassTally(SourceClasses(runID, source));
       t.valid == multiset(Span(r)) && t.descending == 0 && t.malformed + t.wrongRunID == bad
  }

  ghost predicate AllRead(runID: seq<byte>, sources: seq<Source>, rs: seq<Range>, bads: seq<nat>) {
    |sources| == |rs| == |bads| && forall i :: 0 <= i < |rs| ==> ReadsAs(runID, sources[i], rs[i], bads[i])
  }

  function Sum(s: seq<nat>): nat {
    if s == [] then 0 else Sum(s[..|s| - 1]) + s[|s| - 1]
  }

  lemma AllReadFront(runID: seq<byte>, sources: seq<Source>, rs: seq<Range>, bads: seq<nat>)
    requires AllRead(runID, sources, rs, bads) && rs != []
    ensures var n := |rs| - 1;
      && |sources| == |bads| == n + 1 && AllRead(runID, sources[..n], rs[..n], bads[..n])
      && ReadsAs(runID, sources[n], rs[n], bads[n]) && sources == sources[..n] + [sources[n]]
  {
    hide ReadsAs;
  }

  lemma {:induction false} TotalRead(runID: seq<byte>, sources: seq<Source>, rs: seq<Range>, bads: seq<nat>)
    requires AllRead(runID, sources, rs, bads)
    ensures var t := Total(runID, sources);
      t.valid == multiset(Covered(rs)) && t.descending == 0 && t.malformed + t.wrongRunID == Sum(bads)
  {
    if rs != [] {
      hide AllRead, ClassTally, SourceClasses, Total, Covered, Readable;
      var n := |rs| - 1;
      AllReadFront(runID, sources, rs, bads);
      TotalRead(runID, sources[..n], rs[..n], bads[..n]);
      TotalLast(runID, sources[..n], sources[n]);
      CoveredLast(rs);
    }
  }

  lemma CoveredLast(rs: seq<Range>)
    requires rs != []
    ensures var n := |rs| - 1;
      && multiset(Covered(rs)) == multiset(Covered(rs[..n])) + multiset(Span(rs[n]))
      && |Covered(rs)| == |Covered(rs[..n])| + |Span(rs[n])|
  {
  }

  /** The ranges after an empty one at the very start, so that what lies before the first of them is a gap, too. */
  function FromStart(rs: seq<Range>): seq<Range> {
    [Range(0, 0)] + rs
  }

  lemma Regrouped<T>(a: seq<T>, b: seq<T>, c: seq<T>)
    ensures (a + b) + c == a + (b + c) && a + [] == a && [] + a == a
  {
  }

  lemma LastOff<T>(s: seq<T>) returns (front: seq<T>, last: T)
    requires s != []
    ensures front == s[..|s| - 1] && last == s[|s| - 1] && s == front + [last]
  {
    front, last := s[..|s| - 1], s[|s| - 1];
  }

  lemma {:induction false} CoveredCons(r: Range, rs: seq<Range>)
    ensures Covered([r] + rs) == Span(r) + Covered(rs)
    ensures Size([r] + rs) == |Span(r)| + Size(rs)
  {
    hide *;
    if rs == [] {
      CoveredPush([], r);
      SizePush([], r);
      NothingCovered();
      Regrouped([r], [], []);
      Regrouped(Span(r), [], []);
    } else {
      var front, last := LastOff(rs);
      CoveredCons(r, front);
      CoveredPush([r] + front, last);
      CoveredPush(front, last);
      SizePush([r] + front, last);
      SizePush(front, last);
      Regrouped([r], front, [last]);
      Regrouped(Span(r), Covered(front), Span(last));
    }
  }

  lemma NothingCovered()
    ensures Covered([]) == [] && Size([]) == 0
  {
  }

  lemma {:induction false} GapsCons(rs: seq<Range>)
    requires rs != []
    ensures Gaps(FromStart(rs)) == [Range(0, rs[0].lo)] + Gaps(rs)
  {
    var n := |rs| - 1;
    LastGap(FromStart(rs));
    assert FromStart(rs)[..n + 1] == FromStart(rs[..n]);
    if n > 0 {
      GapsCons(rs[..n]);
      LastGap(rs);
      assert FromStart(rs)[n].hi == rs[n - 1].hi;
    }
  }

  lemma FromStartCovers(rs: seq<Range>)
    ensures Covered(FromStart(rs)) == Covered(rs) && Size(FromStart(rs)) == Size(rs)
  {
    CoveredCons(Range(0, 0), rs);
    hide Covered, Size;
    assert Span(Range(0, 0)) == [];
    Regrouped(Covered(rs), [], []);
  }

  lemma FromStartInOrder(rs: seq<Range>)
    requires InOrder(rs) && rs != []
    ensures InOrder(FromStart(rs)) && |FromStart(rs)| == |rs| + 1
    ensures FromStart(rs)[0].lo == 0 && FromStart(rs)[|rs|] == rs[|rs| - 1]
  {
    var all := FromStart(rs);
    assert all[0] == Range(0, 0) && forall i :: 1 <= i <= |rs| ==> all[i] == rs[i - 1];
    forall i | 0 <= i < |all| - 1 ensures all[i].hi <= all[i + 1].lo {
      if i > 0 {
        ConsecutiveInOrder(rs, i - 1);
      }
    }
    hide FromStart;
    assert forall i :: 0 <= i < |all| ==> all[i].lo <= all[i].hi;
  }

  lemma ConsecutiveInOrder(rs: seq<Range>, i: nat)
    requires InOrder(rs) && i < |rs| - 1
    ensures rs[i].hi <= rs[i + 1].lo
  {
  }

  /** The analyzer's report on files that read as ranges in order, in whatever order the files are read: nothing is
      repeated or descending, the missing numbers are exactly those in the gaps, and the lines that do not count are the
      bad lines of the files. */
  lemma ReportOnRead(runID: seq<byte>, generated: nat, sources: seq<Source>, listed: seq<Source>, rs: seq<Range>,
                     bads: seq<nat>)
    requires AllRead(runID, listed, rs, bads) && multiset(sources) == multiset(listed)
    requires rs != [] && InOrder(rs) && rs[|rs| - 1].hi == generated
    ensures AllReadable(sources, |sources|)
    ensures var r := ReportOf(generated, Total(runID, sources), FileSets(runID, sources));
      && r.duplicates == 0 && r.descendingTransitions == 0 && r.malformed + r.wrongRunID == Sum(bads)
      && r.missing == Size(Gaps(FromStart(rs))) && r.validUnique == Size(rs)
    ensures forall k ::
      k in MissingSet(Total(runID, sources).valid, generated) <==> k in Covered(Gaps(FromStart(rs)))
  {
    TotalRead(runID, listed, rs, bads);
    AllReadIsReadable(runID, listed, rs, bads);
    TotalPermutes(runID, listed, sources);
    PermutedReadable(listed, sources);
    hide Total, AllReadable, ClassTally, Stream, AllRead, Covered, Gaps, Size, FromStart, InOrder, Sum;
    CoveredIncreases(rs);
    IncreasingOnce(Covered(rs));
    FromStartInOrder(rs);
    FromStartCovers(rs);
    MissedAreGaps(FromStart(rs), generated);
    MissingListIs(multiset(Covered(rs)), generated);
  }

  lemma AllReadIsReadable(runID: seq<byte>, sources: seq<Source>, rs: seq<Range>, bads: seq<nat>)
    requires AllRead(runID, sources, rs, bads)
    ensures AllReadable(sources, |sources|)
  {
    hide Readable, ClassTally, SourceClasses;
    forall i | 0 <= i < |sources| ensures Readable(sources[i]) {
      assert ReadsAs(runID, sources[i], rs[i], bads[i]);
    }
  }

  lemma {:induction false} SumOfNone(bads: seq<nat>)
    requires forall i :: 0 <= i < |bads| ==> bads[i] == 0
    ensures Sum(bads) == 0
  {
    if bads != [] {
      SumOfNone(bads[..|bads| - 1]);
    }
  }

  /** On files holding ranges of whole records the analyzer has nothing to count against any line. */
  lemma ReportOnRanges(cfg: Config, generated: nat, sources: seq<Source>, listed: seq<Source>, rs: seq<Range>)
    requires Readback(cfg, generated) && AllHold(cfg, listed, rs) && multiset(sources) == multiset(listed)
    requires rs != [] && InOrder(rs) && rs[|rs| - 1].hi == generated
    ensures AllReadable(sources, |sources|)
    ensures var r := ReportOf(generated, Total(cfg.runID, sources), FileSets(cfg.runID, sources));
      && r.duplicates == 0 && r.malformed == 0 && r.wrongRunID == 0 && r.descendingTransitions == 0
      && r.missing == Size(Gaps(FromStart(rs))) && r.validUnique == Size(rs)
    ensures forall k ::
      k in MissingSet(Total(cfg.runID, sources).valid, generated) <==> k in Covered(Gaps(FromStart(rs)))
  {
    HisBounded(rs);
    var bads := seq(|rs|, _ => 0);
    hide InOrder, Readable, Holds, Readback, ClassTally, SourceClasses;
    forall i | 0 <= i < |rs| ensures ReadsAs(cfg.runID, listed[i], rs[i], 0) {
      FileOfRange(cfg, generated, listed[i], rs[i]);
    }
    assert AllRead(cfg.runID, listed, rs, bads);
    SumOfNone(bads);
    hide *;
    ReportOnRead(cfg.runID, generated, sources, listed, rs, bads);
  }

  /** When a record does not fit the scanner, files that hold any cannot all be read. */
  lemma RangesTooLong(cfg: Config, generated: nat, sources: seq<Source>, listed: seq<Source>, rs: seq<Range>)
    requires cfg.Encodable() && R.PlainRunID(cfg.runID) && cfg.recordBytes > MAX_LINE && generated < MAX_UINT64
    requires AllHold(cfg, listed, rs) && multiset(sources) == multiset(listed)
    requires rs != [] && InOrder(rs) && rs[|rs| - 1].hi == generated && Size(rs) > 0
    ensures !AllReadable(sources, |sources|)
  {
    HisBounded(rs);
    var i := SomeRecord(rs);
    hide Size, InOrder, R.PlainRunID;
    FileTooLong(cfg, generated, listed[i], rs[i]);
    hide Readable, Holds;
    if AllReadable(sources, |sources|) {
      PermutedReadable(sources, listed);
    }
  }

  /** Files without a record say nothing. */
  lemma EmptyFiles(cfg: Config, sources: seq<Source>, listed: seq<Source>, rs: seq<Range>)
    requires AllHold(cfg, listed, rs) && multiset(sources) == multiset(listed) && Size(rs) == 0
    ensures Total(cfg.runID, sources).valid == multiset{}
  {
    NoneListed(cfg, listed, rs);
    hide *;
    TotalPermutes(cfg.runID, listed, sources);
  }

  lemma {:induction false} NoneListed(cfg: Config, listed: seq<Source>, rs: seq<Range>)
    requires AllHold(cfg, listed, rs) && Size(rs) == 0
    ensures Total(cfg.runID, listed).valid == multiset{}
  {
    if rs != [] {
      var n := |rs| - 1;
      assert Holds(cfg, listed[n], rs[n]) && |Span(rs[n])| == 0;
      NoneListed(cfg, listed[..n], rs[..n]);
      EmptyFile(cfg, listed[n], rs[n]);
      hide *;
      NothingMore(cfg.runID, listed);
    }
  }

  lemma NothingMore(runID: seq<byte>, sources: seq<Source>)
    requires sources != [] && Total(runID, sources[..|sources| - 1]).valid == multiset{}
    requires ClassTally(SourceClasses(runID, sources[|sources| - 1])).valid == multiset{}
    ensures Total(runID, sources).valid == multiset{}
  {
    hide ClassTally, SourceClasses;
  }

  lemma EmptyFile(cfg: Config, source: Source, r: Range)
    requires Holds(cfg, source, r) && |Span(r)| == 0
    ensures ClassTally(SourceClasses(cfg.runID, source)).valid == multiset{}
  {
    assert Stream(cfg, r.lo, r.hi) == [];
    hide Stream, R.Parse;
    assert SourceClasses(cfg.runID, source) == [];
  }

  lemma {:induction false} SomeRecord(rs: seq<Range>) returns (i: nat)
    requires Size(rs) > 0
    ensures i < |rs| && rs[i].lo < rs[i].hi
  {
    var n := |rs| - 1;
    if rs[n].lo < rs[n].hi {
      i := n;
    } else {
      i := SomeRecord(rs[..n]);
    }
  }

  lemma HisBounded(rs: seq<Range>)
    requires InOrder(rs) && rs != []
    ensures Ends(rs, rs[|rs| - 1].hi)
  {
    var i := |rs| - 1;
    while i > 0
      invariant 0 <= i < |rs|
      invariant forall j :: i <= j < |rs| ==> rs[j].hi <= rs[|rs| - 1].hi
    {
      assert rs[i - 1].hi <= rs[i - 1 + 1].lo;
      i := i - 1;
    }
  }

  lemma PermutedReadable(a: seq<Source>, b: seq<Source>)
    requires multiset(a) == multiset(b) && AllReadable(a, |a|)
    ensures AllReadable(b, |b|)
  {
    hide Readable;
    forall i | 0 <= i < |b| ensures Readable(b[i]) {
      assert b[i] in multiset(b);
      assert b[i] in multiset(a);
    }
  }

  lemma MissedAreGaps(rs: seq<Range>, n: nat)
    requires rs != [] && InOrder(rs) && rs[0].lo == 0 && rs[|rs| - 1].hi == n
    ensures forall k :: k in MissingSet(multiset(Covered(rs)), n) <==> k in Covered(Gaps(rs))
    ensures |MissingSet(multiset(Covered(rs)), n)| == Size(Gaps(rs))
  {
    MissedMeansGap(rs, n);
    GapsInOrder(rs);
    CoveredIncreases(Gaps(rs));
    hide MissingSet, Gaps, InOrder;
    IncreasingSize(Covered(Gaps(rs)));
    assert MissingSet(multiset(Covered(rs)), n) == Elements(Covered(Gaps(rs)));
  }

  lemma MissedMeansGap(rs: seq<Range>, n: nat)
    requires rs != [] && InOrder(rs) && rs[0].lo == 0 && rs[|rs| - 1].hi == n
    ensures forall k :: k in MissingSet(multiset(Covered(rs)), n) <==> k in Covered(Gaps(rs))
  {
    GapsBounded(rs);
    hide InOrder, Covered, Gaps;
    forall k ensures k in MissingSet(multiset(Covered(rs)), n) <==> k in Covered(Gaps(rs)) {
      if 1 <= k <= n {
        CoveredOrMissed(rs, k);
      }
    }
  }
}
