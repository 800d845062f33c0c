/** Files cut at any byte of the records' stream: what the analyzer reads in them. */
module TornFiles {
  import opened Arithmetic
  import opened Bytes
  import opened Ordered
  import opened Lab
  import opened WriterStream
  import opened Integrity
  import opened IntegrityLaws
  import opened Ranges
  import R = Record

  /** The bytes read as exactly these records, in order, beside bad lines; no line is too long. */
  ghost predicate Says(runID: seq<byte>, bytes: seq<byte>, s: seq<nat>, bad: nat) {
    var lines := R.RawLines(bytes);
    && Sequences(Classes(runID, lines)) == s
    && Count(Classes(runID, lines), Bad) + Count(Classes(runID, lines), Foreign) == bad
    && !AnyTooLong(lines, |lines|)
  }

  lemma SaysNothing(runID: seq<byte>)
    ensures Says(runID, [], [], 0)
  {
  }

  lemma SaysAppend(runID: seq<byte>, a: seq<byte>, b: seq<byte>, s: seq<nat>, t: seq<nat>, m: nat, n: nat)
    requires a == [] || a[|a| - 1] == NEWLINE
    requires Says(runID, a, s, m) && Says(runID, b, t, n)
    ensures Says(runID, a + b, s + t, m + n)
  {
    hide *;
    R.RawLinesAppend(a, b);
    LinesAppend(runID, R.RawLines(a), R.RawLines(b));
    SaidTogether(runID, a, b, s, t, m, n);
  }

  lemma SaidTogether(runID: seq<byte>, a: seq<byte>, b: seq<byte>, s: seq<nat>, t: seq<nat>, m: nat, n: nat)
    requires Says(runID, a, s, m) && Says(runID, b, t, n)
    requires R.RawLines(a + b) == R.RawLines(a) + R.RawLines(b)
    requires Together(runID, R.RawLines(a), R.RawLines(b))
    ensures Says(runID, a + b, s + t, m + n)
  {
    hide R.RawLines, Classes, Sequences, Count, AnyTooLong;
  }

  ghost predicate Together(runID: seq<byte>, x: seq<seq<byte>>, y: seq<seq<byte>>) {
    && Sequences(Classes(runID, x + y)) == Sequences(Classes(runID, x)) + Sequences(Classes(runID, y))
    && (forall c :: Count(Classes(runID, x + y), c) == Count(Classes(runID, x), c) + Count(Classes(runID, y), c))
    && (AnyTooLong(x + y, |x + y|) ==> AnyTooLong(x, |x|) || AnyTooLong(y, |y|))
  }

  lemma LinesAppend(runID: seq<byte>, x: seq<seq<byte>>, y: seq<seq<byte>>)
    ensures Together(runID, x, y)
  {
    hide Classify, TooLong;
    assert Classes(runID, x + y) == Classes(runID, x) + Classes(runID, y);
    SequencesConcat(Classes(runID, x), Classes(runID, y));
    hide Classes, Sequences;
    if AnyTooLong(x + y, |x + y|) {
      var i :| 0 <= i < |x + y| && TooLong((x + y)[i]);
      assert (x + y)[i] == if i < |x| then x[i] else y[i - |x|];
    }
  }

  lemma {:induction false} SequencesConcat(a: seq<Class>, b: seq<Class>)
    ensures Sequences(a + b) == Sequences(a) + Sequences(b)
  {
    if b == [] {
      assert a + b == a;
    } else {
      var front, last := b[..|b| - 1], b[|b| - 1];
      hide Sequences, Count;
      assert a + b == (a + front) + [last] && b == front + [last];
      SequencesConcat(a, front);
      SequencesPush(a + front, last);
      SequencesPush(front, last);
    }
  }

  /** One line without its newline, at the end of a file or before a newline. */
  lemma SaysLine(runID: seq<byte>, line: seq<byte>, ended: bool)
    requires NEWLINE !in line && (line == [] ==> ended) && |line| < MAX_LINE
    ensures var c, bytes := Classify(runID, line), if ended then line + [NEWLINE] else line;
      && (c.Valid? ==> Says(runID, bytes, [c.sequence], 0))
      && (!c.Valid? ==> Says(runID, bytes, [], 1))
  {
    var bytes := if ended then line + [NEWLINE] else line;
    hide *;
    if ended {
      assert bytes == line + [NEWLINE] + [];
      R.FirstLine(line, []);
      NoLines();
    } else {
      WholeLine(line);
    }
    OneLine(runID, bytes, line);
  }

  lemma NoLines()
    ensures R.RawLines([]) == []
  {
  }

  lemma OneLine(runID: seq<byte>, bytes: seq<byte>, line: seq<byte>)
    requires R.RawLines(bytes) == [line] && |line| < MAX_LINE
    ensures var c := Classify(runID, line);
      Says(runID, bytes, if c.Valid? then [c.sequence] else [], if c.Valid? then 0 else 1)
  {
    hide R.RawLines, Classify;
    var c := Classify(runID, line);
    assert Classes(runID, [line]) == [c];
    hide Classes, Sequences, Count, TooLong;
    OneClass(c);
    assert !TooLong(line) by {
      ShortLine(line);
    }
  }

  lemma ShortLine(line: seq<byte>)
    requires |line| < MAX_LINE
    ensures !TooLong(line)
  {
  }

  lemma OneClass(c: Class)
    ensures Sequences([c]) == if c.Valid? then [c.sequence] else []
    ensures Count([c], Bad) + Count([c], Foreign) == if c.Valid? then 0 else 1
  {
    assert [] + [c] == [c];
    SequencesPush([], c);
  }

  lemma WholeLine(line: seq<byte>)
    requires NEWLINE !in line && line != []
    ensures R.RawLines(line) == [line]
  {
    assert IndexOf(line, NEWLINE) == |line|;
  }

  /* ---- pieces of one record ---- */

  /** The only spaces of a record are those around its number. */
  lemma SpacesAre(runID: seq<byte>, sequence: nat, size: nat, p: nat)
    requires SPACE !in runID && size >= R.MinimumSize(runID) && p < size
    ensures R.Encoded(runID, sequence, size)[p] == SPACE <==> p == |runID| || p == |runID| + 21
  {
    var digits, padding := R.Digits(sequence, 20), seq(size - |runID| - 23, _ => FILLER);
    assert R.Encoded(runID, sequence, size) == runID + [SPACE] + digits + [SPACE] + padding + [NEWLINE];
    if p < |runID| {
      assert R.Encoded(runID, sequence, size)[p] == runID[p];
    } else if |runID| < p < |runID| + 21 {
      assert R.Encoded(runID, sequence, size)[p] == digits[p - |runID| - 1];
    }
  }

  /** What is cut off a record at its front never passes for a record of the run. */
  lemma HeadIsNoRecord(runID: seq<byte>, sequence: nat, size: nat, k: nat, j: nat)
    requires R.PlainRunID(runID) && size >= R.MinimumSize(runID) && 0 < k <= j < size
    ensures !Classify(runID, R.Encoded(runID, sequence, size)[k..j]).Valid?
  {
    assert SPACE !in runID;
    hide *;
    var line := R.Encoded(runID, sequence, size)[k..j];
    if Classify(runID, line).Valid? {
      var r := HasPrefixOf(runID, line);
      PrefixSpaces(runID, r);
      SpacesAre(runID, sequence, size, k + |runID|);
      SpacesAre(runID, sequence, size, k + |runID| + 21);
    }
  }

  lemma PrefixSpaces(runID: seq<byte>, sequence: nat)
    ensures R.Prefix(runID, sequence)[|runID|] == SPACE && R.Prefix(runID, sequence)[|runID| + 21] == SPACE
  {
  }

  /** A line that counts opens with the prefix it is read from. */
  lemma HasPrefixOf(runID: seq<byte>, line: seq<byte>) returns (sequence: nat)
    requires Classify(runID, line).Valid?
    ensures sequence == Classify(runID, line).sequence && R.Prefix(runID, sequence) <= R.DropReturn(line) <= line
  {
    var text := R.DropReturn(line);
    var r := R.Parse(text + [NEWLINE]).value;
    R.ParsedHasPrefix(text + [NEWLINE], r);
    assert R.TrimNewline(text + [NEWLINE]) == text;
    sequence := r.sequence;
  }

  /** The front of a record counts exactly when its whole prefix is there. */
  lemma FrontCounts(runID: seq<byte>, sequence: nat, size: nat, j: nat)
    requires R.PlainRunID(runID) && size >= R.MinimumSize(runID) && j < size && sequence <= MAX_UINT64
    ensures var c := Classify(runID, R.Encoded(runID, sequence, size)[..j]);
      if j >= |runID| + 22 then c == Valid(sequence) else !c.Valid?
  {
    var record := R.Encoded(runID, sequence, size);
    var line := record[..j];
    if j >= |runID| + 22 {
      FrontParses(runID, sequence, size, j);
    } else if Classify(runID, line).Valid? {
      var s := HasPrefixOf(runID, line);
    }
  }

  lemma FrontParses(runID: seq<byte>, sequence: nat, size: nat, j: nat)
    requires R.PlainRunID(runID) && size >= R.MinimumSize(runID) && sequence <= MAX_UINT64
    requires |runID| + 22 <= j < size
    ensures Classify(runID, R.Encoded(runID, sequence, size)[..j]) == Valid(sequence)
  {
    var line := R.Encoded(runID, sequence, size)[..j];
    var padding := seq(size - |runID| - 23, _ => FILLER);
    assert line == R.Prefix(runID, sequence) + padding[..j - |runID| - 22];
    assert line[j - 1] == SPACE || line[j - 1] == FILLER by {
      if j - 1 >= |runID| + 22 {
        assert line[j - 1] == padding[j - 1 - |runID| - 22];
      }
    }
    assert R.DropReturn(line) == line && R.TrimNewline(line + [NEWLINE]) == line;
    hide R.Encoded, R.Prefix, R.DropReturn, R.TrimNewline, R.Parse, R.Digits;
    R.PrefixParses(line + [NEWLINE], R.Record(runID, sequence));
  }

  /* ---- any stretch of the stream ---- */

  /** How many bytes of a record its prefix takes. */
  function PrefixBytes(cfg: Config): nat {
    |cfg.runID| + 22
  }

  /** How many whole records come before byte x. */
  function RecordOf(size: nat, x: nat): nat
    requires size > 0
  {
    x / size
  }

  /** How far into its record byte x is. */
  function ByteOf(size: nat, x: nat): nat
    requires size > 0
  {
    x % size
  }

  /** Of the records cut by bytes x to y: from the first that begins at x or later to the last whose prefix ends by y. */
  function ReadRange(cfg: Config, x: nat, y: nat): Range
    requires cfg.recordBytes > 0
  {
    var lo := RecordOf(cfg.recordBytes, x) + if ByteOf(cfg.recordBytes, x) > 0 then 1 else 0;
    var hi := RecordOf(cfg.recordBytes, y) + if ByteOf(cfg.recordBytes, y) >= PrefixBytes(cfg) then 1 else 0;
    Range(lo, if hi < lo then lo else hi)
  }

  /** How many of the lines in bytes x to y are pieces that do not count: the first when x is inside a record, the last
      when y is inside a prefix. */
  function Torn(cfg: Config, x: nat, y: nat): nat
    requires cfg.recordBytes > 0
  {
    var k, j := ByteOf(cfg.recordBytes, x), ByteOf(cfg.recordBytes, y);
    if RecordOf(cfg.recordBytes, x) == RecordOf(cfg.recordBytes, y) && k > 0 then (if k < j then 1 else 0)
    else (if k > 0 then 1 else 0) + if 0 < j < PrefixBytes(cfg) then 1 else 0
  }

  lemma SliceRecords(cfg: Config, n: nat, a: nat, b: nat)
    requires cfg.Encodable() && a <= b <= n
    ensures Offset(cfg.recordBytes, a, 0) <= Offset(cfg.recordBytes, b, 0) <= |Stream(cfg, 0, n)|
    ensures Stream(cfg, 0, n)[Offset(cfg.recordBytes, a, 0)..Offset(cfg.recordBytes, b, 0)] == Stream(cfg, a, b)
  {
    StreamSplit(cfg, 0, a, b);
    StreamSplit(cfg, 0, b, n);
    StreamLength(cfg, 0, a);
    StreamLength(cfg, 0, b);
    hide Stream;
    assert Stream(cfg, 0, n)[..|Stream(cfg, 0, b)|] == Stream(cfg, 0, b);
  }

  lemma SliceRecord(cfg: Config, n: nat, i: nat, k: nat, j: nat)
    requires cfg.Encodable() && i < n && k <= j <= cfg.recordBytes
    ensures Offset(cfg.recordBytes, i, k) <= Offset(cfg.recordBytes, i, j) <= |Stream(cfg, 0, n)|
    ensures Stream(cfg, 0, n)[Offset(cfg.recordBytes, i, k)..Offset(cfg.recordBytes, i, j)]
         == R.Encoded(cfg.runID, i + 1, cfg.recordBytes)[k..j]
  {
    hide *;
    var p, q := Offset(cfg.recordBytes, i, 0), Offset(cfg.recordBytes, i + 1, 0);
    SliceRecords(cfg, n, i, i + 1);
    OneRecord(cfg, i);
    Offsets(cfg.recordBytes, i, k);
    Offsets(cfg.recordBytes, i, j);
    SliceOfSlice(Stream(cfg, 0, n), p, q, k, j);
  }

  lemma OneRecord(cfg: Config, i: nat)
    requires cfg.Encodable()
    ensures Stream(cfg, i, i + 1) == R.Encoded(cfg.runID, i + 1, cfg.recordBytes)
  {
    assert Stream(cfg, i, i) == [];
  }

  lemma Offsets(size: nat, i: nat, j: nat)
    ensures Offset(size, i, j) == Offset(size, i, 0) + j && Offset(size, i + 1, 0) == Offset(size, i, 0) + size
  {
    MultipleMonotone(i, i + 1, size);
  }

  lemma SliceOfSlice<T>(s: seq<T>, p: nat, q: nat, k: nat, j: nat)
    requires p <= q <= |s| && k <= j <= q - p
    ensures s[p..q][k..j] == s[p + k..p + j]
  {
    var piece := s[p..q];
    assert forall i :: k <= i < j ==> piece[i] == s[p + i];
    assert piece[k..j] == s[p + k..p + j];
  }

  lemma SlicesJoin<T>(s: seq<T>, p: nat, q: nat, r: nat)
    requires p <= q <= r <= |s|
    ensures s[p..q] + s[q..r] == s[p..r]
  {
    assert forall i :: 0 <= i < r - p ==> (s[p..q] + s[q..r])[i] == s[p + i];
    assert s[p..q] + s[q..r] == s[p..r];
  }

  lemma ReadbackFacts(cfg: Config, n: nat)
    requires Readback(cfg, n)
    ensures cfg.Encodable() && R.PlainRunID(cfg.runID) && NEWLINE !in cfg.runID && n < MAX_UINT64
    ensures R.MinimumSize(cfg.runID) <= cfg.recordBytes <= MAX_LINE
    ensures cfg.recordBytes > 1 && 0 < PrefixBytes(cfg) < cfg.recordBytes && PrefixBytes(cfg) == |cfg.runID| + 22
  {
  }

  /** What is left of a record after its first k bytes. */
  lemma SaysHead(cfg: Config, n: nat, i: nat, k: nat)
    requires Readback(cfg, n) && i < n && 0 < k < cfg.recordBytes
    ensures Says(cfg.runID, R.Encoded(cfg.runID, i + 1, cfg.recordBytes)[k..cfg.recordBytes], [], 1)
  {
    hide *;
    ReadbackFacts(cfg, n);
    var size := cfg.recordBytes;
    var record := R.Encoded(cfg.runID, i + 1, size);
    R.NoNewlineInside(cfg.runID, i + 1, size);
    EndsInNewline(cfg.runID, i + 1, size);
    assert record[k..size] == record[k..size - 1] + [NEWLINE];
    HeadIsNoRecord(cfg.runID, i + 1, size, k, size - 1);
    SliceOfSlice(record, 0, size - 1, k, size - 1);
    SaysLine(cfg.runID, record[k..size - 1], true);
  }

  lemma EndsInNewline(runID: seq<byte>, sequence: nat, size: nat)
    requires size >= R.MinimumSize(runID)
    ensures R.Encoded(runID, sequence, size)[size - 1] == NEWLINE
  {
  }

  /** A piece from inside a record that does not reach its end. */
  lemma SaysMiddle(cfg: Config, n: nat, i: nat, k: nat, j: nat)
    requires Readback(cfg, n) && i < n && 0 < k < j < cfg.recordBytes
    ensures Says(cfg.runID, R.Encoded(cfg.runID, i + 1, cfg.recordBytes)[k..j], [], 1)
  {
    hide *;
    ReadbackFacts(cfg, n);
    var size := cfg.recordBytes;
    var record := R.Encoded(cfg.runID, i + 1, size);
    R.NoNewlineInside(cfg.runID, i + 1, size);
    HeadIsNoRecord(cfg.runID, i + 1, size, k, j);
    SliceOfSlice(record, 0, size - 1, k, j);
    SaysLine(cfg.runID, record[k..j], false);
  }

  /** The first j bytes of a record. */
  lemma SaysFront(cfg: Config, n: nat, i: nat, j: nat)
    requires Readback(cfg, n) && i < n && 0 < j < cfg.recordBytes
    ensures var front := R.Encoded(cfg.runID, i + 1, cfg.recordBytes)[0..j];
      if j >= PrefixBytes(cfg) then Says(cfg.runID, front, [i + 1], 0) else Says(cfg.runID, front, [], 1)
  {
    hide *;
    ReadbackFacts(cfg, n);
    var size := cfg.recordBytes;
    var record := R.Encoded(cfg.runID, i + 1, size);
    R.NoNewlineInside(cfg.runID, i + 1, size);
    FrontCounts(cfg.runID, i + 1, size, j);
    SliceOfSlice(record, 0, size - 1, 0, j);
    SaysLine(cfg.runID, record[..j], false);
  }

  lemma SaysRecords(cfg: Config, n: nat, a: nat, b: nat)
    requires Readback(cfg, n) && a <= b <= n
    ensures Says(cfg.runID, Stream(cfg, a, b), Numbers(a, b), 0)
    ensures Stream(cfg, a, b) == [] || Stream(cfg, a, b)[|Stream(cfg, a, b)| - 1] == NEWLINE
  {
    var source := Source("", Some(Stream(cfg, a, b)));
    StreamIsEncoded(cfg, a, b);
    hide R.EncodedAll, Stream;
    FileOfNumbers(cfg.runID, cfg.recordBytes, source, Numbers(a, b));
    ValidSequences(Numbers(a, b));
    hide R.RawLines, Classes, ValidAll, Sequences, Count;
  }

  /** The numbers of the records from a on that are whole, and of the next if it counts. */
  function Named(cfg: Config, c: nat, b: nat, j: nat): seq<nat>
    requires c <= b
  {
    Numbers(c, b) + if j >= PrefixBytes(cfg) then [b + 1] else []
  }

  /** Whole records, then the front of another. */
  lemma SaysWholeThenFront(cfg: Config, n: nat, c: nat, b: nat, j: nat)
    requires Readback(cfg, n) && c <= b <= n && j < cfg.recordBytes && (j > 0 ==> b < n)
    ensures var size, all := cfg.recordBytes, Stream(cfg, 0, n);
      && Offset(size, c, 0) <= Offset(size, b, j) <= |all|
      && Says(cfg.runID, all[Offset(size, c, 0)..Offset(size, b, j)], Named(cfg, c, b, j),
              if 0 < j < PrefixBytes(cfg) then 1 else 0)
  {
    hide Readback, Says, Stream, Numbers, Offset, R.MinimumSize, R.LegalRunID, R.PlainRunID;
    ReadbackFacts(cfg, n);
    var size, all := cfg.recordBytes, Stream(cfg, 0, n);
    SliceRecords(cfg, n, c, b);
    SaysRecords(cfg, n, c, b);
    assert Numbers(c, b) + [] == Numbers(c, b);
    if j > 0 {
      var p, q, r := Offset(size, c, 0), Offset(size, b, 0), Offset(size, b, j);
      SliceRecord(cfg, n, b, 0, j);
      SaysFront(cfg, n, b, j);
      var t := if j >= PrefixBytes(cfg) then [b + 1] else [];
      SaysAppend(cfg.runID, Stream(cfg, c, b), all[q..r], Numbers(c, b), t, 0,
                 if 0 < j < PrefixBytes(cfg) then 1 else 0);
      SlicesJoin(all, p, q, r);
    }
  }

  /** Bytes x to y of the stream read as the records of their range, beside the torn lines. */
  lemma SaysSlice(cfg: Config, n: nat, x: nat, y: nat)
    requires Readback(cfg, n) && x <= y <= |Stream(cfg, 0, n)|
    ensures Says(cfg.runID, Stream(cfg, 0, n)[x..y], Span(ReadRange(cfg, x, y)), Torn(cfg, x, y))
  {
    hide *;
    ReadbackFacts(cfg, n);
    StreamEnds(cfg, n);
    var size := cfg.recordBytes;
    var a, k, b, j := RecordOf(size, x), ByteOf(size, x), RecordOf(size, y), ByteOf(size, y);
    Placed(size, x);
    Placed(size, y);
    PlacesInOrder(size, n, x, y);
    RangeOfSlice(cfg, x, y);
    if a == b && k > 0 {
      SaysInside(cfg, n, a, k, j);
    } else if k == 0 {
      SaysWholeThenFront(cfg, n, a, b, j);
    } else {
      SaysTornThenFront(cfg, n, a, k, b, j);
    }
  }

  lemma StreamEnds(cfg: Config, n: nat)
    requires cfg.Encodable()
    ensures |Stream(cfg, 0, n)| == Offset(cfg.recordBytes, n, 0)
  {
    StreamLength(cfg, 0, n);
  }

  lemma Placed(size: nat, x: nat)
    requires size > 0
    ensures x == Offset(size, RecordOf(size, x), ByteOf(size, x)) && ByteOf(size, x) < size
  {
  }

  lemma PlacesInOrder(size: nat, n: nat, x: nat, y: nat)
    requires size > 0 && x <= y <= Offset(size, n, 0)
    ensures RecordOf(size, x) <= RecordOf(size, y) <= n
    ensures RecordOf(size, x) == RecordOf(size, y) ==> ByteOf(size, x) <= ByteOf(size, y)
    ensures ByteOf(size, y) > 0 ==> RecordOf(size, y) < n
  {
    RecordsInOrder(size, x, y);
    Placed(size, y);
    hide RecordOf, ByteOf, Offset;
    Offsets(size, RecordOf(size, y), ByteOf(size, y));
    Apart(size, RecordOf(size, y), n);
  }

  lemma OffsetRises(size: nat, i: nat, j: nat)
    requires i < j
    ensures Offset(size, i, 0) + size <= Offset(size, j, 0)
  {
    MultipleMonotone(i + 1, j, size);
    MultipleMonotone(i, j, size);
  }

  /** A piece of one record. */
  lemma SaysInside(cfg: Config, n: nat, a: nat, k: nat, j: nat)
    requires Readback(cfg, n) && a < n && 0 < k <= j < cfg.recordBytes
    ensures var size, all := cfg.recordBytes, Stream(cfg, 0, n);
      && Offset(size, a, k) <= Offset(size, a, j) <= |all|
      && Says(cfg.runID, all[Offset(size, a, k)..Offset(size, a, j)], [], if k < j then 1 else 0)
  {
    hide *;
    ReadbackFacts(cfg, n);
    SliceRecord(cfg, n, a, k, j);
    if k < j {
      SaysMiddle(cfg, n, a, k, j);
    } else {
      SaysNothing(cfg.runID);
    }
  }

  /** The rest of a record, whole records, then the front of another. */
  lemma SaysTornThenFront(cfg: Config, n: nat, a: nat, k: nat, b: nat, j: nat)
    requires Readback(cfg, n) && a < b <= n && 0 < k < cfg.recordBytes && j < cfg.recordBytes && (j > 0 ==> b < n)
    ensures var size, all := cfg.recordBytes, Stream(cfg, 0, n);
      && Offset(size, a, k) <= Offset(size, b, j) <= |all|
      && Says(cfg.runID, all[Offset(size, a, k)..Offset(size, b, j)], Named(cfg, a + 1, b, j),
              1 + if 0 < j < PrefixBytes(cfg) then 1 else 0)
  {
    hide *;
    ReadbackFacts(cfg, n);
    var size, all := cfg.recordBytes, Stream(cfg, 0, n);
    var p, q, r := Offset(size, a, k), Offset(size, a + 1, 0), Offset(size, b, j);
    SliceRecord(cfg, n, a, k, size);
    Offsets(size, a, size);
    SaysHead(cfg, n, a, k);
    EndsInNewline(cfg.runID, a + 1, size);
    SaysWholeThenFront(cfg, n, a + 1, b, j);
    var bad := if 0 < j < PrefixBytes(cfg) then 1 else 0;
    SaysAppend(cfg.runID, all[p..q], all[q..r], [], Named(cfg, a + 1, b, j), 1, bad);
    SlicesJoin(all, p, q, r);
    assert [] + Named(cfg, a + 1, b, j) == Named(cfg, a + 1, b, j);
  }

  lemma RangeOfSlice(cfg: Config, x: nat, y: nat)
    requires 0 < PrefixBytes(cfg) < cfg.recordBytes
    ensures var size := cfg.recordBytes;
      var a, k, b, j := RecordOf(size, x), ByteOf(size, x), RecordOf(size, y), ByteOf(size, y);
      && (a == b && k > 0 && k <= j ==>
            Span(ReadRange(cfg, x, y)) == [] && Torn(cfg, x, y) == if k < j then 1 else 0)
      && (k == 0 && a <= b ==>
            && Span(ReadRange(cfg, x, y)) == Named(cfg, a, b, j)
            && Torn(cfg, x, y) == if 0 < j < PrefixBytes(cfg) then 1 else 0)
      && (k > 0 && a < b ==>
            && Span(ReadRange(cfg, x, y)) == Named(cfg, a + 1, b, j)
            && Torn(cfg, x, y) == 1 + if 0 < j < PrefixBytes(cfg) then 1 else 0)
  {
    hide PrefixBytes, RecordOf, ByteOf;
  }

  /** A file that holds bytes x to y of the stream. */
  lemma SliceReads(cfg: Config, n: nat, x: nat, y: nat, source: Source)
    requires Readback(cfg, n) && x <= y <= |Stream(cfg, 0, n)|
    requires source.content == Some(Stream(cfg, 0, n)[x..y])
    ensures ReadsAs(cfg.runID, source, ReadRange(cfg, x, y), Torn(cfg, x, y))
  {
    hide Readback, Stream, R.RawLines, Classes, Sequences, Count, AnyTooLong, Torn, Span, RecordOf, ByteOf;
    ReadbackFacts(cfg, n);
    SaysSlice(cfg, n, x, y);
    var r := ReadRange(cfg, x, y);
    Appended([], r);
    assert [] + Span(r) == Span(r);
    NoDescent(Span(r));
  }

  /** A number is read exactly when bytes x to y hold the whole prefix of its record. */
  lemma ReadExactly(cfg: Config, x: nat, y: nat, k: nat)
    requires 0 < PrefixBytes(cfg) < cfg.recordBytes && k > 0
    ensures k in Span(ReadRange(cfg, x, y)) <==>
      x <= Offset(cfg.recordBytes, k - 1, 0) && Offset(cfg.recordBytes, k - 1, 0) + PrefixBytes(cfg) <= y
  {
    var size, r := cfg.recordBytes, ReadRange(cfg, x, y);
    Placed(size, x);
    Placed(size, y);
    Appended([], r);
    hide PrefixBytes, RecordOf, ByteOf, Offset, Span;
    Offsets(size, RecordOf(size, x), ByteOf(size, x));
    Offsets(size, RecordOf(size, y), ByteOf(size, y));
    Apart(size, RecordOf(size, x), k - 1);
    Apart(size, RecordOf(size, y), k - 1);
  }

  lemma Apart(size: nat, i: nat, j: nat)
    ensures i < j ==> Offset(size, i, 0) + size <= Offset(size, j, 0)
    ensures j < i ==> Offset(size, j, 0) + size <= Offset(size, i, 0)
  {
    hide Offset;
    if i < j {
      OffsetRises(size, i, j);
    } else if j < i {
      OffsetRises(size, j, i);
    }
  }

  /** Stretches that follow each other read as ranges that follow each other. */
  lemma ReadInOrder(cfg: Config, x: nat, y: nat, x': nat, y': nat)
    requires 0 < PrefixBytes(cfg) < cfg.recordBytes && x <= y <= x' <= y'
    ensures ReadRange(cfg, x, y).hi <= ReadRange(cfg, x', y').lo
  {
    var size := cfg.recordBytes;
    RecordsInOrder(size, x, y);
    RecordsInOrder(size, y, x');
    hide PrefixBytes, RecordOf, ByteOf;
  }

  lemma RecordsInOrder(size: nat, x: nat, y: nat)
    requires size > 0 && x <= y
    ensures RecordOf(size, x) <= RecordOf(size, y)
    ensures RecordOf(size, x) == RecordOf(size, y) ==> ByteOf(size, x) <= ByteOf(size, y)
  {
    Placed(size, x);
    Placed(size, y);
    hide RecordOf, ByteOf, Offset;
    var a, b := RecordOf(size, x), RecordOf(size, y);
    Offsets(size, a, ByteOf(size, x));
    Offsets(size, b, ByteOf(size, y));
    Apart(size, a, b);
  }

  /** The end of the stream is the end of its last record. */
  lemma ReadToTheEnd(cfg: Config, n: nat, x: nat)
    requires Readback(cfg, n) && x <= |Stream(cfg, 0, n)|
    ensures ReadRange(cfg, x, |Stream(cfg, 0, n)|).hi == n && Torn(cfg, x, |Stream(cfg, 0, n)|) <= 1
  {
    var size, y := cfg.recordBytes, |Stream(cfg, 0, n)|;
    ReadbackFacts(cfg, n);
    StreamLength(cfg, 0, n);
    Quotient(n, size);
    assert RecordOf(size, y) == n && ByteOf(size, y) == 0;
    hide Readback, Stream;
    RecordsInOrder(size, x, y);
    hide RecordOf, ByteOf;
  }

  lemma TornAtMostTwo(cfg: Config, x: nat, y: nat)
    requires cfg.recordBytes > 0
    ensures Torn(cfg, x, y) <= 2 && (x == 0 ==> Torn(cfg, x, y) <= 1)
  {
    assert ByteOf(cfg.recordBytes, 0) == 0;
    hide RecordOf, ByteOf;
  }
}
