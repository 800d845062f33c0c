/** The fixed-width log record (internal/record/record.go) and the newline framing it is read back with. */
module Record {
  import opened Bytes

  datatype Record = Record(runID: seq<byte>, sequence: uint64)

  datatype EncodeError = BadRunID | SizeTooSmall

  datatype ParseError = Malformed | BadSequence

  /** Bytes of a record that are not padding: run id, two spaces, twenty digits and the newline. */
  function MinimumSize(runID: seq<byte>): nat {
    |runID| + 23
  }

  predicate LegalRunID(runID: seq<byte>) {
    runID != [] && SPACE !in runID && TAB !in runID && RETURN !in runID && NEWLINE !in runID
  }

  /** A run id that survives the way back: lines end at a newline and the fields of a record at a space. */
  predicate PlainRunID(runID: seq<byte>) {
    runID != [] && SPACE !in runID && NEWLINE !in runID
  }

  /* ---- decimal digits ---- */

  function Pow10(w: nat): nat {
    if w == 0 then 1 else 10 * Pow10(w - 1)
  }

  /** n in decimal, zero-padded to w digits (the low w digits when n is wider). */
  function Digits(n: nat, w: nat): (d: seq<byte>)
    ensures |d| == w
    ensures forall i :: 0 <= i < |d| ==> ZERO <= d[i] <= NINE
  {
    if w == 0 then [] else Digits(n / 10, w - 1) + [ZERO + n % 10]
  }

  predicate AllDigits(s: seq<byte>) {
    forall i :: 0 <= i < |s| ==> ZERO <= s[i] <= NINE
  }

  function DecimalValue(s: seq<byte>): nat
    requires AllDigits(s)
  {
    if s == [] then 0 else 10 * DecimalValue(s[..|s| - 1]) + (s[|s| - 1] - ZERO)
  }

  lemma {:induction false} DigitsThenValue(n: nat, w: nat)
    requires n < Pow10(w)
    ensures DecimalValue(Digits(n, w)) == n
  {
    if w > 0 {
      DigitsThenValue(n / 10, w - 1);
      assert Digits(n, w)[..w - 1] == Digits(n / 10, w - 1);
    }
  }

  lemma {:induction false} ValueThenDigits(s: seq<byte>)
    requires AllDigits(s)
    ensures Digits(DecimalValue(s), |s|) == s
  {
    if s != [] {
      ValueThenDigits(s[..|s| - 1]);
      var low := s[|s| - 1] - ZERO;
      assert (10 * DecimalValue(s[..|s| - 1]) + low) / 10 == DecimalValue(s[..|s| - 1]);
    }
  }

  lemma TwentyDigitsHoldUint64()
    ensures Pow10(20) > MAX_UINT64
  {
    assert Pow10(4) == 10_000;
    assert Pow10(8) == 100_000_000;
    assert Pow10(12) == 1_000_000_000_000;
    assert Pow10(16) == 10_000_000_000_000_000;
  }

  /* ---- encoding ---- */

  function Prefix(runID: seq<byte>, sequence: nat): (p: seq<byte>)
    ensures |p| == |runID| + 22
  {
    runID + [SPACE] + Digits(sequence, 20) + [SPACE]
  }

  /** The layout of one record: prefix, padding, newline. */
  function Encoded(runID: seq<byte>, sequence: nat, size: nat): (r: seq<byte>)
    requires size >= MinimumSize(runID)
    ensures |r| == size
  {
    Prefix(runID, sequence) + seq(size - |runID| - 23, _ => FILLER) + [NEWLINE]
  }

  /** The first record of run "r" in 26 bytes: "r 00000000000000000001 xx" and a newline. */
  lemma FirstRecord()
    ensures Encoded([114], 1, 26) == [
      114, 32, 48, 48, 48, 48, 48, 48, 48, 48, 48, 48, 48, 48, 48, 48, 48, 48, 48, 48, 48, 49, 32, 120, 120, 10]
  {
    assert Digits(1, 20) == Digits(0, 19) + [49];
    AllZeros(19);
  }

  lemma {:induction false} AllZeros(w: nat)
    ensures Digits(0, w) == seq(w, _ => 48)
  {
    if w > 0 {
      AllZeros(w - 1);
    }
  }

  /** A run id is legal when it has a byte and none of its bytes is a space, a tab, a return or a newline. */
  lemma LegalMeans(runID: seq<byte>)
    ensures LegalRunID(runID) <==>
      runID != [] && forall i :: 0 <= i < |runID| ==>
        runID[i] != 0x20 && runID[i] != 0x09 && runID[i] != 0x0D && runID[i] != 0x0A
  {
  }

  method Encode(runID: seq<byte>, sequence: nat, size: int) returns (r: Result<seq<byte>, EncodeError>)
    ensures r.Ok? <==> LegalRunID(runID) && size >= MinimumSize(runID)
    ensures r.Ok? ==> r.value == Encoded(runID, sequence, size)
    ensures r.Err? ==> r.error == if LegalRunID(runID) then SizeTooSmall else BadRunID
  {
    if runID == [] || SPACE in runID || TAB in runID || RETURN in runID || NEWLINE in runID {
      return Err(BadRunID);
    }
    var prefix := Prefix(runID, sequence);
    if size < |prefix| + 1 {
      return Err(SizeTooSmall);
    }
    var b := new byte[size](i requires 0 <= i < size => if i < |prefix| then prefix[i] else 0);
    var i := |prefix|;
    while i < b.Length - 1
      invariant |prefix| <= i <= size - 1
      invariant b[..i] == prefix + seq(i - |prefix|, _ => FILLER)
    {
      b[i] := FILLER;
      i := i + 1;
    }
    b[b.Length - 1] := NEWLINE;
    assert b[..] == b[..size - 1] + [NEWLINE];
    return Ok(b[..]);
  }

  /* ---- parsing ---- */

  function TrimNewline(line: seq<byte>): seq<byte> {
    if line != [] && line[|line| - 1] == NEWLINE then line[..|line| - 1] else line
  }

  /** Split at the first n - 1 separators. */
  function SplitN(s: seq<byte>, sep: byte, n: nat): (parts: seq<seq<byte>>)
    requires n >= 1
    ensures 1 <= |parts| <= n
    decreases n
  {
    var i := IndexOf(s, sep);
    if n == 1 || i == |s| then [s] else [s[..i]] + SplitN(s[i + 1..], sep, n - 1)
  }

  /** Base-10 text to an unsigned 64-bit value; none for a non-digit or an overflow. */
  function ParseUint(text: seq<byte>): Option<uint64> {
    if text != [] && AllDigits(text) && DecimalValue(text) <= MAX_UINT64 then Some(DecimalValue(text)) else None
  }

  function Parse(line: seq<byte>): Result<Record, ParseError> {
    var parts := SplitN(TrimNewline(line), SPACE, 3);
    if |parts| != 3 || |parts[0]| == 0 || |parts[1]| != 20 then Err(Malformed)
    else match ParseUint(parts[1])
      case None => Err(BadSequence)
      case Some(sequence) => Ok(Record(parts[0], sequence))
  }

  ghost predicate HasPrefix(line: seq<byte>, r: Record) {
    Prefix(r.runID, r.sequence) <= line
  }

  lemma SplitPrefix(runID: seq<byte>, sequence: nat, rest: seq<byte>)
    requires SPACE !in runID
    ensures SplitN(Prefix(runID, sequence) + rest, SPACE, 3) == [runID, Digits(sequence, 20), rest]
  {
    var digits := Digits(sequence, 20);
    var tail := digits + [SPACE] + rest;
    assert Prefix(runID, sequence) + rest == runID + [SPACE] + tail;
    SplitAtSpace(runID, tail, 3);
    SplitAtSpace(digits, rest, 2);
  }

  lemma SplitAtSpace(head: seq<byte>, tail: seq<byte>, n: nat)
    requires n > 1 && SPACE !in head
    ensures SplitN(head + [SPACE] + tail, SPACE, n) == [head] + SplitN(tail, SPACE, n - 1)
  {
    var s := head + [SPACE] + tail;
    IndexOfSplit(head, SPACE, tail);
    assert s[..|head|] == head && s[|head| + 1..] == tail;
  }

  /** Parse accepts exactly the lines that open with a canonical prefix, and reads back what that prefix says. */
  lemma ParseExact(line: seq<byte>, r: Record)
    ensures Parse(line) == Ok(r) <==> r.runID != [] && SPACE !in r.runID && HasPrefix(TrimNewline(line), r)
  {
    if Parse(line) == Ok(r) {
      ParsedHasPrefix(line, r);
    } else if r.runID != [] && SPACE !in r.runID && HasPrefix(TrimNewline(line), r) {
      PrefixParses(line, r);
    }
  }

  lemma PrefixAndRest(prefix: seq<byte>, text: seq<byte>)
    requires prefix <= text
    ensures text == prefix + text[|prefix|..]
  {
  }

  lemma PrefixParses(line: seq<byte>, r: Record)
    requires r.runID != [] && SPACE !in r.runID && HasPrefix(TrimNewline(line), r)
    ensures Parse(line) == Ok(r)
  {
    var text, prefix := TrimNewline(line), Prefix(r.runID, r.sequence);
    assert prefix <= text;
    hide *;
    PrefixAndRest(prefix, text);
    SplitPrefix(r.runID, r.sequence, text[|prefix|..]);
    PartsParse(line, r, text[|prefix|..]);
  }

  lemma PartsParse(line: seq<byte>, r: Record, rest: seq<byte>)
    requires r.runID != [] && SplitN(TrimNewline(line), SPACE, 3) == [r.runID, Digits(r.sequence, 20), rest]
    ensures Parse(line) == Ok(r)
  {
    TwentyDigitsHoldUint64();
    DigitsThenValue(r.sequence, 20);
    hide SplitN, Digits, TrimNewline, DecimalValue, Pow10;
  }

  lemma ParsedHasPrefix(line: seq<byte>, r: Record)
    requires Parse(line) == Ok(r)
    ensures r.runID != [] && SPACE !in r.runID && HasPrefix(TrimNewline(line), r)
  {
    var text := TrimNewline(line);
    var parts := SplitN(text, SPACE, 3);
    ThreeParts(text);
    ValueThenDigits(parts[1]);
    assert text == Prefix(r.runID, r.sequence) + parts[2];
  }

  lemma ThreeParts(text: seq<byte>)
    requires |SplitN(text, SPACE, 3)| == 3
    ensures var parts := SplitN(text, SPACE, 3);
      SPACE !in parts[0] && text == parts[0] + [SPACE] + parts[1] + [SPACE] + parts[2]
  {
    hide *;
    var head, tail := FirstPart(text, 3);
    var middle, rest := FirstPart(tail, 2);
    LastPart(rest);
    assert text == head + [SPACE] + (middle + [SPACE] + rest);
  }

  lemma LastPart(s: seq<byte>)
    ensures SplitN(s, SPACE, 1) == [s]
  {
  }

  lemma FirstPart(s: seq<byte>, n: nat) returns (head: seq<byte>, tail: seq<byte>)
    requires n > 1 && |SplitN(s, SPACE, n)| > 1
    ensures SPACE !in head && s == head + [SPACE] + tail
    ensures SplitN(s, SPACE, n) == [head] + SplitN(tail, SPACE, n - 1)
  {
    var i := IndexOf(s, SPACE);
    head, tail := s[..i], s[i + 1..];
  }

  /** Encoding then parsing gives the record back, for every sequence and every size, exactly when the run id is not
      empty and has no space. */
  lemma EncodeThenParse(runID: seq<byte>, sequence: uint64, size: nat)
    requires size >= MinimumSize(runID)
    ensures Parse(Encoded(runID, sequence, size)) == Ok(Record(runID, sequence)) <==> runID != [] && SPACE !in runID
  {
    var whole := Encoded(runID, sequence, size);
    ParseExact(whole, Record(runID, sequence));
    assert Prefix(runID, sequence) <= TrimNewline(whole) by {
      assert TrimNewline(whole) == Prefix(runID, sequence) + seq(size - |runID| - 23, _ => FILLER);
    }
  }

  /** A record cut after k bytes still parses exactly when its whole prefix survived. */
  lemma TornRecord(runID: seq<byte>, sequence: uint64, size: nat, k: nat)
    requires PlainRunID(runID) && size >= MinimumSize(runID) && k < size
    ensures Parse(Encoded(runID, sequence, size)[..k]) == Ok(Record(runID, sequence)) <==> k >= |runID| + 22
  {
    var whole := Encoded(runID, sequence, size);
    NoNewlineInside(runID, sequence, size);
    ParseExact(whole[..k], Record(runID, sequence));
    assert Prefix(runID, sequence) == whole[..|runID| + 22];
  }

  lemma NoNewlineInside(runID: seq<byte>, sequence: nat, size: nat)
    requires NEWLINE !in runID && size >= MinimumSize(runID)
    ensures NEWLINE !in Encoded(runID, sequence, size)[..size - 1]
    ensures Encoded(runID, sequence, size)[size - 2] != RETURN
  {
    var padding := seq(size - |runID| - 23, _ => FILLER);
    var digits := Digits(sequence, 20);
    assert Encoded(runID, sequence, size)[..size - 1] == runID + [SPACE] + digits + [SPACE] + padding;
    assert forall b :: b in padding ==> b == FILLER;
    assert forall b :: b in digits ==> ZERO <= b <= NINE;
  }

  /* ---- framing ---- */

  /** The newline-delimited pieces of data, newline removed; an unterminated last piece counts unless empty. */
  function RawLines(data: seq<byte>): (lines: seq<seq<byte>>)
    decreases |data|
  {
    if data == [] then []
    else
      var i := IndexOf(data, NEWLINE);
      if i == |data| then [data] else [data[..i]] + RawLines(data[i + 1..])
  }

  /** The scanner also drops one carriage return at the end of a line. */
  function DropReturn(line: seq<byte>): seq<byte> {
    if line != [] && line[|line| - 1] == RETURN then line[..|line| - 1] else line
  }

  /** One return at the end goes, and nothing else. */
  lemma ReturnsDropped(line: seq<byte>)
    ensures DropReturn(line + [0x0D]) == line
    ensures line == [] || line[|line| - 1] != 0x0D ==> DropReturn(line) == line
  {
    assert (line + [0x0D])[..|line|] == line;
  }

  lemma FirstLine(head: seq<byte>, rest: seq<byte>)
    requires NEWLINE !in head
    ensures RawLines(head + [NEWLINE] + rest) == [head] + RawLines(rest)
  {
    var data := head + [NEWLINE] + rest;
    IndexOfSplit(head, NEWLINE, rest);
    assert data[..|head|] == head && data[|head| + 1..] == rest;
  }

  lemma {:induction false} RawLinesAppend(a: seq<byte>, b: seq<byte>)
    requires a == [] || a[|a| - 1] == NEWLINE
    ensures RawLines(a + b) == RawLines(a) + RawLines(b)
    decreases |a|
  {
    if a == [] {
      assert a + b == b;
    } else {
      var i := IndexOf(a, NEWLINE);
      var head, rest := a[..i], a[i + 1..];
      hide *;
      AtNewline(a);
      RawLinesAppend(rest, b);
      FirstLineAppend(head, rest, b);
    }
  }

  lemma AtNewline(a: seq<byte>)
    requires a != [] && a[|a| - 1] == NEWLINE
    ensures var i := IndexOf(a, NEWLINE);
      && i < |a| && NEWLINE !in a[..i] && a == a[..i] + [NEWLINE] + a[i + 1..]
      && (a[i + 1..] == [] || a[i + 1..][|a| - i - 2] == NEWLINE)
  {
    hide IndexOf;
    Around(a, IndexOf(a, NEWLINE));
  }

  lemma Around(a: seq<byte>, i: nat)
    requires i < |a|
    ensures a == a[..i] + [a[i]] + a[i + 1..]
  {
  }

  lemma FirstLineAppend(head: seq<byte>, rest: seq<byte>, b: seq<byte>)
    requires NEWLINE !in head
    requires RawLines(rest + b) == RawLines(rest) + RawLines(b)
    ensures RawLines(head + [NEWLINE] + rest + b) == RawLines(head + [NEWLINE] + rest) + RawLines(b)
  {
    hide *;
    assert head + [NEWLINE] + rest + b == head + [NEWLINE] + (rest + b);
    FirstLine(head, rest);
    FirstLine(head, rest + b);
  }

  /** The records with the given sequence numbers, back to back. */
  function EncodedAll(runID: seq<byte>, sequences: seq<nat>, size: nat): (data: seq<byte>)
    requires size >= MinimumSize(runID)
    ensures data == [] || data[|data| - 1] == NEWLINE
  {
    if sequences == [] then []
    else
      var n := |sequences| - 1;
      EncodedAll(runID, sequences[..n], size) + Encoded(runID, sequences[n], size)
  }

  lemma EncodedAllAppend(runID: seq<byte>, sequences: seq<nat>, sequence: nat, size: nat)
    requires size >= MinimumSize(runID)
    ensures EncodedAll(runID, sequences + [sequence], size)
         == EncodedAll(runID, sequences, size) + Encoded(runID, sequence, size)
  {
    assert (sequences + [sequence])[..|sequences|] == sequences;
  }

  ghost predicate LineHolds(line: seq<byte>, runID: seq<byte>, sequence: nat) {
    sequence <= MAX_UINT64 && Parse(DropReturn(line) + [NEWLINE]) == Ok(Record(runID, sequence))
  }

  /** One line a record, in order, every line as long as a record less its newline, each parsing back. */
  ghost predicate Frames(lines: seq<seq<byte>>, runID: seq<byte>, sequences: seq<nat>, size: nat) {
    && |lines| == |sequences|
    && forall i :: 0 <= i < |lines| ==> |lines[i]| == size - 1 && LineHolds(lines[i], runID, sequences[i])
  }

  /** Splitting a concatenation of records at newlines gives the original list back exactly when the run id is plain. */
  lemma FramingExact(runID: seq<byte>, sequences: seq<nat>, size: nat)
    requires size >= MinimumSize(runID) && sequences != []
    requires forall i :: 0 <= i < |sequences| ==> sequences[i] <= MAX_UINT64
    ensures Frames(RawLines(EncodedAll(runID, sequences, size)), runID, sequences, size) <==> PlainRunID(runID)
  {
    var lines := RawLines(EncodedAll(runID, sequences, size));
    hide RawLines, EncodedAll, Encoded, Parse, DropReturn;
    if PlainRunID(runID) {
      FramingRoundTrip(runID, sequences, size);
    }
    if Frames(lines, runID, sequences, size) {
      NoNewlineInLines(EncodedAll(runID, sequences, size), 0);
      ParsedIsPlain(lines[0], Record(runID, sequences[0]));
    }
  }

  /** No line holds a newline. */
  lemma {:induction false} NoNewlineInLines(data: seq<byte>, i: nat)
    requires i < |RawLines(data)|
    ensures NEWLINE !in RawLines(data)[i]
    decreases |data|
  {
    var k := IndexOf(data, NEWLINE);
    if k < |data| && i > 0 {
      NoNewlineInLines(data[k + 1..], i - 1);
    }
  }

  /** A line without a newline parses only to a record with a plain run id. */
  lemma ParsedIsPlain(line: seq<byte>, r: Record)
    requires NEWLINE !in line && Parse(DropReturn(line) + [NEWLINE]) == Ok(r)
    ensures PlainRunID(r.runID)
  {
    var text := DropReturn(line);
    ParsedHasPrefix(text + [NEWLINE], r);
    assert TrimNewline(text + [NEWLINE]) == text;
    hide Digits;
    forall i | 0 <= i < |r.runID| ensures r.runID[i] != NEWLINE {
      assert Prefix(r.runID, r.sequence)[i] == r.runID[i] == text[i] == line[i];
    }
  }

  lemma {:induction false} FramingRoundTrip(runID: seq<byte>, sequences: seq<nat>, size: nat)
    requires PlainRunID(runID) && size >= MinimumSize(runID)
    requires forall i :: 0 <= i < |sequences| ==> sequences[i] <= MAX_UINT64
    ensures Frames(RawLines(EncodedAll(runID, sequences, size)), runID, sequences, size)
  {
    if sequences != [] {
      hide *;
      var k := |sequences| - 1;
      var front, last := EncodedAll(runID, sequences[..k], size), Encoded(runID, sequences[k], size);
      assert sequences == sequences[..k] + [sequences[k]];
      FramingRoundTrip(runID, sequences[..k], size);
      EncodedAllAppend(runID, sequences[..k], sequences[k], size);
      RawLinesAppend(front, last);
      OneRecordIsOneLine(runID, sequences[k], size);
      FramesAppend(RawLines(front), last[..size - 1], runID, sequences[..k], sequences[k], size);
    }
  }

  lemma FramesAppend(lines: seq<seq<byte>>, line: seq<byte>, runID: seq<byte>, sequences: seq<nat>, sequence: nat, size: nat)
    requires Frames(lines, runID, sequences, size) && |line| == size - 1 && LineHolds(line, runID, sequence)
    ensures Frames(lines + [line], runID, sequences + [sequence], size)
  {
    hide LineHolds;
  }

  lemma OneRecordIsOneLine(runID: seq<byte>, sequence: nat, size: nat)
    requires PlainRunID(runID) && size >= MinimumSize(runID) && sequence <= MAX_UINT64
    ensures var last := Encoded(runID, sequence, size);
      && RawLines(last) == [last[..size - 1]]
      && LineHolds(last[..size - 1], runID, sequence)
  {
    var last := Encoded(runID, sequence, size);
    var line := last[..size - 1];
    NoNewlineInside(runID, sequence, size);
    assert last == line + [NEWLINE] + [];
    FirstLine(line, []);
    EncodeThenParse(runID, sequence, size);
  }
}
