/** The integrity analyzer (internal/integrity/analyze.go): one pass over the log files against its set specification. */
module Integrity {
  import opened Bytes
  import R = Record

  /** A file by its base name; no content when it cannot be opened. */
  datatype Source = Source(name: string, content: Option<seq<byte>>)

  datatype FileSet = FileSet(records: nat, min: nat, max: nat)

  datatype Report = Report(
    expected: nat, validUnique: nat, missing: nat, duplicates: nat, malformed: nat, wrongRunID: nat,
    descendingTransitions: nat, missingExamples: seq<nat>, files: map<string, FileSet>)

  datatype AnalyzeError = Unreadable | LineTooLong

  /** The scanner's buffer; a line and its newline must fit. */
  const MAX_LINE := 4 * 1024 * 1024

  const MAX_EXAMPLES := 100

  /* ---- what the lines of a file say ---- */

  datatype Class = Bad | Foreign | Valid(sequence: nat)

  function Classify(runID: seq<byte>, line: seq<byte>): Class {
    match R.Parse(R.DropReturn(line) + [NEWLINE])
    case Err(_) => Bad
    case Ok(r) => if r.runID == runID then Valid(r.sequence) else Foreign
  }

  function Classes(runID: seq<byte>, lines: seq<seq<byte>>): seq<Class> {
    seq(|lines|, i requires 0 <= i < |lines| => Classify(runID, lines[i]))
  }

  /** The sequence numbers of the valid lines, in order. */
  function Sequences(classes: seq<Class>): seq<nat> {
    if classes == [] then []
    else
      var front, last := Sequences(classes[..|classes| - 1]), classes[|classes| - 1];
      if last.Valid? then front + [last.sequence] else front
  }

  function Count(classes: seq<Class>, c: Class): nat {
    multiset(classes)[c]
  }

  /** How often a number is smaller than the one before it. */
  function Descents(s: seq<nat>): nat {
    if |s| < 2 then 0
    else Descents(s[..|s| - 1]) + if s[|s| - 1] < s[|s| - 2] then 1 else 0
  }

  function Largest(s: seq<nat>): nat {
    if s == [] then 0
    else
      var front, last := Largest(s[..|s| - 1]), s[|s| - 1];
      if last > front then last else front
  }

  /** The running minimum, with zero standing for "nothing yet". */
  function SentinelMin(s: seq<nat>): nat {
    if s == [] then 0
    else
      var front, last := SentinelMin(s[..|s| - 1]), s[|s| - 1];
      if front == 0 || last < front then last else front
  }

  function FileSetOf(s: seq<nat>): FileSet {
    FileSet(|s|, SentinelMin(s), Largest(s))
  }

  /* ---- totals over files ---- */

  datatype Tally = Tally(valid: multiset<nat>, malformed: nat, wrongRunID: nat, descending: nat, lines: nat)
  {
    function Plus(t: Tally): Tally {
      Tally(valid + t.valid, malformed + t.malformed, wrongRunID + t.wrongRunID, descending + t.descending, lines + t.lines)
    }
  }

  const NOTHING := Tally(multiset{}, 0, 0, 0, 0)

  function ClassTally(classes: seq<Class>): Tally {
    var s := Sequences(classes);
    Tally(multiset(s), Count(classes, Bad), Count(classes, Foreign), Descents(s), |classes|)
  }

  function SourceClasses(runID: seq<byte>, source: Source): seq<Class> {
    if source.content.Some? then Classes(runID, R.RawLines(source.content.value)) else []
  }

  function Total(runID: seq<byte>, sources: seq<Source>): Tally {
    if sources == [] then NOTHING
    else
      Total(runID, sources[..|sources| - 1]).Plus(ClassTally(SourceClasses(runID, sources[|sources| - 1])))
  }

  function FileSets(runID: seq<byte>, sources: seq<Source>): map<string, FileSet> {
    if sources == [] then map[]
    else
      var last := sources[|sources| - 1];
      FileSets(runID, sources[..|sources| - 1])[last.name := FileSetOf(Sequences(SourceClasses(runID, last)))]
  }

  /* ---- the report ---- */

  function Distinct(m: multiset<nat>): set<nat> {
    set k | k in m
  }

  /** Occurrences beyond the first of each number. */
  function Repeats(m: multiset<nat>): nat {
    DistinctAtMost(m);
    |m| - |Distinct(m)|
  }

  lemma {:induction false} DistinctAtMost(m: multiset<nat>)
    ensures |Distinct(m)| <= |m|
    decreases |m|
  {
    if k :| k in m {
      var rest := m[k := 0];
      assert rest == m - multiset{k}[k := m[k]];
      assert |rest| == |m| - m[k];
      DistinctAtMost(rest);
      assert Distinct(m) == Distinct(rest) + {k};
    } else {
      assert Distinct(m) == {};
    }
  }

  /** The numbers 1 to n that do not occur, in ascending order. */
  function MissingList(seen: multiset<nat>, n: nat): seq<nat> {
    if n == 0 then [] else MissingList(seen, n - 1) + if n in seen then [] else [n]
  }

  function FirstExamples(missing: seq<nat>): seq<nat> {
    if |missing| <= MAX_EXAMPLES then missing else missing[..MAX_EXAMPLES]
  }

  function ReportOf(expected: nat, t: Tally, files: map<string, FileSet>): Report {
    var missing := MissingList(t.valid, expected);
    Report(expected, |Distinct(t.valid)|, |missing|, Repeats(t.valid), t.malformed, t.wrongRunID,
           t.descending, FirstExamples(missing), files)
  }

  /* ---- the scan ---- */

  function Bump(seen: map<nat, nat>, k: nat): map<nat, nat> {
    seen[k := (if k in seen then seen[k] else 0) + 1]
  }

  /** The map counts exactly the occurrences in m. */
  ghost predicate Counts(seen: map<nat, nat>, m: multiset<nat>) {
    && (forall k :: k in seen <==> k in m)
    && (forall k :: k in seen ==> seen[k] == m[k])
  }

  /** The report once the lines classified so far have been counted into it. */
  function Counted(report: Report, t: Tally, before: multiset<nat>): Report {
    report.(malformed := report.malformed + t.malformed, wrongRunID := report.wrongRunID + t.wrongRunID,
            descendingTransitions := report.descendingTransitions + t.descending,
            duplicates := Repeats(before + t.valid))
  }

  function LastOf(s: seq<nat>): nat {
    if s == [] then 0 else s[|s| - 1]
  }

  ghost predicate Scanned(classes: seq<Class>, before: multiset<nat>, seen: map<nat, nat>, report0: Report,
                          report: Report, fileSet: FileSet, previous: nat)
  {
    var t, s := ClassTally(classes), Sequences(classes);
    && Counts(seen, before + t.valid) && report == Counted(report0, t, before)
    && fileSet == FileSetOf(s) && previous == LastOf(s)
  }

  lemma RepeatsPush(m: multiset<nat>, q: nat)
    ensures Repeats(m + multiset{q}) == Repeats(m) + if q in m then 1 else 0
  {
    assert Distinct(m + multiset{q}) == Distinct(m) + {q};
    if q in m {
      assert Distinct(m) + {q} == Distinct(m);
    } else {
      assert |Distinct(m) + {q}| == |Distinct(m)| + 1;
    }
  }

  lemma SequencesPush(front: seq<Class>, c: Class)
    ensures Sequences(front + [c]) == if c.Valid? then Sequences(front) + [c.sequence] else Sequences(front)
    ensures c.Valid? ==> multiset(Sequences(front + [c])) == multiset(Sequences(front)) + multiset{c.sequence}
    ensures forall d :: Count(front + [c], d) == Count(front, d) + if d == c then 1 else 0
  {
    assert (front + [c])[..|front|] == front;
  }

  lemma FoldsPush(s: seq<nat>, q: nat)
    ensures Descents(s + [q]) == Descents(s) + if s != [] && q < LastOf(s) then 1 else 0
    ensures Largest(s + [q]) == if q > Largest(s) then q else Largest(s)
    ensures SentinelMin(s + [q]) == if SentinelMin(s) == 0 || q < SentinelMin(s) then q else SentinelMin(s)
  {
    assert (s + [q])[..|s|] == s;
  }

  lemma ScannedBad(front: seq<Class>, before: multiset<nat>, seen: map<nat, nat>, report0: Report,
                   report: Report, fileSet: FileSet, previous: nat)
    requires Scanned(front, before, seen, report0, report, fileSet, previous)
    ensures Scanned(front + [Bad], before, seen, report0, report.(malformed := report.malformed + 1), fileSet, previous)
    ensures Scanned(front + [Foreign], before, seen, report0, report.(wrongRunID := report.wrongRunID + 1), fileSet, previous)
  {
    hide Sequences, Count, Descents, SentinelMin, Largest, Repeats;
    SequencesPush(front, Bad);
    SequencesPush(front, Foreign);
  }

  lemma ScannedValid(front: seq<Class>, before: multiset<nat>, seen: map<nat, nat>, report0: Report,
                     report: Report, fileSet: FileSet, previous: nat, q: nat)
    requires Scanned(front, before, seen, report0, report, fileSet, previous)
    ensures Scanned(front + [Valid(q)], before, Bump(seen, q), report0,
              report.(
                descendingTransitions := report.descendingTransitions + (if previous != 0 && q < previous then 1 else 0),
                duplicates := report.duplicates + (if Bump(seen, q)[q] > 1 then 1 else 0)),
              FileSet(fileSet.records + 1, if fileSet.min == 0 || q < fileSet.min then q else fileSet.min,
                      if q > fileSet.max then q else fileSet.max),
              q)
  {
    hide Sequences, Count, Descents, SentinelMin, Largest, Repeats;
    var s, valid := Sequences(front), multiset(Sequences(front));
    SequencesPush(front, Valid(q));
    FoldsPush(s, q);
    RepeatsPush(before + valid, q);
    assert before + (valid + multiset{q}) == (before + valid) + multiset{q};
  }

  /** What the inner loop threads through the lines of a file. */
  datatype Scan = Scan(seen: map<nat, nat>, report: Report, fileSet: FileSet, previous: nat)

  /** The first n lines have been counted into s, starting from report. */
  ghost predicate ScannedTo(runID: seq<byte>, lines: seq<seq<byte>>, n: nat, before: multiset<nat>, report: Report, s: Scan)
    requires n <= |lines|
  {
    Scanned(Classes(runID, lines)[..n], before, s.seen, report, s.report, s.fileSet, s.previous)
  }

  predicate TooLong(line: seq<byte>) {
    |line| >= MAX_LINE
  }

  predicate AnyTooLong(lines: seq<seq<byte>>, n: nat)
    requires n <= |lines|
  {
    exists i :: 0 <= i < n && TooLong(lines[i])
  }

  lemma StepBad(runID: seq<byte>, lines: seq<seq<byte>>, n: nat, before: multiset<nat>, report: Report, s: Scan)
    requires n < |lines| && ScannedTo(runID, lines, n, before, report, s)
    ensures Classify(runID, lines[n]).Bad? ==>
      ScannedTo(runID, lines, n + 1, before, report, s.(report := s.report.(malformed := s.report.malformed + 1)))
    ensures Classify(runID, lines[n]).Foreign? ==>
      ScannedTo(runID, lines, n + 1, before, report, s.(report := s.report.(wrongRunID := s.report.wrongRunID + 1)))
  {
    hide Scanned, Classify;
    var front := Classes(runID, lines)[..n];
    assert Classes(runID, lines)[..n + 1] == front + [Classify(runID, lines[n])];
    ScannedBad(front, before, s.seen, report, s.report, s.fileSet, s.previous);
  }

  lemma StepValid(runID: seq<byte>, lines: seq<seq<byte>>, n: nat, before: multiset<nat>, report: Report, s: Scan)
    requires n < |lines| && ScannedTo(runID, lines, n, before, report, s) && Classify(runID, lines[n]).Valid?
    ensures ScannedTo(runID, lines, n + 1, before, report, AfterValid(s, Classify(runID, lines[n]).sequence))
  {
    hide Scanned, Classify;
    var front, q := Classes(runID, lines)[..n], Classify(runID, lines[n]).sequence;
    assert Classes(runID, lines)[..n + 1] == front + [Valid(q)];
    ScannedValid(front, before, s.seen, report, s.report, s.fileSet, s.previous, q);
  }

  function AfterValid(s: Scan, q: nat): Scan {
    Scan(
      Bump(s.seen, q),
      s.report.(
        descendingTransitions := s.report.descendingTransitions + (if s.previous != 0 && q < s.previous then 1 else 0),
        duplicates := s.report.duplicates + (if Bump(s.seen, q)[q] > 1 then 1 else 0)),
      FileSet(s.fileSet.records + 1, if s.fileSet.min == 0 || q < s.fileSet.min then q else s.fileSet.min,
              if q > s.fileSet.max then q else s.fileSet.max),
      q)
  }

  /** One line: the body of the inner loop. */
  method CountLine(runID: seq<byte>, line: seq<byte>, s: Scan, ghost lines: seq<seq<byte>>, ghost n: nat,
                   ghost before: multiset<nat>, ghost start: Report)
    returns (t: Scan)
    requires n < |lines| && lines[n] == line && ScannedTo(runID, lines, n, before, start, s)
    ensures ScannedTo(runID, lines, n + 1, before, start, t)
  {
    hide ScannedTo, Classes, R.Parse, R.DropReturn;
    var report, fileSet := s.report, s.fileSet;
    StepBad(runID, lines, n, before, start, s);
    match R.Parse(R.DropReturn(line) + [NEWLINE])
    case Err(_) =>
      t := s.(report := report.(malformed := report.malformed + 1));
    case Ok(parsed) =>
      if parsed.runID != runID {
        t := s.(report := report.(wrongRunID := report.wrongRunID + 1));
      } else {
        StepValid(runID, lines, n, before, start, s);
        var sequence := parsed.sequence;
        fileSet := fileSet.(records := fileSet.records + 1);
        if fileSet.min == 0 || sequence < fileSet.min {
          fileSet := fileSet.(min := sequence);
        }
        if sequence > fileSet.max {
          fileSet := fileSet.(max := sequence);
        }
        if s.previous != 0 && sequence < s.previous {
          report := report.(descendingTransitions := report.descendingTransitions + 1);
        }
        var seen := Bump(s.seen, sequence);
        if seen[sequence] > 1 {
          report := report.(duplicates := report.duplicates + 1);
        }
        t := Scan(seen, report, fileSet, sequence);
      }
  }

  /** One file: the inner loop. */
  method ScanLines(runID: seq<byte>, lines: seq<seq<byte>>, seen: map<nat, nat>, report: Report,
                   ghost before: multiset<nat>)
    returns (tooLong: bool, s: Scan)
    requires Counts(seen, before) && report.duplicates == Repeats(before)
    ensures tooLong <==> AnyTooLong(lines, |lines|)
    ensures !tooLong ==> AllCounted(runID, lines, before, report, s)
  {
    s := Scan(seen, report, FileSet(0, 0, 0), 0);
    hide ScannedTo, AllCounted, Counts, Repeats;
    ScannedNothing(runID, lines, before, seen, report);
    var i := 0;
    while i < |lines|
      invariant 0 <= i <= |lines|
      invariant !AnyTooLong(lines, i)
      invariant ScannedTo(runID, lines, i, before, report, s)
    {
      if TooLong(lines[i]) {
        return true, s;
      }
      s := CountLine(runID, lines[i], s, lines, i, before, report);
      i := i + 1;
    }
    ScannedAll(runID, lines, before, report, s);
    return false, s;
  }

  lemma ScannedNothing(runID: seq<byte>, lines: seq<seq<byte>>, before: multiset<nat>, seen: map<nat, nat>, report: Report)
    requires Counts(seen, before) && report.duplicates == Repeats(before)
    ensures ScannedTo(runID, lines, 0, before, report, Scan(seen, report, FileSet(0, 0, 0), 0))
  {
    hide Classes, Repeats;
    assert before + multiset{} == before;
    assert Classes(runID, lines)[..0] == [];
  }

  lemma ScannedAll(runID: seq<byte>, lines: seq<seq<byte>>, before: multiset<nat>, report: Report, s: Scan)
    requires ScannedTo(runID, lines, |lines|, before, report, s)
    ensures AllCounted(runID, lines, before, report, s)
  {
    assert Classes(runID, lines)[..|lines|] == Classes(runID, lines);
  }

  /** Every line has been counted, and the file's own figures are those of its valid lines. */
  ghost predicate AllCounted(runID: seq<byte>, lines: seq<seq<byte>>, before: multiset<nat>, report: Report, s: Scan) {
    var classes := Classes(runID, lines);
    var t := ClassTally(classes);
    && Counts(s.seen, before + t.valid) && s.report == Counted(report, t, before)
    && s.fileSet == FileSetOf(Sequences(classes))
  }

  predicate Readable(source: Source) {
    && source.content.Some?
    && var lines := R.RawLines(source.content.value);
       !AnyTooLong(lines, |lines|)
  }

  predicate AllReadable(sources: seq<Source>, n: nat)
    requires n <= |sources|
  {
    forall i :: 0 <= i < n ==> Readable(sources[i])
  }

  /** The report before the missing numbers are looked for. */
  function Partial(expected: nat, t: Tally, files: map<string, FileSet>): Report {
    Report(expected, 0, 0, Repeats(t.valid), t.malformed, t.wrongRunID, t.descending, [], files)
  }

  lemma TotalPush(runID: seq<byte>, sources: seq<Source>, i: nat)
    requires i < |sources|
    ensures Total(runID, sources[..i + 1]) == Total(runID, sources[..i]).Plus(ClassTally(SourceClasses(runID, sources[i])))
    ensures FileSets(runID, sources[..i + 1])
         == FileSets(runID, sources[..i])[sources[i].name := FileSetOf(Sequences(SourceClasses(runID, sources[i])))]
  {
    assert sources[..i + 1][..i] == sources[..i];
  }

  lemma PartialPush(expected: nat, t: Tally, u: Tally, files: map<string, FileSet>, name: string, fileSet: FileSet)
    ensures Partial(expected, t, files).duplicates == Repeats(t.valid)
    ensures Partial(expected, t, files).files == files
    ensures Counted(Partial(expected, t, files), u, t.valid).(files := files[name := fileSet])
         == Partial(expected, t.Plus(u), files[name := fileSet])
    ensures Counted(Partial(expected, t, files), u, t.valid).files == files
    ensures Partial(expected, t.Plus(u), files[name := fileSet]).duplicates == Repeats(t.Plus(u).valid)
  {
  }

  /** The first n files have been counted into seen and report. */
  ghost predicate Summed(runID: seq<byte>, expected: nat, sources: seq<Source>, n: nat, seen: map<nat, nat>, report: Report)
    requires n <= |sources|
  {
    var t := Total(runID, sources[..n]);
    && Counts(seen, t.valid) && report.duplicates == Repeats(t.valid)
    && report == Partial(expected, t, FileSets(runID, sources[..n]))
  }

  /** One file: the body of the outer loop. */
  method ScanFile(runID: seq<byte>, source: Source, seen0: map<nat, nat>, report0: Report,
                  ghost expected: nat, ghost sources: seq<Source>, ghost n: nat)
    returns (error: Option<AnalyzeError>, seen: map<nat, nat>, report: Report)
    requires n < |sources| && sources[n] == source && Summed(runID, expected, sources, n, seen0, report0)
    ensures error.None? <==> Readable(source)
    ensures error == Some(Unreadable) <==> source.content.None?
    ensures error.None? ==> Summed(runID, expected, sources, n + 1, seen, report)
  {
    if source.content.None? {
      return Some(Unreadable), seen0, report0;
    }
    ghost var t, u := Total(runID, sources[..n]), ClassTally(SourceClasses(runID, source));
    ghost var files, fileSet := FileSets(runID, sources[..n]), FileSetOf(Sequences(SourceClasses(runID, source)));
    TotalPush(runID, sources, n);
    PartialPush(expected, t, u, files, source.name, fileSet);
    hide ClassTally, Sequences, Classes, Repeats, Total, FileSets, Counts, Counted, Partial, FileSetOf, Classify;
    var tooLong, s := ScanLines(runID, R.RawLines(source.content.value), seen0, report0, t.valid);
    if tooLong {
      return Some(LineTooLong), seen0, report0;
    }
    return None, s.seen, s.report.(files := s.report.files[source.name := s.fileSet]);
  }

  /** The first file that cannot be read completely is missing, or has a line that is too long. */
  ghost predicate FirstUnreadable(sources: seq<Source>, error: AnalyzeError) {
    exists i :: 0 <= i < |sources| && AllReadable(sources, i) && !Readable(sources[i])
      && (error == Unreadable <==> sources[i].content.None?)
  }

  /** Every file in turn: the outer loop. */
  method ScanFiles(runID: seq<byte>, expected: nat, sources: seq<Source>)
    returns (error: Option<AnalyzeError>, seen: map<nat, nat>, report: Report)
    ensures error.None? <==> AllReadable(sources, |sources|)
    ensures error.Some? ==> FirstUnreadable(sources, error.value)
    ensures error.None? ==> Summed(runID, expected, sources, |sources|, seen, report)
  {
    error, seen, report := None, map[], Report(expected, 0, 0, 0, 0, 0, 0, [], map[]);
    hide Summed, Readable;
    SummedNothing(runID, expected, sources);
    var i := 0;
    while i < |sources|
      invariant 0 <= i <= |sources|
      invariant error.None?
      invariant AllReadable(sources, i)
      invariant Summed(runID, expected, sources, i, seen, report)
    {
      error, seen, report := ScanFile(runID, sources[i], seen, report, expected, sources, i);
      if error.Some? {
        return;
      }
      i := i + 1;
    }
  }

  lemma SummedNothing(runID: seq<byte>, expected: nat, sources: seq<Source>)
    ensures Summed(runID, expected, sources, 0, map[], Report(expected, 0, 0, 0, 0, 0, 0, [], map[]))
  {
    NoRepeats();
    assert sources[..0] == [];
  }

  lemma NoRepeats()
    ensures Repeats(multiset{}) == 0
  {
    assert Distinct(multiset{}) == {};
  }

  /** The whole analysis.  The loop over 1 to expected would not end for the largest 64-bit value. */
  method Analyze(runID: seq<byte>, expected: nat, sources: seq<Source>) returns (r: Result<Report, AnalyzeError>)
    requires expected < MAX_UINT64
    ensures r.Ok? <==> AllReadable(sources, |sources|)
    ensures r.Err? ==> FirstUnreadable(sources, r.error)
    ensures r.Ok? ==> r.value == ReportOf(expected, Total(runID, sources), FileSets(runID, sources))
  {
    var error, seen, report := ScanFiles(runID, expected, sources);
    if error.Some? {
      return Err(error.value);
    }
    hide Total, FileSets, Repeats, AllReadable;
    assert sources[..|sources|] == sources;
    assert seen.Keys == Distinct(Total(runID, sources).valid);
    report := report.(validUnique := |seen|);
    var missing, examples := FindMissing(expected, seen, Total(runID, sources).valid);
    return Ok(report.(missing := missing, missingExamples := examples));
  }

  method FindMissing(expected: nat, seen: map<nat, nat>, ghost valid: multiset<nat>)
    returns (missing: nat, examples: seq<nat>)
    requires Counts(seen, valid)
    ensures missing == |MissingList(valid, expected)|
    ensures examples == FirstExamples(MissingList(valid, expected))
  {
    missing, examples := 0, [];
    var sequence: nat := 1;
    while sequence <= expected
      invariant 1 <= sequence <= expected + 1
      invariant missing == |MissingList(valid, sequence - 1)|
      invariant examples == FirstExamples(MissingList(valid, sequence - 1))
    {
      ExamplesPush(MissingList(valid, sequence - 1), sequence);
      if sequence !in seen {
        missing := missing + 1;
        if |examples| < MAX_EXAMPLES {
          examples := examples + [sequence];
        }
      }
      sequence := sequence + 1;
    }
  }

  lemma ExamplesPush(missing: seq<nat>, n: nat)
    ensures FirstExamples(missing + [n]) ==
      if |FirstExamples(missing)| < MAX_EXAMPLES then FirstExamples(missing) + [n] else FirstExamples(missing)
  {
  }
}
