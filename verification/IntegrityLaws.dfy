/** What an integrity report means, and what passing it proves. */
module IntegrityLaws {
  import opened Bytes
  import opened Ordered
  import opened Integrity
  import R = Record

  /* ---- the figures of a report ---- */

  function MissingSet(seen: multiset<nat>, n: nat): set<nat> {
    set k | 1 <= k <= n && k !in seen
  }

  lemma {:induction false} MissingListIs(seen: multiset<nat>, n: nat)
    ensures var list := MissingList(seen, n);
      && |list| == |MissingSet(seen, n)|
      && (forall k :: k in list <==> k in MissingSet(seen, n))
      && Increasing(list)
  {
    if n > 0 {
      MissingListIs(seen, n - 1);
      if n in seen {
        assert MissingSet(seen, n) == MissingSet(seen, n - 1);
      } else {
        assert MissingSet(seen, n) == MissingSet(seen, n - 1) + {n};
        var front := MissingList(seen, n - 1);
        hide MissingList, Increasing;
        IncreasingSnoc(front, n);
      }
    }
  }

  /** The occurrences beyond the first, number by number. */
  function Excess(m: multiset<nat>, keys: seq<nat>): int {
    if keys == [] then 0 else Excess(m, keys[..|keys| - 1]) + m[keys[|keys| - 1]] - 1
  }

  lemma {:induction false} ExcessIsRepeats(m: multiset<nat>, keys: seq<nat>)
    requires forall k :: k in m <==> k in keys
    requires Increasing(keys)
    ensures Excess(m, keys) == Repeats(m)
  {
    if keys == [] {
      assert m == multiset{};
      NoRepeats();
    } else {
      var front, last := keys[..|keys| - 1], keys[|keys| - 1];
      var rest := m[last := 0];
      WithoutKey(m, last);
      KeysBefore(m, keys);
      ExcessIsRepeats(rest, front);
      ExcessSame(m, rest, front);
    }
  }

  lemma WithoutKey(m: multiset<nat>, k: nat)
    requires k in m
    ensures var rest := m[k := 0]; Repeats(m) == Repeats(rest) + m[k] - 1
  {
    var rest := m[k := 0];
    assert Distinct(m) == Distinct(rest) + {k};
    assert rest + multiset{}[k := m[k]] == m;
  }

  /** The keys but the last, and the multiset without it. */
  lemma KeysBefore(m: multiset<nat>, keys: seq<nat>)
    requires keys != [] && Increasing(keys) && forall k :: k in m <==> k in keys
    ensures var front, last := keys[..|keys| - 1], keys[|keys| - 1];
      && last in m && Increasing(front) && last !in front
      && forall k :: k in m[last := 0] <==> k in front
  {
    assert keys == keys[..|keys| - 1] + [keys[|keys| - 1]];
  }

  lemma {:induction false} ExcessSame(m: multiset<nat>, m': multiset<nat>, keys: seq<nat>)
    requires forall i :: 0 <= i < |keys| ==> m[keys[i]] == m'[keys[i]]
    ensures Excess(m, keys) == Excess(m', keys)
  {
    if keys != [] {
      ExcessSame(m, m', keys[..|keys| - 1]);
    }
  }

  lemma {:induction false} ClassesAddUp(classes: seq<Class>)
    ensures |classes| == |Sequences(classes)| + Count(classes, Bad) + Count(classes, Foreign)
  {
    if classes != [] {
      var front, last := classes[..|classes| - 1], classes[|classes| - 1];
      ClassesAddUp(front);
      assert classes == front + [last];
      SequencesPush(front, last);
    }
  }

  lemma {:induction false} LinesAddUp(runID: seq<byte>, sources: seq<Source>)
    ensures var t := Total(runID, sources); t.lines == |t.valid| + t.malformed + t.wrongRunID
  {
    if sources != [] {
      hide Sequences, Count;
      var last := SourceClasses(runID, sources[|sources| - 1]);
      LinesAddUp(runID, sources[..|sources| - 1]);
      ClassesAddUp(last);
    }
  }

  /** The report's figures against the set of numbers read: distinct, repeated and missing numbers, the first missing
      ones in order, and every line accounted for once. */
  lemma ReportMeaning(runID: seq<byte>, expected: nat, sources: seq<Source>)
    ensures var t, r := Total(runID, sources), ReportOf(expected, Total(runID, sources), FileSets(runID, sources));
      && r.validUnique == |Distinct(t.valid)|
      && r.duplicates == Excess(t.valid, Ascending(Distinct(t.valid)))
      && |t.valid| == r.validUnique + r.duplicates
      && t.lines == r.validUnique + r.duplicates + r.malformed + r.wrongRunID
      && r.missing == |MissingSet(t.valid, expected)|
      && |r.missingExamples| == (if r.missing < 100 then r.missing else 100)
      && (forall i :: 0 <= i < |r.missingExamples| ==> r.missingExamples[i] in MissingSet(t.valid, expected))
      && Increasing(r.missingExamples)
      && (forall k, i :: k in MissingSet(t.valid, expected) && k !in r.missingExamples && 0 <= i < |r.missingExamples| ==>
            r.missingExamples[i] < k)
  {
    var valid := Total(runID, sources).valid;
    LinesAddUp(runID, sources);
    RepeatsAreExcess(valid);
    MissingListIs(valid, expected);
    hide Total, Distinct, Ascending, MissingList, Excess;
    ExamplesAreFirst(MissingList(valid, expected));
  }

  /** A line counts for the run when it opens with a prefix of it, is foreign when it opens with one of another run, and is
      malformed when it opens with none. */
  lemma ClassMeans(runID: seq<byte>, line: seq<byte>, r: R.Record)
    ensures var c, text := Classify(runID, line), R.DropReturn(line);
      r.runID != [] && SPACE !in r.runID && R.HasPrefix(text, r) ==>
        c == if r.runID == runID then Valid(r.sequence) else Foreign
    ensures Classify(runID, line).Bad? ==>
      !(r.runID != [] && SPACE !in r.runID && R.HasPrefix(R.DropReturn(line), r))
  {
    var text := R.DropReturn(line);
    assert R.TrimNewline(text + [NEWLINE]) == text;
    hide R.Parse, R.DropReturn, R.HasPrefix, R.TrimNewline;
    R.ParseExact(text + [NEWLINE], r);
  }

  /** A file in which no line is a record of any run. */
  lemma {:induction false} AllOneClass(classes: seq<Class>, c: Class)
    requires !c.Valid? && forall i :: 0 <= i < |classes| ==> classes[i] == c
    ensures ClassTally(classes)
         == Tally(multiset{}, if c.Bad? then |classes| else 0, if c.Foreign? then |classes| else 0, 0, |classes|)
  {
    if classes != [] {
      var front := classes[..|classes| - 1];
      AllOneClass(front, c);
      assert classes == front + [c];
      hide Sequences, Count;
      SequencesPush(front, c);
      NoNumbers(Sequences(front));
      NoNumbers(Sequences(classes));
    }
  }

  lemma NoNumbers(s: seq<nat>)
    requires multiset(s) == multiset{}
    ensures s == []
  {
    assert |multiset(s)| == |s|;
  }

  /** The i-th number is smaller than the one before it. */
  predicate Drops(s: seq<nat>, i: nat) {
    0 < i < |s| && s[i] < s[i - 1]
  }

  /** Descending transitions are the places where a number is smaller than the one before it. */
  lemma {:induction false} DescentsAre(s: seq<nat>)
    ensures Descents(s) == |set i: nat | i < |s| && Drops(s, i)|
  {
    var places := set i: nat | i < |s| && Drops(s, i);
    if |s| < 2 {
      assert places == {};
    } else {
      var n := |s| - 1;
      var front := s[..n];
      var before := set i: nat | i < |front| && Drops(front, i);
      DescentsAre(front);
      if s[n] < s[n - 1] {
        assert places == before + {n};
      } else {
        assert places == before;
      }
    }
  }

  /** The largest number of a file is an upper bound and, unless there is none, one of them. */
  lemma {:induction false} LargestIs(s: seq<nat>)
    ensures (forall i :: 0 <= i < |s| ==> s[i] <= Largest(s)) && (if s == [] then Largest(s) == 0 else Largest(s) in s)
  {
    if s != [] {
      var front := s[..|s| - 1];
      LargestIs(front);
      assert s == front + [s[|s| - 1]];
    }
  }

  /** With distinct names the report holds an entry for each file: how many records it has and its bounds. */
  lemma {:induction false} FilesListed(runID: seq<byte>, sources: seq<Source>, i: nat)
    requires i < |sources| && forall j, k :: 0 <= j < k < |sources| ==> sources[j].name != sources[k].name
    ensures var s, files := Sequences(SourceClasses(runID, sources[i])), FileSets(runID, sources);
      sources[i].name in files && files[sources[i].name] == FileSet(|s|, SentinelMin(s), Largest(s))
  {
    hide SourceClasses, Sequences, SentinelMin, Largest;
    var n := |sources| - 1;
    if i < n {
      FilesListed(runID, sources[..n], i);
    }
  }

  lemma RepeatsAreExcess(m: multiset<nat>)
    ensures Excess(m, Ascending(Distinct(m))) == Repeats(m)
  {
    var keys := Ascending(Distinct(m));
    AscendingIncreases(Distinct(m));
    ExcessIsRepeats(m, keys);
  }

  lemma ExamplesAreFirst(list: seq<nat>)
    requires Increasing(list)
    ensures var first := FirstExamples(list);
      && |first| == (if |list| < MAX_EXAMPLES then |list| else MAX_EXAMPLES)
      && (forall i :: 0 <= i < |first| ==> first[i] in list)
      && Increasing(first)
      && (forall k, i :: k in list && k !in first && 0 <= i < |first| ==> first[i] < k)
  {
    var first := FirstExamples(list);
    assert forall i :: 0 <= i < |first| ==> first[i] == list[i];
    forall k, i | k in list && k !in first && 0 <= i < |first| ensures first[i] < k {
      var j :| 0 <= j < |list| && list[j] == k;
      assert list[j] !in first;
    }
  }

  /** The minimum kept per file is the true one exactly when no zero was read before a later number: zero doubles as
      "nothing yet". */
  lemma {:induction false} MinimumExactly(s: seq<nat>)
    requires s != []
    ensures (SentinelMin(s) in s && forall x :: x in s ==> SentinelMin(s) <= x) <==> (0 !in s || LastOf(s) == 0)
    ensures SentinelMin(s) in s
    ensures SentinelMin(s) == 0 <==> LastOf(s) == 0
    ensures forall x :: x in s && x < SentinelMin(s) ==> 0 in s
  {
    var front, last := s[..|s| - 1], s[|s| - 1];
    assert s == front + [last];
    if front != [] {
      MinimumExactly(front);
    }
  }

  /* ---- the order of the files does not matter ---- */

  lemma TotalLast(runID: seq<byte>, front: seq<Source>, last: Source)
    ensures Total(runID, front + [last]) == Total(runID, front).Plus(ClassTally(SourceClasses(runID, last)))
  {
    assert (front + [last])[..|front|] == front;
  }

  lemma PlusCommutes(a: Tally, b: Tally, c: Tally)
    ensures a.Plus(b).Plus(c) == a.Plus(c).Plus(b)
  {
  }

  function Without<T>(s: seq<T>, j: nat): seq<T>
    requires j < |s|
  {
    s[..j] + s[j + 1..]
  }

  lemma {:induction false} TotalWithout(runID: seq<byte>, sources: seq<Source>, j: nat)
    requires j < |sources|
    ensures Total(runID, sources) == Total(runID, Without(sources, j)).Plus(ClassTally(SourceClasses(runID, sources[j])))
  {
    hide *;
    var front, last := sources[..|sources| - 1], sources[|sources| - 1];
    assert sources == front + [last];
    TotalLast(runID, front, last);
    WithoutSnoc(front, last, j);
    if j < |front| {
      TotalLast(runID, Without(front, j), last);
      TotalWithout(runID, front, j);
      PlusCommutes(Total(runID, Without(front, j)), ClassTally(SourceClasses(runID, sources[j])),
                   ClassTally(SourceClasses(runID, last)));
    }
  }

  lemma WithoutSnoc<T>(front: seq<T>, last: T, j: nat)
    requires j <= |front|
    ensures Without(front + [last], j) == if j < |front| then Without(front, j) + [last] else front
  {
  }

  lemma {:induction false} TotalPermutes(runID: seq<byte>, a: seq<Source>, b: seq<Source>)
    requires multiset(a) == multiset(b)
    ensures Total(runID, a) == Total(runID, b)
  {
    if a == [] {
      assert |multiset(b)| == 0;
    } else {
      hide *;
      var n := |a| - 1;
      assert a[n] in multiset(a);
      var j :| 0 <= j < |b| && b[j] == a[n];
      WithoutOne(a, n);
      WithoutOne(b, j);
      TotalPermutes(runID, Without(a, n), Without(b, j));
      TotalWithout(runID, b, j);
      TotalWithout(runID, a, n);
    }
  }

  lemma WithoutOne<T>(s: seq<T>, j: nat)
    requires j < |s|
    ensures multiset(Without(s, j)) == multiset(s) - multiset{s[j]} && |Without(s, j)| == |s| - 1
  {
    assert s == s[..j] + [s[j]] + s[j + 1..];
  }

  ghost predicate DistinctNames(sources: seq<Source>) {
    forall i, j :: 0 <= i < j < |sources| ==> sources[i].name != sources[j].name
  }

  ghost predicate SetsOf(runID: seq<byte>, sources: seq<Source>, files: map<string, FileSet>) {
    && (forall s :: s in sources ==> s.name in files && files[s.name] == FileSetOf(Sequences(SourceClasses(runID, s))))
    && (forall name :: name in files ==> exists s :: s in sources && s.name == name)
  }

  lemma {:induction false} FileSetsAre(runID: seq<byte>, sources: seq<Source>)
    requires DistinctNames(sources)
    ensures SetsOf(runID, sources, FileSets(runID, sources))
  {
    hide *;
    if sources == [] {
      FileSetsNone(runID, sources);
    } else {
      var front, last := sources[..|sources| - 1], sources[|sources| - 1];
      DistinctFront(sources);
      FileSetsAre(runID, front);
      SetsPush(runID, front, last, FileSets(runID, front));
      FileSetsLast(runID, front, last);
      assert sources == front + [last];
    }
  }

  lemma FileSetsNone(runID: seq<byte>, sources: seq<Source>)
    requires sources == []
    ensures SetsOf(runID, sources, FileSets(runID, sources))
  {
  }

  lemma DistinctFront(sources: seq<Source>)
    requires sources != [] && DistinctNames(sources)
    ensures var n := |sources| - 1; DistinctNames(sources[..n]) && NameIsNew(sources[..n], sources[n])
  {
  }

  ghost predicate NameIsNew(front: seq<Source>, last: Source) {
    forall i :: 0 <= i < |front| ==> front[i].name != last.name
  }

  lemma FileSetsLast(runID: seq<byte>, front: seq<Source>, last: Source)
    ensures FileSets(runID, front + [last])
         == FileSets(runID, front)[last.name := FileSetOf(Sequences(SourceClasses(runID, last)))]
  {
    assert (front + [last])[..|front|] == front;
  }

  lemma SetsPush(runID: seq<byte>, front: seq<Source>, last: Source, files: map<string, FileSet>)
    requires SetsOf(runID, front, files)
    requires NameIsNew(front, last)
    ensures SetsOf(runID, front + [last], files[last.name := FileSetOf(Sequences(SourceClasses(runID, last)))])
  {
    hide Sequences, SourceClasses, FileSetOf;
    var all, files' := front + [last], files[last.name := FileSetOf(Sequences(SourceClasses(runID, last)))];
    assert last in all;
    forall name | name in files' ensures exists s :: s in all && s.name == name {
      if name != last.name {
        var s :| s in front && s.name == name;
        assert s in all;
      }
    }
  }

  lemma SetsAgree(runID: seq<byte>, a: seq<Source>, b: seq<Source>, f: map<string, FileSet>, g: map<string, FileSet>)
    requires SetsOf(runID, a, f) && SetsOf(runID, b, g) && forall s :: s in a <==> s in b
    ensures f == g
  {
    hide Sequences, SourceClasses, FileSetOf;
    assert f.Keys == g.Keys;
    forall name | name in f ensures f[name] == g[name] {
      var s :| s in a && s.name == name;
    }
  }

  /** Files with distinct base names give the same report in whatever order they are read. */
  lemma OrderIsIrrelevant(runID: seq<byte>, expected: nat, a: seq<Source>, b: seq<Source>)
    requires multiset(a) == multiset(b) && DistinctNames(a) && DistinctNames(b)
    ensures ReportOf(expected, Total(runID, a), FileSets(runID, a)) == ReportOf(expected, Total(runID, b), FileSets(runID, b))
  {
    TotalPermutes(runID, a, b);
    FileSetsAre(runID, a);
    FileSetsAre(runID, b);
    forall s ensures s in a <==> s in b {
      assert s in a <==> s in multiset(a);
    }
    SetsAgree(runID, a, b, FileSets(runID, a), FileSets(runID, b));
  }

  /* ---- what passing proves ---- */

  lemma RepeatsNone(m: multiset<nat>)
    ensures Repeats(m) == 0 <==> forall k :: k in m ==> m[k] == 1
  {
    if Repeats(m) == 0 {
      forall k | k in m ensures m[k] == 1 {
        var rest := m - multiset{k};
        assert m == rest + multiset{k};
        RepeatsPush(rest, k);
      }
    }
    if forall k :: k in m ==> m[k] == 1 {
      assert multiset(Distinct(m)) == m;
      assert |multiset(Distinct(m))| == |Distinct(m)|;
    }
  }

  function OneTo(n: nat): (r: set<nat>)
    ensures |r| == n && forall k :: k in r <==> 1 <= k <= n
  {
    if n == 0 then {} else OneTo(n - 1) + {n}
  }

  /** With nothing missing and nothing repeated, the numbers read are exactly 1 to expected, once each, precisely when
      there are as many distinct ones as expected; the last condition is not implied by the first two. */
  lemma AcceptanceBySize(valid: multiset<nat>, expected: nat)
    requires MissingSet(valid, expected) == {} && Repeats(valid) == 0
    ensures |Distinct(valid)| == expected <==> valid == multiset(OneTo(expected))
  {
    RepeatsNone(valid);
    assert OneTo(expected) <= Distinct(valid) by {
      forall k | k in OneTo(expected) ensures k in valid {
        assert k !in MissingSet(valid, expected);
      }
    }
    if |Distinct(valid)| == expected {
      SubsetOfSameSize(OneTo(expected), Distinct(valid));
      assert valid == multiset(OneTo(expected));
    }
    if valid == multiset(OneTo(expected)) {
      assert Distinct(valid) == OneTo(expected);
    }
  }

  lemma SubsetOfSameSize(a: set<nat>, b: set<nat>)
    requires a <= b && |a| == |b|
    ensures a == b
  {
    assert b == a + (b - a);
    assert |b| == |a| + |b - a|;
  }

  /** A clean report proves the multiset of valid sequences is exactly {1, ..., expected}. */
  lemma AcceptanceIsSound(runID: seq<byte>, expected: nat, sources: seq<Source>)
    ensures var r := ReportOf(expected, Total(runID, sources), FileSets(runID, sources));
      r.missing == 0 && r.duplicates == 0 ==>
        (r.validUnique == expected <==> Total(runID, sources).valid == multiset(OneTo(expected)))
  {
    var valid := Total(runID, sources).valid;
    MissingListIs(valid, expected);
    hide Total, FileSets, MissingList, Distinct;
    if |MissingSet(valid, expected)| == 0 && Repeats(valid) == 0 {
      assert MissingSet(valid, expected) == {};
      AcceptanceBySize(valid, expected);
    }
  }

  lemma {:induction false} NoDescents(s: seq<nat>)
    requires Descents(s) == 0
    ensures forall i, j :: 0 <= i < j < |s| ==> s[i] <= s[j]
  {
    if |s| >= 2 {
      var front := s[..|s| - 1];
      NoDescents(front);
      assert forall i :: 0 <= i < |front| ==> front[i] == s[i];
    }
  }

  lemma {:induction false} PartOfTotal(runID: seq<byte>, sources: seq<Source>, i: nat)
    requires i < |sources|
    ensures var u, t := ClassTally(SourceClasses(runID, sources[i])), Total(runID, sources);
      u.valid <= t.valid && u.descending <= t.descending
  {
    TotalWithout(runID, sources, i);
  }

  /** With no descending transition and no duplicate, the numbers in every file strictly increase. */
  lemma CleanFilesAscend(runID: seq<byte>, sources: seq<Source>, i: nat)
    requires i < |sources| && Total(runID, sources).descending == 0 && Repeats(Total(runID, sources).valid) == 0
    ensures Increasing(Sequences(SourceClasses(runID, sources[i])))
  {
    var s, valid := Sequences(SourceClasses(runID, sources[i])), Total(runID, sources).valid;
    PartOfTotal(runID, sources, i);
    RepeatsNone(valid);
    hide Total, Sequences, SourceClasses;
    NoDescents(s);
    forall a, b | 0 <= a < b < |s| ensures s[a] != s[b] {
      if s[a] == s[b] {
        TwiceInSequence(s, a, b);
      }
    }
  }

  lemma TwiceInSequence(s: seq<nat>, a: nat, b: nat)
    requires a < b < |s| && s[a] == s[b]
    ensures multiset(s)[s[a]] >= 2
  {
    assert s == s[..a] + [s[a]] + s[a + 1..b] + [s[b]] + s[b + 1..];
  }

  /* ---- run ids that cannot be read back ---- */

  /** With a space or a newline in the run id no line of any file counts as a record of the run. */
  lemma {:induction false} NothingValid(runID: seq<byte>, sources: seq<Source>)
    requires !R.PlainRunID(runID)
    ensures Total(runID, sources).valid == multiset{}
  {
    if sources != [] {
      var n := |sources| - 1;
      NothingValid(runID, sources[..n]);
      hide ClassTally, SourceClasses, Total, R.PlainRunID;
      assert sources == sources[..n] + [sources[n]];
      TotalLast(runID, sources[..n], sources[n]);
      NoneValid(runID, sources[n]);
    }
  }

  lemma NoneValid(runID: seq<byte>, source: Source)
    requires !R.PlainRunID(runID)
    ensures ClassTally(SourceClasses(runID, source)).valid == multiset{}
  {
    hide R.PlainRunID, R.Parse, R.DropReturn, R.RawLines;
    if source.content.Some? {
      var lines := R.RawLines(source.content.value);
      forall i | 0 <= i < |lines| ensures !Classify(runID, lines[i]).Valid? {
        R.NoNewlineInLines(source.content.value, i);
        var parsed := R.Parse(R.DropReturn(lines[i]) + [NEWLINE]);
        if parsed.Ok? {
          R.ParsedIsPlain(lines[i], parsed.value);
        }
      }
    }
    NoSequences(SourceClasses(runID, source));
  }

  lemma {:induction false} NoSequences(classes: seq<Class>)
    requires forall i :: 0 <= i < |classes| ==> !classes[i].Valid?
    ensures Sequences(classes) == []
  {
    if classes != [] {
      NoSequences(classes[..|classes| - 1]);
    }
  }
}
