/** Backup names and retention (internal/rotator/rotator.go): which files EnforceRetention removes from a directory. */
module Retention {
  import opened Bytes

  /* ---- names ---- */

  function Digit(d: nat): char
    requires d < 10
  {
    '0' + d as char
  }

  predicate IsDigit(c: char) {
    '0' <= c <= '9'
  }

  function DecimalText(n: nat): (s: string)
    ensures s != [] && forall i :: 0 <= i < |s| ==> IsDigit(s[i])
  {
    if n < 10 then [Digit(n)] else DecimalText(n / 10) + [Digit(n % 10)]
  }

  function Zeros(n: nat): string {
    seq(n, _ => '0')
  }

  /** Zero-padded to at least six digits. */
  function Pad6(n: nat): (s: string)
    ensures s != [] && forall i :: 0 <= i < |s| ==> IsDigit(s[i])
  {
    var s := DecimalText(n);
    if |s| < 6 then Zeros(6 - |s|) + s else s
  }

  function BackupPath(active: string, ordinal: nat): string {
    active + "." + Pad6(ordinal)
  }

  /** The seventh backup of a.log is a.log.000007; longer ordinals are not cut. */
  lemma PathsLook()
    ensures BackupPath("a.log", 7) == "a.log.000007" && BackupPath("a.log", 1_234_567) == "a.log.1234567"
  {
    Padded7();
    SevenDigits();
    hide Pad6;
  }

  lemma Padded7()
    ensures Pad6(7) == "000007"
  {
    assert DecimalText(7) == "7";
  }

  lemma SevenDigits()
    ensures Pad6(1_234_567) == "1234567"
  {
    assert DecimalText(1_234) == "1234" by {
      assert DecimalText(12) == "12";
      assert DecimalText(123) == "123";
    }
    MoreDigits(1_234, 5);
    MoreDigits(12_345, 6);
    MoreDigits(123_456, 7);
    hide DecimalText;
  }

  lemma MoreDigits(n: nat, d: nat)
    requires n > 0 && d < 10
    ensures DecimalText(10 * n + d) == DecimalText(n) + [Digit(d)]
  {
  }

  function CharValue(c: char): nat
    requires IsDigit(c)
  {
    c as int - '0' as int
  }

  function DigitsValue(s: string): nat
    requires forall i :: 0 <= i < |s| ==> IsDigit(s[i])
  {
    if s == [] then 0 else 10 * DigitsValue(s[..|s| - 1]) + CharValue(s[|s| - 1])
  }

  const MAX_INT: int := 0x7FFF_FFFF_FFFF_FFFF

  function Unsigned(s: string): string {
    if s != [] && (s[0] == '+' || s[0] == '-') then s[1..] else s
  }

  /** Decimal text with an optional sign to a 64-bit integer. */
  function Atoi(s: string): Option<int> {
    var body := Unsigned(s);
    if body == [] || exists i :: 0 <= i < |body| && !IsDigit(body[i]) then None
    else
      var v: int := if s[0] == '-' then 0 - DigitsValue(body) else DigitsValue(body);
      if -MAX_INT - 1 <= v <= MAX_INT then Some(v) else None
  }

  lemma {:induction false} TextValue(n: nat)
    ensures DigitsValue(DecimalText(n)) == n
  {
    if n >= 10 {
      TextValue(n / 10);
      var front := DecimalText(n / 10);
      assert (front + [Digit(n % 10)])[..|front|] == front;
    }
  }

  lemma {:induction false} LeadingZeros(z: nat, s: string)
    requires forall i :: 0 <= i < |s| ==> IsDigit(s[i])
    ensures forall i :: 0 <= i < z + |s| ==> IsDigit((Zeros(z) + s)[i])
    ensures DigitsValue(Zeros(z) + s) == DigitsValue(s)
  {
    if s == [] {
      if z > 0 {
        LeadingZeros(z - 1, s);
        assert (Zeros(z) + s)[..z - 1] == Zeros(z - 1) + s;
      }
    } else {
      var front := s[..|s| - 1];
      LeadingZeros(z, front);
      assert (Zeros(z) + s)[..z + |s| - 1] == Zeros(z) + front;
    }
  }

  /** What is read fits 64 bits, and nothing that fits is refused. */
  lemma OrdinalsFit(s: string)
    ensures Atoi(s).Some? ==> -0x8000_0000_0000_0000 <= Atoi(s).value <= 0x7FFF_FFFF_FFFF_FFFF
    ensures s != [] && (forall i :: 0 <= i < |s| ==> IsDigit(s[i])) ==>
      (Atoi(s) == if DigitsValue(s) <= 0x7FFF_FFFF_FFFF_FFFF then Some(DigitsValue(s)) else None)
  {
  }

  lemma NotANumber(s: string, i: nat)
    requires i < |s| && !IsDigit(s[i]) && s[0] != '+' && s[0] != '-'
    ensures Atoi(s).None?
  {
    assert Unsigned(s) == s && !IsDigit(Unsigned(s)[i]);
  }

  /** Suffixes that are read as numbers, and some that are not. */
  lemma SuffixesRead()
    ensures Atoi("-7") == Some(-7) && Atoi("+7") == Some(7) && Atoi("007") == Some(7)
    ensures Atoi("").None? && Atoi("-").None? && Atoi("gz").None? && Atoi("7.gz").None?
  {
    assert "-7"[1..] == "7" && "+7"[1..] == "7" && "7"[..0] == "";
    assert DigitsValue("7") == 7;
    NotANumber("gz", 0);
    NotANumber("7.gz", 1);
    assert "007"[..2] == "00" && "00"[..1] == "0" && "0"[..0] == "";
    assert DigitsValue("0") == 0 && DigitsValue("00") == 0 && DigitsValue("007") == 7;
  }

  /** The ordinal is read back from the suffix BackupPath gives it. */
  lemma OrdinalRoundTrip(ordinal: nat)
    requires ordinal <= MAX_INT
    ensures Atoi(Pad6(ordinal)) == Some(ordinal)
  {
    var s := DecimalText(ordinal);
    TextValue(ordinal);
    if |s| < 6 {
      LeadingZeros(6 - |s|, s);
    }
    assert IsDigit(Pad6(ordinal)[0]);
  }

  lemma PathsDiffer(active: string, a: nat, b: nat)
    requires a <= MAX_INT && b <= MAX_INT
    ensures BackupPath(active, a) == BackupPath(active, b) ==> a == b
    ensures BackupPath(active, a) != active
  {
    OrdinalRoundTrip(a);
    OrdinalRoundTrip(b);
    assert BackupPath(active, a)[|active| + 1..] == Pad6(a);
    assert BackupPath(active, b)[|active| + 1..] == Pad6(b);
  }

  /* ---- retention ---- */

  /** What the glob "active.*" matches. */
  predicate Matches(active: string, name: string) {
    active + "." <= name
  }

  function OrdinalOf(active: string, name: string): Option<int> {
    if Matches(active, name) then Atoi(name[|active| + 1..]) else None
  }

  predicate IsBackup(active: string, name: string) {
    OrdinalOf(active, name).Some?
  }

  function Ordinal(active: string, name: string): int {
    if IsBackup(active, name) then OrdinalOf(active, name).value else 0
  }

  function Backups(active: string, names: set<string>): set<string> {
    set name | name in names && IsBackup(active, name)
  }

  lemma BackupPathIsBackup(active: string, o: nat)
    requires o <= MAX_INT
    ensures IsBackup(active, BackupPath(active, o)) && Ordinal(active, BackupPath(active, o)) == o
  {
    OrdinalRoundTrip(o);
    assert BackupPath(active, o)[|active| + 1..] == Pad6(o);
  }

  /** after is before with its oldest backups removed, down to maxBackups of them; nothing else changed. */
  ghost predicate Retained(active: string, maxBackups: int, before: map<string, seq<byte>>, after: map<string, seq<byte>>) {
    var had, kept := Backups(active, before.Keys), Backups(active, after.Keys);
    && (forall name :: name in after ==> name in before && after[name] == before[name])
    && (forall name :: name in before && !IsBackup(active, name) ==> name in after)
    && |kept| == (if maxBackups > 0 && |had| > maxBackups then maxBackups else |had|)
    && (forall gone, stays :: gone in had - kept && stays in kept ==> Ordinal(active, gone) <= Ordinal(active, stays))
  }

  predicate DistinctOrdinals(active: string, names: set<string>) {
    forall a, b :: a in Backups(active, names) && b in Backups(active, names) && a != b ==>
      Ordinal(active, a) != Ordinal(active, b)
  }

  /** The backups with a greater ordinal than name. */
  function Newer(active: string, names: set<string>, name: string): set<string> {
    set b | b in Backups(active, names) && Ordinal(active, b) > Ordinal(active, name)
  }

  /** With distinct ordinals the survivors are exactly the maxBackups numerically greatest. */
  lemma KeepsTheGreatest(active: string, maxBackups: int, before: map<string, seq<byte>>, after: map<string, seq<byte>>,
                         name: string)
    requires Retained(active, maxBackups, before, after) && maxBackups > 0
    requires DistinctOrdinals(active, before.Keys) && name in Backups(active, before.Keys)
    ensures name in after <==> |Newer(active, before.Keys, name)| < maxBackups
  {
    var had, kept, newer := Backups(active, before.Keys), Backups(active, after.Keys), Newer(active, before.Keys, name);
    assert kept <= had;
    if name in after {
      assert name in kept;
      assert newer <= kept - {name} by {
        forall b | b in newer ensures b in kept - {name} {
          assert b in had;
        }
      }
      SubsetSize(newer, kept - {name});
    } else {
      assert name in had - kept;
      assert kept <= newer by {
        forall b | b in kept ensures b in newer {
          assert b in had && b != name;
        }
      }
      SubsetSize(kept, newer);
      SubsetSize(kept + {name}, had);
    }
  }

  lemma SubsetSize<T>(a: set<T>, b: set<T>)
    requires a <= b
    ensures |a| <= |b|
  {
    assert b == a + (b - a);
  }

  datatype Listed = Listed(path: string, ordinal: int)

  ghost predicate ByOrdinal(list: seq<Listed>) {
    forall i, j :: 0 <= i < j < |list| ==> list[i].ordinal <= list[j].ordinal
  }

  function Paths(list: seq<Listed>): set<string> {
    set b | b in list :: b.path
  }

  /** b put where the ascending order wants it. */
  function Insert(b: Listed, list: seq<Listed>): (r: seq<Listed>)
    ensures |r| == |list| + 1 && multiset(r) == multiset(list) + multiset{b}
    ensures ByOrdinal(list) ==> ByOrdinal(r)
  {
    if list == [] || b.ordinal <= list[0].ordinal then [b] + list
    else
      var rest := Insert(b, list[1..]);
      assert list == [list[0]] + list[1..];
      InsertKeepsFirst(b, list, rest);
      [list[0]] + rest
  }

  lemma InsertKeepsFirst(b: Listed, list: seq<Listed>, rest: seq<Listed>)
    requires list != [] && list[0].ordinal <= b.ordinal && multiset(rest) == multiset(list[1..]) + multiset{b}
    requires ByOrdinal(list[1..]) ==> ByOrdinal(rest)
    ensures ByOrdinal(list) ==> ByOrdinal([list[0]] + rest)
  {
    if ByOrdinal(list) {
      forall x | x in rest ensures list[0].ordinal <= x.ordinal {
        assert x in multiset(rest);
        assert x in list[1..] || x == b;
      }
    }
  }

  /** Every listed path is a backup of the directory, listed once under its ordinal. */
  ghost predicate Lists(active: string, list: seq<Listed>, names: set<string>) {
    && |list| == |names|
    && (forall b :: b in list ==> b.path in names && b.ordinal == Ordinal(active, b.path))
    && (forall name :: name in names ==> Listed(name, Ordinal(active, name)) in list)
  }

  lemma ListOneMore(active: string, list: seq<Listed>, names: set<string>, name: string)
    requires Lists(active, list, names) && name !in names
    ensures Lists(active, Insert(Listed(name, Ordinal(active, name)), list), names + {name})
  {
    hide Insert, Ordinal, ByOrdinal;
    InsertAdds(Listed(name, Ordinal(active, name)), list);
  }

  lemma InsertAdds(b: Listed, list: seq<Listed>)
    ensures |Insert(b, list)| == |list| + 1 && forall x :: x in Insert(b, list) <==> x in list || x == b
  {
    hide Insert;
    var r := Insert(b, list);
    assert forall x :: x in r <==> x in multiset(r);
    assert forall x :: x in list <==> x in multiset(list);
  }

  /** Dropping the first of an ascending list removes one of the oldest. */
  lemma DropFirst(active: string, list: seq<Listed>, names: set<string>)
    requires Lists(active, list, names) && list != [] && ByOrdinal(list)
    ensures list[0].path in names && Lists(active, list[1..], names - {list[0].path}) && ByOrdinal(list[1..])
    ensures forall name :: name in names ==> Ordinal(active, list[0].path) <= Ordinal(active, name)
  {
    hide Ordinal;
    FirstIsOldest(active, list, names);
    OthersDiffer(active, list, names);
    assert list == [list[0]] + list[1..];
  }

  lemma OthersDiffer(active: string, list: seq<Listed>, names: set<string>)
    requires Lists(active, list, names) && list != []
    ensures list[0] in list && forall b :: b in list[1..] ==> b.path != list[0].path
  {
    hide Ordinal;
    ListedOnce(active, list, names);
    forall b | b in list[1..] ensures b.path != list[0].path {
      var i :| 0 <= i < |list[1..]| && list[1..][i] == b;
      assert list[i + 1] == b && list[i + 1] != list[0] && list[0] in list && list[i + 1] in list;
    }
  }

  lemma FirstIsOldest(active: string, list: seq<Listed>, names: set<string>)
    requires Lists(active, list, names) && list != [] && ByOrdinal(list)
    ensures forall name :: name in names ==> list[0].ordinal <= Ordinal(active, name)
  {
    hide IsBackup, Ordinal;
    forall name | name in names ensures list[0].ordinal <= Ordinal(active, name) {
      var j :| 0 <= j < |list| && list[j] == Listed(name, Ordinal(active, name));
    }
  }

  lemma {:induction false} ListedOnce(active: string, list: seq<Listed>, names: set<string>)
    requires Lists(active, list, names)
    ensures forall i, j :: 0 <= i < j < |list| ==> list[i] != list[j]
  {
    var image := set b | b in list;
    assert names == Paths(list) by {
      forall name | name in names ensures name in Paths(list) {
        assert Listed(name, Ordinal(active, name)).path == name;
      }
    }
    PathsFewer(image);
    assert Paths(list) == set b | b in image :: b.path;
    NoRepeats(list);
  }

  lemma {:induction false} PathsFewer(s: set<Listed>)
    ensures |set b | b in s :: b.path| <= |s|
    decreases s
  {
    var paths := set b | b in s :: b.path;
    if b :| b in s {
      var rest := s - {b};
      PathsFewer(rest);
      assert paths <= (set c | c in rest :: c.path) + {b.path};
      SubsetSize(paths, (set c | c in rest :: c.path) + {b.path});
    } else {
      assert paths == {};
    }
  }

  lemma OneMoreElement(front: seq<Listed>, last: Listed)
    ensures (set b | b in front + [last]) == (set b | b in front) + {last}
    ensures last in front ==> (set b | b in front + [last]) == (set b | b in front)
  {
  }

  /** A list with as many distinct elements as entries repeats none. */
  lemma {:induction false} NoRepeats(list: seq<Listed>)
    ensures |set b | b in list| <= |list|
    ensures |set b | b in list| == |list| ==> forall i, j :: 0 <= i < j < |list| ==> list[i] != list[j]
  {
    if list != [] {
      var front, last := list[..|list| - 1], list[|list| - 1];
      assert list == front + [last];
      NoRepeats(front);
      OneMoreElement(front, last);
      if last !in front {
        assert forall i :: 0 <= i < |front| ==> front[i] in front;
      }
    }
  }

  /** The matches whose suffix is a number, in ascending order of it. */
  method ListBackups(active: string, names: set<string>) returns (backups: seq<Listed>)
    ensures Lists(active, backups, Backups(active, names)) && ByOrdinal(backups)
  {
    hide Insert, OrdinalOf, Ordinal;
    var matches := set name | name in names && Matches(active, name);
    ghost var seen := {};
    backups := [];
    MatchedBackups(active, names, matches);
    ghost var all := matches;
    while matches != {}
      invariant seen !! matches && seen + matches == all
      invariant Lists(active, backups, Backups(active, seen)) && ByOrdinal(backups)
      decreases matches
    {
      var match' :| match' in matches;
      matches := matches - {match'};
      BackupsOneMore(active, seen, match');
      var ordinal := OrdinalOf(active, match');
      if ordinal.Some? {
        ListOneMore(active, backups, Backups(active, seen), match');
        backups := Insert(Listed(match', ordinal.value), backups);
      }
      seen := seen + {match'};
    }
    assert seen == all;
  }

  lemma MatchedBackups(active: string, names: set<string>, matches: set<string>)
    requires matches == set name | name in names && Matches(active, name)
    ensures Backups(active, matches) == Backups(active, names)
    ensures Backups(active, {}) == {}
  {
  }

  lemma BackupsOneMore(active: string, seen: set<string>, name: string)
    ensures Backups(active, seen + {name}) == if IsBackup(active, name) then Backups(active, seen) + {name} else Backups(active, seen)
    ensures OrdinalOf(active, name).Some? ==> IsBackup(active, name) && OrdinalOf(active, name).value == Ordinal(active, name)
    ensures OrdinalOf(active, name).None? ==> !IsBackup(active, name)
  {
  }

  class Directory {
    var files: map<string, seq<byte>>

    method EnforceRetention(active: string, maxBackups: int)
      modifies this
      ensures Retained(active, maxBackups, old(files), files)
    {
      if maxBackups <= 0 {
        return;
      }
      var backups := ListBackups(active, files.Keys);
      hide IsBackup, Ordinal;
      ghost var had := Backups(active, files.Keys);
      ghost var left := had;
      while |backups| > maxBackups
        invariant left <= had && Lists(active, backups, left) && ByOrdinal(backups)
        invariant files == old(files) - (had - left)
        invariant |left| >= if |had| > maxBackups then maxBackups else |had|
        invariant forall gone, stays :: gone in had - left && stays in left ==> Ordinal(active, gone) <= Ordinal(active, stays)
      {
        DropFirst(active, backups, left);
        files := files - {backups[0].path};
        left := left - {backups[0].path};
        backups := backups[1..];
      }
      assert Backups(active, files.Keys) == left;
    }
  }
}
