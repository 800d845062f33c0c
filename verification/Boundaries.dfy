/** Rename-reopen switches inodes only between records: every file but the one being written holds whole records. */
module Boundaries {
  import opened Arithmetic
  import opened Bytes
  import opened Lab
  import opened WriterStream
  import opened RenameReopen

  ghost predicate Whole(cfg: Config, n: int)
    requires cfg.Encodable()
  {
    n >= 0 && n % cfg.recordBytes == 0
  }

  lemma WholeIs(cfg: Config, n: int) returns (q: nat)
    requires cfg.Encodable() && Whole(cfg, n)
    ensures n == q * cfg.recordBytes
  {
    q := n / cfg.recordBytes;
  }

  lemma MultipleIsWhole(cfg: Config, q: nat)
    requires cfg.Encodable()
    ensures Whole(cfg, q * cfg.recordBytes)
  {
    Quotient(q, cfg.recordBytes);
  }

  lemma WholeSum(cfg: Config, a: int, b: int)
    requires cfg.Encodable() && Whole(cfg, a) && Whole(cfg, b)
    ensures Whole(cfg, a + b)
  {
    hide Whole;
    var q := WholeIs(cfg, a);
    var r := WholeIs(cfg, b);
    assert a + b == (q + r) * cfg.recordBytes;
    MultipleIsWhole(cfg, q + r);
  }

  lemma WholeStream(cfg: Config, lo: nat, hi: nat)
    requires cfg.Encodable() && lo <= hi
    ensures Whole(cfg, |Stream(cfg, lo, hi)|)
  {
    hide Whole, Stream, RecordsIn;
    StreamLength(cfg, lo, hi);
    MultipleIsWhole(cfg, hi - lo);
  }

  /** Full backups hold whole records; so does the writer's file up to the flush in progress. */
  ghost predicate BoundaryInv(cfg: Config, s: World)
    requires cfg.Encodable()
  {
    && (forall i :: 0 <= i < |s.h.made| && s.h.made[i] != s.w.file ==> Whole(cfg, |s.os.Read(s.h.made[i])|))
    && (!Reporting(s.w.pc) ==> Whole(cfg, |s.os.Read(s.w.file)| - s.w.Done()))
  }

  lemma WriteBoundary(cfg: Config, s: World, n: nat)
    requires cfg.Encodable() && BoundaryInv(cfg, s) && WriterInv(cfg, s) && WriteAllowed(cfg, s, n)
    ensures BoundaryInv(cfg, AfterWrite(cfg, s, n))
  {
    hide Stream, Whole, Accounted;
    var t := AfterWrite(cfg, s, n);
    assert |t.os.Read(s.w.file)| == |s.os.Read(s.w.file)| + n;
    if !Reporting(t.w.pc) && s.w.pc.done + n == |s.w.buffer| {
      WholeStream(cfg, s.w.written, s.w.generated);
      WholeSum(cfg, |s.os.Read(s.w.file)| - s.w.pc.done, |s.w.buffer|);
    }
  }

  lemma OpenBoundary(cfg: Config, s: World)
    requires cfg.Encodable() && BoundaryInv(cfg, s) && RenameInv(cfg, s) && s.w.pc.Opening?
    ensures BoundaryInv(cfg, AfterOpen(s))
  {
    OpensEmpty(cfg, s);
    hide RenameInv, AfterOpen, Os.Read;
  }

  /** What the writer opens is empty, and opening it leaves the backups alone. */
  lemma OpensEmpty(cfg: Config, s: World)
    requires RenameInv(cfg, s) && s.w.pc.Opening?
    ensures var t := AfterOpen(s);
      && t.h == s.h && t.w.Done() == 0 && t.os.Read(t.w.file) == []
      && forall i :: 0 <= i < |s.h.made| ==> t.os.Read(s.h.made[i]) == s.os.Read(s.h.made[i])
  {
    hide Joined, DirectoryInv, CountInv;
  }

  lemma RotatorBoundary(cfg: Config, s: World, l: Label)
    requires cfg.Encodable() && BoundaryInv(cfg, s) && RenameInv(cfg, s) && cfg.strategy.RenameReopen?
    requires Next(cfg, s, l).Some? && RotatorLabel(l)
    ensures BoundaryInv(cfg, Next(cfg, s, l).value)
  {
    hide BoundaryInv, RenameInv, AfterAdvance;
    RotatorPcs(cfg, s);
    if l.Advance? {
      AdvanceBoundary(cfg, s);
    } else {
      QuietBoundary(cfg, s, Next(cfg, s, l).value);
    }
  }

  lemma AdvanceBoundary(cfg: Config, s: World)
    requires cfg.Encodable() && BoundaryInv(cfg, s) && RenameInv(cfg, s) && cfg.strategy.RenameReopen?
    requires AfterAdvance(cfg, s).Some?
    ensures BoundaryInv(cfg, AfterAdvance(cfg, s).value)
  {
    hide BoundaryInv, RenameInv;
    RotatorPcs(cfg, s);
    if s.r.pc.RenameActive? {
      RenameBoundary(cfg, s);
    } else if s.r.pc.CreateReplacement? {
      CreateBoundary(cfg, s);
    } else {
      PlainAdvance(cfg, s);
      QuietBoundary(cfg, s, AfterAdvance(cfg, s).value);
    }
  }

  /** Steps that touch no inode. */
  lemma QuietBoundary(cfg: Config, s: World, t: World)
    requires cfg.Encodable() && BoundaryInv(cfg, s)
    requires t.w == s.w && t.os.data == s.os.data && t.h.made == s.h.made
    ensures BoundaryInv(cfg, t)
  {
    hide Whole;
  }

  lemma RenameBoundary(cfg: Config, s: World)
    requires cfg.Encodable() && BoundaryInv(cfg, s) && RenameInv(cfg, s) && s.r.pc.RenameActive?
    ensures BoundaryInv(cfg, AfterRename(s))
  {
    hide Whole, Joined, DirectoryInv, ContentInv;
  }

  lemma CreateBoundary(cfg: Config, s: World)
    requires cfg.Encodable() && BoundaryInv(cfg, s) && RenameInv(cfg, s) && s.r.pc.CreateReplacement?
    ensures BoundaryInv(cfg, AfterAdvance(cfg, s).value)
  {
    hide Whole, Joined, DirectoryInv;
    var t := AfterAdvance(cfg, s).value;
    assert forall i :: 0 <= i < |s.h.made| ==> t.os.Read(s.h.made[i]) == s.os.Read(s.h.made[i]);
  }

  lemma BoundaryStep(cfg: Config, s: World, l: Label)
    requires cfg.Encodable() && cfg.strategy.RenameReopen? && Next(cfg, s, l).Some?
    requires BoundaryInv(cfg, s) && RenameInv(cfg, s) && WriterInv(cfg, s)
    ensures BoundaryInv(cfg, Next(cfg, s, l).value)
  {
    hide Joined, Stream, Whole, RenameInv, WriterInv;
    if RotatorLabel(l) {
      RotatorBoundary(cfg, s, l);
    } else if l.Write? {
      WriteBoundary(cfg, s, l.count);
    } else if l.Open? && l.ok {
      OpenBoundary(cfg, s);
    }
  }

  lemma {:induction false} BoundaryRun(cfg: Config, labels: seq<Label>, s: World)
    requires cfg.Encodable() && cfg.strategy.RenameReopen? && Exec(cfg, Init(cfg), labels) == Some(s)
    ensures BoundaryInv(cfg, s)
  {
    if labels != [] {
      hide BoundaryInv;
      var front, l := labels[..|labels| - 1], labels[|labels| - 1];
      var m := Exec(cfg, Init(cfg), front).value;
      BoundaryRun(cfg, front, m);
      RenameRun(cfg, front, m);
      WriterRun(cfg, front, m);
      BoundaryStep(cfg, m, l);
    }
  }

  /** In every reachable state each backup the writer has moved on from holds whole records. */
  lemma SwitchesBetweenRecords(cfg: Config, labels: seq<Label>, s: World, o: nat)
    requires cfg.Encodable() && cfg.strategy.RenameReopen? && Exec(cfg, Init(cfg), labels) == Some(s)
    requires Backup(o) in s.os.names && s.os.names[Backup(o)] != s.w.file
    ensures |s.os.ReadPath(Backup(o))| % cfg.recordBytes == 0
  {
    BoundaryRun(cfg, labels, s);
    RenameRun(cfg, labels, s);
    hide Exec, Joined, LinkInv, CountInv;
    assert s.os.names[Backup(o)] == s.h.made[o - 1];
  }

  /** A whole number of files holding whole records that together are records 1 to n can be cut into ranges of them. */
  lemma {:induction false} CutIntoRanges(cfg: Config, os: Os, inodes: seq<nat>, n: nat) returns (cuts: seq<nat>)
    requires cfg.Encodable() && Joined(os, inodes) == Stream(cfg, 0, n)
    requires forall i :: 0 <= i < |inodes| ==> Whole(cfg, |os.Read(inodes[i])|)
    ensures |cuts| == |inodes| + 1 && cuts[0] == 0 && cuts[|inodes|] == n
    ensures forall i :: 0 <= i < |inodes| ==>
      cuts[i] <= cuts[i + 1] && os.Read(inodes[i]) == Stream(cfg, cuts[i], cuts[i + 1])
  {
    if inodes == [] {
      StreamLength(cfg, 0, n);
      cuts := [0];
    } else {
      hide Whole, Stream;
      var init, last := inodes[..|inodes| - 1], os.Read(inodes[|inodes| - 1]);
      assert Joined(os, inodes) == Joined(os, init) + last;
      hide Joined;
      var m := SplitTail(cfg, Joined(os, init), last, n);
      var front := CutIntoRanges(cfg, os, init, m);
      cuts := front + [n];
      hide *;
      forall i | 0 <= i < |inodes|
        ensures cuts[i] <= cuts[i + 1] && os.Read(inodes[i]) == Stream(cfg, cuts[i], cuts[i + 1])
      {
        if i < |init| {
          assert inodes[i] == init[i] && cuts[i] == front[i] && cuts[i + 1] == front[i + 1];
        }
      }
    }
  }

  lemma SplitTail(cfg: Config, front: seq<byte>, tail: seq<byte>, n: nat) returns (m: nat)
    requires cfg.Encodable() && front + tail == Stream(cfg, 0, n) && Whole(cfg, |tail|)
    ensures m <= n && front == Stream(cfg, 0, m) && tail == Stream(cfg, m, n)
  {
    hide Whole, Stream, RecordsIn;
    var q := WholeIs(cfg, |tail|);
    StreamLength(cfg, 0, n);
    FewerMultiples(q, n, cfg.recordBytes);
    m := n - q;
    StreamSplit(cfg, 0, m, n);
    StreamLength(cfg, m, n);
    SameSplit(front, tail, Stream(cfg, 0, m), Stream(cfg, m, n));
  }
}
