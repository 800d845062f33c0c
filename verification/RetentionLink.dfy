/** The state machine's retention, on ordinals, and the directory's, on file names, let go of the same backups. */
module RetentionLink {
  import opened Bytes
  import opened Ordered
  import opened Lab
  import opened Retention

  /** The file names of the given ordinals. */
  function Named(active: string, ordinals: seq<nat>): set<string> {
    set o | o in ordinals :: BackupPath(active, o)
  }

  ghost predicate InRange(ordinals: seq<nat>) {
    forall o :: o in ordinals ==> o <= MAX_INT
  }

  lemma {:induction false} NamedSize(active: string, ordinals: seq<nat>)
    requires Increasing(ordinals) && InRange(ordinals)
    ensures |Named(active, ordinals)| == |ordinals|
  {
    if ordinals == [] {
      assert Named(active, ordinals) == {};
    } else {
      var front, last := ordinals[..|ordinals| - 1], ordinals[|ordinals| - 1];
      assert forall o :: o in front ==> o in ordinals;
      NamedSize(active, front);
      assert ordinals == front + [last];
      NewName(active, front, last);
    }
  }

  lemma NewName(active: string, front: seq<nat>, last: nat)
    requires Increasing(front + [last]) && InRange(front + [last])
    ensures Named(active, front + [last]) == Named(active, front) + {BackupPath(active, last)}
    ensures BackupPath(active, last) !in Named(active, front)
  {
    var all := front + [last];
    assert last in all;
    forall o | o in front ensures BackupPath(active, o) != BackupPath(active, last) {
      var i :| 0 <= i < |front| && front[i] == o;
      assert all[i] < all[|front|];
      assert o in all;
      PathsDiffer(active, o, last);
    }
    forall name | name in Named(active, all) ensures name in Named(active, front) + {BackupPath(active, last)} {
      var o :| o in all && BackupPath(active, o) == name;
      assert o in front || o == last;
    }
  }

  /** The directory of the state machine under its file names. */
  ghost predicate Mirrors(active: string, os: Os, files: map<string, seq<byte>>) {
    var listed := Ascending(os.Ordinals());
    InRange(listed) && files.Keys == Named(active, listed) + {active}
  }

  lemma BackupsOf(active: string, names: set<string>, listed: seq<nat>)
    requires InRange(listed) && names == Named(active, listed) + {active}
    ensures Backups(active, names) == Named(active, listed)
    ensures DistinctOrdinals(active, names)
  {
    NamedAreBackups(active, names, listed);
    hide Backups, IsBackup, Ordinal, OrdinalOf, BackupPath;
    forall a, b | a in Backups(active, names) && b in Backups(active, names) && a != b
      ensures Ordinal(active, a) != Ordinal(active, b)
    {
      var o :| o in listed && BackupPath(active, o) == a;
      var p :| p in listed && BackupPath(active, p) == b;
      BackupPathIsBackup(active, o);
      BackupPathIsBackup(active, p);
    }
  }

  lemma NamedAreBackups(active: string, names: set<string>, listed: seq<nat>)
    requires InRange(listed) && names == Named(active, listed) + {active}
    ensures Backups(active, names) == Named(active, listed)
  {
    assert !IsBackup(active, active);
    hide IsBackup, BackupPath;
    forall name | name in Named(active, listed) ensures IsBackup(active, name) {
      var o :| o in listed && BackupPath(active, o) == name;
      BackupPathIsBackup(active, o);
    }
  }

  lemma NewerAre(active: string, names: set<string>, listed: seq<nat>, i: nat)
    requires Increasing(listed) && InRange(listed) && names == Named(active, listed) + {active} && i < |listed|
    ensures |Newer(active, names, BackupPath(active, listed[i]))| == |listed| - 1 - i
  {
    var newer, rest := Newer(active, names, BackupPath(active, listed[i])), listed[i + 1..];
    hide BackupPath, IsBackup, Ordinal, Newer;
    forall name ensures name in newer <==> name in Named(active, rest) {
      if name in newer {
        NewerComesLater(active, names, listed, i, name);
      }
      if name in Named(active, rest) {
        LaterIsNewer(active, names, listed, i, name);
      }
    }
    assert newer == Named(active, rest);
    assert forall o :: o in rest ==> o in listed;
    NamedSize(active, rest);
  }

  lemma NewerComesLater(active: string, names: set<string>, listed: seq<nat>, i: nat, name: string)
    requires Increasing(listed) && InRange(listed) && names == Named(active, listed) + {active} && i < |listed|
    requires name in Newer(active, names, BackupPath(active, listed[i]))
    ensures name in Named(active, listed[i + 1..])
  {
    hide BackupPath, IsBackup, Ordinal;
    BackupsOf(active, names, listed);
    assert listed[i] in listed;
    BackupPathIsBackup(active, listed[i]);
    var o :| o in listed && BackupPath(active, o) == name;
    BackupPathIsBackup(active, o);
    var j :| 0 <= j < |listed| && listed[j] == o;
    assert j > i && listed[i + 1..][j - i - 1] == o;
  }

  lemma LaterIsNewer(active: string, names: set<string>, listed: seq<nat>, i: nat, name: string)
    requires Increasing(listed) && InRange(listed) && names == Named(active, listed) + {active} && i < |listed|
    requires name in Named(active, listed[i + 1..])
    ensures name in Newer(active, names, BackupPath(active, listed[i]))
  {
    hide BackupPath, IsBackup, Ordinal;
    BackupsOf(active, names, listed);
    assert listed[i] in listed;
    BackupPathIsBackup(active, listed[i]);
    var o :| o in listed[i + 1..] && BackupPath(active, o) == name;
    var j :| 0 <= j < |listed[i + 1..]| && listed[i + 1..][j] == o;
    assert listed[i + 1 + j] == o && o in listed;
    BackupPathIsBackup(active, o);
  }

  /** Retention by file name removes exactly the victims the state machine picks by ordinal. */
  lemma SameVictims(cfg: Config, active: string, os: Os, before: map<string, seq<byte>>, after: map<string, seq<byte>>,
                    o: nat)
    requires Mirrors(active, os, before) && Retained(active, cfg.maxBackups, before, after) && o in os.Ordinals()
    ensures BackupPath(active, o) !in after <==> o in Victims(cfg, os)
  {
    var listed := Ascending(os.Ordinals());
    AscendingIncreases(os.Ordinals());
    var i :| 0 <= i < |listed| && listed[i] == o;
    BackupsOf(active, before.Keys, listed);
    assert BackupPath(active, o) in Named(active, listed);
    if cfg.maxBackups > 0 {
      NewerAre(active, before.Keys, listed, i);
      KeepsTheGreatest(active, cfg.maxBackups, before, after, BackupPath(active, o));
      VictimIndex(cfg, os, i);
    } else {
      AllKept(active, cfg.maxBackups, before, after);
    }
  }

  lemma VictimIndex(cfg: Config, os: Os, i: nat)
    requires i < |Ascending(os.Ordinals())| && cfg.maxBackups > 0
    ensures Ascending(os.Ordinals())[i] in Victims(cfg, os) <==> i + cfg.maxBackups < |Ascending(os.Ordinals())|
  {
    var listed := Ascending(os.Ordinals());
    AscendingIncreases(os.Ordinals());
    hide Ascending;
    var victims := Victims(cfg, os);
    if listed[i] in victims {
      var j :| 0 <= j < |victims| && victims[j] == listed[i];
      assert listed[j] == listed[i];
    }
    if i + cfg.maxBackups < |listed| {
      assert victims[i] == listed[i];
    }
  }

  lemma AllKept(active: string, maxBackups: int, before: map<string, seq<byte>>, after: map<string, seq<byte>>)
    requires Retained(active, maxBackups, before, after) && maxBackups <= 0
    ensures after.Keys == before.Keys
  {
    var had, kept := Backups(active, before.Keys), Backups(active, after.Keys);
    if name :| name in had && name !in kept {
      SubsetSize(kept + {name}, had);
    }
    hide IsBackup;
    assert forall name :: name in before && IsBackup(active, name) ==> name in had && name in kept;
  }
}
