/** The byte counts in the event log: what each event of every run says about the files. */
module EventBytes {
  import opened Bytes
  import opened Lab
  import opened WriterStream
  import CT = CopyTruncate
  import CopyResults
  import RR = RenameReopen

  /* ---- the sizes seen ---- */

  /** Step k is the rotator's step at pc in this rotation, and the active file was so large then. */
  ghost predicate SawAt(cfg: Config, labels: seq<Label>, k: nat, pc: RotatorPc, ordinal: nat, size: nat) {
    && k < |labels| && labels[k].Advance?
    && var m := Exec(cfg, Init(cfg), labels[..k]);
       && m.Some? && m.value.r.pc == pc && m.value.r.ordinal == ordinal
       && Active in m.value.os.names && |m.value.os.ReadPath(Active)| == size
  }

  ghost predicate Saw(cfg: Config, labels: seq<Label>, pc: RotatorPc, ordinal: nat, size: nat) {
    exists k: nat :: SawAt(cfg, labels, k, pc, ordinal, size)
  }

  lemma SawOn(cfg: Config, labels: seq<Label>, l: Label, pc: RotatorPc, ordinal: nat, size: nat)
    requires Saw(cfg, labels, pc, ordinal, size)
    ensures Saw(cfg, labels + [l], pc, ordinal, size)
  {
    var k: nat :| SawAt(cfg, labels, k, pc, ordinal, size);
    assert (labels + [l])[..k] == labels[..k];
    hide Exec;
    assert SawAt(cfg, labels + [l], k, pc, ordinal, size);
  }

  lemma SawNow(cfg: Config, labels: seq<Label>, m: World)
    requires Exec(cfg, Init(cfg), labels) == Some(m) && Active in m.os.names
    ensures Saw(cfg, labels + [Advance], m.r.pc, m.r.ordinal, |m.os.ReadPath(Active)|)
  {
    assert (labels + [Advance])[..|labels|] == labels;
    hide Exec;
    assert SawAt(cfg, labels + [Advance], |labels|, m.r.pc, m.r.ordinal, |m.os.ReadPath(Active)|);
  }

  predicate Rotating(pc: RotatorPc) {
    !pc.Poll? && !pc.Exited?
  }

  /** Past the stat of the rotation, while nothing has failed. */
  predicate Measured(pc: RotatorPc) {
    Rotating(pc) && !pc.Stat? && !pc.LogFailed?
  }

  /** The size the poll saw and the size the rotation saw are sizes of the active file at those steps; so are those in
      the threshold and failure events. */
  ghost predicate SizesInv(cfg: Config, labels: seq<Label>, r: Rotator) {
    && (Rotating(r.pc) ==> r.size >= cfg.maxFileBytes && Saw(cfg, labels, Poll, r.ordinal, r.size))
    && (Measured(r.pc) ==> Saw(cfg, labels, Stat, r.ordinal, r.stat))
    && forall j :: 0 <= j < |r.events| ==> SizeEvent(cfg, labels, r.events[j])
  }

  ghost predicate SizeEvent(cfg: Config, labels: seq<Label>, e: Event) {
    && (e.phase.Threshold? ==> Saw(cfg, labels, Stat, e.ordinal, e.bytes))
    && (e.phase.RotationFailed? ==> e.bytes >= cfg.maxFileBytes && Saw(cfg, labels, Poll, e.ordinal, e.bytes))
  }

  lemma SizesKept(cfg: Config, labels: seq<Label>, l: Label, r: Rotator)
    requires SizesInv(cfg, labels, r)
    ensures SizesInv(cfg, labels + [l], r)
  {
    hide Saw;
    if Rotating(r.pc) {
      SawOn(cfg, labels, l, Poll, r.ordinal, r.size);
    }
    if Measured(r.pc) {
      SawOn(cfg, labels, l, Stat, r.ordinal, r.stat);
    }
    forall j | 0 <= j < |r.events| ensures SizeEvent(cfg, labels + [l], r.events[j]) {
      var e := r.events[j];
      if e.phase.Threshold? {
        SawOn(cfg, labels, l, Stat, e.ordinal, e.bytes);
      } else if e.phase.RotationFailed? {
        SawOn(cfg, labels, l, Poll, e.ordinal, e.bytes);
      }
    }
  }

  /** A step that logs nothing, or an event that is neither a threshold nor a failure. */
  predicate Moves(r: Rotator, t: Rotator) {
    && t.size == r.size && t.stat == r.stat
    && (Rotating(t.pc) ==> Rotating(r.pc) && t.ordinal == r.ordinal) && (Measured(t.pc) ==> Measured(r.pc))
    && (t.events == r.events
        || (&& |t.events| == |r.events| + 1
            && var e := t.events[|r.events|];
               t.events == r.events + [e] && !e.phase.Threshold? && !e.phase.RotationFailed?))
  }

  lemma SizesMove(cfg: Config, labels: seq<Label>, r: Rotator, t: Rotator)
    requires SizesInv(cfg, labels, r) && Moves(r, t)
    ensures SizesInv(cfg, labels, t)
  {
    hide Saw;
  }

  lemma AdvanceMoves(cfg: Config, s: World)
    requires AfterAdvance(cfg, s).Some?
    requires !s.r.pc.Poll? && !s.r.pc.Stat? && !s.r.pc.LogThreshold? && !s.r.pc.LogFailed?
    ensures Moves(s.r, AfterAdvance(cfg, s).value.r)
  {
    hide Victims, Os.Rename, Os.Create, Os.Truncate, Os.Unlink;
  }

  lemma PollSizes(cfg: Config, labels: seq<Label>, s: World)
    requires SizesInv(cfg, labels, s.r) && s.r.pc.Poll? && Exec(cfg, Init(cfg), labels) == Some(s)
    ensures SizesInv(cfg, labels + [Advance], AfterPoll(cfg, s).r)
  {
    SizesKept(cfg, labels, Advance, s.r);
    if Active in s.os.names {
      SawNow(cfg, labels, s);
    }
    hide Exec, Saw, SizeEvent;
  }

  lemma StatSizes(cfg: Config, labels: seq<Label>, s: World)
    requires SizesInv(cfg, labels, s.r) && s.r.pc.Stat? && Exec(cfg, Init(cfg), labels) == Some(s)
    ensures SizesInv(cfg, labels + [Advance], AfterAdvance(cfg, s).value.r)
  {
    SizesKept(cfg, labels, Advance, s.r);
    if Active in s.os.names {
      SawNow(cfg, labels, s);
    }
    hide Exec, Saw, SizeEvent;
  }

  lemma LoggedSizes(cfg: Config, labels: seq<Label>, s: World)
    requires SizesInv(cfg, labels, s.r) && (s.r.pc.LogThreshold? || s.r.pc.LogFailed?)
    ensures SizesInv(cfg, labels + [Advance], AfterAdvance(cfg, s).value.r)
  {
    SizesKept(cfg, labels, Advance, s.r);
    hide Saw;
  }

  lemma OtherMoves(cfg: Config, s: World, l: Label)
    requires Next(cfg, s, l).Some? && !l.Advance?
    ensures Moves(s.r, Next(cfg, s, l).value.r)
  {
    hide AfterAdvance, Stream;
  }

  lemma SizesStep(cfg: Config, labels: seq<Label>, s: World, l: Label)
    requires SizesInv(cfg, labels, s.r) && Exec(cfg, Init(cfg), labels) == Some(s) && Next(cfg, s, l).Some?
    ensures SizesInv(cfg, labels + [l], Next(cfg, s, l).value.r)
  {
    hide SizesInv, Exec, Moves, AfterAdvance;
    if !l.Advance? {
      OtherMoves(cfg, s, l);
      SizesKept(cfg, labels, l, s.r);
      SizesMove(cfg, labels + [l], s.r, Next(cfg, s, l).value.r);
    } else {
      AdvanceSizes(cfg, labels, s);
    }
  }

  lemma AdvanceSizes(cfg: Config, labels: seq<Label>, s: World)
    requires SizesInv(cfg, labels, s.r) && Exec(cfg, Init(cfg), labels) == Some(s) && AfterAdvance(cfg, s).Some?
    ensures SizesInv(cfg, labels + [Advance], AfterAdvance(cfg, s).value.r)
  {
    hide SizesInv, Exec, Moves;
    if s.r.pc.Poll? {
      PollSizes(cfg, labels, s);
    } else if s.r.pc.Stat? {
      StatSizes(cfg, labels, s);
    } else if s.r.pc.LogThreshold? || s.r.pc.LogFailed? {
      LoggedSizes(cfg, labels, s);
    } else {
      AdvanceMoves(cfg, s);
      SizesKept(cfg, labels, Advance, s.r);
      SizesMove(cfg, labels + [Advance], s.r, AfterAdvance(cfg, s).value.r);
    }
  }

  lemma {:induction false} SizesRun(cfg: Config, labels: seq<Label>, s: World)
    requires Exec(cfg, Init(cfg), labels) == Some(s)
    ensures SizesInv(cfg, labels, s.r)
  {
    if labels != [] {
      var front, l := labels[..|labels| - 1], labels[|labels| - 1];
      var m := Exec(cfg, Init(cfg), front).value;
      hide SizesInv, Next;
      SizesRun(cfg, front, m);
      SizesStep(cfg, front, m, l);
      FrontAndLast(labels);
    }
  }

  lemma FrontAndLast(labels: seq<Label>)
    requires labels != []
    ensures labels[..|labels| - 1] + [labels[|labels| - 1]] == labels
  {
  }

  /* ---- the bytes of the other events ---- */

  /** The rotation's threshold event is in the log. */
  ghost predicate Announced(events: seq<Event>, ordinal: nat, bytes: nat) {
    Event(ordinal, Threshold, bytes) in events
  }

  /** Past the threshold event, while nothing has failed. */
  predicate Begun(pc: RotatorPc) {
    Measured(pc) && !pc.LogThreshold?
  }

  ghost predicate OtherEvent(r: Rotator, e: Event) {
    match e.phase
    case Renamed => Announced(r.events, e.ordinal, e.bytes)
    case RetentionComplete => Announced(r.events, e.ordinal, e.bytes)
    case ReplacementCreated => e.bytes == 0
    case ReopenRequested => e.bytes == 0
    case CopyStart => e.bytes == 0
    case _ => true
  }

  ghost predicate OthersInv(r: Rotator) {
    && (Begun(r.pc) ==> Announced(r.events, r.ordinal, r.stat))
    && forall j :: 0 <= j < |r.events| ==> OtherEvent(r, r.events[j])
  }

  lemma OthersStep(cfg: Config, s: World, l: Label)
    requires OthersInv(s.r) && Next(cfg, s, l).Some?
    ensures OthersInv(Next(cfg, s, l).value.r)
  {
    hide OthersInv, AfterAdvance, Stream;
    if l.Advance? {
      if Logging(s.r.pc) {
        LogOthers(cfg, s);
      } else {
        SilentOthers(cfg, s);
      }
    } else {
      SameLog(cfg, s, l);
      KeptOthers(s.r, Next(cfg, s, l).value.r);
    }
  }

  predicate Logging(pc: RotatorPc) {
    || pc.LogThreshold? || pc.LogRename? || pc.LogCreated? || pc.LogRequested? || pc.LogCopyStart? || pc.LogSynced?
    || pc.LogTruncate? || pc.LogComplete? || pc.LogFailed?
  }

  lemma LogOthers(cfg: Config, s: World)
    requires OthersInv(s.r) && Logging(s.r.pc)
    ensures OthersInv(AfterAdvance(cfg, s).value.r)
  {
    var t := AfterAdvance(cfg, s).value.r;
    var e := t.events[|s.r.events|];
    LoggedEvent(cfg, s);
    hide AfterAdvance;
    OthersPush(s.r, t, e);
  }

  lemma LoggedEvent(cfg: Config, s: World)
    requires Logging(s.r.pc)
    ensures var t := AfterAdvance(cfg, s).value.r;
      && |t.events| == |s.r.events| + 1
      && var e := t.events[|s.r.events|];
         && t.events == s.r.events + [e] && e.ordinal == s.r.ordinal
         && (Begun(t.pc) ==> t.ordinal == s.r.ordinal && t.stat == s.r.stat)
         && (Begun(t.pc) ==> Begun(s.r.pc) || e == Event(s.r.ordinal, Threshold, s.r.stat))
         && (e.phase.Renamed? || e.phase.RetentionComplete? ==> Begun(s.r.pc) && e.bytes == s.r.stat)
         && (e.phase.ReplacementCreated? || e.phase.ReopenRequested? || e.phase.CopyStart? ==> e.bytes == 0)
  {
  }

  lemma OthersPush(r: Rotator, t: Rotator, e: Event)
    requires OthersInv(r) && t.events == r.events + [e] && e.ordinal == r.ordinal
    requires Begun(t.pc) ==> t.ordinal == r.ordinal && t.stat == r.stat
    requires Begun(t.pc) ==> Begun(r.pc) || e == Event(r.ordinal, Threshold, r.stat)
    requires e.phase.Renamed? || e.phase.RetentionComplete? ==> Begun(r.pc) && e.bytes == r.stat
    requires e.phase.ReplacementCreated? || e.phase.ReopenRequested? || e.phase.CopyStart? ==> e.bytes == 0
    ensures OthersInv(t)
  {
    hide Begun;
    assert forall x :: x in r.events ==> x in t.events;
    assert e in t.events;
    forall j | 0 <= j < |t.events| ensures OtherEvent(t, t.events[j]) {
      if j < |r.events| {
        assert OtherEvent(r, r.events[j]) && t.events[j] == r.events[j];
      }
    }
  }

  lemma SameLog(cfg: Config, s: World, l: Label)
    requires Next(cfg, s, l).Some? && !(l.Advance? && Logging(s.r.pc))
    ensures var t := Next(cfg, s, l).value.r;
      t.events == s.r.events && (Begun(t.pc) ==> Begun(s.r.pc) && t.ordinal == s.r.ordinal && t.stat == s.r.stat)
  {
    hide Stream, Victims, Os.Rename, Os.Create, Os.Truncate, Os.Unlink;
  }

  lemma SilentOthers(cfg: Config, s: World)
    requires OthersInv(s.r) && AfterAdvance(cfg, s).Some? && !Logging(s.r.pc)
    ensures OthersInv(AfterAdvance(cfg, s).value.r)
  {
    hide OthersInv;
    assert Next(cfg, s, Advance) == AfterAdvance(cfg, s);
    SameLog(cfg, s, Advance);
    KeptOthers(s.r, AfterAdvance(cfg, s).value.r);
  }

  lemma KeptOthers(r: Rotator, t: Rotator)
    requires OthersInv(r) && t.events == r.events
    requires Begun(t.pc) ==> Begun(r.pc) && t.ordinal == r.ordinal && t.stat == r.stat
    ensures OthersInv(t)
  {
  }

  lemma {:induction false} OthersRun(cfg: Config, labels: seq<Label>, s: World)
    requires Exec(cfg, Init(cfg), labels) == Some(s)
    ensures OthersInv(s.r)
  {
    if labels != [] {
      var front := labels[..|labels| - 1];
      hide OthersInv;
      OthersRun(cfg, front, Exec(cfg, Init(cfg), front).value);
      OthersStep(cfg, Exec(cfg, Init(cfg), front).value, labels[|labels| - 1]);
    }
  }

  /* ---- what a copy event says about its backup ---- */

  /** The copy of the rotation under way is complete. */
  predicate Synced(pc: RotatorPc) {
    pc.LogSynced? || pc.TruncateActive? || pc.LogTruncate?
  }

  ghost predicate CopyEvent(s: World, e: Event) {
    e.phase.CopySynced? || e.phase.Truncated? ==>
      && 1 <= e.ordinal <= |s.h.made| && e.bytes == |s.os.Read(s.h.made[e.ordinal - 1])|
      && (e.ordinal == |s.h.made| ==> !s.r.pc.Copy?)
  }

  ghost predicate CopiesInv(s: World) {
    && (Synced(s.r.pc) ==>
          && 1 <= s.r.ordinal == |s.h.made| && s.r.copied == |s.os.Read(s.h.made[s.r.ordinal - 1])|)
    && forall j :: 0 <= j < |s.r.events| ==> CopyEvent(s, s.r.events[j])
  }

  /** The log of copy events grows only from a complete copy. */
  lemma NewCopyEvent(cfg: Config, s: World, l: Label)
    requires Next(cfg, s, l).Some?
    ensures var r, t := s.r, Next(cfg, s, l).value.r;
      t.events == r.events
      || (&& |t.events| == |r.events| + 1
          && var e := t.events[|r.events|];
             && t.events == r.events + [e]
             && (e.phase.CopySynced? || e.phase.Truncated? ==>
                   Synced(r.pc) && e.ordinal == r.ordinal && e.bytes == r.copied && !t.pc.Copy?))
  {
    hide Stream, Victims, Os.Rename, Os.Create, Os.Truncate, Os.Unlink;
  }

  /** A copy becomes complete at the end of the file, and stays the one under way until its truncate is logged. */
  lemma SyncedStep(cfg: Config, s: World, l: Label)
    requires CT.CopyInv(cfg, s) && cfg.strategy.CopyTruncate? && Next(cfg, s, l).Some? && Synced(Next(cfg, s, l).value.r.pc)
    ensures var r, t := s.r, Next(cfg, s, l).value.r;
      && t.ordinal == r.ordinal && t.copied == r.copied && Next(cfg, s, l).value.h.made == s.h.made
      && (Synced(r.pc) || (r.pc.Copy? && l.Advance?))
  {
    hide CT.CopyInv, Stream, RecordsIn;
    if l.Advance? {
      AdvanceSynced(cfg, s);
      hide AfterAdvance;
    } else {
      hide AfterAdvance;
    }
  }

  lemma AdvanceSynced(cfg: Config, s: World)
    requires cfg.strategy.CopyTruncate? && AfterAdvance(cfg, s).Some? && Synced(AfterAdvance(cfg, s).value.r.pc)
    ensures var t := AfterAdvance(cfg, s).value;
      && t.r.ordinal == s.r.ordinal && t.r.copied == s.r.copied && t.h.made == s.h.made
      && (Synced(s.r.pc) || s.r.pc.Copy?)
  {
    hide Victims, Os.Rename, Os.Create, Os.Truncate, Os.Unlink;
  }

  lemma CompleteCopy(cfg: Config, s: World)
    requires CT.CopyInv(cfg, s) && s.r.pc.Copy?
    ensures 1 <= s.r.ordinal == |s.h.made| && s.r.copied == |s.os.Read(s.h.made[s.r.ordinal - 1])|
    ensures AfterAdvance(cfg, s).Some? ==> AfterAdvance(cfg, s).value.os == s.os
  {
    hide CT.ContentInv, RR.DirectoryInv;
  }

  /** A copy begins with a backup of its own. */
  lemma CopyMade(cfg: Config, s: World, l: Label)
    requires Next(cfg, s, l).Some?
    ensures var t := Next(cfg, s, l).value;
      t.r.pc.Copy? ==> |t.h.made| == |s.h.made| + if s.r.pc.Copy? then 0 else 1
  {
    if l.Advance? {
      AdvanceMade(cfg, s);
    }
    hide Stream, RecordsIn, AfterAdvance;
  }

  lemma AdvanceMade(cfg: Config, s: World)
    requires AfterAdvance(cfg, s).Some?
    ensures var t := AfterAdvance(cfg, s).value;
      t.r.pc.Copy? ==> |t.h.made| == |s.h.made| + if s.r.pc.Copy? then 0 else 1
  {
    hide Victims, Os.Rename, Os.Create, Os.Truncate, Os.Unlink;
  }

  lemma CopiesStep(cfg: Config, s: World, l: Label)
    requires CopiesInv(s) && CT.CopyInv(cfg, s) && cfg.strategy.CopyTruncate? && Next(cfg, s, l).Some?
    ensures CopiesInv(Next(cfg, s, l).value)
  {
    var t := Next(cfg, s, l).value;
    SyncedKept(cfg, s, l);
    NewCopyEvent(cfg, s, l);
    hide CT.CopyInv, Next, Os.Read, CopyEvent, Synced;
    forall j | 0 <= j < |t.r.events| ensures CopyEvent(t, t.r.events[j]) {
      if j < |s.r.events| {
        assert t.r.events[j] == s.r.events[j];
        CopyEventStays(cfg, s, l, s.r.events[j]);
      } else {
        assert t.r.events[j] == t.r.events[|s.r.events|];
        NewEventHolds(cfg, s, l, t.r.events[j]);
      }
    }
  }

  lemma SyncedKept(cfg: Config, s: World, l: Label)
    requires CopiesInv(s) && CT.CopyInv(cfg, s) && cfg.strategy.CopyTruncate? && Next(cfg, s, l).Some?
    ensures var t := Next(cfg, s, l).value;
      Synced(t.r.pc) ==>
        && 1 <= t.r.ordinal == |t.h.made| && t.r.copied == |t.os.Read(t.h.made[t.r.ordinal - 1])|
  {
    var t := Next(cfg, s, l).value;
    hide CT.CopyInv, Next, Os.Read, CopyEvent, AfterAdvance;
    if Synced(t.r.pc) {
      SyncedStep(cfg, s, l);
      if Synced(s.r.pc) {
        CopyResults.BackupStays(cfg, s, l, s.r.ordinal - 1);
      } else {
        CompleteCopy(cfg, s);
        AdvanceIs(cfg, s);
      }
    }
  }

  lemma AdvanceIs(cfg: Config, s: World)
    ensures Next(cfg, s, Advance) == AfterAdvance(cfg, s)
  {
    hide AfterAdvance;
  }

  lemma CopyEventStays(cfg: Config, s: World, l: Label, e: Event)
    requires CT.CopyInv(cfg, s) && cfg.strategy.CopyTruncate? && Next(cfg, s, l).Some? && CopyEvent(s, e)
    ensures CopyEvent(Next(cfg, s, l).value, e)
  {
    var t := Next(cfg, s, l).value;
    hide CT.CopyInv, Next, Os.Read;
    if e.phase.CopySynced? || e.phase.Truncated? {
      CopyResults.BackupStays(cfg, s, l, e.ordinal - 1);
      hide CT.CopyInv, Next, Os.Read;
      CopyMade(cfg, s, l);
    }
  }

  lemma NewEventHolds(cfg: Config, s: World, l: Label, e: Event)
    requires CopiesInv(s) && CT.CopyInv(cfg, s) && cfg.strategy.CopyTruncate? && Next(cfg, s, l).Some?
    requires e.phase.CopySynced? || e.phase.Truncated? ==>
      Synced(s.r.pc) && e.ordinal == s.r.ordinal && e.bytes == s.r.copied && !Next(cfg, s, l).value.r.pc.Copy?
    ensures CopyEvent(Next(cfg, s, l).value, e)
  {
    hide CT.CopyInv, Next, Os.Read;
    if e.phase.CopySynced? || e.phase.Truncated? {
      CopyResults.BackupStays(cfg, s, l, e.ordinal - 1);
    }
  }

  lemma {:induction false} CopiesRun(cfg: Config, labels: seq<Label>, s: World)
    requires cfg.strategy.CopyTruncate? && Exec(cfg, Init(cfg), labels) == Some(s)
    ensures CopiesInv(s)
  {
    if labels != [] {
      var front := labels[..|labels| - 1];
      hide CopiesInv, CT.CopyInv;
      CopiesRun(cfg, front, Exec(cfg, Init(cfg), front).value);
      CT.CopyRun(cfg, front, Exec(cfg, Init(cfg), front).value);
      CopiesStep(cfg, Exec(cfg, Init(cfg), front).value, labels[|labels| - 1]);
    }
  }

  /** What the bytes of an event mean, for every event of every run.  A threshold event carries the size of the active
      file at the rotation's stat; the rename and the completed retention repeat it; a synced copy and its truncate carry
      the length of the backup they are about; a failed rotation carries the size that the poll found full; the other
      events carry nothing. */
  lemma BytesOfEvent(cfg: Config, labels: seq<Label>, s: World, e: Event)
    requires Exec(cfg, Init(cfg), labels) == Some(s) && e in s.r.events
    ensures e.phase.Threshold? ==> Saw(cfg, labels, Stat, e.ordinal, e.bytes)
    ensures e.phase.Renamed? || e.phase.RetentionComplete? ==> Event(e.ordinal, Threshold, e.bytes) in s.r.events
    ensures e.phase.ReplacementCreated? || e.phase.ReopenRequested? || e.phase.CopyStart? ==> e.bytes == 0
    ensures e.phase.RotationFailed? ==> e.bytes >= cfg.maxFileBytes && Saw(cfg, labels, Poll, e.ordinal, e.bytes)
    ensures cfg.strategy.CopyTruncate? && (e.phase.CopySynced? || e.phase.Truncated?) ==>
      1 <= e.ordinal <= |s.h.made| && e.bytes == |s.os.Read(s.h.made[e.ordinal - 1])|
  {
    hide *;
    SizesRun(cfg, labels, s);
    SizeOf(cfg, labels, s.r, e);
    OthersRun(cfg, labels, s);
    OtherOf(s.r, e);
    if cfg.strategy.CopyTruncate? {
      CopiesRun(cfg, labels, s);
      CopyOf(s, e);
    }
  }

  lemma SizeOf(cfg: Config, labels: seq<Label>, r: Rotator, e: Event)
    requires SizesInv(cfg, labels, r) && e in r.events
    ensures e.phase.Threshold? ==> Saw(cfg, labels, Stat, e.ordinal, e.bytes)
    ensures e.phase.RotationFailed? ==> e.bytes >= cfg.maxFileBytes && Saw(cfg, labels, Poll, e.ordinal, e.bytes)
  {
    hide Saw;
    assert SizeEvent(cfg, labels, e);
  }

  lemma OtherOf(r: Rotator, e: Event)
    requires OthersInv(r) && e in r.events
    ensures e.phase.Renamed? || e.phase.RetentionComplete? ==> Event(e.ordinal, Threshold, e.bytes) in r.events
    ensures e.phase.ReplacementCreated? || e.phase.ReopenRequested? || e.phase.CopyStart? ==> e.bytes == 0
  {
    assert OtherEvent(r, e);
  }

  lemma CopyOf(s: World, e: Event)
    requires CopiesInv(s) && e in s.r.events
    ensures e.phase.CopySynced? || e.phase.Truncated? ==>
      1 <= e.ordinal <= |s.h.made| && e.bytes == |s.os.Read(s.h.made[e.ordinal - 1])|
  {
    hide Os.Read;
    assert CopyEvent(s, e);
  }
}
