/** The rotation event log: complete blocks of five events, one for each finished rotation, then part of a block. */
module EventLog {
  import opened Bytes
  import opened Lab

  function Script(strategy: Strategy): (phases: seq<Phase>)
    ensures |phases| == 5
  {
    match strategy
    case CopyTruncate => [Threshold, CopyStart, CopySynced, Truncated, RetentionComplete]
    case RenameReopen => [Threshold, Renamed, ReplacementCreated, ReopenRequested, RetentionComplete]
  }

  datatype Entry = Entry(ordinal: nat, phase: Phase)

  /** The first m events of an unbroken sequence of rotations 1, 2, .... */
  function Unbroken(strategy: Strategy, m: nat): seq<Entry> {
    seq(m, i requires i >= 0 => Entry(i / 5 + 1, Script(strategy)[i % 5]))
  }

  function Shape(events: seq<Event>): seq<Entry> {
    seq(|events|, i requires 0 <= i < |events| => Entry(events[i].ordinal, events[i].phase))
  }

  /** How many of its five events a rotation has logged when it stands at pc. */
  function Logged(pc: RotatorPc): nat {
    match pc
    case Poll | Stat | LogThreshold | LogFailed | Exited(_) => 0
    case RenameActive | LogRename | LogCopyStart => 1
    case CreateReplacement | LogCreated | OpenSource | CreateBackup | Copy | LogSynced => 2
    case Post | LogRequested | TruncateActive | LogTruncate => 3
    case List | Remove | LogComplete => 4
  }

  predicate Belongs(strategy: Strategy, pc: RotatorPc) {
    match strategy
    case CopyTruncate =>
      !pc.RenameActive? && !pc.LogRename? && !pc.CreateReplacement? && !pc.LogCreated? && !pc.Post? && !pc.LogRequested?
    case RenameReopen =>
      && !pc.LogCopyStart? && !pc.OpenSource? && !pc.CreateBackup? && !pc.Copy? && !pc.LogSynced?
      && !pc.TruncateActive? && !pc.LogTruncate?
  }

  /** m events of rotations 1, 2, ... and, after a failure, one rotation-failed for the rotation that was under way. */
  ghost predicate WellFormed(strategy: Strategy, log: seq<Entry>, m: nat, failed: bool) {
    log == Unbroken(strategy, m) + if failed then [Entry(m / 5 + 1, RotationFailed)] else []
  }

  ghost predicate LogInv(cfg: Config, r: Rotator) {
    var start := 5 * (r.ordinal - 1);
    && r.ordinal >= 1 && Belongs(cfg.strategy, r.pc)
    && (!r.pc.Exited? ==> r.ordinal <= cfg.rotations)
    && (!r.pc.LogFailed? && !r.pc.Exited? ==> WellFormed(cfg.strategy, Shape(r.events), start + Logged(r.pc), false))
    && (r.pc.LogFailed? ==> exists m: nat :: start <= m <= start + 4 && WellFormed(cfg.strategy, Shape(r.events), m, false))
    && (r.pc == Exited(true) ==>
         r.ordinal - 1 == cfg.rotations && WellFormed(cfg.strategy, Shape(r.events), start, false))
    && (r.pc == Exited(false) ==>
         exists m: nat, failed: bool ::
           && WellFormed(cfg.strategy, Shape(r.events), m, failed)
           && (m == 0 || m < 5 * cfg.rotations))
  }

  lemma LogOne(cfg: Config, r: Rotator, phase: Phase, bytes: nat, pc': RotatorPc, m: nat)
    requires WellFormed(cfg.strategy, Shape(r.events), m, false)
    requires r.ordinal == m / 5 + 1 && phase == Script(cfg.strategy)[m % 5]
    ensures WellFormed(cfg.strategy, Shape(r.Log(phase, bytes, pc').events), m + 1, false)
  {
    assert Shape(r.Log(phase, bytes, pc').events) == Shape(r.events) + [Entry(r.ordinal, phase)];
    assert Unbroken(cfg.strategy, m + 1) == Unbroken(cfg.strategy, m) + [Entry(m / 5 + 1, phase)];
  }

  lemma LogFailure(cfg: Config, r: Rotator, bytes: nat, m: nat)
    requires WellFormed(cfg.strategy, Shape(r.events), m, false) && r.ordinal == m / 5 + 1
    ensures WellFormed(cfg.strategy, Shape(r.Log(RotationFailed, bytes, Exited(false)).events), m, true)
  {
    assert Shape(r.Log(RotationFailed, bytes, Exited(false)).events) == Shape(r.events) + [Entry(r.ordinal, RotationFailed)];
  }

  /** Steps after which nothing new is in the log. */
  lemma SilentStep(cfg: Config, r: Rotator, t: Rotator)
    requires LogInv(cfg, r) && t.events == r.events && t.ordinal == r.ordinal && Belongs(cfg.strategy, t.pc)
    requires !r.pc.LogFailed? && !r.pc.Exited? && (t.pc.LogFailed? || Logged(t.pc) == Logged(r.pc))
    requires t.pc.Exited? ==> r.pc.Poll? && t.pc == Exited(false)
    ensures LogInv(cfg, t)
  {
    hide WellFormed;
    var m := 5 * (r.ordinal - 1) + Logged(r.pc);
    assert WellFormed(cfg.strategy, Shape(t.events), m, false);
  }

  lemma LoggingStep(cfg: Config, s: World)
    requires LogInv(cfg, s.r)
    requires Logs(s.r.pc)
    ensures LogInv(cfg, AfterAdvance(cfg, s).value.r)
  {
    hide WellFormed;
    var t := AfterAdvance(cfg, s).value.r;
    var m, e := 5 * (s.r.ordinal - 1) + Logged(s.r.pc), t.events[|t.events| - 1];
    LogOne(cfg, s.r, e.phase, e.bytes, t.pc, m);
  }

  lemma FailureStep(cfg: Config, s: World, l: Label)
    requires LogInv(cfg, s.r) && s.r.pc.LogFailed? && (l.Advance? || l.Fault?)
    ensures LogInv(cfg, Next(cfg, s, l).value.r)
  {
    hide WellFormed;
    var t := Next(cfg, s, l).value.r;
    var start := 5 * (s.r.ordinal - 1);
    var m: nat :| start <= m <= start + 4 && WellFormed(cfg.strategy, Shape(s.r.events), m, false);
    if l.Advance? {
      LogFailure(cfg, s.r, s.r.size, m);
      assert WellFormed(cfg.strategy, Shape(t.events), m, true);
    } else {
      assert WellFormed(cfg.strategy, Shape(t.events), m, false);
    }
  }

  predicate Logs(pc: RotatorPc) {
    || pc.LogThreshold? || pc.LogRename? || pc.LogCreated? || pc.LogRequested?
    || pc.LogCopyStart? || pc.LogSynced? || pc.LogTruncate? || pc.LogComplete?
  }

  /** t follows r without a new event, or with the rotation failed. */
  predicate Follows(cfg: Config, r: Rotator, t: Rotator) {
    && t.events == r.events && t.ordinal == r.ordinal && (Belongs(cfg.strategy, r.pc) ==> Belongs(cfg.strategy, t.pc))
    && !r.pc.Exited? && (t.pc.LogFailed? || Logged(t.pc) == Logged(r.pc))
    && (t.pc.Exited? ==> r.pc.Poll? && t.pc == Exited(false))
  }

  /** A step that logs nothing leaves the rotation where its log says it is, or fails it. */
  lemma Silent(cfg: Config, s: World, l: Label)
    requires Next(cfg, s, l).Some? && !(l.Advance? && Logs(s.r.pc)) && !s.r.pc.LogFailed?
    ensures var t := Next(cfg, s, l).value.r; t != s.r ==> Follows(cfg, s.r, t)
  {
    hide Victims, Stream;
    if l.Advance? {
      SilentAdvance(cfg, s);
    }
    hide AfterAdvance;
  }

  lemma SilentAdvance(cfg: Config, s: World)
    requires AfterAdvance(cfg, s).Some? && !Logs(s.r.pc) && !s.r.pc.LogFailed?
    ensures var t := AfterAdvance(cfg, s).value.r; t != s.r ==> Follows(cfg, s.r, t)
  {
    hide Victims, Os.Rename, Os.Create, Os.Truncate, Os.Unlink, AfterComplete;
  }

  lemma LogStep(cfg: Config, s: World, l: Label)
    requires LogInv(cfg, s.r) && Next(cfg, s, l).Some?
    ensures LogInv(cfg, Next(cfg, s, l).value.r)
  {
    hide LogInv, Victims, Stream, Logged, Belongs;
    LogBasics(cfg, s.r);
    if s.r.pc.LogFailed? && (l.Advance? || l.Fault?) {
      FailureStep(cfg, s, l);
    } else if l.Advance? && Logs(s.r.pc) {
      LoggingStep(cfg, s);
    } else if !s.r.pc.LogFailed? {
      var t := Next(cfg, s, l).value.r;
      Silent(cfg, s, l);
      if t != s.r {
        SilentStep(cfg, s.r, t);
      }
    }
  }

  lemma LogBasics(cfg: Config, r: Rotator)
    requires LogInv(cfg, r)
    ensures r.ordinal >= 1 && Belongs(cfg.strategy, r.pc)
  {
  }

  lemma {:induction false} LogRun(cfg: Config, labels: seq<Label>, s: World)
    requires Exec(cfg, Init(cfg), labels) == Some(s)
    ensures LogInv(cfg, s.r)
  {
    if labels == [] {
      InitLog(cfg);
    } else {
      hide LogInv;
      var front := labels[..|labels| - 1];
      LogRun(cfg, front, Exec(cfg, Init(cfg), front).value);
      LogStep(cfg, Exec(cfg, Init(cfg), front).value, labels[|labels| - 1]);
    }
  }

  lemma InitLog(cfg: Config)
    ensures LogInv(cfg, Init(cfg).r)
  {
    assert WellFormed(cfg.strategy, Shape([]), 0, false);
  }

  /** In every run the log is complete blocks for the finished rotations, then a prefix of the next block, closed by at
      most one rotation-failed; a rotator that exits cleanly has logged exactly its rotations' blocks. */
  lemma LogFollowsGrammar(cfg: Config, labels: seq<Label>, s: World) returns (m: nat, failed: bool)
    requires Exec(cfg, Init(cfg), labels) == Some(s)
    ensures WellFormed(cfg.strategy, Shape(s.r.events), m, failed)
    ensures m == 0 || m <= 5 * cfg.rotations
    ensures failed ==> s.r.pc == Exited(false) && (m == 0 || m < 5 * cfg.rotations)
    ensures s.r.pc == Exited(true) ==> m == 5 * cfg.rotations
  {
    LogRun(cfg, labels, s);
    hide WellFormed, Exec;
    var start := 5 * (s.r.ordinal - 1);
    if s.r.pc.LogFailed? {
      m :| start <= m <= start + 4 && WellFormed(cfg.strategy, Shape(s.r.events), m, false);
      failed := false;
    } else if s.r.pc == Exited(false) {
      m, failed :| WellFormed(cfg.strategy, Shape(s.r.events), m, failed) && (m == 0 || m < 5 * cfg.rotations);
    } else {
      m, failed := start + Logged(s.r.pc), false;
    }
  }

  /** The five events of rotation k in the log of a rotator that exited cleanly. */
  lemma RotationEvents(cfg: Config, labels: seq<Label>, s: World, k: nat)
    requires Exec(cfg, Init(cfg), labels) == Some(s) && s.r.pc == Exited(true) && 1 <= k <= cfg.rotations
    ensures |s.r.events| == 5 * cfg.rotations
    ensures var e := s.r.events[5 * (k - 1)..5 * k];
      && |e| == 5 && e[0].ordinal == e[1].ordinal == e[2].ordinal == e[3].ordinal == e[4].ordinal == k
      && e[0].phase.Threshold? && e[4].phase.RetentionComplete?
      && (cfg.strategy.RenameReopen? ==>
            e[1].phase.Renamed? && e[2].phase.ReplacementCreated? && e[3].phase.ReopenRequested?)
      && (cfg.strategy.CopyTruncate? ==>
            e[1].phase.CopyStart? && e[2].phase.CopySynced? && e[3].phase.Truncated?)
  {
    var m, failed := LogFollowsGrammar(cfg, labels, s);
    hide Exec, Script;
    BlockAt(cfg.strategy, s.r.events, m, k);
    Scripts();
    hide *;
  }

  lemma Scripts()
    ensures Script(RenameReopen) == [Threshold, Renamed, ReplacementCreated, ReopenRequested, RetentionComplete]
    ensures Script(CopyTruncate) == [Threshold, CopyStart, CopySynced, Truncated, RetentionComplete]
  {
  }

  lemma BlockAt(strategy: Strategy, events: seq<Event>, m: nat, k: nat)
    requires Shape(events) == Unbroken(strategy, m) && 1 <= k && 5 * k <= m
    ensures |events| == m
    ensures var e := events[5 * (k - 1)..5 * k];
      forall d :: 0 <= d < 5 ==> e[d].ordinal == k && e[d].phase == Script(strategy)[d]
  {
    hide Script;
    assert |Shape(events)| == m;
    var e, start := events[5 * (k - 1)..5 * k], 5 * (k - 1);
    forall d | 0 <= d < 5 ensures e[d].ordinal == k && e[d].phase == Script(strategy)[d] {
      assert (start + d) / 5 == k - 1 && (start + d) % 5 == d;
      assert Shape(events)[start + d] == Entry(events[start + d].ordinal, events[start + d].phase);
    }
  }

  /* ---- thresholds ---- */

  /** Between deciding to rotate and logging it the active file only grows. */
  ghost predicate SizeInv(cfg: Config, s: World) {
    && (s.r.pc.Stat? ==> Active in s.os.names && |s.os.ReadPath(Active)| >= s.r.size >= cfg.maxFileBytes)
    && (s.r.pc.LogThreshold? ==> s.r.stat >= cfg.maxFileBytes)
    && (forall i :: 0 <= i < |s.r.events| && s.r.events[i].phase.Threshold? ==> s.r.events[i].bytes >= cfg.maxFileBytes)
  }

  lemma WriterOnlyGrowsActive(cfg: Config, s: World, l: Label)
    requires Next(cfg, s, l).Some? && !(l.Advance? || l.CopyChunk? || l.Deliver? || l.Fault?)
    ensures var t := Next(cfg, s, l).value;
      && t.r == s.r
      && (Active in s.os.names ==> Active in t.os.names && |t.os.ReadPath(Active)| >= |s.os.ReadPath(Active)|)
  {
    hide Stream;
  }

  lemma SizeStep(cfg: Config, s: World, l: Label)
    requires SizeInv(cfg, s) && Next(cfg, s, l).Some?
    ensures SizeInv(cfg, Next(cfg, s, l).value)
  {
    hide Stream, Victims;
    if l.Advance? {
      AdvanceSize(cfg, s);
    } else if !(l.CopyChunk? || l.Deliver? || l.Fault?) {
      WriterOnlyGrowsActive(cfg, s, l);
      hide Next;
    }
  }

  lemma AdvanceSize(cfg: Config, s: World)
    requires SizeInv(cfg, s) && AfterAdvance(cfg, s).Some?
    ensures SizeInv(cfg, AfterAdvance(cfg, s).value)
  {
    hide Stream, Victims, Os.Rename, Os.Create, Os.Truncate, Os.Unlink;
    var t := AfterAdvance(cfg, s).value;
    if !s.r.pc.Poll? && !s.r.pc.Stat? {
      Appends(cfg, s);
      hide AfterAdvance;
    }
  }

  /** Any other step logs at most one event, a threshold only with the size that was seen. */
  lemma Appends(cfg: Config, s: World)
    requires AfterAdvance(cfg, s).Some? && !s.r.pc.Poll? && !s.r.pc.Stat?
    ensures var t := AfterAdvance(cfg, s).value;
      && !t.r.pc.Stat? && !t.r.pc.LogThreshold?
      && (t.r.events == s.r.events
          || (&& |t.r.events| == |s.r.events| + 1
              && var e := t.r.events[|s.r.events|];
                 && t.r.events == s.r.events + [e]
                 && (e.phase.Threshold? ==> s.r.pc.LogThreshold? && e.bytes == s.r.stat)))
  {
    hide Stream, Victims, Os.Rename, Os.Create, Os.Truncate, Os.Unlink;
  }

  /** No rotation is ever logged below the threshold. */
  lemma {:induction false} ThresholdsAreMet(cfg: Config, labels: seq<Label>, s: World)
    requires Exec(cfg, Init(cfg), labels) == Some(s)
    ensures SizeInv(cfg, s)
  {
    if labels != [] {
      hide SizeInv;
      var front := labels[..|labels| - 1];
      ThresholdsAreMet(cfg, front, Exec(cfg, Init(cfg), front).value);
      SizeStep(cfg, Exec(cfg, Init(cfg), front).value, labels[|labels| - 1]);
    }
  }
}
