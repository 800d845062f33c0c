/** The rotator (internal/rotator) as a program: every system call, event append and request it makes is one step of
    the laboratory's state machine, and before each of them the writer may take any steps; so every execution of the
    program is a run of the machine. */
module RotatorProgram {
  import opened Bytes
  import opened Lab
  import opened WriterStream
  import opened WriterProgram
  import CT = CopyTruncate
  import EventLog
  import opened Progress
  import RenameReopen

  /** What the environment decides before one of the rotator's calls: the writer's steps, whether the call fails, how
      many bytes a read returns, whether the answer to a request comes back, and whether a writer that has stopped still
      takes requests, its server not yet being shut down. */
  datatype Moment = Moment(peers: seq<Label>, fails: bool, count: nat, answered: bool, listening: bool)

  /** What the environment decides next; left to itself it lets every call work. */
  function AtHand(moments: seq<Moment>): Moment {
    if moments == [] then LAST else moments[0]
  }

  /** No writer step touches the rotator's own state, and a writer that has stopped stays stopped. */
  lemma WriterLeavesRotator(cfg: Config, s: World, l: Label)
    requires !RotatorLabel(l) && Next(cfg, s, l).Some?
    ensures Next(cfg, s, l).value.r == s.r
    ensures s.w.pc.Stopped? ==> Next(cfg, s, l).value.w.pc.Stopped?
  {
    hide Stream;
  }

  /** The backup being written is not the file being read. */
  lemma SeparateFiles(cfg: Config, trace: seq<Label>, s: World)
    requires Runs(cfg, trace, s) && cfg.strategy.CopyTruncate? && s.r.pc.Copy?
    ensures s.r.target != s.r.source
  {
    CT.CopyRun(cfg, trace, s);
    hide Exec, CT.Woven, RenameReopen.DirectoryInv;
  }

  /** No call fails and every answer comes back. */
  ghost predicate Undisturbed(moments: seq<Moment>) {
    forall i :: 0 <= i < |moments| ==> !moments[i].fails && moments[i].answered
  }

  /** The protocols keep what the next call needs: the active file where one is read, renamed or truncated, a free name
      where one is created, a free slot for the request, and the backup to remove. */
  lemma CallFinds(cfg: Config, trace: seq<Label>, s: World)
    requires Runs(cfg, trace, s)
    ensures s.r.pc.Stat? || s.r.pc.RenameActive? || s.r.pc.OpenSource? || s.r.pc.TruncateActive? ==> Active in s.os.names
    ensures s.r.pc.CreateReplacement? ==> Active !in s.os.names
    ensures s.r.pc.CreateBackup? ==> Backup(s.r.ordinal) !in s.os.names
    ensures s.r.pc.Post? ==> !s.os.queued
    ensures s.r.pc.Remove? && s.r.victims != [] ==> Backup(s.r.victims[0]) in s.os.names
  {
    Holds(cfg, trace, s);
    if s.r.pc.Remove? && s.r.victims != [] {
      VictimIsThere(cfg, s);
    }
    hide Runs;
    if cfg.strategy.RenameReopen? {
      RenameFinds(cfg, s);
    } else {
      CopyFinds(cfg, s);
    }
  }

  lemma RenameFinds(cfg: Config, s: World)
    requires RenameReopen.RenameInv(cfg, s)
    ensures s.r.pc.Stat? || s.r.pc.RenameActive? || s.r.pc.OpenSource? || s.r.pc.TruncateActive? ==> Active in s.os.names
    ensures s.r.pc.CreateReplacement? ==> Active !in s.os.names
    ensures s.r.pc.CreateBackup? ==> Backup(s.r.ordinal) !in s.os.names
    ensures s.r.pc.Post? ==> !s.os.queued
  {
    hide RenameReopen.ContentInv, RenameReopen.DirectoryInv;
  }

  lemma CopyFinds(cfg: Config, s: World)
    requires CT.CopyInv(cfg, s)
    ensures s.r.pc.Stat? || s.r.pc.RenameActive? || s.r.pc.OpenSource? || s.r.pc.TruncateActive? ==> Active in s.os.names
    ensures s.r.pc.CreateReplacement? ==> Active !in s.os.names
    ensures s.r.pc.CreateBackup? ==> Backup(s.r.ordinal) !in s.os.names
    ensures s.r.pc.Post? ==> !s.os.queued
  {
    hide CT.ContentInv, CT.InodeInv, CT.PartialInv;
  }

  lemma Delivered(cfg: Config, s: World, arrives: bool, answered: bool)
    requires s.r.pc.Post?
    ensures Next(cfg, s, Deliver(arrives, answered)) == Some(
      if !arrives || s.os.queued then s.(r := s.r.(pc := LogFailed))
      else s.(os := s.os.(queued := true), r := s.r.(pc := if answered then LogRequested else LogFailed),
              h := s.h.(accepted := s.h.accepted + 1)))
  {
  }

  /** The event logged at pc, with its bytes, and where the rotation goes on. */
  predicate Announces(cfg: Config, pc: RotatorPc, phase: Phase, bytes: nat, stat: nat, copied: nat, pc': RotatorPc) {
    match phase
    case Threshold =>
      pc.LogThreshold? && bytes == stat && pc' == (if cfg.strategy.RenameReopen? then RenameActive else LogCopyStart)
    case Renamed => pc.LogRename? && bytes == stat && pc'.CreateReplacement?
    case ReplacementCreated => pc.LogCreated? && bytes == 0 && pc'.Post?
    case ReopenRequested => pc.LogRequested? && bytes == 0 && pc'.List?
    case CopyStart => pc.LogCopyStart? && bytes == 0 && pc'.OpenSource?
    case CopySynced => pc.LogSynced? && bytes == copied && pc'.TruncateActive?
    case Truncated => pc.LogTruncate? && bytes == copied && pc'.List?
    case _ => false
  }

  class Process {
    const cfg: Config
    // the rotator
    var ordinal: nat
    var size: nat
    var stat: nat
    var source: nat
    var target: nat
    var copied: nat
    var victims: seq<nat>
    var events: seq<Event>
    var polled: nat
    var full: nat
    // for stating properties only: calls that failed and requests that stayed without an answer
    ghost var faults: nat
    // its surroundings
    var os: Os
    var writer: Lab.Writer
    var history: History
    var moments: seq<Moment>
    ghost var trace: seq<Label>

    function State(pc: RotatorPc): World
      reads this
    {
      World(
        os, writer, Lab.Rotator(pc, ordinal, size, stat, source, target, copied, victims, events, polled, full), history)
    }

    /** The program stands at pc after a run of the machine. */
    ghost predicate At(pc: RotatorPc)
      reads this
    {
      Runs(cfg, trace, State(pc))
    }

    constructor (cfg: Config, moments: seq<Moment>)
      requires cfg.RotatorStarts()
      ensures At(Poll) && ordinal == 1 && polled == 0 && full == 0 && faults == 0
      ensures this.cfg == cfg && this.moments == moments
    {
      var start := Init(cfg);
      this.cfg := cfg;
      this.moments := moments;
      ordinal, size, stat, source, target, copied, victims, events, polled, full :=
        1, 0, 0, 0, 0, 0, [], [], 0, 0;
      os, writer, history := start.os, start.w, start.h;
      trace, faults := [], 0;
    }

    /** The writer takes its steps; a label that does not fit is passed over. */
    method Others(pc: RotatorPc) returns (moment: Moment)
      requires At(pc)
      modifies this`os, this`writer, this`history, this`moments, this`trace
      ensures At(pc)
      ensures moment == AtHand(old(moments)) && if old(moments) == [] then unchanged(this) else moments == old(moments)[1..]
      ensures Undisturbed(old(moments)) ==> Undisturbed(moments) && !moment.fails && moment.answered
      ensures old(writer.pc.Stopped?) ==> writer.pc.Stopped?
    {
      hide Runs, Next;
      if moments == [] {
        return LAST;
      }
      moment := moments[0];
      moments := moments[1..];
      ghost var rest := moments;
      for i := 0 to |moment.peers|
        invariant At(pc) && moments == rest && (old(writer.pc.Stopped?) ==> writer.pc.Stopped?)
      {
        Other(pc, moment.peers[i]);
      }
    }

    method Other(pc: RotatorPc, l: Label)
      requires At(pc)
      modifies this`os, this`writer, this`history, this`trace
      ensures At(pc)
      ensures old(writer.pc.Stopped?) ==> writer.pc.Stopped?
    {
      hide Runs, Next;
      var s := State(pc);
      var t := Next(cfg, s, l);
      if !RotatorLabel(l) && t.Some? {
        WriterLeavesRotator(cfg, s, l);
        RunsOn(cfg, trace, s, l, t.value);
        os, writer, history := t.value.os, t.value.w, t.value.h;
        trace := trace + [l];
        assert State(pc) == t.value;
      }
    }

    /** A call fails: the rotation is over. */
    ghost method Fail(pc: RotatorPc)
      requires At(pc) && !pc.Poll? && !pc.LogFailed? && !pc.Exited?
      modifies this`trace, this`faults
      ensures At(LogFailed) && faults == old(faults) + 1
    {
      hide Runs;
      RunsOn(cfg, trace, State(pc), Fault, State(LogFailed));
      trace, faults := trace + [Fault], faults + 1;
    }

    /** The machine's next step leads from s to where the program now stands. */
    ghost method Step(s: World, pc: RotatorPc)
      requires Runs(cfg, trace, s) && AfterAdvance(cfg, s) == Some(State(pc))
      modifies this`trace
      ensures At(pc)
    {
      hide Runs;
      RunsOn(cfg, trace, s, Advance, State(pc));
      trace := trace + [Advance];
    }

    /** Appends an event to the log. */
    method AppendEvent(phase: Phase, bytes: nat, pc: RotatorPc, pc': RotatorPc) returns (ok: bool)
      requires At(pc) && Announces(cfg, pc, phase, bytes, stat, copied, pc')
      modifies this`events, this`os, this`writer, this`history, this`moments, this`trace, this`faults
      ensures if ok then At(pc') else At(LogFailed)
      ensures ok <==> !AtHand(old(moments)).fails
      ensures faults == old(faults) + if ok then 0 else 1
      ensures Undisturbed(old(moments)) ==> Undisturbed(moments) && ok
    {
      var moment := Others(pc);
      ok := !moment.fails;
      if !ok {
        Fail(pc);
        return;
      }
      ghost var s := State(pc);
      events := events + [Event(ordinal, phase, bytes)];
      Step(s, pc');
    }

    /* ---- rename-reopen ---- */

    method RotateRenameReopen() returns (ok: bool)
      requires At(RenameActive)
      modifies this`events, this`os, this`writer, this`history, this`moments, this`trace, this`faults
      ensures if ok then At(List) else At(LogFailed)
      ensures faults >= old(faults) && (ok <==> faults == old(faults))
      ensures Undisturbed(old(moments)) ==> Undisturbed(moments) && (ok || writer.pc.Stopped?)
    {
      hide *;
      ok := RenameToBackup();
      if !ok {
        return;
      }
      ok := AppendEvent(Renamed, stat, LogRename, CreateReplacement);
      if !ok {
        return;
      }
      ok := CreateExclusively();
      if !ok {
        return;
      }
      ok := AppendEvent(ReplacementCreated, 0, LogCreated, Post);
      if !ok {
        return;
      }
      ok := RequestReopen();
      if !ok {
        return;
      }
      ok := AppendEvent(ReopenRequested, 0, LogRequested, List);
    }

    method RenameToBackup() returns (ok: bool)
      requires At(RenameActive)
      modifies this`os, this`writer, this`history, this`moments, this`trace, this`faults
      ensures if ok then At(LogRename) else At(LogFailed)
      ensures ok <==> !AtHand(old(moments)).fails
      ensures faults == old(faults) + if ok then 0 else 1
      ensures Undisturbed(old(moments)) ==> Undisturbed(moments) && ok
    {
      hide Runs, Undisturbed, AtHand;
      var moment := Others(RenameActive);
      CallFinds(cfg, trace, State(RenameActive));
      ok := !moment.fails && Active in os.names;
      if !ok {
        Fail(RenameActive);
        return;
      }
      ghost var s := State(RenameActive);
      history := history.(made := history.made + [os.names[Active]]);
      os := os.Rename(Active, Backup(ordinal));
      Step(s, LogRename);
    }

    method CreateExclusively() returns (ok: bool)
      requires At(CreateReplacement)
      modifies this`os, this`writer, this`history, this`moments, this`trace, this`faults
      ensures if ok then At(LogCreated) else At(LogFailed)
      ensures ok <==> !AtHand(old(moments)).fails
      ensures faults == old(faults) + if ok then 0 else 1
      ensures Undisturbed(old(moments)) ==> Undisturbed(moments) && ok
    {
      hide Runs, Undisturbed, AtHand;
      var moment := Others(CreateReplacement);
      CallFinds(cfg, trace, State(CreateReplacement));
      ok := !moment.fails && Active !in os.names;
      if !ok {
        Fail(CreateReplacement);
        return;
      }
      ghost var s := State(CreateReplacement);
      os := os.Create(Active);
      Step(s, LogCreated);
    }

    /** The request reaches a writer that still listens, fills the slot if it is free, and succeeds if the answer
        comes. */
    method RequestReopen() returns (ok: bool)
      requires At(Post)
      modifies this`os, this`writer, this`history, this`moments, this`trace, this`faults
      ensures if ok then At(LogRequested) else At(LogFailed)
      ensures var moment := AtHand(old(moments));
        && (ok ==> !moment.fails && moment.answered && (writer.pc.Stopped? ==> moment.listening))
        && (!moment.fails && moment.answered && !writer.pc.Stopped? ==> ok)
      ensures faults == old(faults) + if ok then 0 else 1
      ensures Undisturbed(old(moments)) ==> Undisturbed(moments) && (ok || writer.pc.Stopped?)
    {
      hide Runs, Undisturbed, AtHand;
      var moment := Others(Post);
      CallFinds(cfg, trace, State(Post));
      var arrives := !moment.fails && (writer.pc.Stopped? ==> moment.listening);
      ghost var s := State(Post);
      ok := arrives && !os.queued && moment.answered;
      faults := faults + if ok then 0 else 1;
      if arrives && !os.queued {
        os := os.(queued := true);
        history := history.(accepted := history.accepted + 1);
      }
      ghost var pc := if ok then LogRequested else LogFailed;
      Delivered(cfg, s, arrives, moment.answered);
      hide Next, AfterDeliver;
      RunsOn(cfg, trace, s, Deliver(arrives, moment.answered), State(pc));
      trace := trace + [Deliver(arrives, moment.answered)];
    }

    /* ---- copytruncate ---- */

    method RotateCopyTruncate() returns (ok: bool)
      requires At(LogCopyStart) && cfg.strategy.CopyTruncate?
      modifies this`source, this`target, this`copied, this`events, this`os, this`writer, this`history, this`moments,
        this`trace, this`faults
      ensures if ok then At(List) else At(LogFailed)
      ensures faults >= old(faults) && (ok <==> faults == old(faults))
      ensures Undisturbed(old(moments)) ==> Undisturbed(moments) && ok
    {
      hide *;
      ok := AppendEvent(CopyStart, 0, LogCopyStart, OpenSource);
      if !ok {
        return;
      }
      ok := OpenActive();
      if !ok {
        return;
      }
      ok := CreateBackupFile();
      if !ok {
        return;
      }
      ok := CopyAll();
      if !ok {
        return;
      }
      ok := AppendEvent(CopySynced, copied, LogSynced, TruncateActive);
      if !ok {
        return;
      }
      ok := TruncateToNothing();
      if !ok {
        return;
      }
      ok := AppendEvent(Truncated, copied, LogTruncate, List);
    }

    method OpenActive() returns (ok: bool)
      requires At(OpenSource)
      modifies this`source, this`os, this`writer, this`history, this`moments, this`trace, this`faults
      ensures if ok then At(CreateBackup) else At(LogFailed)
      ensures ok <==> !AtHand(old(moments)).fails
      ensures faults == old(faults) + if ok then 0 else 1
      ensures Undisturbed(old(moments)) ==> Undisturbed(moments) && ok
    {
      hide Runs, Undisturbed, AtHand;
      var moment := Others(OpenSource);
      CallFinds(cfg, trace, State(OpenSource));
      ok := !moment.fails && Active in os.names;
      if !ok {
        Fail(OpenSource);
        return;
      }
      ghost var s := State(OpenSource);
      source := os.names[Active];
      Step(s, CreateBackup);
    }

    method CreateBackupFile() returns (ok: bool)
      requires At(CreateBackup)
      modifies this`target, this`copied, this`os, this`writer, this`history, this`moments, this`trace, this`faults
      ensures if ok then At(Copy) else At(LogFailed)
      ensures ok <==> !AtHand(old(moments)).fails
      ensures faults == old(faults) + if ok then 0 else 1
      ensures Undisturbed(old(moments)) ==> Undisturbed(moments) && ok
    {
      hide Runs, Undisturbed, AtHand;
      var moment := Others(CreateBackup);
      CallFinds(cfg, trace, State(CreateBackup));
      ok := !moment.fails && Backup(ordinal) !in os.names;
      if !ok {
        Fail(CreateBackup);
        return;
      }
      ghost var s := State(CreateBackup);
      target, copied := os.next, 0;
      history := history.(made := history.made + [os.next]);
      os := os.Create(Backup(ordinal));
      Step(s, Copy);
    }

    /** Copies chunk by chunk until a read meets the end of the file. */
    method CopyAll() returns (ok: bool)
      requires At(Copy) && cfg.strategy.CopyTruncate?
      modifies this`copied, this`os, this`writer, this`history, this`moments, this`trace, this`faults
      ensures if ok then At(LogSynced) else At(LogFailed)
      ensures faults >= old(faults) && (ok <==> faults == old(faults))
      ensures Undisturbed(old(moments)) ==> Undisturbed(moments) && ok
    {
      hide *;
      while true
        invariant At(Copy) && (Undisturbed(old(moments)) ==> Undisturbed(moments)) && faults == old(faults)
        decreases |moments|, |os.Read(source)| - copied
      {
        var more;
        ok, more := CopyNext();
        if !ok || !more {
          return;
        }
      }
    }

    /** One read and the write of what it returned; a read at the end of the file ends the copy. */
    method CopyNext() returns (ok: bool, more: bool)
      requires At(Copy) && cfg.strategy.CopyTruncate?
      modifies this`copied, this`os, this`writer, this`history, this`moments, this`trace, this`faults
      ensures ok <==> !AtHand(old(moments)).fails
      ensures faults == old(faults) + if ok then 0 else 1
      ensures if !ok then At(LogFailed) else if more then At(Copy) else At(LogSynced)
      ensures ok && more && |moments| >= |old(moments)| ==>
        moments == old(moments) && os.Read(source) == old(os.Read(source)) && old(copied) < copied <= |os.Read(source)|
      ensures Undisturbed(old(moments)) ==> Undisturbed(moments) && ok
    {
      hide Runs, Undisturbed, Os.Read;
      var moment := Others(Copy);
      ok, more := !moment.fails, false;
      if !ok {
        Fail(Copy);
        return;
      }
      more := copied < |os.Read(source)|;
      if !more {
        EndCopy();
        return;
      }
      var n := if 1 <= moment.count < |os.Read(source)| - copied then moment.count else |os.Read(source)| - copied;
      CopyMore(n);
    }

    method EndCopy()
      requires At(Copy) && copied >= |os.Read(source)|
      modifies this`history, this`trace
      ensures At(LogSynced)
    {
      hide Runs;
      ghost var s := State(Copy);
      history := history.(window := []);
      Step(s, LogSynced);
    }

    method CopyMore(n: nat)
      requires At(Copy) && cfg.strategy.CopyTruncate? && 1 <= n && copied + n <= |os.Read(source)|
      modifies this`copied, this`os, this`trace
      ensures At(Copy)
      ensures copied == old(copied) + n && os.Read(source) == old(os.Read(source))
    {
      SeparateFiles(cfg, trace, State(Copy));
      hide Runs;
      ghost var s := State(Copy);
      os := os.Append(target, os.Read(source)[copied..copied + n]);
      copied := copied + n;
      RunsOn(cfg, trace, s, CopyChunk(n), State(Copy));
      trace := trace + [CopyChunk(n)];
    }

    method TruncateToNothing() returns (ok: bool)
      requires At(TruncateActive)
      modifies this`os, this`writer, this`history, this`moments, this`trace, this`faults
      ensures if ok then At(LogTruncate) else At(LogFailed)
      ensures ok <==> !AtHand(old(moments)).fails
      ensures faults == old(faults) + if ok then 0 else 1
      ensures Undisturbed(old(moments)) ==> Undisturbed(moments) && ok
    {
      hide Runs, Undisturbed, AtHand;
      var moment := Others(TruncateActive);
      CallFinds(cfg, trace, State(TruncateActive));
      ok := !moment.fails && Active in os.names;
      if !ok {
        Fail(TruncateActive);
        return;
      }
      ghost var s := State(TruncateActive);
      os := os.Truncate(os.names[Active]);
      history := history.(windows := history.windows + [history.window]);
      Step(s, LogTruncate);
    }

    /* ---- retention and the loop ---- */

    method EnforceRetention() returns (ok: bool)
      requires At(List)
      modifies this`victims, this`os, this`writer, this`history, this`moments, this`trace, this`faults
      ensures if ok then At(LogComplete) else At(LogFailed)
      ensures faults >= old(faults) && (ok <==> faults == old(faults))
      ensures Undisturbed(old(moments)) ==> Undisturbed(moments) && ok
    {
      hide *;
      ok := ListBackups();
      if !ok {
        return;
      }
      while victims != []
        invariant At(Remove) && (Undisturbed(old(moments)) ==> Undisturbed(moments)) && faults == old(faults)
        decreases |victims|
      {
        ok := RemoveFirst();
        if !ok {
          return;
        }
      }
      EndRetention();
      return true;
    }

    method ListBackups() returns (ok: bool)
      requires At(List)
      modifies this`victims, this`os, this`writer, this`history, this`moments, this`trace, this`faults
      ensures if ok then At(Remove) else At(LogFailed)
      ensures ok <==> !AtHand(old(moments)).fails
      ensures faults == old(faults) + if ok then 0 else 1
      ensures Undisturbed(old(moments)) ==> Undisturbed(moments) && ok
    {
      hide Runs, Undisturbed, AtHand;
      var moment := Others(List);
      ok := !moment.fails;
      if !ok {
        Fail(List);
        return;
      }
      hide Victims;
      ghost var s := State(List);
      victims := Victims(cfg, os);
      Step(s, Remove);
    }

    method RemoveFirst() returns (ok: bool)
      requires At(Remove) && victims != []
      modifies this`victims, this`os, this`writer, this`history, this`moments, this`trace, this`faults
      ensures if ok then At(Remove) && |victims| == |old(victims)| - 1 else At(LogFailed)
      ensures ok <==> !AtHand(old(moments)).fails
      ensures faults == old(faults) + if ok then 0 else 1
      ensures Undisturbed(old(moments)) ==> Undisturbed(moments) && ok
    {
      hide Runs, Undisturbed, AtHand;
      var moment := Others(Remove);
      CallFinds(cfg, trace, State(Remove));
      ok := !moment.fails && Backup(victims[0]) in os.names;
      if !ok {
        Fail(Remove);
        return;
      }
      ghost var s := State(Remove);
      os := os.Unlink(Backup(victims[0]));
      victims := victims[1..];
      history := history.(removed := history.removed + 1);
      Step(s, Remove);
    }

    ghost method EndRetention()
      requires At(Remove) && victims == []
      modifies this`trace
      ensures At(LogComplete)
    {
      Step(State(Remove), LogComplete);
    }

    /** The state once the rotation under way has been logged as complete. */
    function Rotated(): World
      reads this
    {
      var pc := if ordinal + 1 > cfg.rotations then Exited(true) else Poll;
      State(pc).(r := Lab.Rotator(pc, ordinal + 1, size, stat, source, target, copied, victims, events, polled, full))
    }

    method RotateOnce() returns (ok: bool)
      requires At(Stat)
      modifies this`stat, this`source, this`target, this`copied, this`victims, this`events, this`os, this`writer,
        this`history, this`moments, this`trace, this`faults
      ensures if ok then Runs(cfg, trace, Rotated()) else At(LogFailed)
      ensures faults >= old(faults) && (ok <==> faults == old(faults))
      ensures Undisturbed(old(moments)) ==> Undisturbed(moments) && (ok || writer.pc.Stopped?)
    {
      ok := StatActive();
      if !ok {
        return;
      }
      var first := if cfg.strategy.RenameReopen? then RenameActive else LogCopyStart;
      ok := AppendEvent(Threshold, stat, LogThreshold, first);
      hide *;
      if !ok {
        return;
      }
      match cfg.strategy {
        case CopyTruncate => ok := RotateCopyTruncate();
        case RenameReopen => ok := RotateRenameReopen();
      }
      if !ok {
        return;
      }
      ok := EnforceRetention();
      if !ok {
        return;
      }
      ok := Complete();
    }

    method StatActive() returns (ok: bool)
      requires At(Stat)
      modifies this`stat, this`os, this`writer, this`history, this`moments, this`trace, this`faults
      ensures if ok then At(LogThreshold) else At(LogFailed)
      ensures ok <==> !AtHand(old(moments)).fails
      ensures faults == old(faults) + if ok then 0 else 1
      ensures Undisturbed(old(moments)) ==> Undisturbed(moments) && ok
    {
      hide Runs, Undisturbed, AtHand;
      var moment := Others(Stat);
      CallFinds(cfg, trace, State(Stat));
      ok := !moment.fails && Active in os.names;
      if !ok {
        Fail(Stat);
        return;
      }
      ghost var s := State(Stat);
      stat := |os.ReadPath(Active)|;
      Step(s, LogThreshold);
    }

    method Complete() returns (ok: bool)
      requires At(LogComplete)
      modifies this`events, this`os, this`writer, this`history, this`moments, this`trace, this`faults
      ensures if ok then Runs(cfg, trace, Rotated()) else At(LogFailed)
      ensures ok <==> !AtHand(old(moments)).fails
      ensures faults == old(faults) + if ok then 0 else 1
      ensures Undisturbed(old(moments)) ==> Undisturbed(moments) && ok
    {
      hide Runs, Undisturbed, AtHand;
      var moment := Others(LogComplete);
      ok := !moment.fails;
      if !ok {
        Fail(LogComplete);
        return;
      }
      ghost var s := State(LogComplete);
      events := events + [Event(ordinal, RetentionComplete, stat)];
      RunsOn(cfg, trace, s, Advance, Rotated());
      trace := trace + [Advance];
    }

    /** Polls until all rotations are done, one of them fails, or the polls run out and the context is cancelled. */
    method Run(polls: nat) returns (ok: bool)
      requires At(Poll) && cfg.rotations > 0 && ordinal == 1 && polled == 0 && full == 0 && faults == 0
      modifies this
      ensures At(Exited(ok))
      ensures polled <= polls && (ok ==> full == cfg.rotations && faults == 0)
      ensures !ok && faults == 0 ==> polled == polls && full < cfg.rotations
      ensures Undisturbed(old(moments)) && !ok ==> writer.pc.Stopped? || (polled == polls && full < cfg.rotations)
      ensures ok ==> EventLog.WellFormed(cfg.strategy, EventLog.Shape(events), 5 * cfg.rotations, false)
    {
      hide *;
      for i := 0 to polls
        invariant At(Poll) && polled == i && full + 1 == ordinal <= cfg.rotations
        invariant faults == 0 && (Undisturbed(old(moments)) ==> Undisturbed(moments))
      {
        var due;
        ok, due := PollOnce();
        if !ok {
          return;
        }
        if !due {
          continue;
        }
        var rotated := RotateOnce();
        if !rotated {
          LogFailure();
          return false;
        }
        NextOrdinal();
        if ordinal > cfg.rotations {
          AllLogged();
          return true;
        }
      }
      Cancel(0);
      return false;
    }

    /** One poll: an error ends the program, and a full file calls for a rotation. */
    method PollOnce() returns (ok: bool, due: bool)
      requires At(Poll)
      modifies this`size, this`polled, this`full, this`os, this`writer, this`history, this`moments, this`trace, this`faults
      ensures ok <==> !AtHand(old(moments)).fails
      ensures faults == old(faults) + if ok then 0 else 1
      ensures ok ==> polled == old(polled) + 1 && full == old(full) + if due then 1 else 0
      ensures !ok ==> polled == old(polled) && full == old(full)
      ensures At(if !ok then Exited(false) else if due then Stat else Poll)
      ensures Undisturbed(old(moments)) ==> Undisturbed(moments) && ok
    {
      hide Runs, Undisturbed, Os.ReadPath;
      var moment := Others(Poll);
      ok, due := !moment.fails, false;
      if !ok {
        Cancel(1);
        return;
      }
      due := Active in os.names && |os.ReadPath(Active)| >= cfg.maxFileBytes;
      if due {
        Decide();
      } else {
        PassOver();
      }
    }

    method Decide()
      requires At(Poll) && Active in os.names && |os.ReadPath(Active)| >= cfg.maxFileBytes
      modifies this`size, this`polled, this`full, this`trace
      ensures At(Stat) && polled == old(polled) + 1 && full == old(full) + 1
    {
      hide Runs;
      ghost var s := State(Poll);
      size, polled, full := |os.ReadPath(Active)|, polled + 1, full + 1;
      Step(s, Stat);
    }

    method PassOver()
      requires At(Poll) && (Active !in os.names || |os.ReadPath(Active)| < cfg.maxFileBytes)
      modifies this`polled, this`trace
      ensures At(Poll) && polled == old(polled) + 1
    {
      hide Runs;
      ghost var s := State(Poll);
      polled := polled + 1;
      Step(s, Poll);
    }

    method NextOrdinal()
      requires Runs(cfg, trace, Rotated())
      modifies this`ordinal
      ensures ordinal == old(ordinal) + 1
      ensures At(if ordinal > cfg.rotations then Exited(true) else Poll)
    {
      hide Runs;
      ordinal := ordinal + 1;
    }

    lemma AllLogged()
      requires At(Exited(true)) && cfg.rotations > 0
      ensures EventLog.WellFormed(cfg.strategy, EventLog.Shape(events), 5 * cfg.rotations, false)
    {
      hide Exec, EventLog.WellFormed;
      var m, failed := EventLog.LogFollowsGrammar(cfg, trace, State(Exited(true)));
    }

    ghost method Cancel(failures: nat)
      requires At(Poll)
      modifies this`trace, this`faults
      ensures At(Exited(false)) && faults == old(faults) + failures
    {
      hide Runs;
      RunsOn(cfg, trace, State(Poll), Fault, State(Exited(false)));
      trace, faults := trace + [Fault], faults + failures;
    }

    /** Records the failure; an error in doing so is ignored. */
    method LogFailure()
      requires At(LogFailed)
      modifies this`events, this`os, this`writer, this`history, this`moments, this`trace
      ensures At(Exited(false))
      ensures events
           == old(events) + if AtHand(old(moments)).fails then [] else [Event(ordinal, RotationFailed, size)]
      ensures old(writer.pc.Stopped?) ==> writer.pc.Stopped?
    {
      hide Runs, Undisturbed, AtHand;
      var moment := Others(LogFailed);
      ghost var s := State(LogFailed);
      if moment.fails {
        hide Runs;
        RunsOn(cfg, trace, s, Fault, State(Exited(false)));
        trace := trace + [Fault];
      } else {
        events := events + [Event(ordinal, RotationFailed, size)];
        Step(s, Exited(false));
      }
    }
  }

  const LAST := Moment([], false, 0, true, false)
}
