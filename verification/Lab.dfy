/** The laboratory as one state machine: a writer process and a rotator process taking turns over a small
    file system and the writer's one-slot reopen channel.  Every system call is a step of its own, so a run is any
    interleaving of the two programs; what the environment decides is carried by the step's label. */
module Lab {
  import opened Bytes
  import opened Ordered
  import R = Record

  datatype Strategy = CopyTruncate | RenameReopen

  datatype Implementation = GoWriter | CppWriter

  /** shortWrites says whether the kernel may accept part of a write; without it each write takes its whole batch. */
  datatype Config = Config(
    runID: seq<byte>, recordBytes: int, bufferBytes: int, bytesPerSecond: int,
    maxFileBytes: int, rotations: int, maxBackups: int,
    strategy: Strategy, implementation: Implementation, shortWrites: bool)
  {
    /** The checks a writer makes before it opens anything. */
    predicate WriterStarts() {
      && runID != [] && recordBytes > 0 && bufferBytes > 0 && bytesPerSecond > 0
      && (implementation.CppWriter? ==> recordBytes >= R.MinimumSize(runID))
    }

    /** Whether a generated sequence number turns into a record; the C++ writer does not look for whitespace. */
    predicate Encodable() {
      && recordBytes >= R.MinimumSize(runID)
      && (implementation.GoWriter? ==> R.LegalRunID(runID))
    }

    predicate RotatorStarts() {
      maxFileBytes > 0 && rotations > 0
    }
  }

  /* ---- the file system ---- */

  datatype Path = Active | Backup(ordinal: nat)

  /** names is the directory, data the inodes' contents (kept after unlink), queued the one-slot reopen channel. */
  datatype Os = Os(names: map<Path, nat>, data: map<nat, seq<byte>>, next: nat, queued: bool)
  {
    function Read(inode: nat): seq<byte> {
      if inode in data then data[inode] else []
    }

    function ReadPath(path: Path): seq<byte> {
      if path in names then Read(names[path]) else []
    }

    function Append(inode: nat, bytes: seq<byte>): Os {
      this.(data := data[inode := Read(inode) + bytes])
    }

    function Truncate(inode: nat): Os {
      this.(data := data[inode := []])
    }

    function Create(path: Path): Os {
      this.(names := names[path := next], data := data[next := []], next := next + 1)
    }

    /** Moves the name; an existing target would be replaced. */
    function Rename(from: Path, to: Path): Os
      requires from in names
    {
      this.(names := (names - {from})[to := names[from]])
    }

    function Unlink(path: Path): Os {
      this.(names := names - {path})
    }

    function Ordinals(): set<nat> {
      set p | p in names && p.Backup? :: p.ordinal
    }
  }

  /* ---- the writer ---- */

  /** What follows a flush: the event loop, a clean exit, or an exit that reports an earlier error. */
  datatype After = Resume | Finish | Abort

  datatype WriterPc =
    | Opening(again: bool)
    | Idle
    | Flushing(done: nat, after: After)
    | Stopped(ok: bool, flushed: nat)

  datatype Writer = Writer(
    pc: WriterPc, file: nat, buffer: seq<byte>,
    generated: nat, written: nat, reopenRequests: nat, reopenFailures: nat)
  {
    /** Bytes of the buffer already handed to the kernel. */
    function Done(): nat {
      match pc
      case Flushing(done, _) => done
      case Stopped(_, flushed) => flushed
      case _ => 0
    }

    function Pending(): seq<byte> {
      if Done() <= |buffer| then buffer[Done()..] else []
    }
  }

  /* ---- the rotator ---- */

  datatype Phase =
    | Threshold | CopyStart | CopySynced | Truncated | Renamed | ReplacementCreated | ReopenRequested
    | RetentionComplete | RotationFailed

  datatype Event = Event(ordinal: nat, phase: Phase, bytes: nat)

  datatype RotatorPc =
    | Poll | Stat | LogThreshold
    | RenameActive | LogRename | CreateReplacement | LogCreated | Post | LogRequested
    | LogCopyStart | OpenSource | CreateBackup | Copy | LogSynced | TruncateActive | LogTruncate
    | List | Remove | LogComplete
    | LogFailed | Exited(ok: bool)

  /** size is what Run saw when it decided to rotate, stat what RotateOnce saw.  polled and full count, for stating
      properties only, the polls made and those that found the file full. */
  datatype Rotator = Rotator(
    pc: RotatorPc, ordinal: nat, size: nat, stat: nat,
    source: nat, target: nat, copied: nat, victims: seq<nat>, events: seq<Event>, polled: nat, full: nat)
  {
    function Log(phase: Phase, bytes: nat, pc': RotatorPc): Rotator {
      this.(events := events + [Event(ordinal, phase, bytes)], pc := pc')
    }
  }

  /* ---- history, for stating properties only ---- */

  /** out: every byte the writer handed to the kernel, in order.  mark and replayed: where a failed flush was started
      again and how many bytes it had already written.  made: the inode of each backup, by ordinal.  removed: backups
      unlinked.  accepted: reopen requests the slot took.  window: bytes written since the current copy reached its
      end of file.  windows: those windows, one for each truncate. */
  datatype History = History(
    out: seq<byte>, mark: nat, replayed: nat,
    made: seq<nat>, removed: nat, accepted: nat,
    window: seq<byte>, windows: seq<seq<byte>>)

  datatype World = World(os: Os, w: Writer, r: Rotator, h: History)

  /** A fresh directory, both processes about to start. */
  function Init(cfg: Config): World {
    World(
      Os(map[], map[], 0, false),
      Writer(if cfg.WriterStarts() then Opening(false) else Stopped(false, 0), 0, [], 0, 0, 0, 0),
      Rotator(if cfg.RotatorStarts() then Poll else Exited(false), 1, 0, 0, 0, 0, 0, [], [], 0, 0),
      History([], 0, 0, [], 0, 0, [], []))
  }

  datatype Label =
    | Open(ok: bool)
    | Generate(n: nat)
    | BeginFlush
    | Stop
    | Write(count: nat)
    | WriteError
    | TakeReopen
    | Advance
    | CopyChunk(size: nat)
    | Deliver(arrives: bool, answered: bool)
    | Fault

  /* ---- records as a byte stream ---- */

  /** Records lo + 1 up to hi, encoded back to back; nothing when the configuration encodes nothing. */
  function Stream(cfg: Config, lo: nat, hi: nat): seq<byte>
    requires lo <= hi
  {
    if lo == hi || !cfg.Encodable() then []
    else Stream(cfg, lo, hi - 1) + R.Encoded(cfg.runID, hi, cfg.recordBytes)
  }

  function RecordsIn(cfg: Config, bytes: nat): nat {
    if cfg.recordBytes > 0 then bytes / cfg.recordBytes else 0
  }

  /** The contents of the inodes, in order. */
  function Joined(os: Os, inodes: seq<nat>): seq<byte> {
    if inodes == [] then [] else Joined(os, inodes[..|inodes| - 1]) + os.Read(inodes[|inodes| - 1])
  }

  /* ---- writer steps ---- */

  function AfterOpen(s: World): World
    requires s.w.pc.Opening?
  {
    var os := if Active in s.os.names then s.os else s.os.Create(Active);
    var pc := if s.w.pc.again && s.w.buffer != [] then Flushing(0, Resume) else Idle;
    s.(os := os, w := s.w.(file := os.names[Active], pc := pc))
  }

  function AfterOpenFailure(s: World): World
    requires s.w.pc.Opening?
  {
    s.(w := s.w.(pc := Stopped(false, 0), reopenFailures := s.w.reopenFailures + if s.w.pc.again then 1 else 0))
  }

  function AfterGenerate(cfg: Config, s: World, n: nat): World {
    var g := s.w.generated;
    if cfg.Encodable() then s.(w := s.w.(generated := g + n, buffer := s.w.buffer + Stream(cfg, g, g + n)))
    else if n == 0 then s
    else s.(w := s.w.(generated := g + 1, pc := Stopped(false, 0)))
  }

  function AfterFlushStart(s: World, after: After): World {
    if s.w.buffer != [] then s.(w := s.w.(pc := Flushing(0, after)))
    else if after.Resume? then s
    else s.(w := s.w.(pc := Stopped(after.Finish?, 0)))
  }

  predicate WriteAllowed(cfg: Config, s: World, n: nat) {
    && s.w.pc.Flushing?
    && 1 <= n && s.w.pc.done + n <= |s.w.buffer|
    && (cfg.shortWrites || s.w.pc.done + n == |s.w.buffer|)
  }

  predicate InWindow(r: Rotator) {
    r.pc.LogSynced? || r.pc.TruncateActive?
  }

  function AfterWrite(cfg: Config, s: World, n: nat): World
    requires WriteAllowed(cfg, s, n)
  {
    var done := s.w.pc.done;
    var chunk := s.w.buffer[done..done + n];
    var w :=
      if done + n < |s.w.buffer| then s.w.(pc := Flushing(done + n, s.w.pc.after))
      else s.w.(
        pc := if s.w.pc.after.Resume? then Idle else Stopped(s.w.pc.after.Finish?, 0),
        written := s.w.written + RecordsIn(cfg, |s.w.buffer|),
        buffer := []);
    var h := s.h.(out := s.h.out + chunk, window := if InWindow(s.r) then s.h.window + chunk else s.h.window);
    s.(os := s.os.Append(s.w.file, chunk), w := w, h := h)
  }

  /** The Go event loop answers a failed flush by flushing the whole buffer once more before it exits. */
  function AfterWriteError(cfg: Config, s: World): World
    requires s.w.pc.Flushing?
  {
    if cfg.implementation.GoWriter? && s.w.pc.after.Resume? then
      s.(w := s.w.(pc := Flushing(0, Abort)), h := s.h.(mark := |s.h.out|, replayed := s.w.pc.done))
    else
      s.(w := s.w.(pc := Stopped(false, s.w.pc.done)))
  }

  function AfterTakeReopen(s: World): World {
    s.(os := s.os.(queued := false), w := s.w.(pc := Opening(true), reopenRequests := s.w.reopenRequests + 1))
  }

  /* ---- rotator steps ---- */

  function Failed(s: World): World {
    s.(r := s.r.(pc := LogFailed))
  }

  function AfterPoll(cfg: Config, s: World): World {
    if Active in s.os.names && |s.os.ReadPath(Active)| >= cfg.maxFileBytes
    then s.(r := s.r.(pc := Stat, size := |s.os.ReadPath(Active)|, polled := s.r.polled + 1, full := s.r.full + 1))
    else s.(r := s.r.(polled := s.r.polled + 1))
  }

  function AfterRename(s: World): World {
    if Active !in s.os.names then Failed(s)
    else
      s.(os := s.os.Rename(Active, Backup(s.r.ordinal)), r := s.r.(pc := LogRename),
         h := s.h.(made := s.h.made + [s.os.names[Active]]))
  }

  function AfterCreateBackup(s: World): World {
    if Backup(s.r.ordinal) in s.os.names then Failed(s)
    else
      s.(os := s.os.Create(Backup(s.r.ordinal)), r := s.r.(pc := Copy, target := s.os.next, copied := 0),
         h := s.h.(made := s.h.made + [s.os.next]))
  }

  function AfterTruncate(s: World): World {
    if Active !in s.os.names then Failed(s)
    else
      s.(os := s.os.Truncate(s.os.names[Active]), r := s.r.(pc := LogTruncate),
         h := s.h.(windows := s.h.windows + [s.h.window]))
  }

  /** The retained ordinals in ascending order, and the oldest of them that exceed maxBackups. */
  function Victims(cfg: Config, os: Os): seq<nat> {
    var listed := Ascending(os.Ordinals());
    if cfg.maxBackups <= 0 || |listed| <= cfg.maxBackups then [] else listed[..|listed| - cfg.maxBackups]
  }

  function AfterRemove(s: World): World {
    if s.r.victims == [] then s.(r := s.r.(pc := LogComplete))
    else if Backup(s.r.victims[0]) !in s.os.names then Failed(s)
    else
      s.(os := s.os.Unlink(Backup(s.r.victims[0])), r := s.r.(victims := s.r.victims[1..]),
         h := s.h.(removed := s.h.removed + 1))
  }

  function AfterComplete(cfg: Config, s: World): World {
    var pc := if s.r.ordinal + 1 > cfg.rotations then Exited(true) else Poll;
    s.(r := s.r.Log(RetentionComplete, s.r.stat, pc).(ordinal := s.r.ordinal + 1))
  }

  function AfterDeliver(s: World, arrives: bool, answered: bool): World {
    if !arrives || s.os.queued then Failed(s)
    else
      s.(os := s.os.(queued := true), r := s.r.(pc := if answered then LogRequested else LogFailed),
         h := s.h.(accepted := s.h.accepted + 1))
  }

  function AfterCopyChunk(s: World, n: nat): World
    requires s.r.copied + n <= |s.os.Read(s.r.source)|
  {
    var chunk := s.os.Read(s.r.source)[s.r.copied..s.r.copied + n];
    s.(os := s.os.Append(s.r.target, chunk), r := s.r.(copied := s.r.copied + n))
  }

  /** The rotator's next step when nothing goes wrong outside the model; none where it waits or has ended. */
  function AfterAdvance(cfg: Config, s: World): Option<World> {
    match s.r.pc
    case Poll => Some(AfterPoll(cfg, s))
    case Stat =>
      Some(if Active in s.os.names then s.(r := s.r.(pc := LogThreshold, stat := |s.os.ReadPath(Active)|)) else Failed(s))
    case LogThreshold =>
      Some(s.(r := s.r.Log(Threshold, s.r.stat, if cfg.strategy.RenameReopen? then RenameActive else LogCopyStart)))
    case RenameActive => Some(AfterRename(s))
    case LogRename => Some(s.(r := s.r.Log(Renamed, s.r.stat, CreateReplacement)))
    case CreateReplacement =>
      Some(if Active in s.os.names then Failed(s) else s.(os := s.os.Create(Active), r := s.r.(pc := LogCreated)))
    case LogCreated => Some(s.(r := s.r.Log(ReplacementCreated, 0, Post)))
    case Post => None
    case LogRequested => Some(s.(r := s.r.Log(ReopenRequested, 0, List)))
    case LogCopyStart => Some(s.(r := s.r.Log(CopyStart, 0, OpenSource)))
    case OpenSource =>
      Some(if Active in s.os.names then s.(r := s.r.(pc := CreateBackup, source := s.os.names[Active])) else Failed(s))
    case CreateBackup => Some(AfterCreateBackup(s))
    case Copy =>
      if s.r.copied >= |s.os.Read(s.r.source)| then Some(s.(r := s.r.(pc := LogSynced), h := s.h.(window := [])))
      else None
    case LogSynced => Some(s.(r := s.r.Log(CopySynced, s.r.copied, TruncateActive)))
    case TruncateActive => Some(AfterTruncate(s))
    case LogTruncate => Some(s.(r := s.r.Log(Truncated, s.r.copied, List)))
    case List => Some(s.(r := s.r.(pc := Remove, victims := Victims(cfg, s.os))))
    case Remove => Some(AfterRemove(s))
    case LogComplete => Some(AfterComplete(cfg, s))
    case LogFailed => Some(s.(r := s.r.Log(RotationFailed, s.r.size, Exited(false))))
    case Exited(_) => None
  }

  /** An error from outside: cancellation while polling, otherwise any call or event append that fails. */
  function AfterFault(s: World): Option<World> {
    match s.r.pc
    case Poll => Some(s.(r := s.r.(pc := Exited(false))))
    case LogFailed => Some(s.(r := s.r.(pc := Exited(false))))
    case Exited(_) => None
    case _ => Some(Failed(s))
  }

  /* ---- runs ---- */

  function Next(cfg: Config, s: World, l: Label): Option<World> {
    match l
    case Open(ok) =>
      if !s.w.pc.Opening? then None else Some(if ok then AfterOpen(s) else AfterOpenFailure(s))
    case Generate(n) => if s.w.pc.Idle? then Some(AfterGenerate(cfg, s, n)) else None
    case BeginFlush => if s.w.pc.Idle? then Some(AfterFlushStart(s, Resume)) else None
    case Stop => if s.w.pc.Idle? then Some(AfterFlushStart(s, Finish)) else None
    case Write(n) => if WriteAllowed(cfg, s, n) then Some(AfterWrite(cfg, s, n)) else None
    case WriteError => if s.w.pc.Flushing? then Some(AfterWriteError(cfg, s)) else None
    case TakeReopen => if s.w.pc.Idle? && s.os.queued then Some(AfterTakeReopen(s)) else None
    case Advance => AfterAdvance(cfg, s)
    case CopyChunk(n) =>
      if s.r.pc.Copy? && 1 <= n && s.r.copied + n <= |s.os.Read(s.r.source)| then Some(AfterCopyChunk(s, n)) else None
    case Deliver(arrives, answered) =>
      if s.r.pc.Post? then Some(AfterDeliver(s, arrives, answered)) else None
    case Fault => AfterFault(s)
  }

  /** Where the labels lead, if each of them can be taken in turn. */
  function Exec(cfg: Config, s: World, labels: seq<Label>): Option<World> {
    if labels == [] then Some(s)
    else match Exec(cfg, s, labels[..|labels| - 1])
      case None => None
      case Some(m) => Next(cfg, m, labels[|labels| - 1])
  }

  lemma ExecAppend(cfg: Config, s: World, labels: seq<Label>, l: Label)
    ensures Exec(cfg, s, labels + [l])
         == match Exec(cfg, s, labels) case None => None case Some(m) => Next(cfg, m, l)
  {
    assert (labels + [l])[..|labels|] == labels;
  }
}
