/** The C++ writer (cpp/writer/main.cc): one record kept as a template and patched in place for every sequence number,
    and an event loop that, unlike the Go one, stops at the first failed write. */
module CppProgram {
  import opened Arithmetic
  import opened Bytes
  import opened Lab
  import opened RenameResults
  import opened WriterStream
  import opened WriterProgram
  import R = Record

  /* ---- the record template ---- */

  predicate InDigits(runID: seq<byte>, k: int) {
    |runID| + 1 <= k < |runID| + 21
  }

  /** The array holds a record of the run, whatever stands where the sequence number goes. */
  ghost predicate IsTemplate(record: array<byte>, runID: seq<byte>)
    reads record
  {
    && record.Length >= R.MinimumSize(runID)
    && forall k :: 0 <= k < record.Length && !InDigits(runID, k) ==> record[k] == R.Encoded(runID, 0, record.Length)[k]
  }

  lemma EncodedAt(runID: seq<byte>, sequence: nat, size: nat, k: nat)
    requires size >= R.MinimumSize(runID) && k < size
    ensures var b := R.Encoded(runID, sequence, size)[k];
      && (k < |runID| ==> b == runID[k])
      && (k == |runID| || k == |runID| + 21 ==> b == SPACE)
      && (InDigits(runID, k) ==> b == R.Digits(sequence, 20)[k - |runID| - 1])
      && (|runID| + 22 <= k < size - 1 ==> b == FILLER)
      && (k == size - 1 ==> b == NEWLINE)
  {
  }

  method BuildTemplate(runID: seq<byte>, recordBytes: nat) returns (record: array<byte>)
    requires recordBytes >= R.MinimumSize(runID)
    ensures fresh(record) && record.Length == recordBytes && IsTemplate(record, runID)
  {
    record := new byte[recordBytes](_ => FILLER);
    record[recordBytes - 1] := NEWLINE;
    for i := 0 to |runID|
      invariant forall k :: 0 <= k < i ==> record[k] == runID[k]
      invariant forall k :: |runID| <= k < recordBytes - 1 ==> record[k] == FILLER
      invariant record[recordBytes - 1] == NEWLINE
    {
      record[i] := runID[i];
    }
    record[|runID|] := SPACE;
    record[|runID| + 21] := SPACE;
    hide R.Encoded;
    forall k: nat | k < recordBytes && !InDigits(runID, k)
      ensures record[k] == R.Encoded(runID, 0, record.Length)[k]
    {
      EncodedAt(runID, 0, record.Length, k);
    }
  }

  /** Overwrites the twenty digits: the array then is exactly the encoding of that record. */
  method Patch(record: array<byte>, runID: seq<byte>, sequence: nat)
    requires IsTemplate(record, runID)
    modifies record
    ensures IsTemplate(record, runID) && record[..] == R.Encoded(runID, sequence, record.Length)
  {
    hide R.Encoded;
    var text := R.Digits(sequence, 20);
    for i := 0 to 20
      invariant IsTemplate(record, runID)
      invariant forall k :: 0 <= k < i ==> record[|runID| + 1 + k] == text[k]
    {
      record[|runID| + 1 + i] := text[i];
    }
    var size := record.Length;
    forall k: nat | k < size ensures record[k] == R.Encoded(runID, sequence, size)[k] {
      EncodedAt(runID, 0, size, k);
      EncodedAt(runID, sequence, size, k);
      if InDigits(runID, k) {
        assert record[|runID| + 1 + (k - |runID| - 1)] == text[k - |runID| - 1];
      }
    }
  }

  /** The patched template and the Go encoder write the same bytes for every sequence number, exactly when the run id is
      one the Go encoder accepts. */
  method PatchAgrees(record: array<byte>, runID: seq<byte>, sequence: nat)
    returns (encoded: Result<seq<byte>, R.EncodeError>)
    requires IsTemplate(record, runID)
    modifies record
    ensures IsTemplate(record, runID) && record[..] == R.Encoded(runID, sequence, record.Length)
    ensures encoded.Ok? && encoded.value == record[..] <==> R.LegalRunID(runID)
    ensures encoded.Err? ==> encoded.error == R.BadRunID
  {
    hide R.Encoded;
    Patch(record, runID, sequence);
    encoded := R.Encode(runID, sequence, record.Length);
  }

  /* ---- writing ---- */

  /** Writes the rest of the buffer out; an interrupted call is repeated, anything else that moves no byte is an error. */
  method WriteAll(w: Process, after: After) returns (ok: bool)
    requires w.buffer != [] && w.At(Flushing(0, after)) && w.cfg.implementation.CppWriter?
    modifies w`os, w`rotator, w`history, w`turns, w`trace, w`faults
    ensures ok ==> Runs(w.cfg, w.trace, w.Flushed(after))
    ensures !ok ==> exists n :: w.At(Stopped(false, n))
    ensures ok <==> w.faults == old(w.faults)
    ensures w.faults >= old(w.faults) && old(w.trace) <= w.trace
    ensures Quiet(old(w.turns)) ==> Quiet(w.turns) && ok
  {
    hide *;
    var offset: nat := 0;
    while offset < |w.buffer|
      invariant offset <= |w.buffer|
      invariant offset < |w.buffer| ==> w.At(Flushing(offset, after))
      invariant offset == |w.buffer| ==> Runs(w.cfg, w.trace, w.Flushed(after))
      invariant Quiet(old(w.turns)) ==> Quiet(w.turns)
      invariant w.faults == old(w.faults) && old(w.trace) <= w.trace
      decreases |w.turns|, |w.buffer| - offset
    {
      var count, failed, interrupted := w.WriteCall(offset, after);
      if count > 0 && !failed {
        offset := offset + count;
        continue;
      }
      if interrupted {
        continue;
      }
      w.FlushFailed(offset + count, after);
      return false;
    }
    return true;
  }

  method Flush(w: Process, after: After) returns (ok: bool)
    requires w.cfg.implementation.CppWriter? && w.cfg.recordBytes > 0
    requires w.buffer != [] ==> w.At(Flushing(0, after))
    modifies w`buffer, w`written, w`os, w`rotator, w`history, w`turns, w`trace, w`faults
    ensures old(w.buffer) == [] ==> ok && unchanged(w)
    ensures ok <==> w.faults == old(w.faults)
    ensures w.faults >= old(w.faults) && old(w.trace) <= w.trace
    ensures ok ==> w.buffer == [] && w.written == old(w.written) + |old(w.buffer)| / w.cfg.recordBytes
    ensures old(w.buffer) != [] && ok ==> w.At(if after.Resume? then Idle else Stopped(after.Finish?, 0))
    ensures !ok ==> exists n :: w.At(Stopped(false, n))
    ensures Quiet(old(w.turns)) ==> Quiet(w.turns) && ok
  {
    if w.buffer == [] {
      return true;
    }
    hide *;
    ok := WriteAll(w, after);
    if ok {
      w.Emptied(after);
    }
  }

  /* ---- the loop ---- */

  /** One round of the loop: the time since the last, and whether the flush interval is over. */
  datatype Round = Round(elapsed: nat, due: bool)

  function Elapsed(rounds: seq<Round>): nat {
    if rounds == [] then 0 else Elapsed(rounds[..|rounds| - 1]) + rounds[|rounds| - 1].elapsed
  }

  /** Appends one patched record to the buffer. */
  method GenerateOne(w: Process, record: array<byte>)
    requires w.At(Idle) && w.cfg.Encodable() && IsTemplate(record, w.cfg.runID) && record.Length == w.cfg.recordBytes
    modifies w`buffer, w`generated, w`trace, record
    ensures w.At(Idle) && IsTemplate(record, w.cfg.runID) && w.generated == old(w.generated) + 1
    ensures |w.buffer| == |old(w.buffer)| + w.cfg.recordBytes && old(w.trace) <= w.trace
  {
    ghost var s := w.State(Idle);
    w.generated := w.generated + 1;
    Patch(record, w.cfg.runID, w.generated);
    w.buffer := w.buffer + record[..];
    OneRecord(w.cfg, w.generated);
    hide Runs;
    RunsOn(w.cfg, w.trace, s, Label.Generate(1), w.State(Idle));
    w.trace := w.trace + [Label.Generate(1)];
  }

  /** The credit of a round in bytes, kept exactly. */
  function Credit(rate: int, ns: nat): real {
    (rate * ns) as real / NANOSECONDS as real
  }

  /** Turns credit into records. */
  method Generate(w: Process, record: array<byte>, credit: real) returns (left: real)
    requires w.At(Idle) && w.cfg.Encodable() && IsTemplate(record, w.cfg.runID) && record.Length == w.cfg.recordBytes
    requires credit >= 0.0
    modifies w`buffer, w`generated, w`trace, record
    ensures w.At(Idle) && IsTemplate(record, w.cfg.runID) && w.generated >= old(w.generated) && old(w.trace) <= w.trace
    ensures |w.buffer| == |old(w.buffer)| + (w.generated - old(w.generated)) * w.cfg.recordBytes
    ensures 0.0 <= left < w.cfg.recordBytes as real
    ensures (w.generated * w.cfg.recordBytes) as real + left
         == old((w.generated * w.cfg.recordBytes) as real) + credit
  {
    left := credit;
    ghost var start := w.generated;
    while left >= w.cfg.recordBytes as real
      invariant w.At(Idle) && IsTemplate(record, w.cfg.runID) && left >= 0.0
      invariant w.generated >= start && old(w.trace) <= w.trace
      invariant |w.buffer| == |old(w.buffer)| + (w.generated - start) * w.cfg.recordBytes
      invariant (w.generated * w.cfg.recordBytes) as real + left == (start * w.cfg.recordBytes) as real + credit
      decreases left.Floor
    {
      hide Runs, IsTemplate;
      MultipleMonotone(w.generated, w.generated + 1, w.cfg.recordBytes);
      MultipleMonotone(w.generated - start, w.generated + 1 - start, w.cfg.recordBytes);
      GenerateOne(w, record);
      left := left - w.cfg.recordBytes as real;
    }
  }

  lemma CreditAdds(rate: int, a: nat, b: nat)
    requires rate > 0
    ensures Credit(rate, a + b) == Credit(rate, a) + Credit(rate, b) && Credit(rate, b) >= 0.0 && Credit(rate, 0) == 0.0
  {
    assert rate * (a + b) == rate * a + rate * b;
    MultipleMonotone(0, b, rate);
  }

  /** Records generated and credit left over are exactly what the time so far has earned. */
  ghost predicate Paced(cfg: Config, generated: nat, credit: real, ns: nat) {
    0.0 <= credit < cfg.recordBytes as real && (generated * cfg.recordBytes) as real + credit == Credit(cfg.bytesPerSecond, ns)
  }

  /** The writer never runs ahead of the configured rate and never lags a whole record behind it. */
  lemma PacedExactly(cfg: Config, generated: nat, credit: real, ns: nat)
    requires Paced(cfg, generated, credit, ns)
    ensures var bytes, due := generated * cfg.recordBytes, cfg.bytesPerSecond * ns;
      bytes * 1_000_000_000 <= due < (bytes + cfg.recordBytes) * 1_000_000_000
  {
    var bytes, due := generated * cfg.recordBytes, cfg.bytesPerSecond * ns;
    assert due as real == (bytes as real + credit) * NANOSECONDS as real;
  }

  /** The reopen of the loop: the flag is cleared, the file closed and opened again, the buffer flushed. */
  method Reopened(w: Process) returns (ok: bool)
    requires w.At(Idle) && w.os.queued && w.cfg.implementation.CppWriter? && w.cfg.recordBytes > 0
    modifies w`buffer, w`written, w`file, w`reopenRequests, w`reopenFailures, w`os, w`rotator, w`history, w`turns, w`trace,
      w`faults
    ensures w.reopenRequests == old(w.reopenRequests) + 1 && old(w.trace) <= w.trace
    ensures ok ==> w.At(Idle) && w.buffer == []
    ensures w.faults >= old(w.faults) && (ok <==> w.faults == old(w.faults))
    ensures !ok ==> exists n :: w.At(Stopped(false, n))
    ensures Quiet(old(w.turns)) ==> Quiet(w.turns) && ok
  {
    hide *;
    w.TakeRequest();
    ok := w.OpenFile(true);
    if !ok {
      return;
    }
    ok := Flush(w, Resume);
  }

  method FlushNow(w: Process, after: After) returns (ok: bool)
    requires w.At(Idle) && w.cfg.implementation.CppWriter? && w.cfg.recordBytes > 0 && !after.Abort?
    modifies w`buffer, w`written, w`os, w`rotator, w`history, w`turns, w`trace, w`faults
    ensures ok ==> w.buffer == []
    ensures w.faults >= old(w.faults) && old(w.trace) <= w.trace && (ok <==> w.faults == old(w.faults))
    ensures ok ==> w.At(if after.Resume? then Idle else Stopped(true, 0))
    ensures !ok ==> exists n :: w.At(Stopped(false, n))
    ensures Quiet(old(w.turns)) ==> Quiet(w.turns) && ok
  {
    if w.buffer != [] || after.Finish? {
      hide Runs;
      ghost var l := if after.Resume? then BeginFlush else Stop;
      RunsOn(w.cfg, w.trace, w.State(Idle), l, w.State(if w.buffer == [] then Stopped(true, 0) else Flushing(0, after)));
      w.trace := w.trace + [l];
    }
    ok := Flush(w, after);
  }

  /** From s to t one round of the loop: a request in the slot is taken and the buffer written out; without one it is
      written out exactly when the new records fill it or the interval is over. */
  predicate RoundDone(cfg: Config, round: Round, s: World, t: World) {
    && t.w.reopenRequests == s.w.reopenRequests + (if s.os.queued then 1 else 0) && t.w.generated >= s.w.generated
    && var full := |s.w.buffer| + (t.w.generated - s.w.generated) * cfg.recordBytes >= cfg.bufferBytes;
       if s.os.queued || full || round.due then t.w.buffer == [] else t.w.written == s.w.written
  }

  /** One round: generate, then reopen if asked to, else flush if the buffer is full or the interval is over. */
  method Turnaround(w: Process, record: array<byte>, round: Round, byteCredit: real, ghost ns: nat)
    returns (ok: bool, left: real)
    requires w.At(Idle) && w.cfg.WriterStarts() && w.cfg.implementation.CppWriter?
    requires IsTemplate(record, w.cfg.runID) && record.Length == w.cfg.recordBytes
    requires Paced(w.cfg, w.generated, byteCredit, ns)
    modifies w, record
    ensures IsTemplate(record, w.cfg.runID)
    ensures ok ==> w.At(Idle) && Paced(w.cfg, w.generated, left, ns + round.elapsed)
    ensures ok ==> |w.buffer| < w.cfg.bufferBytes && (round.due ==> w.buffer == [])
    ensures ok ==> RoundDone(w.cfg, round, old(w.State(Idle)), w.State(Idle))
    ensures w.reopenRequests == old(w.reopenRequests) + if old(w.os.queued) then 1 else 0
    ensures w.faults >= old(w.faults) && old(w.trace) <= w.trace && (ok <==> w.faults == old(w.faults))
    ensures !ok ==> exists n :: w.At(Stopped(false, n))
    ensures Quiet(old(w.turns)) ==> Quiet(w.turns) && ok
  {
    CreditAdds(w.cfg.bytesPerSecond, ns, round.elapsed);
    hide Runs, IsTemplate, Credit;
    left := Generate(w, record, byteCredit + Credit(w.cfg.bytesPerSecond, round.elapsed));
    ok := true;
    if w.os.queued {
      ok := Reopened(w);
    } else if |w.buffer| >= w.cfg.bufferBytes || round.due {
      ok := FlushNow(w, Resume);
    }
  }

  /** Every round looks for a request. */
  predicate AsksAlways(round: Round) {
    true
  }

  /** The program stands between two rounds, with the first i of them done. */
  ghost predicate Between(w: Process, record: array<byte>, rounds: seq<Round>, i: nat, credit: real, cuts: seq<nat>,
                          ends: seq<nat>)
    reads w, record
  {
    && w.At(Idle) && IsTemplate(record, w.cfg.runID) && record.Length == w.cfg.recordBytes && i <= |rounds|
    && Paced(w.cfg, w.generated, credit, Elapsed(rounds[..i]))
    && |w.buffer| < w.cfg.bufferBytes && (i > 0 && rounds[i - 1].due ==> w.buffer == [])
    && Handled(w.cfg, w.trace, rounds, i, cuts, ends, w.reopenRequests, RoundDone, AsksAlways)
  }

  /** Lets the rotator take its steps, then does the round. */
  method Serve(w: Process, record: array<byte>, rounds: seq<Round>, i: nat, byteCredit: real, ghost cuts: seq<nat>,
               ghost ends: seq<nat>)
    returns (ok: bool, left: real, ghost cuts': seq<nat>, ghost ends': seq<nat>)
    requires w.cfg.WriterStarts() && w.cfg.implementation.CppWriter?
    requires Between(w, record, rounds, i, byteCredit, cuts, ends) && i < |rounds|
    modifies w, record
    ensures ok ==> Between(w, record, rounds, i + 1, left, cuts', ends')
    ensures w.faults >= old(w.faults) && (ok <==> w.faults == old(w.faults))
    ensures !ok ==> exists n :: w.At(Stopped(false, n))
    ensures Quiet(old(w.turns)) ==> Quiet(w.turns) && ok
  {
    hide Runs, Handled, RoundDone, Paced, PeersOnly, Quiet, Now, IsTemplate, Elapsed;
    ElapsedPush(rounds, i);
    ghost var before := w.trace;
    var _ := w.Others(Idle);
    ghost var mid, s := w.trace, w.State(Idle);
    ok, left := Turnaround(w, record, rounds[i], byteCredit, Elapsed(rounds[..i]));
    cuts', ends' := cuts + [|mid|], ends + [|w.trace|];
    if ok {
      HandledMore(w.cfg, rounds, cuts, ends, i, before, mid, s, w.trace, w.State(Idle), RoundDone, AsksAlways);
    }
  }

  /** The event loop: goes through the rounds and stops after the last. */
  method Run(w: Process, rounds: seq<Round>)
    returns (ok: bool, ghost credit: real, ghost cuts: seq<nat>, ghost ends: seq<nat>)
    requires w.At(Opening(false)) && w.cfg.WriterStarts() && w.cfg.implementation.CppWriter?
    requires w.generated == 0 && w.buffer == [] && w.reopenRequests == 0 && w.faults == 0
    modifies w
    ensures ok ==> w.At(Stopped(true, 0)) && Paced(w.cfg, w.generated, credit, Elapsed(rounds))
    ensures ok ==> w.written == w.generated && w.history.out == Stream(w.cfg, 0, w.generated)
    ensures ok && w.cfg.strategy.RenameReopen? && w.cfg.maxBackups <= 0 ==> LogBytes(w.os) == Stream(w.cfg, 0, w.generated)
    ensures ok ==>
      && Served(w.cfg, w.trace, rounds, cuts, ends, RoundDone)
      && w.reopenRequests == Found(w.cfg, w.trace, rounds, cuts, AsksAlways)
    ensures !ok ==> exists n :: w.At(Stopped(false, n))
    ensures ok <==> w.faults == 0
    ensures Quiet(old(w.turns)) ==> ok
  {
    StartsPositive(w.cfg);
    hide *;
    credit, cuts, ends := 0.0, [], [];
    ok := w.OpenFile(false);
    if !ok {
      return;
    }
    ok, credit, cuts, ends := Loop(w, rounds);
    if !ok {
      return;
    }
    ghost var before := w.trace;
    ok := FlushNow(w, After.Finish);
    if ok {
      AllHandled(w.cfg, rounds, cuts, ends, before, w.trace, w.reopenRequests, RoundDone, AsksAlways);
      w.AllDelivered();
    }
  }

  method Loop(w: Process, rounds: seq<Round>)
    returns (ok: bool, ghost credit: real, ghost cuts: seq<nat>, ghost ends: seq<nat>)
    requires w.At(Idle) && w.cfg.WriterStarts() && w.cfg.implementation.CppWriter?
    requires w.generated == 0 && w.buffer == [] && w.reopenRequests == 0 && w.faults == 0
    modifies w
    ensures ok ==> w.At(Idle) && Paced(w.cfg, w.generated, credit, Elapsed(rounds))
    ensures ok ==> |w.buffer| < w.cfg.bufferBytes && (rounds != [] && rounds[|rounds| - 1].due ==> w.buffer == [])
    ensures ok ==>
      Handled(w.cfg, w.trace, rounds, |rounds|, cuts, ends, w.reopenRequests, RoundDone, AsksAlways)
    ensures !ok ==> exists n :: w.At(Stopped(false, n))
    ensures ok <==> w.faults == 0
    ensures Quiet(old(w.turns)) ==> Quiet(w.turns) && ok
  {
    hide *;
    credit, cuts, ends := 0.0, [], [];
    var record := Begin(w, rounds);
    var byteCredit := 0.0;
    for i := 0 to |rounds|
      invariant fresh(record) && Between(w, record, rounds, i, byteCredit, cuts, ends)
      invariant w.faults == 0 && (Quiet(old(w.turns)) ==> Quiet(w.turns))
    {
      ok, byteCredit, cuts, ends := Serve(w, record, rounds, i, byteCredit, cuts, ends);
      if !ok {
        return;
      }
    }
    credit := byteCredit;
    ok := true;
    AllDone(w, record, rounds, credit, cuts, ends);
  }

  method Begin(w: Process, rounds: seq<Round>) returns (record: array<byte>)
    requires w.At(Idle) && w.cfg.WriterStarts() && w.cfg.implementation.CppWriter?
    requires w.generated == 0 && w.buffer == [] && w.reopenRequests == 0
    ensures fresh(record) && Between(w, record, rounds, 0, 0.0, [], [])
  {
    hide Runs, Handled, IsTemplate, Paced, Elapsed;
    NothingDue(w.cfg, rounds);
    record := BuildTemplate(w.cfg.runID, w.cfg.recordBytes);
    NothingHandled(w.cfg, w.trace, rounds, RoundDone, AsksAlways);
  }

  lemma AllDone(w: Process, record: array<byte>, rounds: seq<Round>, credit: real, cuts: seq<nat>, ends: seq<nat>)
    requires Between(w, record, rounds, |rounds|, credit, cuts, ends)
    ensures w.At(Idle) && Paced(w.cfg, w.generated, credit, Elapsed(rounds))
    ensures |w.buffer| < w.cfg.bufferBytes && (rounds != [] && rounds[|rounds| - 1].due ==> w.buffer == [])
    ensures Handled(w.cfg, w.trace, rounds, |rounds|, cuts, ends, w.reopenRequests, RoundDone, AsksAlways)
  {
    hide Runs, Handled, Paced, Elapsed;
    assert rounds[..|rounds|] == rounds;
  }

  lemma NothingDue(cfg: Config, rounds: seq<Round>)
    requires cfg.WriterStarts() && cfg.implementation.CppWriter?
    ensures Paced(cfg, 0, 0.0, Elapsed(rounds[..0])) && cfg.Encodable() && cfg.bufferBytes > 0
    ensures cfg.runID != [] && cfg.recordBytes >= R.MinimumSize(cfg.runID)
  {
    CreditAdds(cfg.bytesPerSecond, 0, 0);
  }

  lemma ElapsedPush(rounds: seq<Round>, i: nat)
    requires i < |rounds|
    ensures Elapsed(rounds[..i + 1]) == Elapsed(rounds[..i]) + rounds[i].elapsed
  {
    assert rounds[..i + 1][..i] == rounds[..i];
  }
}
