/** How a finished run is judged: the harness's rule (internal/harness/run.go) and the sweep's (internal/sweep/docker.go). */
module Acceptance {
  import opened Bytes
  import opened Lab
  import opened Integrity
  import opened Sweep

  /** Every figure that counts against a run is zero. */
  predicate Clean(r: Report) {
    r.missing == 0 && r.duplicates == 0 && r.malformed == 0 && r.wrongRunID == 0 && r.descendingTransitions == 0
  }

  /** Which parts of the end of a run went well, the analysis apart. */
  datatype Finish = Finish(
    rotator: bool, writer: bool, monitor: bool, stateRead: bool, reportWritten: bool, eventsRead: bool,
    samplesRead: bool, summaryWritten: bool)
  {
    predicate Around() {
      monitor && stateRead && reportWritten && eventsRead && samplesRead && summaryWritten
    }
  }

  datatype RunError =
    | RotatorFailed | WriterFailed | MonitorFailed | StateUnreadable | AnalysisFailed(cause: AnalyzeError)
    | ReportUnwritten | EventsUnreadable | SamplesUnreadable | SummaryUnwritten

  datatype Summary = Summary(report: Report, reopenFailures: nat, success: bool)

  /** The harness's rule: no reopen failed, and under rename-reopen nothing is missing, repeated or malformed. */
  predicate Succeeds(strategy: Strategy, s: Summary) {
    && s.reopenFailures == 0
    && (strategy.RenameReopen? ==> s.report.missing == 0 && s.report.duplicates == 0 && s.report.malformed == 0)
  }

  /** The end of the harness's Run: the processes must have ended well and the files around the run be readable; the
      log files are analyzed and judged.  The judgement does not look at foreign records or descending transitions. */
  method Conclude(strategy: Strategy, runID: seq<byte>, finish: Finish,
                  generated: nat, reopenFailures: nat, sources: seq<Source>)
    returns (r: Result<Summary, RunError>)
    requires generated < MAX_UINT64
    ensures r.Ok? <==> finish.rotator && finish.writer && finish.Around() && AllReadable(sources, |sources|)
    ensures r == Err(RotatorFailed) <==> !finish.rotator
    ensures r == Err(WriterFailed) <==> finish.rotator && !finish.writer
    ensures r == Err(MonitorFailed) <==> finish.rotator && finish.writer && !finish.monitor
    ensures r.Err? && r.error.AnalysisFailed? <==>
      finish.rotator && finish.writer && finish.monitor && finish.stateRead && !AllReadable(sources, |sources|)
    ensures r.Ok? ==>
      var report := ReportOf(generated, Total(runID, sources), FileSets(runID, sources));
      && r.value.report == report && r.value.reopenFailures == reopenFailures
      && (r.value.success <==>
            && reopenFailures == 0
            && (strategy.RenameReopen? ==> report.missing == 0 && report.duplicates == 0 && report.malformed == 0))
  {
    if !finish.rotator {
      return Err(RotatorFailed);
    }
    if !finish.writer {
      return Err(WriterFailed);
    }
    if !finish.monitor {
      return Err(MonitorFailed);
    }
    if !finish.stateRead {
      return Err(StateUnreadable);
    }
    hide ReportOf, Total, FileSets, AllReadable;
    var analysis := Analyze(runID, generated, sources);
    if analysis.Err? {
      return Err(AnalysisFailed(analysis.error));
    }
    var report := analysis.value;
    if !finish.reportWritten {
      return Err(ReportUnwritten);
    }
    if !finish.eventsRead {
      return Err(EventsUnreadable);
    }
    if !finish.samplesRead {
      return Err(SamplesUnreadable);
    }
    var success := reopenFailures == 0;
    if strategy.RenameReopen? {
      success := success && report.missing == 0 && report.duplicates == 0 && report.malformed == 0;
    }
    if !finish.summaryWritten {
      return Err(SummaryUnwritten);
    }
    return Ok(Summary(report, reopenFailures, success));
  }

  const SCHEMA_VERSION := 1

  /** The sweep's verdict on an attempt that left a summary behind. */
  method ClassifySummary(strategy: Strategy, attempt: Attempt, schema: int, integritySchema: int, summary: Summary)
    returns (a: Attempt)
    ensures a.passed <==>
      && schema == 1 && integritySchema == 1 && summary.reopenFailures == 0
      && (strategy.CopyTruncate? || Clean(summary.report))
    ensures a.functionalPassed <==>
      schema == 1 && integritySchema == 1 && summary.reopenFailures == 0
    ensures a.integrityPassed <==>
      var r := summary.report;
      r.missing == 0 && r.duplicates == 0 && r.malformed == 0 && r.wrongRunID == 0 && r.descendingTransitions == 0
    ensures a.passed ==> a.kind == attempt.kind
    ensures !a.passed ==> a.kind == if a.functionalPassed then IntegrityFailure else FunctionalFailure
    ensures a.limit == attempt.limit && a.repetition == attempt.repetition && a.exitCode == attempt.exitCode
  {
    a := attempt.(functionalPassed :=
      schema == SCHEMA_VERSION && integritySchema == SCHEMA_VERSION && summary.reopenFailures == 0);
    a := a.(integrityPassed :=
      && summary.report.missing == 0 && summary.report.duplicates == 0 && summary.report.malformed == 0
      && summary.report.wrongRunID == 0 && summary.report.descendingTransitions == 0);
    a := a.(passed := a.functionalPassed && (strategy.CopyTruncate? || a.integrityPassed));
    if !a.functionalPassed {
      a := a.(kind := FunctionalFailure);
    } else if !a.passed {
      a := a.(kind := IntegrityFailure);
    }
  }

  const KILLED := 137

  /** The sweep's verdict on an attempt whose container failed; running out of memory outranks running out of time. */
  method ClassifyProcessFailure(attempt: Attempt, exitCode: int, timedOut: bool, oomKilled: bool) returns (a: Attempt)
    ensures a.oom <==> oomKilled || exitCode == 137
    ensures a.kind.OomFailure? <==> oomKilled || exitCode == 137
    ensures a.kind.TimeoutFailure? <==> timedOut && !a.oom
    ensures a.kind.OomFailure? || a.kind.TimeoutFailure? || a.kind.FunctionalFailure?
    ensures a.exitCode == exitCode && a.timedOut == timedOut
    ensures a.passed == attempt.passed && a.limit == attempt.limit && a.repetition == attempt.repetition
  {
    a := attempt.(exitCode := exitCode, timedOut := timedOut, oom := oomKilled || exitCode == KILLED);
    if a.oom {
      a := a.(kind := OomFailure);
    } else if timedOut {
      a := a.(kind := TimeoutFailure);
    } else {
      a := a.(kind := FunctionalFailure);
    }
  }

  /** The sweep's attempt around a run.  A run that ended with an error or without success left its container with exit
      code 1; only after a successful one is the summary judged. */
  method ClassifyRun(strategy: Strategy, request: Attempt, run: Result<Summary, RunError>) returns (a: Attempt)
    requires !request.passed && request.kind == NoFailure
    requires run.Ok? ==> (run.value.success <==> Succeeds(strategy, run.value))
    ensures a.limit == request.limit && a.repetition == request.repetition
    ensures a.passed <==> run.Ok? && run.value.success && (strategy.CopyTruncate? || Clean(run.value.report))
    ensures a.kind == NoFailure <==> a.passed
    ensures a.kind == FunctionalFailure <==> !(run.Ok? && run.value.success)
    ensures a.kind == IntegrityFailure <==> run.Ok? && run.value.success && !a.passed
    ensures strategy.RenameReopen? && a.kind == IntegrityFailure ==>
      run.value.report.wrongRunID > 0 || run.value.report.descendingTransitions > 0
    ensures a.exitCode == if run.Ok? && run.value.success then 0 else 1
  {
    if run.Ok? && run.value.success {
      var succeeded := request.(exitCode := 0);
      a := ClassifySummary(strategy, succeeded, SCHEMA_VERSION, SCHEMA_VERSION, run.value);
    } else {
      a := ClassifyProcessFailure(request, 1, false, false);
    }
  }

  /** Polls the writer's state until it has taken want reopen requests; a poll without an answer counts for nothing. */
  method WaitReopens(polls: seq<Option<nat>>, want: nat) returns (ok: bool)
    ensures ok <==> exists i :: 0 <= i < |polls| && polls[i].Some? && polls[i].value >= want
  {
    var i := 0;
    while i < |polls|
      invariant 0 <= i <= |polls|
      invariant forall j :: 0 <= j < i ==> polls[j].Some? ==> polls[j].value < want
    {
      if polls[i].Some? && polls[i].value >= want {
        return true;
      }
      i := i + 1;
    }
    return false;
  }
}
