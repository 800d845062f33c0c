/** What the counters of a run count, and which file the writer has open. */
module Ledger {
  import opened Bytes
  import opened Lab
  import opened WriterStream

  /* ---- the writer's descriptor ---- */

  /** The file was last opened by label k. */
  ghost predicate LastOpen(labels: seq<Label>, k: nat) {
    k < |labels| && labels[k] == Open(true) && forall j :: k < j < |labels| ==> labels[j] != Open(true)
  }

  lemma LastOpenStays(labels: seq<Label>, k: nat)
    requires labels != [] && LastOpen(labels[..|labels| - 1], k) && labels[|labels| - 1] != Open(true)
    ensures LastOpen(labels, k) && k < |labels| - 1 && labels[..|labels| - 1][..k + 1] == labels[..k + 1]
  {
    var front := labels[..|labels| - 1];
    assert forall j :: 0 <= j < |front| ==> front[j] == labels[j];
  }

  /** The descriptor is the inode that was active when the file was last opened. */
  lemma {:induction false} DescriptorIs(cfg: Config, labels: seq<Label>, s: World) returns (k: nat)
    requires Exec(cfg, Init(cfg), labels) == Some(s) && Open(true) in labels
    ensures LastOpen(labels, k)
    ensures Exec(cfg, Init(cfg), labels[..k + 1]).Some?
    ensures var t := Exec(cfg, Init(cfg), labels[..k + 1]).value;
      Active in t.os.names && t.os.names[Active] == s.w.file
  {
    var n := |labels| - 1;
    var front, l := labels[..n], labels[n];
    var m := Exec(cfg, Init(cfg), front).value;
    assert Exec(cfg, Init(cfg), front) == Some(m) && Next(cfg, m, l) == Some(s);
    hide *;
    if l == Open(true) {
      k := n;
      assert labels[..n + 1] == labels;
      OpenedLast(labels);
      OpensActive(cfg, m);
    } else {
      OneOf(labels, Open(true));
      k := DescriptorIs(cfg, front, m);
      LastOpenStays(labels, k);
      SameFile(cfg, m, l);
    }
  }

  lemma OpenedLast(labels: seq<Label>)
    requires labels != [] && labels[|labels| - 1] == Open(true)
    ensures LastOpen(labels, |labels| - 1)
  {
  }

  lemma OneOf(labels: seq<Label>, l: Label)
    requires l in labels && labels[|labels| - 1] != l
    ensures l in labels[..|labels| - 1]
  {
    var i :| 0 <= i < |labels| && labels[i] == l;
    assert labels[..|labels| - 1][i] == l;
  }

  lemma OpensActive(cfg: Config, s: World)
    requires Next(cfg, s, Open(true)).Some?
    ensures var t := Next(cfg, s, Open(true)).value; Active in t.os.names && t.os.names[Active] == t.w.file
  {
  }

  lemma SameFile(cfg: Config, s: World, l: Label)
    requires Next(cfg, s, l).Some? && l != Open(true)
    ensures Next(cfg, s, l).value.w.file == s.w.file
  {
    hide Stream, RecordsIn, Victims;
  }

  /* ---- the writer's counters ---- */

  /** How many labels of the run are steps of the given kind. */
  ghost function CountSteps(cfg: Config, labels: seq<Label>, counts: (World, Label) -> bool): nat {
    if labels == [] then 0
    else
      var n := |labels| - 1;
      var m := Exec(cfg, Init(cfg), labels[..n]);
      CountSteps(cfg, labels[..n], counts) + if m.Some? && counts(m.value, labels[n]) then 1 else 0
  }

  predicate ReopenFails(s: World, l: Label) {
    l == Open(false) && s.w.pc == Opening(true)
  }

  predicate RequestTaken(s: World, l: Label) {
    l.TakeReopen?
  }

  /** ReopenRequests counts the requests taken, ReopenFailures the reopens that failed: at most one, the end of the run. */
  lemma {:induction false} CountersCount(cfg: Config, labels: seq<Label>, s: World)
    requires Exec(cfg, Init(cfg), labels) == Some(s)
    ensures s.w.reopenRequests == CountSteps(cfg, labels, RequestTaken)
    ensures s.w.reopenFailures == CountSteps(cfg, labels, ReopenFails) <= 1
    ensures s.w.reopenFailures > 0 ==> s.w.pc == Stopped(false, 0)
  {
    if labels != [] {
      var n := |labels| - 1;
      var m := Exec(cfg, Init(cfg), labels[..n]).value;
      CountersCount(cfg, labels[..n], m);
      hide Exec;
      CountersStep(cfg, m, labels[n]);
    }
  }

  lemma CountersStep(cfg: Config, s: World, l: Label)
    requires Next(cfg, s, l).Some?
    ensures var t := Next(cfg, s, l).value;
      && t.w.reopenRequests == s.w.reopenRequests + (if RequestTaken(s, l) then 1 else 0)
      && t.w.reopenFailures == s.w.reopenFailures + (if ReopenFails(s, l) then 1 else 0)
      && (ReopenFails(s, l) ==> t.w.pc == Stopped(false, 0) && s.w.pc.Opening?)
      && (s.w.pc == Stopped(false, 0) ==> t.w.pc == s.w.pc)
  {
    hide Stream, RecordsIn;
    if RotatorLabel(l) {
      RotatorLeavesWriter(cfg, s, l);
    } else {
      hide AfterAdvance;
    }
  }

  /* ---- the rotator's requests ---- */

  predicate Requested(s: World, l: Label) {
    l == Deliver(true, true) && !s.os.queued
  }

  function Logged(events: seq<Event>, phase: Phase): nat {
    if events == [] then 0
    else Logged(events[..|events| - 1], phase) + if events[|events| - 1].phase == phase then 1 else 0
  }

  lemma LoggedPush(events: seq<Event>, e: Event, phase: Phase)
    ensures Logged(events + [e], phase) == Logged(events, phase) + if e.phase == phase then 1 else 0
  {
    assert (events + [e])[..|events|] == events;
  }

  /** A reopen-requested event is logged only for a request that filled the slot and whose answer came back. */
  lemma {:induction false} RequestsAnswered(cfg: Config, labels: seq<Label>, s: World)
    requires Exec(cfg, Init(cfg), labels) == Some(s)
    ensures Logged(s.r.events, ReopenRequested) + (if s.r.pc.LogRequested? then 1 else 0)
         <= CountSteps(cfg, labels, Requested)
  {
    if labels != [] {
      var n := |labels| - 1;
      var m := Exec(cfg, Init(cfg), labels[..n]).value;
      RequestsAnswered(cfg, labels[..n], m);
      hide Exec, Logged;
      RequestsStep(cfg, m, labels[n]);
    }
  }

  lemma RequestsStep(cfg: Config, s: World, l: Label)
    requires Next(cfg, s, l).Some?
    ensures var t := Next(cfg, s, l).value;
      Logged(t.r.events, ReopenRequested) + (if t.r.pc.LogRequested? then 1 else 0)
      <= Logged(s.r.events, ReopenRequested) + (if s.r.pc.LogRequested? then 1 else 0)
         + (if Requested(s, l) then 1 else 0)
  {
    hide Logged, Stream;
    if l.Advance? {
      RequestsAdvance(cfg, s);
    }
    hide AfterAdvance;
  }

  lemma RequestsAdvance(cfg: Config, s: World)
    requires AfterAdvance(cfg, s).Some?
    ensures var t := AfterAdvance(cfg, s).value;
      Logged(t.r.events, ReopenRequested) + (if t.r.pc.LogRequested? then 1 else 0)
      <= Logged(s.r.events, ReopenRequested) + (if s.r.pc.LogRequested? then 1 else 0)
  {
    hide Logged, Victims, Os.Rename, Os.Create, Os.Truncate, Os.Unlink;
    var t := AfterAdvance(cfg, s).value;
    if t.r.events != s.r.events {
      LoggedPush(s.r.events, t.r.events[|s.r.events|], ReopenRequested);
    }
  }
}
