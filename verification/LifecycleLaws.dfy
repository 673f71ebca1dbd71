/**
 What the worker guarantees over whole runs of events that may be lost,
 duplicated, reordered or half-answered.
 */
module LifecycleLaws {
  import opened Common
  import opened Storage
  import opened StorageLaws
  import opened StateMachine
  import opened Worker

  // ----- the effect of one happening on one record -----

  datatype Effect = Unaffected | Born(initial: Status, at: Time) | StatusSet(status: Status, at: Time)

  function EffectOn(table: Table, w: World, h: Happening, id: string): Effect {
    if !h.Arrives? || h.msg.id != id || !Complete(h.msg) || h.msg.LogMsg? || h.fault in {ReadFails, WriteFails} then Unaffected
    else if h.msg.SubmittedMsg? then Born(if h.msg.status.Some? then h.msg.status.value else Queued, h.now)
    else if id in w.store.evals && ValidateTransition(table, w.store.evals[id].status, Target(h.msg)) == Accept
    then StatusSet(Target(h.msg), h.now)
    else Unaffected
  }

  predicate Same(p: Mem, p': Mem, id: string) {
    && (id in p.evals <==> id in p'.evals)
    && (id in p.events <==> id in p'.events)
    && EventsOf(p, id) == EventsOf(p', id)
    && (id in p.evals ==> p.evals[id].(output := None, extra := map[]) == p'.evals[id].(output := None, extra := map[]))
  }

  predicate Shows(p: Mem, p': Mem, id: string, effect: Effect) {
    match effect
    case Unaffected => Same(p, p', id)
    case Born(initial, at) =>
      && id in p'.evals && p'.evals[id].status == initial && p'.evals[id].completedAt == None
      && id in p'.events && p'.events[id] == [Event("submitted", at, None)]
    case StatusSet(status, at) =>
      && id in p.evals && id in p'.evals && id in p'.events
      && p'.events[id] == EventsOf(p, id) + [Event(STATUS_CHANGED, at, Some(status))]
      && p'.evals[id].status == status
      && p'.evals[id].completedAt == if Ends(status) then Some(at) else p.evals[id].completedAt
  }

  lemma SendShows(w: World, id: string, batch: seq<LogEntry>, accepted: bool, now: Time, other: string)
    requires batch != []
    ensures Same(w.store, Send(w, id, batch, accepted, now).store, other)
  {
    hide Combined;
  }

  lemma FlushShows(w: World, id: string, accepted: bool, now: Time, other: string)
    ensures Same(w.store, Flush(w, id, accepted, now).store, other)
  {
    hide Same, Send;
    SameItself(w.store, other);
    if BufferOf(w.logs, id) != [] {
      SendShows(w.(logs := Emptied(w.logs, id)), id, BufferOf(w.logs, id), accepted, now, other);
    }
  }

  lemma EndShows(w: World, id: string, accepted: bool, now: Time, other: string)
    ensures Same(w.store, EndRequest(w, id, accepted, now).store, other)
  {
    hide Same, Send;
    SameItself(w.store, other);
    if FlightOf(w.logs, id) != [] {
      SendShows(w.(logs := w.logs.(flight := w.logs.flight - {id})), id, w.logs.flight[id], accepted, now, other);
    }
  }

  lemma SameTwice(p: Mem, p1: Mem, p2: Mem, id: string)
    requires Same(p, p1, id) && Same(p1, p2, id)
    ensures Same(p, p2, id)
  {
  }

  lemma CloseShows(w: World, id: string, answers: Answers, now: Time, other: string)
    ensures Same(w.store, CloseLogs(w, id, answers, now).store, other)
  {
    hide Same, Flush, EndRequest, CancelTimer, Swaps;
    var w0 := if answers.timed.EndsFirst? then EndRequest(w, id, answers.timed.ok, now) else w;
    var w1 := Flush(w0, id, answers.accepted, now);
    SameItself(w.store, other);
    if answers.timed.EndsFirst? { EndShows(w, id, answers.timed.ok, now, other); }
    FlushShows(w0, id, answers.accepted, now, other);
    SameTwice(w.store, w0.store, w1.store, other);
    if answers.timed.EndsLast? {
      EndShows(w1, id, answers.timed.ok, now, other);
      SameTwice(w.store, w1.store, EndRequest(w1, id, answers.timed.ok, now).store, other);
    }
  }

  lemma UpdateShows(table: Table, p: Mem, id: string, status: Status, fields: Request, fault: Fault, now: Time, other: string)
    requires status != TimedOut
    ensures Shows(p, ValidateAndUpdate(table, p, id, status, fields, fault, now).0, other,
              if other == id && fault !in {ReadFails, WriteFails} && id in p.evals
                 && ValidateTransition(table, p.evals[id].status, status) == Accept
              then StatusSet(status, now) else Unaffected)
  {
  }

  lemma BirthShows(table: Table, w: World, h: Happening, id: string)
    requires h.Arrives? && h.msg.SubmittedMsg? && Complete(h.msg)
    ensures Shows(w.store, NextWorld(table, w, h).store, id, EffectOn(table, w, h, id))
  {
  }

  lemma SameItself(p: Mem, id: string)
    ensures Same(p, p, id)
  {
  }

  lemma LogShows(table: Table, w: World, h: Happening, id: string)
    requires !h.Arrives? || h.msg.LogMsg? || !Complete(h.msg)
    ensures Shows(w.store, NextWorld(table, w, h).store, id, Unaffected)
  {
    hide Same, Flush, EndRequest;
    SameItself(w.store, id);
    match h {
      case Arrives(msg, fault, answers, now) =>
        if Complete(msg) {
          FlushShows(w.(logs := CancelTimer(Buffered(w.logs, msg.id, msg.entry), msg.id)), msg.id, answers.accepted, now, id);
        }
      case RequestEnds(at, accepted, now) => EndShows(w, at, accepted, now, id);
      case _ =>
    }
  }

  lemma SameAfter(p: Mem, p1: Mem, p2: Mem, id: string, effect: Effect)
    requires Shows(p, p1, id, effect) && Same(p1, p2, id)
    ensures Shows(p, p2, id, effect)
  {
  }

  lemma StatusShows(table: Table, w: World, h: Happening, id: string)
    requires h.Arrives? && !h.msg.SubmittedMsg? && !h.msg.LogMsg? && Complete(h.msg)
    ensures Shows(w.store, NextWorld(table, w, h).store, id, EffectOn(table, w, h, id))
  {
    hide Shows, Same, ValidateTransition, Amend, CloseLogs;
    var msg := h.msg;
    var (p1, ok) := ValidateAndUpdate(table, w.store, msg.id, Target(msg), Fields(msg), h.fault, h.now);
    UpdateShows(table, w.store, msg.id, Target(msg), Fields(msg), h.fault, h.now, id);
    assert Shows(w.store, p1, id, EffectOn(table, w, h, id));
    var w1 := Unindexed(w.(store := p1), msg.id);
    CloseShows(w1, msg.id, h.answers, h.now, id);
    SameAfter(w.store, p1, CloseLogs(w1, msg.id, h.answers, h.now).store, id, EffectOn(table, w, h, id));
  }

  lemma EffectIsShown(table: Table, w: World, h: Happening, id: string)
    ensures Shows(w.store, NextWorld(table, w, h).store, id, EffectOn(table, w, h, id))
  {
    hide Shows, NextWorld;
    if !h.Arrives? || h.msg.LogMsg? || !Complete(h.msg) {
      LogShows(table, w, h, id);
    } else if h.msg.SubmittedMsg? {
      BirthShows(table, w, h, id);
    } else {
      StatusShows(table, w, h, id);
    }
  }

  // ----- every status change is an edge -----

  /** No id is submitted twice. */
  predicate FirstSubmission(w: World, h: Happening) {
    h.Arrives? && h.msg.SubmittedMsg? ==> h.msg.id !in w.store.evals
  }

  predicate SubmitsOnce(table: Table, w: World, run: seq<Happening>)
    decreases |run|
  {
    run != [] ==> FirstSubmission(w, run[0]) && SubmitsOnce(table, NextWorld(table, w, run[0]), run[1..])
  }

  /** The log is a walk in the table: each recorded status is the previous one or an edge away. */
  predicate Walk(table: Table, initial: Status, log: seq<Event>) {
    log != [] ==>
      var e, before := log[|log| - 1], log[..|log| - 1];
      Walk(table, initial, before)
      && (e.kind == STATUS_CHANGED && e.newStatus.Some? ==>
            var from := Replay(initial, before);
            from == e.newStatus.value || Edge(table, from, e.newStatus.value))
  }

  predicate HistoryOk(table: Table, p: Mem, id: string, initial: Status) {
    id in p.evals && id in p.events
    && Walk(table, initial, p.events[id]) && Replay(initial, p.events[id]) == p.evals[id].status
  }

  lemma HistoryStep(table: Table, w: World, h: Happening, id: string, initial: Status)
    requires HistoryOk(table, w.store, id, initial) && FirstSubmission(w, h)
    ensures HistoryOk(table, NextWorld(table, w, h).store, id, initial)
  {
    hide NextWorld, HistoryOk, Shows, ValidateTransition, Edge;
    EffectIsShown(table, w, h, id);
    if EffectOn(table, w, h, id).StatusSet? {
      ValidMeansEdgeOrStay(table, w.store.evals[id].status, Target(h.msg));
      HistoryExtends(table, w.store, NextWorld(table, w, h).store, id, initial, Target(h.msg), h.now);
    } else {
      KnownHistory(table, w.store, id, initial);
      HistoryStays(table, w.store, NextWorld(table, w, h).store, id, initial);
    }
  }

  lemma KnownHistory(table: Table, p: Mem, id: string, initial: Status)
    requires HistoryOk(table, p, id, initial)
    ensures id in p.evals
  {
  }

  lemma HistoryStays(table: Table, p: Mem, p': Mem, id: string, initial: Status)
    requires HistoryOk(table, p, id, initial) && Shows(p, p', id, Unaffected)
    ensures HistoryOk(table, p', id, initial)
  {
    hide Walk, Replay;
  }

  lemma HistoryExtends(table: Table, p: Mem, p': Mem, id: string, initial: Status, status: Status, at: Time)
    requires HistoryOk(table, p, id, initial) && Shows(p, p', id, StatusSet(status, at))
    requires p.evals[id].status == status || Edge(table, p.evals[id].status, status)
    ensures HistoryOk(table, p', id, initial)
  {
    hide Edge;
    var log, e := p.events[id], Event(STATUS_CHANGED, at, Some(status));
    assert (log + [e])[..|log|] == log;
  }

  /**
   Whatever is lost, duplicated, reordered or half-answered, and whatever the
   table, a record's log stays a walk along the table's edges from its initial
   status to its current one.
   */
  lemma {:induction false} EveryRunWalksTheTable(table: Table, w: World, run: seq<Happening>, id: string, initial: Status)
    requires HistoryOk(table, w.store, id, initial) && SubmitsOnce(table, w, run)
    ensures HistoryOk(table, RunWorld(table, w, run).store, id, initial)
    decreases |run|
  {
    if run != [] {
      HistoryStep(table, w, run[0], id, initial);
      EveryRunWalksTheTable(table, NextWorld(table, w, run[0]), run[1..], id, initial);
    }
  }

  /** Creation puts a record at the start of such a walk. */
  lemma BirthStartsTheWalk(table: Table, w: World, h: Happening, id: string)
    requires EffectOn(table, w, h, id).Born?
    ensures HistoryOk(table, NextWorld(table, w, h).store, id, EffectOn(table, w, h, id).initial)
  {
    EffectIsShown(table, w, h, id);
    var e := Event("submitted", h.now, None);
    assert [e][..0] == [];
  }

  /** Submissions whose metadata names no status of its own. */
  predicate PlainSubmission(h: Happening) {
    h.Arrives? && h.msg.SubmittedMsg? ==> h.msg.status == None
  }

  predicate PlainRun(run: seq<Happening>)
    decreases |run|
  {
    run != [] ==> PlainSubmission(run[0]) && PlainRun(run[1..])
  }

  /** Every record's log is a walk that starts at queued. */
  ghost predicate AllHistories(table: Table, p: Mem) {
    forall id :: id in p.evals ==> HistoryOk(table, p, id, Queued)
  }

  lemma AllHistoriesStep(table: Table, w: World, h: Happening)
    requires AllHistories(table, w.store) && FirstSubmission(w, h) && PlainSubmission(h)
    ensures AllHistories(table, NextWorld(table, w, h).store)
  {
    hide HistoryOk, NextWorld, ValidateTransition, Complete;
    forall id | id in NextWorld(table, w, h).store.evals
      ensures HistoryOk(table, NextWorld(table, w, h).store, id, Queued)
    {
      if id in w.store.evals {
        HistoryStep(table, w, h, id, Queued);
      } else {
        EffectIsShown(table, w, h, id);
        BirthStartsTheWalk(table, w, h, id);
      }
    }
  }

  /** From an empty store every reachable record has the history its log tells, starting at queued. */
  lemma {:induction false} EveryRecordHasAHistory(table: Table, w: World, run: seq<Happening>)
    requires AllHistories(table, w.store) && SubmitsOnce(table, w, run) && PlainRun(run)
    ensures AllHistories(table, RunWorld(table, w, run).store)
    decreases |run|
  {
    hide AllHistories, NextWorld;
    if run != [] {
      AllHistoriesStep(table, w, run[0]);
      EveryRecordHasAHistory(table, NextWorld(table, w, run[0]), run[1..]);
    }
  }

  /** A terminal record stays as it is for ever, under every table. */
  lemma {:induction false} TerminalForEver(table: Table, w: World, run: seq<Happening>, id: string)
    requires id in w.store.evals && Terminal(w.store.evals[id].status) && SubmitsOnce(table, w, run)
    ensures var p' := RunWorld(table, w, run).store; id in p'.evals && p'.evals[id].status == w.store.evals[id].status
    decreases |run|
  {
    if run != [] {
      EffectIsShown(table, w, run[0], id);
      TerminalForEver(table, NextWorld(table, w, run[0]), run[1..], id);
    }
  }

  // ----- how many changes -----

  function Changes(initial: Status, log: seq<Event>): nat {
    if log == [] then 0 else
      var e, before := log[|log| - 1], log[..|log| - 1];
      Changes(initial, before)
      + if e.kind == STATUS_CHANGED && e.newStatus.Some? && e.newStatus.value != Replay(initial, before) then 1 else 0
  }

  /** Under the fallback table the rank of the initial status bounds the changes. */
  lemma {:induction false} FallbackBoundsChanges(initial: Status, log: seq<Event>)
    requires Walk(FALLBACK, initial, log)
    ensures Changes(initial, log) + Rank(Replay(initial, log)) <= Rank(initial)
  {
    if log != [] {
      var e, before := log[|log| - 1], log[..|log| - 1];
      FallbackBoundsChanges(initial, before);
      if e.kind == STATUS_CHANGED && e.newStatus.Some? && e.newStatus.value != Replay(initial, before) {
        FallbackEdgesDescend(Replay(initial, before), e.newStatus.value);
      }
    }
  }

  /** So under the fallback table no reachable record has changed its status more than twice. */
  lemma AtMostTwoChanges(run: seq<Happening>, id: string)
    requires SubmitsOnce(FALLBACK, EMPTY_WORLD, run) && PlainRun(run)
    requires id in RunWorld(FALLBACK, EMPTY_WORLD, run).store.evals
    ensures var p := RunWorld(FALLBACK, EMPTY_WORLD, run).store;
      && id in p.events && Changes(Queued, p.events[id]) <= 2
      && (Changes(Queued, p.events[id]) == 2 ==> Rank(p.evals[id].status) == 0)
  {
    hide RunWorld, SubmitsOnce, Changes, Walk;
    EveryRecordHasAHistory(FALLBACK, EMPTY_WORLD, run);
    FallbackBoundsChanges(Queued, RunWorld(FALLBACK, EMPTY_WORLD, run).store.events[id]);
  }

  function Started(id: string, now: Time): Happening {
    Arrives(RunningMsg(id, RunningInfo("e", "c", 30)), NoFault, Answers(true, Waits), now)
  }

  function Requeued(id: string, now: Time): Happening {
    Arrives(QueuedMsg(id, map[]), NoFault, Answers(true, Waits), now)
  }

  function PingPong(id: string, n: nat, now: Time): seq<Happening> {
    if n == 0 then [] else [Started(id, now)] + ([Requeued(id, now)] + PingPong(id, n - 1, now))
  }

  lemma OneMove(w: World, h: Happening, id: string, initial: Status, to: Status)
    requires HistoryOk(SHIPPED, w.store, id, initial)
    requires h.Arrives? && ((h == Started(id, h.now) && to == Running) || (h == Requeued(id, h.now) && to == Queued))
    requires id != "" && Edge(SHIPPED, w.store.evals[id].status, to)
    ensures var p' := NextWorld(SHIPPED, w, h).store;
      && HistoryOk(SHIPPED, p', id, initial) && p'.evals[id].status == to
      && Changes(initial, p'.events[id]) == Changes(initial, w.store.events[id]) + 1
  {
    ValidMeansEdgeOrStay(SHIPPED, w.store.evals[id].status, to);
    HistoryStep(SHIPPED, w, h, id, initial);
    EffectIsShown(SHIPPED, w, h, id);
    var log, e := w.store.events[id], Event(STATUS_CHANGED, h.now, Some(to));
    assert (log + [e])[..|log|] == log;
  }

  lemma ShippedCycle()
    ensures Edge(SHIPPED, Queued, Running) && Edge(SHIPPED, Running, Queued)
  {
    assert SHIPPED[Queued][1] == Running && SHIPPED[Running][3] == Queued;
  }

  /** The shipped table has a cycle, so no bound exists for it. */
  lemma {:induction false} ShippedTableHasNoBound(w: World, id: string, initial: Status, n: nat, now: Time)
    requires id != "" && HistoryOk(SHIPPED, w.store, id, initial) && w.store.evals[id].status == Queued
    ensures SubmitsOnce(SHIPPED, w, PingPong(id, n, now))
    ensures var p' := RunWorld(SHIPPED, w, PingPong(id, n, now)).store;
      id in p'.events && Changes(initial, p'.events[id]) == Changes(initial, w.store.events[id]) + 2 * n
    decreases n
  {
    ShippedCycle();
    hide NextWorld, Changes, Replay, Walk, Edge;
    if n > 0 {
      var run := PingPong(id, n, now);
      OneMove(w, Started(id, now), id, initial, Running);
      var w1 := NextWorld(SHIPPED, w, Started(id, now));
      OneMove(w1, Requeued(id, now), id, initial, Queued);
      var w2 := NextWorld(SHIPPED, w1, Requeued(id, now));
      ShippedTableHasNoBound(w2, id, initial, n - 1, now);
      var rest := [Requeued(id, now)] + PingPong(id, n - 1, now);
      assert run[1..] == rest && rest[1..] == PingPong(id, n - 1, now);
      assert RunWorld(SHIPPED, w1, rest) == RunWorld(SHIPPED, w2, rest[1..]);
      assert SubmitsOnce(SHIPPED, w1, rest);
    }
  }

  // ----- completion times -----

  /** `completed_at` marks completed and failed records; a cancelled one never gets it. */
  predicate CompletionOk(p: Mem, id: string) {
    id in p.evals ==> p.evals[id].status != TimedOut && (p.evals[id].completedAt.Some? <==> p.evals[id].status in {Completed, Failed})
  }

  /** Submissions that do not themselves claim a final status. */
  predicate StartsOpen(h: Happening) {
    h.Arrives? && h.msg.SubmittedMsg? && h.msg.status.Some? ==> !Ends(h.msg.status.value)
  }

  predicate AllStartOpen(run: seq<Happening>) {
    forall i :: 0 <= i < |run| ==> StartsOpen(run[i])
  }

  lemma CompletionStep(table: Table, w: World, h: Happening, id: string)
    requires CompletionOk(w.store, id) && StartsOpen(h)
    ensures CompletionOk(NextWorld(table, w, h).store, id)
  {
    EffectIsShown(table, w, h, id);
    if id in w.store.evals && EffectOn(table, w, h, id).StatusSet? {
      ValidMeansEdgeOrStay(table, w.store.evals[id].status, EffectOn(table, w, h, id).status);
    }
  }

  lemma {:induction false} CompletedAtMarksCompletedOrFailed(table: Table, w: World, run: seq<Happening>, id: string)
    requires CompletionOk(w.store, id) && AllStartOpen(run)
    ensures CompletionOk(RunWorld(table, w, run).store, id)
    decreases |run|
  {
    if run != [] {
      assert StartsOpen(run[0]);
      CompletionStep(table, w, run[0], id);
      assert AllStartOpen(run[1..]) by {
        forall i | 0 <= i < |run| - 1 ensures StartsOpen(run[1..][i]) { assert run[1..][i] == run[i + 1]; }
      }
      CompletedAtMarksCompletedOrFailed(table, NextWorld(table, w, run[0]), run[1..], id);
    }
  }

  // ----- the running index -----

  predicate IndexOk(w: World, id: string) {
    && (id in w.markers ==> id in w.running)
    && (id in w.running ==> id in w.store.evals && !Terminal(w.store.evals[id].status))
  }

  predicate Unanswered(h: Happening) {
    h.Arrives? && h.fault == AnswerLost
  }

  predicate Touched(h: Happening, id: string) {
    h.Arrives? && h.msg.id == id && Complete(h.msg) && !h.msg.LogMsg? && !h.msg.SubmittedMsg?
  }

  /** A final status was written but the handler never learned of it. */
  predicate CleanupMissed(table: Table, w: World, h: Happening, id: string) {
    Unanswered(h) && id in w.running
    && EffectOn(table, w, h, id).StatusSet? && Terminal(EffectOn(table, w, h, id).status)
  }

  predicate SameIndex(w: World, w': World) {
    w'.markers == w.markers && w'.running == w.running
  }

  lemma FlushKeepsIndex(w: World, id: string, accepted: bool, now: Time)
    ensures SameIndex(w, Flush(w, id, accepted, now)) && SameIndex(w, EndRequest(w, id, accepted, now))
  {
    hide PlainNext;
  }

  lemma LogsKeepIndex(w: World, id: string, entry: LogEntry, accepted: bool, now: Time)
    ensures SameIndex(w, ReceiveLog(w, id, entry, accepted, now))
  {
    hide Flush;
    FlushKeepsIndex(w.(logs := CancelTimer(Buffered(w.logs, id, entry), id)), id, accepted, now);
  }

  lemma CloseKeepsIndex(w: World, id: string, answers: Answers, now: Time)
    ensures SameIndex(w, CloseLogs(w, id, answers, now))
  {
    hide Flush, EndRequest, CancelTimer, Swaps;
    var ok := !answers.timed.Waits? && answers.timed.ok;
    FlushKeepsIndex(w, id, ok, now);
    var w0 := if answers.timed.EndsFirst? then EndRequest(w, id, ok, now) else w;
    FlushKeepsIndex(w0, id, answers.accepted, now);
    FlushKeepsIndex(Flush(w0, id, answers.accepted, now), id, ok, now);
  }

  lemma QuietIndexShift(table: Table, w: World, h: Happening)
    requires !h.Arrives? || h.msg.SubmittedMsg? || h.msg.LogMsg? || !Complete(h.msg)
    ensures var w' := NextWorld(table, w, h); w'.running == w.running && w'.markers.Keys <= w.markers.Keys
  {
    hide ReceiveLog, EndRequest, TakeBuffer, FinishTimer, PlainNext;
    match h {
      case RequestEnds(at, accepted, now) => FlushKeepsIndex(w, at, accepted, now);
      case Arrives(msg, fault, answers, now) =>
        if msg.LogMsg? { LogsKeepIndex(w, msg.id, msg.entry, answers.accepted, now); }
      case _ =>
    }
  }

  lemma StatusIndexShift(table: Table, w: World, h: Happening)
    requires h.Arrives? && !h.msg.SubmittedMsg? && !h.msg.LogMsg? && Complete(h.msg)
    ensures var (store', ok) := ValidateAndUpdate(table, w.store, h.msg.id, Target(h.msg), Fields(h.msg), h.fault, h.now);
      SameIndex(NextWorld(table, w, h), if ok then (match h.msg
        case QueuedMsg(_, _) => w
        case RunningMsg(id, info) => w.(markers := w.markers[id := info], running := w.running + {id})
        case _ => Unindexed(w, h.msg.id)) else w)
  {
    hide CloseLogs, ValidateAndUpdate;
    var store' := ValidateAndUpdate(table, w.store, h.msg.id, Target(h.msg), Fields(h.msg), h.fault, h.now).0;
    CloseKeepsIndex(Unindexed(w.(store := store'), h.msg.id), h.msg.id, h.answers, h.now);
  }

  lemma UpdateSucceeds(table: Table, w: World, h: Happening, id: string)
    requires h.Arrives? && !h.msg.SubmittedMsg? && !h.msg.LogMsg? && Complete(h.msg)
    ensures ValidateAndUpdate(table, w.store, h.msg.id, Target(h.msg), Fields(h.msg), h.fault, h.now).1
       <==> EffectOn(table, w, h, h.msg.id).StatusSet? && h.fault == NoFault
    ensures h.msg.id != id ==> EffectOn(table, w, h, id) == Unaffected
  {
    hide Amend, ValidateTransition;
  }

  lemma IndexShift(table: Table, w: World, h: Happening, id: string)
    ensures var w' := NextWorld(table, w, h);
      if Touched(h, id) && EffectOn(table, w, h, id).StatusSet? && h.fault == NoFault then
        match h.msg
        case QueuedMsg(_, _) => (id in w'.markers <==> id in w.markers) && (id in w'.running <==> id in w.running)
        case RunningMsg(_, _) => id in w'.markers && id in w'.running
        case _ => id !in w'.markers && id !in w'.running
      else (id in w'.markers ==> id in w.markers) && (id in w'.running <==> id in w.running)
  {
    hide NextWorld, ValidateAndUpdate, EffectOn, Target, Fields;
    if !h.Arrives? || h.msg.SubmittedMsg? || h.msg.LogMsg? || !Complete(h.msg) {
      QuietIndexShift(table, w, h);
    } else {
      StatusIndexShift(table, w, h);
      UpdateSucceeds(table, w, h, id);
    }
  }

  /**
   One step keeps "a live marker is listed, a finished evaluation is not"
   exactly unless the answer to a final status update was lost.
   */
  lemma IndexKeptExactlyUnless(table: Table, w: World, h: Happening, id: string)
    requires IndexOk(w, id) && FirstSubmission(w, h)
    ensures IndexOk(NextWorld(table, w, h), id) <==> !CleanupMissed(table, w, h, id)
  {
    IndexShift(table, w, h, id);
    EffectIsShown(table, w, h, id);
    if EffectOn(table, w, h, id).StatusSet? {
      ValidMeansEdgeOrStay(table, w.store.evals[id].status, EffectOn(table, w, h, id).status);
    }
  }

  /** A redelivered final event is accepted again and repairs the index. */
  lemma RedeliveryRepairs(table: Table, w: World, h: Happening, id: string)
    requires Touched(h, id) && h.fault == NoFault && Terminal(Target(h.msg))
    requires id in w.store.evals && w.store.evals[id].status == Target(h.msg)
    ensures IndexOk(NextWorld(table, w, h), id)
  {
    IndexShift(table, w, h, id);
  }

  predicate AllAnswered(run: seq<Happening>)
    decreases |run|
  {
    run != [] ==> !Unanswered(run[0]) && AllAnswered(run[1..])
  }

  ghost predicate Indexed(w: World) {
    forall id :: IndexOk(w, id)
  }

  lemma {:induction false} RunKeepsIndex(table: Table, w: World, run: seq<Happening>)
    requires Indexed(w) && AllAnswered(run) && SubmitsOnce(table, w, run)
    ensures Indexed(RunWorld(table, w, run))
    decreases |run|
  {
    if run != [] {
      forall id ensures IndexOk(NextWorld(table, w, run[0]), id) {
        IndexKeptExactlyUnless(table, w, run[0], id);
      }
      RunKeepsIndex(table, NextWorld(table, w, run[0]), run[1..]);
    }
  }

  /** What `list_running_evaluations` returns is the set of live markers. */
  lemma {:induction false} ListingIsLiveMarkers(table: Table, run: seq<Happening>)
    requires AllAnswered(run) && SubmitsOnce(table, EMPTY_WORLD, run)
    ensures var w := RunWorld(table, EMPTY_WORLD, run); w.running * w.markers.Keys == w.markers.Keys
  {
    RunKeepsIndex(table, EMPTY_WORLD, run);
    var w := RunWorld(table, EMPTY_WORLD, run);
    assert forall id :: id in w.markers ==> IndexOk(w, id);
  }

  // ----- is a listed evaluation really running? -----

  predicate MarkedIsRunning(w: World, id: string) {
    id in w.markers ==> id in w.store.evals && w.store.evals[id].status == Running
  }

  /** A running evaluation can be pulled back to the queue and can have come from there. */
  predicate Requeues(table: Table) {
    Running in Allowed(table, Queued) && Queued in Allowed(table, Running)
  }

  /** Where plain submissions can lead without such a cycle. */
  predicate MarkedInOrder(table: Table, w: World, id: string) {
    && MarkedIsRunning(w, id)
    && (id in w.store.evals ==>
          var status := w.store.evals[id].status;
          && (status == Queued || status == Running || Terminal(status))
          && (status == Running ==> Running in Allowed(table, Queued)))
  }

  lemma MarkedStep(table: Table, w: World, h: Happening, id: string)
    requires !Requeues(table) && MarkedInOrder(table, w, id)
    requires FirstSubmission(w, h) && PlainSubmission(h) && !Unanswered(h)
    ensures MarkedInOrder(table, NextWorld(table, w, h), id)
  {
    hide NextWorld, ValidateTransition;
    IndexShift(table, w, h, id);
    EffectIsShown(table, w, h, id);
    if EffectOn(table, w, h, id).StatusSet? {
      ValidMeansEdgeOrStay(table, w.store.evals[id].status, EffectOn(table, w, h, id).status);
    }
  }

  lemma {:induction false} RunKeepsMarked(table: Table, w: World, run: seq<Happening>, id: string)
    requires !Requeues(table) && MarkedInOrder(table, w, id)
    requires AllAnswered(run) && SubmitsOnce(table, w, run) && PlainRun(run)
    ensures MarkedInOrder(table, RunWorld(table, w, run), id)
    decreases |run|
  {
    hide NextWorld, MarkedInOrder;
    if run != [] {
      MarkedStep(table, w, run[0], id);
      RunKeepsMarked(table, NextWorld(table, w, run[0]), run[1..], id);
    }
  }

  function SubmittedAt(id: string, now: Time): Happening {
    Arrives(SubmittedMsg(id, "code", None, map[]), NoFault, Answers(true, Waits), now)
  }

  lemma OneMarkedStep(table: Table, w: World, h: Happening, id: string, to: Status)
    requires id != "" && id in w.store.evals && Edge(table, w.store.evals[id].status, to)
    requires (h == Started(id, 0) && to == Running) || (h == Requeued(id, 0) && to == Queued)
    ensures var w' := NextWorld(table, w, h);
      id in w'.store.evals && w'.store.evals[id].status == to && (id in w'.markers <==> h == Started(id, 0) || id in w.markers)
  {
    hide NextWorld, ValidateTransition;
    EffectIsShown(table, w, h, id);
    IndexShift(table, w, h, id);
    ValidMeansEdgeOrStay(table, w.store.evals[id].status, to);
  }

  /** Submitted, running, and then a late "queued" event: the record is pulled back while its marker lives on. */
  lemma LateQueuedEvent(table: Table, id: string) returns (run: seq<Happening>)
    requires id != "" && Requeues(table)
    ensures AllAnswered(run) && SubmitsOnce(table, EMPTY_WORLD, run) && PlainRun(run)
    ensures !MarkedIsRunning(RunWorld(table, EMPTY_WORLD, run), id)
  {
    hide NextWorld, ValidateTransition;
    var w1 := NextWorld(table, EMPTY_WORLD, SubmittedAt(id, 0));
    var w2 := NextWorld(table, w1, Started(id, 0));
    EffectIsShown(table, EMPTY_WORLD, SubmittedAt(id, 0), id);
    OneMarkedStep(table, w1, Started(id, 0), id, Running);
    OneMarkedStep(table, w2, Requeued(id, 0), id, Queued);
    run := [SubmittedAt(id, 0), Started(id, 0), Requeued(id, 0)];
    ThreeSteps(table, EMPTY_WORLD, SubmittedAt(id, 0), Started(id, 0), Requeued(id, 0));
  }

  lemma ThreeSteps(table: Table, w: World, a: Happening, b: Happening, c: Happening)
    ensures var w1 := NextWorld(table, w, a);
      var w2 := NextWorld(table, w1, b);
      && RunWorld(table, w, [a, b, c]) == NextWorld(table, w2, c)
      && (SubmitsOnce(table, w, [a, b, c]) <==> FirstSubmission(w, a) && FirstSubmission(w1, b) && FirstSubmission(w2, c))
      && (AllAnswered([a, b, c]) <==> !Unanswered(a) && !Unanswered(b) && !Unanswered(c))
      && (PlainRun([a, b, c]) <==> PlainSubmission(a) && PlainSubmission(b) && PlainSubmission(c))
  {
    hide NextWorld, FirstSubmission, Unanswered, PlainSubmission;
    assert [a, b, c][1..] == [b, c] && [b, c][1..] == [c] && [c][1..] == [];
    var w1 := NextWorld(table, w, a);
    var w2 := NextWorld(table, w1, b);
    assert AllAnswered([c]) <==> !Unanswered(c);
    assert PlainRun([c]) <==> PlainSubmission(c);
    assert SubmitsOnce(table, w2, [c]) <==> FirstSubmission(w2, c);
    assert SubmitsOnce(table, w1, [b, c]) <==> FirstSubmission(w1, b) && FirstSubmission(w2, c);
    assert RunWorld(table, w2, [c]) == NextWorld(table, w2, c) == RunWorld(table, w1, [b, c]);
  }

  /**
   A live marker means a running record, over all answered runs of plain
   submissions, exactly for tables that do not lead from queued to running and back.
   */
  lemma ListedIsRunningExactlyWhen(table: Table, id: string)
    requires id != ""
    ensures (forall run | AllAnswered(run) && SubmitsOnce(table, EMPTY_WORLD, run) && PlainRun(run) ::
               MarkedIsRunning(RunWorld(table, EMPTY_WORLD, run), id))
            <==> !Requeues(table)
  {
    if Requeues(table) {
      var run := LateQueuedEvent(table, id);
    } else {
      forall run | AllAnswered(run) && SubmitsOnce(table, EMPTY_WORLD, run) && PlainRun(run)
        ensures MarkedIsRunning(RunWorld(table, EMPTY_WORLD, run), id)
      {
        RunKeepsMarked(table, EMPTY_WORLD, run, id);
      }
    }
  }

  /** Under the shipped table a listed evaluation need not be running, under the fallback table it always is. */
  lemma TheTwoTables(id: string)
    requires id != ""
    ensures exists run :: AllAnswered(run) && SubmitsOnce(SHIPPED, EMPTY_WORLD, run) && PlainRun(run)
              && !MarkedIsRunning(RunWorld(SHIPPED, EMPTY_WORLD, run), id)
    ensures forall run | AllAnswered(run) && SubmitsOnce(FALLBACK, EMPTY_WORLD, run) && PlainRun(run) ::
              MarkedIsRunning(RunWorld(FALLBACK, EMPTY_WORLD, run), id)
  {
    assert Requeues(SHIPPED) && !Requeues(FALLBACK) by {
      assert SHIPPED[Queued][1] == Running && SHIPPED[Running][3] == Queued;
    }
    hide Requeues, MarkedIsRunning, SubmitsOnce, RunWorld;
    ListedIsRunningExactlyWhen(SHIPPED, id);
    ListedIsRunningExactlyWhen(FALLBACK, id);
  }
}
