/**
 What each kind of event writes: which of its fields ends up in which field of
 the record, and what the running index then holds.
 */
module EventLaws {
  import opened Common
  import opened Storage
  import opened StorageLaws
  import opened StateMachine
  import opened Worker
  import opened RecordLaws

  /** The endpoint has the record and the rules let the status follow. */
  predicate Accepts(table: Table, w: World, id: string, status: Status) {
    id in w.store.evals && ValidateTransition(table, w.store.evals[id].status, status) == Accept
  }

  /** The requests were carried out, though the last answer may be missing. */
  predicate CarriedOut(fault: Fault) {
    fault.NoFault? || fault.AnswerLost?
  }

  /** The one record got the status and a log entry; what it was submitted with stays. */
  ghost predicate Moved(p: Mem, p': Mem, id: string, status: Status, now: Time) {
    && OnlyAbout(p, p', id) && p'.order == p.order && id in p.evals && id in p'.evals
    && p'.evals[id].status == status && p'.evals[id].code == p.evals[id].code && p'.evals[id].createdAt == p.evals[id].createdAt
    && EventsOf(p', id) == EventsOf(p, id) + [Event("status_changed", now, Some(status))]
  }

  lemma AmendMoves(p: Mem, id: string, req: Request, now: Time)
    requires id in p.evals && req.status.Some?
    ensures var p' := Amend(p, id, req, now);
      Moved(p, p', id, req.status.value, now) && Written(p.evals[id], req, p'.evals[id])
  {
    hide Updated, OnlyAbout, Amend;
    AmendParts(p, id, req, now);
    UpdatedIsWritten(p.evals[id], req, now);
  }

  lemma MergedNothing(before: map<string, string>, after: map<string, string>)
    requires Merged(before, map[], after)
    ensures after == before
  {
  }

  /** A status event that is not a completion is one such update, and then a change of the index. */
  lemma EventUpdates(table: Table, w: World, msg: Message, fault: Fault, answers: Answers, now: Time)
    requires Complete(msg) && !msg.SubmittedMsg? && !msg.LogMsg? && !msg.CompletedMsg?
    requires Accepts(table, w, msg.id, Target(msg)) && CarriedOut(fault)
    ensures var w' := NextWorld(table, w, Arrives(msg, fault, answers, now));
      && w'.store == Amend(w.store, msg.id, Fields(msg).(status := Some(Target(msg))), now) && w'.logs == w.logs
      && (fault.AnswerLost? ==> w'.markers == w.markers && w'.running == w.running)
  {
    hide Amend, ValidateTransition;
  }

  /** A failure stores its error text and merges its metadata. */
  lemma FailureStores(table: Table, w: World, id: string, error: string, metadata: map<string, string>,
                      fault: Fault, answers: Answers, now: Time)
    requires id != "" && Accepts(table, w, id, Failed) && CarriedOut(fault)
    ensures var w' := NextWorld(table, w, Arrives(FailedMsg(id, error, metadata), fault, answers, now));
      && Moved(w.store, w'.store, id, Failed, now) && w'.logs == w.logs
      && var r, r' := w.store.evals[id], w'.store.evals[id];
         && KeepsText(r'.error, error) && Merged(r.metadata, metadata, r'.metadata) && r'.output == r.output && r'.extra == r.extra
         && w'.markers == (if fault.NoFault? then w.markers - {id} else w.markers)
         && w'.running == (if fault.NoFault? then w.running - {id} else w.running)
  {
    var msg := FailedMsg(id, error, metadata);
    EventUpdates(table, w, msg, fault, answers, now);
    AmendMoves(w.store, id, Fields(msg).(status := Some(Failed)), now);
    MergedNothing(w.store.evals[id].extra, Amend(w.store, id, Fields(msg).(status := Some(Failed)), now).evals[id].extra);
    hide Amend, ValidateTransition, Moved, KeepsText, Merged;
  }

  /** A cancellation stores its reason as the error. */
  lemma CancellationStores(table: Table, w: World, id: string, reason: string, fault: Fault, answers: Answers, now: Time)
    requires id != "" && Accepts(table, w, id, Cancelled) && CarriedOut(fault)
    ensures var w' := NextWorld(table, w, Arrives(CancelledMsg(id, reason), fault, answers, now));
      && Moved(w.store, w'.store, id, Cancelled, now) && w'.logs == w.logs
      && var r, r' := w.store.evals[id], w'.store.evals[id];
         && KeepsText(r'.error, reason) && r'.metadata == r.metadata && r'.output == r.output && r'.extra == r.extra
         && w'.markers == (if fault.NoFault? then w.markers - {id} else w.markers)
         && w'.running == (if fault.NoFault? then w.running - {id} else w.running)
  {
    var msg := CancelledMsg(id, reason);
    EventUpdates(table, w, msg, fault, answers, now);
    AmendMoves(w.store, id, Fields(msg).(status := Some(Cancelled)), now);
    MergedNothing(w.store.evals[id].extra, Amend(w.store, id, Fields(msg).(status := Some(Cancelled)), now).evals[id].extra);
    hide Amend, ValidateTransition, Moved, KeepsText, Merged;
  }

  /** A queued event merges its metadata and leaves the index alone. */
  lemma QueueingStores(table: Table, w: World, id: string, metadata: map<string, string>, fault: Fault, answers: Answers, now: Time)
    requires id != "" && Accepts(table, w, id, Queued) && CarriedOut(fault)
    ensures var w' := NextWorld(table, w, Arrives(QueuedMsg(id, metadata), fault, answers, now));
      && Moved(w.store, w'.store, id, Queued, now) && w'.logs == w.logs && w'.markers == w.markers && w'.running == w.running
      && var r, r' := w.store.evals[id], w'.store.evals[id];
         && Merged(r.metadata, metadata, r'.metadata) && r'.error == r.error && r'.output == r.output && r'.extra == r.extra
  {
    var msg := QueuedMsg(id, metadata);
    EventUpdates(table, w, msg, fault, answers, now);
    AmendMoves(w.store, id, Fields(msg).(status := Some(Queued)), now);
    MergedNothing(w.store.evals[id].extra, Amend(w.store, id, Fields(msg).(status := Some(Queued)), now).evals[id].extra);
    hide Amend, ValidateTransition, Moved, KeepsText;
  }

  /** A running event stores nothing but status and start, and its marker names executor and container. */
  lemma RunningStores(table: Table, w: World, id: string, executor: string, container: string, timeout: int,
                      fault: Fault, answers: Answers, now: Time)
    requires id != "" && executor != "" && Accepts(table, w, id, Running) && CarriedOut(fault)
    ensures var w' := NextWorld(table, w, Arrives(RunningMsg(id, RunningInfo(executor, container, timeout)), fault, answers, now));
      && Moved(w.store, w'.store, id, Running, now) && w'.logs == w.logs
      && var r, r' := w.store.evals[id], w'.store.evals[id];
         && r' == r.(status := Running, startedAt := if r.startedAt.Some? then r.startedAt else Some(now))
         && w'.running == (if fault.NoFault? then w.running + {id} else w.running)
         && (fault.AnswerLost? ==> w'.markers == w.markers)
         && (fault.NoFault? ==>
               && w'.markers.Keys == w.markers.Keys + {id} && w'.markers[id].executor == executor
               && w'.markers[id].container == container && w'.markers[id].timeout == timeout
               && forall other :: other != id && other in w.markers ==> w'.markers[other] == w.markers[other])
  {
    var msg := RunningMsg(id, RunningInfo(executor, container, timeout));
    EventUpdates(table, w, msg, fault, answers, now);
    AmendMoves(w.store, id, NO_FIELDS.(status := Some(Running)), now);
    AmendParts(w.store, id, NO_FIELDS.(status := Some(Running)), now);
    assert w.store.evals[id].extra + map[] == w.store.evals[id].extra;
    hide Amend, ValidateTransition, Moved, KeepsText, Merged;
  }

  /** A submission creates its record, or replaces one, with code, status and metadata as sent. */
  lemma SubmissionStores(table: Table, w: World, id: string, code: string, status: Option<Status>, extra: map<string, string>,
                         fault: Fault, answers: Answers, now: Time)
    requires id != "" && code != "" && CarriedOut(fault)
    ensures var w' := NextWorld(table, w, Arrives(SubmittedMsg(id, code, status, extra), fault, answers, now));
      && OnlyAbout(w.store, w'.store, id) && w' == w.(store := w'.store) && id in w'.store.evals
      && EventsOf(w'.store, id) == [Event("submitted", now, None)]
      && var r := w'.store.evals[id];
         && r.code == code && r.status == (if status.Some? then status.value else Queued) && r.extra == extra && r.createdAt == now
         && r.output == None && r.error == None && r.metadata == map[] && r.startedAt == None && r.completedAt == None
  {
    OneCreate(w.store, id, code, if status.Some? then status.value else Queued, extra, now);
    hide OnlyAbout;
  }

  /** An event that lacks a field, fails to reach the endpoint, meets no record or is refused changes nothing. */
  lemma RefusalChangesNothing(table: Table, w: World, msg: Message, fault: Fault, answers: Answers, now: Time)
    requires !msg.LogMsg?
    requires || msg.id == "" || (msg.SubmittedMsg? && msg.code == "") || (msg.RunningMsg? && msg.info.executor == "")
             || !CarriedOut(fault) || (!msg.SubmittedMsg? && !Accepts(table, w, msg.id, Target(msg)))
    ensures NextWorld(table, w, Arrives(msg, fault, answers, now)) == w
  {
    hide Amend, ValidateTransition;
  }

  // ----- completions -----

  lemma OnlyAboutTwice(p: Mem, p1: Mem, p2: Mem, id: string)
    requires OnlyAbout(p, p1, id) && OnlyAbout(p1, p2, id)
    ensures OnlyAbout(p, p2, id)
  {
  }

  /** The log requests of one evaluation write its output and the time of its last line, nothing else. */
  ghost predicate OnlyOutput(p: Mem, p': Mem, id: string) {
    && OnlyAbout(p, p', id) && p'.order == p.order && EventsOf(p', id) == EventsOf(p, id)
    && (id in p'.evals <==> id in p.evals)
    && (id in p.evals ==> p'.evals[id] == p.evals[id].(output := p'.evals[id].output, extra := p'.evals[id].extra))
  }

  lemma OnlyOutputTwice(p: Mem, p1: Mem, p2: Mem, id: string)
    requires OnlyOutput(p, p1, id) && OnlyOutput(p1, p2, id)
    ensures OnlyOutput(p, p2, id)
  {
    hide OnlyAbout;
    OnlyAboutTwice(p, p1, p2, id);
  }

  lemma OutputItself(p: Mem, id: string)
    ensures OnlyOutput(p, p, id)
  {
  }

  lemma SendWritesOutput(w: World, id: string, batch: seq<LogEntry>, accepted: bool, now: Time)
    requires batch != []
    ensures OnlyOutput(w.store, Send(w, id, batch, accepted, now).store, id)
  {
    hide Combined, PlainNext, OnlyAbout;
    OutputItself(w.store, id);
    if accepted && id in w.store.evals {
      OneAppend(w.store, id, Combined(batch), true, Some(batch[|batch| - 1].timestamp), now);
    }
  }

  lemma CloseWritesOutput(w: World, id: string, answers: Answers, now: Time)
    ensures OnlyOutput(w.store, CloseLogs(w, id, answers, now).store, id)
    ensures BufferOf(w.logs, id) == [] && FlightOf(w.logs, id) == [] ==> CloseLogs(w, id, answers, now).store == w.store
  {
    hide OnlyOutput, Swaps, CancelTimer;
    var w0 := if answers.timed.EndsFirst? then EndRequest(w, id, answers.timed.ok, now) else w;
    var w1 := Flush(w0, id, answers.accepted, now);
    OutputItself(w.store, id);
    if answers.timed.EndsFirst? { EndWritesOutput(w, id, answers.timed.ok, now); }
    FlushWritesOutput(w0, id, answers.accepted, now);
    OnlyOutputTwice(w.store, w0.store, w1.store, id);
    if answers.timed.EndsLast? {
      EndWritesOutput(w1, id, answers.timed.ok, now);
      OnlyOutputTwice(w.store, w1.store, EndRequest(w1, id, answers.timed.ok, now).store, id);
    }
    hide Send;
  }

  lemma EndWritesOutput(w: World, id: string, accepted: bool, now: Time)
    ensures OnlyOutput(w.store, EndRequest(w, id, accepted, now).store, id)
  {
    hide OnlyOutput, Send;
    OutputItself(w.store, id);
    if FlightOf(w.logs, id) != [] {
      SendWritesOutput(w.(logs := w.logs.(flight := w.logs.flight - {id})), id, w.logs.flight[id], accepted, now);
    }
  }

  lemma FlushWritesOutput(w: World, id: string, accepted: bool, now: Time)
    ensures OnlyOutput(w.store, Flush(w, id, accepted, now).store, id)
  {
    hide OnlyOutput, Send;
    OutputItself(w.store, id);
    if BufferOf(w.logs, id) != [] {
      SendWritesOutput(w.(logs := Emptied(w.logs, id)), id, BufferOf(w.logs, id), accepted, now);
    }
  }

  /** The update of a completion, before its logs are closed. */
  lemma CompletionUpdates(p: Mem, id: string, output: string, error: string, metadata: map<string, string>, now: Time)
    requires id in p.evals
    ensures var p' := Amend(p, id, Request(Some(Completed), Some(output), Some(error), Some(metadata), map[]), now);
      && Moved(p, p', id, Completed, now)
      && var r, r' := p.evals[id], p'.evals[id];
         KeepsText(r'.output, output) && KeepsText(r'.error, error) && Merged(r.metadata, metadata, r'.metadata) && r'.extra == r.extra
  {
    var req := Request(Some(Completed), Some(output), Some(error), Some(metadata), map[]);
    AmendMoves(p, id, req, now);
    MergedNothing(p.evals[id].extra, Amend(p, id, req, now).evals[id].extra);
    hide Amend, Moved, KeepsText, Merged;
  }

  /**
   A completion stores output, error and metadata, each in its own field; to the
   output, and to it alone, the lines still on their way are then appended.
   */
  lemma CompletionStores(table: Table, w: World, id: string, output: string, error: string, metadata: map<string, string>,
                         fault: Fault, answers: Answers, now: Time)
    requires id != "" && Accepts(table, w, id, Completed) && CarriedOut(fault)
    ensures var w' := NextWorld(table, w, Arrives(CompletedMsg(id, output, error, metadata), fault, answers, now));
      && Moved(w.store, w'.store, id, Completed, now)
      && var r, r' := w.store.evals[id], w'.store.evals[id];
         && KeepsText(r'.error, error) && Merged(r.metadata, metadata, r'.metadata)
         && (fault.AnswerLost? || (BufferOf(w.logs, id) == [] && FlightOf(w.logs, id) == []) ==>
               KeepsText(r'.output, output) && r'.extra == r.extra)
         && w'.markers == (if fault.NoFault? then w.markers - {id} else w.markers)
         && w'.running == (if fault.NoFault? then w.running - {id} else w.running)
  {
    hide Amend, ValidateTransition, CloseLogs, KeepsText, Merged, Moved;
    CompletionUpdates(w.store, id, output, error, metadata, now);
    var p1 := Amend(w.store, id, Request(Some(Completed), Some(output), Some(error), Some(metadata), map[]), now);
    if fault.NoFault? {
      var w1 := Unindexed(w.(store := p1), id);
      CloseWritesOutput(w1, id, answers, now);
      MovedThenOutput(w.store, p1, CloseLogs(w1, id, answers, now).store, id, Completed, now);
      CloseLeavesIndex(w1, id, answers, now);
    }
  }

  lemma MovedThenOutput(p: Mem, p1: Mem, p2: Mem, id: string, status: Status, now: Time)
    requires Moved(p, p1, id, status, now) && OnlyOutput(p1, p2, id)
    ensures Moved(p, p2, id, status, now) && p2.evals[id] == p1.evals[id].(output := p2.evals[id].output, extra := p2.evals[id].extra)
  {
    hide OnlyAbout;
    OnlyAboutTwice(p, p1, p2, id);
  }

  lemma CloseLeavesIndex(w: World, id: string, answers: Answers, now: Time)
    ensures var w' := CloseLogs(w, id, answers, now); w'.markers == w.markers && w'.running == w.running
  {
    hide PlainNext, Combined, CancelTimer, Swaps;
  }
}
