/**
 The storage worker: it turns evaluation events into validated status updates,
 keeps the Redis index of running evaluations, and batches log lines.
 One worker handles its messages one after the other; its flush timers are tasks
 of their own, which run in between.
 */
module Worker {
  import opened Common
  import opened Storage
  import opened StorageLaws
  import opened StateMachine

  const LOG_BATCH_SIZE: nat := 100

  datatype LogEntry = LogEntry(content: string, timestamp: string, isFinal: bool)

  datatype RunningInfo = RunningInfo(executor: string, container: string, timeout: int)

  /**
   `timers` are the ids with a registered timer task, `flushing` those whose task
   has taken the buffer and waits for its request, `flight` the batches of
   requests not carried out yet. `posted`, `received` and `lost` record the
   history of each evaluation's log lines, `swapped` the evaluations for which two
   batches were carried out in the wrong order.
   */
  datatype Logs = Logs(
    buffers: map<string, seq<LogEntry>>, timers: set<string>, flushing: set<string>, flight: map<string, seq<LogEntry>>,
    posted: map<string, seq<seq<LogEntry>>>, received: map<string, seq<LogEntry>>, lost: map<string, seq<LogEntry>>,
    swapped: set<string>)

  /** Storage, the markers `eval:<id>:running`, the set `running_evaluations`, and the log buffers. */
  datatype World = World(store: Mem, markers: map<string, RunningInfo>, running: set<string>, logs: Logs)

  const EMPTY_WORLD := World(EMPTY_MEM, map[], {}, Logs(map[], {}, {}, map[], map[], map[], map[], {}))

  /** What may go wrong with the two storage requests behind one event. */
  datatype Fault = NoFault | ReadFails | WriteFails | AnswerLost

  datatype Message =
    | SubmittedMsg(id: string, code: string, status: Option<Status>, extra: map<string, string>)
    | QueuedMsg(id: string, metadata: map<string, string>)
    | RunningMsg(id: string, info: RunningInfo)
    | CompletedMsg(id: string, output: string, error: string, metadata: map<string, string>)
    | FailedMsg(id: string, error: string, metadata: map<string, string>)
    | CancelledMsg(id: string, reason: string)
    | LogMsg(id: string, entry: LogEntry)

  /**
   What a timed request in flight does while the completed handler is at work: it
   stays in flight, or it ends, before or after the handler's own request.
   */
  datatype Meanwhile = Waits | EndsFirst(ok: bool) | EndsLast(ok: bool)

  /** How the log requests around a message end, its own and a timed one in flight. */
  datatype Answers = Answers(accepted: bool, timed: Meanwhile)

  /**
   A flush timer acts in three steps: it takes the buffer, its request ends one
   way or the other, and it finishes.
   */
  datatype Happening =
    | Arrives(msg: Message, fault: Fault, answers: Answers, now: Time)
    | TimerTakes(id: string)
    | RequestEnds(id: string, accepted: bool, now: Time)
    | TimerFinishes(id: string)
    | MarkerExpires(id: string)

  const NO_FIELDS := Request(None, None, None, None, map[])

  // ----- status updates -----

  /** The JSON body of the PUT; the three timestamp fields are not part of the endpoint's model. */
  datatype Payload = Payload(status: Status, startedAt: Option<Time>, completedAt: Option<Time>,
                             runtimeMs: Option<int>, fields: Request)

  function Accepted(p: Payload): Request {
    p.fields.(status := Some(p.status))
  }

  function ValidateAndUpdate(table: Table, store: Mem, id: string, status: Status,
                             fields: Request, fault: Fault, now: Time): (Mem, bool)
  {
    if fault == ReadFails || id !in store.evals then (store, false)
    else if ValidateTransition(table, store.evals[id].status, status) != Accept then (store, false)
    else if fault == WriteFails then (store, false)
    else (Amend(store, id, fields.(status := Some(status)), now), fault != AnswerLost)
  }

  // ----- log batching -----

  function BufferOf(l: Logs, id: string): seq<LogEntry> {
    if id in l.buffers then l.buffers[id] else []
  }

  function PostedOf(l: Logs, id: string): seq<seq<LogEntry>> {
    if id in l.posted then l.posted[id] else []
  }

  function ReceivedOf(l: Logs, id: string): seq<LogEntry> {
    if id in l.received then l.received[id] else []
  }

  function FlightOf(l: Logs, id: string): seq<LogEntry> {
    if id in l.flight then l.flight[id] else []
  }

  function LostOf(l: Logs, id: string): seq<LogEntry> {
    if id in l.lost then l.lost[id] else []
  }

  /** `"\n".join(log["content"] for log in logs)` */
  function Combined(batch: seq<LogEntry>): string {
    if batch == [] then ""
    else if |batch| == 1 then batch[0].content
    else batch[0].content + "\n" + Combined(batch[1..])
  }

  /** The log request: refused, or for an unknown evaluation, it drops the batch. */
  function Send(w: World, id: string, batch: seq<LogEntry>, accepted: bool, now: Time): World
    requires batch != []
  {
    if accepted && id in w.store.evals then
      w.(store := PlainNext(w.store, Append(id, Combined(batch), true, Some(batch[|batch| - 1].timestamp), now)),
         logs := w.logs.(posted := w.logs.posted[id := PostedOf(w.logs, id) + [batch]]))
    else w.(logs := w.logs.(lost := w.logs.lost[id := LostOf(w.logs, id) + batch]))
  }

  function Emptied(l: Logs, id: string): Logs {
    l.(buffers := l.buffers[id := []])
  }

  function Flush(w: World, id: string, accepted: bool, now: Time): World {
    if BufferOf(w.logs, id) == [] then w
    else Send(w.(logs := Emptied(w.logs, id)), id, BufferOf(w.logs, id), accepted, now)
  }

  function Buffered(l: Logs, id: string, entry: LogEntry): Logs {
    l.(buffers := l.buffers[id := BufferOf(l, id) + [entry]], received := l.received[id := ReceivedOf(l, id) + [entry]])
  }

  /** Cancelling a timer task also ends its request, which is lost unless it was carried out before. */
  function CancelTimer(l: Logs, id: string): Logs {
    if id !in l.timers then l else
      l.(timers := l.timers - {id}, flushing := l.flushing - {id}, flight := l.flight - {id},
         lost := if id in l.flight then l.lost[id := LostOf(l, id) + l.flight[id]] else l.lost)
  }

  function ReceiveLog(w: World, id: string, entry: LogEntry, accepted: bool, now: Time): World {
    if id == "" then w else
      var l := Buffered(w.logs, id, entry);
      if |BufferOf(l, id)| >= LOG_BATCH_SIZE || entry.isFinal
      then Flush(w.(logs := CancelTimer(l, id)), id, accepted, now)
      else w.(logs := l.(timers := l.timers + {id}))
  }

  /** The timeout is over: an empty buffer ends the task at once. */
  function TakeBuffer(l: Logs, id: string): Logs {
    if id !in l.timers || id in l.flushing then l
    else if BufferOf(l, id) == [] then l.(timers := l.timers - {id})
    else Emptied(l, id).(flushing := l.flushing + {id}, flight := l.flight[id := l.buffers[id]])
  }

  function EndRequest(w: World, id: string, accepted: bool, now: Time): World {
    if FlightOf(w.logs, id) == [] then w
    else Send(w.(logs := w.logs.(flight := w.logs.flight - {id})), id, w.logs.flight[id], accepted, now)
  }

  function FinishTimer(l: Logs, id: string): Logs {
    if id in l.flushing && id !in l.flight then l.(timers := l.timers - {id}, flushing := l.flushing - {id}) else l
  }

  /** A timed batch carried out after the leftovers, though its lines came first. */
  predicate Swaps(w: World, id: string, answers: Answers) {
    var first, second := FlightOf(w.logs, id), BufferOf(w.logs, id);
    answers == Answers(true, EndsLast(true)) && id in w.store.evals && first + second != second + first
  }

  /** The completed handler flushes what is left and forgets the buffer and its timer. */
  function CloseLogs(w: World, id: string, answers: Answers, now: Time): World {
    var w0 := if answers.timed.EndsFirst? then EndRequest(w, id, answers.timed.ok, now) else w;
    var w1 := Flush(w0, id, answers.accepted, now);
    var w2 := if answers.timed.EndsLast? then EndRequest(w1, id, answers.timed.ok, now) else w1;
    w2.(logs := CancelTimer(w2.logs.(buffers := w2.logs.buffers - {id},
                                     swapped := if Swaps(w, id, answers) then w2.logs.swapped + {id} else w2.logs.swapped), id))
  }

  // ----- the handlers -----

  function Unindexed(w: World, id: string): World {
    w.(markers := w.markers - {id}, running := w.running - {id})
  }

  function Create(w: World, id: string, code: string, status: Option<Status>,
                  extra: map<string, string>, now: Time): World
  {
    w.(store := PlainNext(w.store, StorageLaws.Create(id, code, if status.Some? then status.value else Queued, extra, now)))
  }

  function Target(msg: Message): Status
    requires !msg.SubmittedMsg? && !msg.LogMsg?
  {
    match msg
    case QueuedMsg(_, _) => Queued
    case RunningMsg(_, _) => Running
    case CompletedMsg(_, _, _, _) => Completed
    case FailedMsg(_, _, _) => Failed
    case CancelledMsg(_, _) => Cancelled
  }

  function Fields(msg: Message): Request
    requires !msg.SubmittedMsg? && !msg.LogMsg?
  {
    match msg
    case QueuedMsg(_, metadata) => if metadata == map[] then NO_FIELDS else NO_FIELDS.(metadata := Some(metadata))
    case RunningMsg(_, _) => NO_FIELDS
    case CompletedMsg(_, output, error, metadata) => Request(None, Some(output), Some(error), Some(metadata), map[])
    case FailedMsg(_, error, metadata) => NO_FIELDS.(error := Some(error), metadata := Some(metadata))
    case CancelledMsg(_, reason) => NO_FIELDS.(error := Some(reason))
  }

  /** Required fields present? */
  predicate Complete(msg: Message) {
    msg.id != "" && (msg.SubmittedMsg? ==> msg.code != "") && (msg.RunningMsg? ==> msg.info.executor != "")
  }

  /** The handler's part after a successful update. */
  function Reindex(w: World, msg: Message, answers: Answers, now: Time): World
    requires !msg.SubmittedMsg? && !msg.LogMsg?
  {
    match msg
    case QueuedMsg(_, _) => w
    case RunningMsg(id, info) => w.(markers := w.markers[id := info], running := w.running + {id})
    case CompletedMsg(id, _, _, _) => CloseLogs(Unindexed(w, id), id, answers, now)
    case _ => Unindexed(w, msg.id)
  }

  function Handle(table: Table, w: World, msg: Message, fault: Fault, answers: Answers, now: Time): World {
    if !Complete(msg) then w else
      match msg
      case SubmittedMsg(id, code, status, extra) =>
        if fault == ReadFails || fault == WriteFails then w else Create(w, id, code, status, extra, now)
      case LogMsg(id, entry) => ReceiveLog(w, id, entry, answers.accepted, now)
      case _ =>
        var (store', ok) := ValidateAndUpdate(table, w.store, msg.id, Target(msg), Fields(msg), fault, now);
        if ok then Reindex(w.(store := store'), msg, answers, now) else w.(store := store')
  }

  function NextWorld(table: Table, w: World, h: Happening): World {
    match h
    case Arrives(msg, fault, answers, now) => Handle(table, w, msg, fault, answers, now)
    case TimerTakes(id) => w.(logs := TakeBuffer(w.logs, id))
    case RequestEnds(id, accepted, now) => EndRequest(w, id, accepted, now)
    case TimerFinishes(id) => w.(logs := FinishTimer(w.logs, id))
    case MarkerExpires(id) => w.(markers := w.markers - {id})
  }

  function RunWorld(table: Table, w: World, run: seq<Happening>): World
    decreases |run|
  {
    if run == [] then w else RunWorld(table, NextWorld(table, w, run[0]), run[1..])
  }

  /** The shutdown loop, over the timers in the order `ids`; `refused` are the ids whose request fails. */
  function CloseTimer(w: World, id: string, accepted: bool, now: Time): World {
    Flush(w.(logs := CancelTimer(w.logs, id)), id, accepted, now)
  }

  function CloseTimers(w: World, ids: seq<string>, refused: set<string>, now: Time): World
    decreases |ids|
  {
    if ids == [] then w else
      CloseTimer(CloseTimers(w, ids[..|ids| - 1], refused, now), ids[|ids| - 1], ids[|ids| - 1] !in refused, now)
  }

  // ----- the worker as an object -----

  class StorageWorker {
    const table: Table
    const storage: FlexibleStorageManager
    var markers: map<string, RunningInfo>
    var running: set<string>
    var logBuffers: map<string, seq<LogEntry>>
    var logBufferTimers: set<string>
    var flushing: set<string>
    var flight: map<string, seq<LogEntry>>
    ghost var posted: map<string, seq<seq<LogEntry>>>
    ghost var received: map<string, seq<LogEntry>>
    ghost var lost: map<string, seq<LogEntry>>
    ghost var swapped: set<string>

    ghost predicate Valid()
      reads storage.primary, storage.cache
    {
      storage.Valid() && Coherent(storage.View())
    }

    ghost function LogView(): Logs
      reads this
    {
      Logs(logBuffers, logBufferTimers, flushing, flight, posted, received, lost, swapped)
    }

    ghost function View(): World
      reads this, storage.primary, storage.cache
    {
      World(storage.View().primary, markers, running, LogView())
    }

    constructor (table: Table, storage: FlexibleStorageManager)
      requires storage.Valid() && Coherent(storage.View())
      ensures Valid() && this.table == table && this.storage == storage
      ensures View() == EMPTY_WORLD.(store := storage.View().primary)
    {
      this.table, this.storage := table, storage;
      markers, running := map[], {};
      logBuffers, logBufferTimers := map[], {};
      flushing, flight := {}, map[];
      posted, received, lost, swapped := map[], map[], map[], {};
    }

    /** Only status and fields get through to the storage endpoint. */
    method PreparePayload(current: Record, status: Status, fields: Request, now: Time) returns (payload: Payload)
      ensures Accepted(payload) == fields.(status := Some(status))
      ensures payload.startedAt.Some? <==> status == Running && current.status in {Submitted, Queued, Provisioning}
      ensures payload.completedAt.Some? <==> Terminal(status)
      ensures payload.runtimeMs == if Terminal(status) && current.startedAt.Some? then Some(RuntimeMs(current.startedAt.value, now)) else None
    {
      payload := Payload(status, None, None, None, fields);
      if status == Running {
        if current.status in {Submitted, Queued, Provisioning} {
          payload := payload.(startedAt := Some(now));
        }
      } else if Terminal(status) {
        payload := payload.(completedAt := Some(now));
        if current.startedAt.Some? {
          payload := payload.(runtimeMs := Some(RuntimeMs(current.startedAt.value, now)));
        }
      }
    }

    method ValidateAndUpdateStatus(id: string, status: Status, fields: Request, fault: Fault, now: Time)
      returns (ok: bool)
      requires Valid()
      modifies storage.primary, storage.cache
      ensures Valid()
      ensures (storage.View().primary, ok)
           == ValidateAndUpdate(table, old(storage.View().primary), id, status, fields, fault, now)
    {
      hide UpdateEval, GetEval, Amend, ValidateTransition, Coherent, RuntimeMs, Accepted, Terminal;
      if fault == ReadFails {
        return false;
      }
      GetAgrees(storage.View(), id);
      var current := storage.GetEvaluation(id);
      if current == None || ValidateTransition(table, current.value.status, status) != Accept {
        return false;
      }
      var payload := PreparePayload(current.value, status, fields, now);
      if fault == WriteFails {
        return false;
      }
      UpdateAgrees(storage.View(), id, Accepted(payload), now);
      ok := storage.UpdateEvaluation(id, Accepted(payload), now);
      ok := ok && fault != AnswerLost;
    }

    /** One log request, whatever its outcome: refusals are only reported. */
    method PostLogs(id: string, logs: seq<LogEntry>, accepted: bool, now: Time)
      requires Valid() && logs != []
      modifies this`posted, this`lost, storage.primary, storage.cache
      ensures Valid() && View() == Send(old(View()), id, logs, accepted, now)
    {
      hide AppendLogs, Amend, Coherent, Combined;
      var ok := false;
      if accepted {
        ApplyAgrees(storage.View(), Append(id, Combined(logs), true, Some(logs[|logs| - 1].timestamp), now));
        ok := AppendEvaluationLogs(storage, id, Combined(logs), true, Some(logs[|logs| - 1].timestamp), now);
      }
      if ok {
        posted := posted[id := (if id in posted then posted[id] else []) + [logs]];
      } else {
        lost := lost[id := (if id in lost then lost[id] else []) + logs];
      }
    }

    /** The buffer is cleared before the request is sent. */
    method FlushLogs(id: string, accepted: bool, now: Time)
      requires Valid()
      modifies this`logBuffers, this`posted, this`lost, storage.primary, storage.cache
      ensures Valid() && View() == Flush(old(View()), id, accepted, now)
    {
      hide Send, Coherent;
      if id !in logBuffers || logBuffers[id] == [] {
        return;
      }
      var logs := logBuffers[id];
      logBuffers := logBuffers[id := []];
      PostLogs(id, logs, accepted, now);
    }

    method BufferEntry(id: string, entry: LogEntry) returns (size: nat)
      modifies this`logBuffers, this`received
      ensures LogView() == Buffered(old(LogView()), id, entry) && size == |BufferOf(LogView(), id)|
    {
      var buffer := [];
      if id in logBuffers {
        buffer := logBuffers[id];
      }
      logBuffers := logBuffers[id := buffer + [entry]];
      received := received[id := (if id in received then received[id] else []) + [entry]];
      size := |buffer| + 1;
    }

    /** `cancel()` and `del`: the task ends where it is. */
    method CancelFlush(id: string)
      modifies this`logBufferTimers, this`flushing, this`flight, this`lost
      ensures LogView() == CancelTimer(old(LogView()), id)
    {
      if id in logBufferTimers {
        logBufferTimers := logBufferTimers - {id};
        if id in flight {
          lost := lost[id := (if id in lost then lost[id] else []) + flight[id]];
        }
        flushing := flushing - {id};
        flight := flight - {id};
      }
    }

    method HandleLogEvent(id: string, entry: LogEntry, accepted: bool, now: Time)
      requires Valid()
      modifies this, storage.primary, storage.cache
      ensures Valid() && View() == ReceiveLog(old(View()), id, entry, accepted, now)
    {
      hide Flush, CancelTimer, Buffered, Coherent;
      if id == "" {
        return;
      }
      var size := BufferEntry(id, entry);
      if size >= LOG_BATCH_SIZE || entry.isFinal {
        CancelFlush(id);
        FlushLogs(id, accepted, now);
      } else {
        logBufferTimers := logBufferTimers + {id};
      }
    }

    /** The timer task up to its request. */
    method DelayedFlush(id: string)
      requires id in logBufferTimers && id !in flushing
      modifies this`logBuffers, this`logBufferTimers, this`flushing, this`flight
      ensures LogView() == TakeBuffer(old(LogView()), id)
    {
      if id !in logBuffers || logBuffers[id] == [] {
        logBufferTimers := logBufferTimers - {id};
        return;
      }
      flight := flight[id := logBuffers[id]];
      logBuffers := logBuffers[id := []];
      flushing := flushing + {id};
    }

    /** The end of a timer task's request. */
    method AnswerFlush(id: string, accepted: bool, now: Time)
      requires Valid() && id in flight && flight[id] != []
      modifies this`flight, this`posted, this`lost, storage.primary, storage.cache
      ensures Valid() && View() == EndRequest(old(View()), id, accepted, now)
    {
      hide Send, Coherent;
      var logs := flight[id];
      flight := flight - {id};
      PostLogs(id, logs, accepted, now);
    }

    /** The same, if there is a request in flight and it ends now. */
    method EndInFlight(id: string, ends: bool, accepted: bool, now: Time)
      requires Valid()
      modifies this`flight, this`posted, this`lost, storage.primary, storage.cache
      ensures Valid() && View() == if ends then EndRequest(old(View()), id, accepted, now) else old(View())
    {
      hide Send, Coherent;
      if ends && id in flight && flight[id] != [] {
        AnswerFlush(id, accepted, now);
      }
    }

    method FlushKnown(id: string, accepted: bool, now: Time)
      requires Valid()
      modifies this`logBuffers, this`posted, this`lost, storage.primary, storage.cache
      ensures Valid() && View() == Flush(old(View()), id, accepted, now)
    {
      hide Flush, Coherent;
      NothingToFlush(View(), id, accepted, now);
      if id in logBuffers {
        FlushLogs(id, accepted, now);
      }
    }

    /** The timer task after its request. */
    method FinishFlush(id: string)
      requires id in flushing && id !in flight
      modifies this`logBufferTimers, this`flushing
      ensures LogView() == FinishTimer(old(LogView()), id)
    {
      flushing := flushing - {id};
      logBufferTimers := logBufferTimers - {id};
    }

    method HandleSubmitted(msg: Message, fault: Fault, answers: Answers, now: Time)
      requires Valid() && msg.SubmittedMsg? && Complete(msg)
      modifies storage.primary, storage.cache
      ensures Valid() && View() == Handle(table, old(View()), msg, fault, answers, now)
    {
      if fault == ReadFails || fault == WriteFails {
        return;
      }
      var status := if msg.status.Some? then msg.status.value else Queued;
      ApplyAgrees(storage.View(), StorageLaws.Create(msg.id, msg.code, status, msg.extra, now));
      var _ := storage.CreateEvaluation(msg.id, NewRecord(msg.code, status, msg.extra, now), now);
    }

    /** `del` of the buffer, and the end of its timer */
    method ForgetBuffer(id: string, ghost swaps: bool)
      modifies this`logBuffers, this`logBufferTimers, this`flushing, this`flight, this`lost, this`swapped
      ensures LogView() == var l := old(LogView());
        CancelTimer(l.(buffers := l.buffers - {id}, swapped := if swaps then l.swapped + {id} else l.swapped), id)
    {
      hide CancelTimer;
      swapped := if swaps then swapped + {id} else swapped;
      logBuffers := logBuffers - {id};
      CancelFlush(id);
    }

    /** The task of a timer moves while the handler waits, as `answers.timed` says. */
    method CloseBuffer(id: string, answers: Answers, now: Time)
      requires Valid()
      modifies this`logBuffers, this`logBufferTimers, this`flushing, this`flight, this`posted, this`lost, this`swapped
      modifies storage.primary, storage.cache
      ensures Valid() && View() == CloseLogs(old(View()), id, answers, now)
    {
      hide Flush, EndRequest, CancelTimer, Swaps, Coherent;
      ghost var swaps := Swaps(View(), id, answers);
      var ok := !answers.timed.Waits? && answers.timed.ok;
      EndInFlight(id, answers.timed.EndsFirst?, ok, now);
      FlushKnown(id, answers.accepted, now);
      EndInFlight(id, answers.timed.EndsLast?, ok, now);
      ForgetBuffer(id, swaps);
    }

    method HandleCompleted(id: string, answers: Answers, now: Time)
      requires Valid()
      modifies this, storage.primary, storage.cache
      ensures Valid() && View() == CloseLogs(Unindexed(old(View()), id), id, answers, now)
    {
      hide CloseLogs, Coherent;
      markers := markers - {id};
      running := running - {id};
      CloseBuffer(id, answers, now);
    }

    method UpdateIndex(msg: Message, answers: Answers, now: Time)
      requires Valid() && !msg.SubmittedMsg? && !msg.LogMsg?
      modifies this, storage.primary, storage.cache
      ensures Valid() && View() == Reindex(old(View()), msg, answers, now)
    {
      if msg.RunningMsg? {
        markers := markers[msg.id := msg.info];
        running := running + {msg.id};
      } else if msg.CompletedMsg? {
        HandleCompleted(msg.id, answers, now);
      } else if !msg.QueuedMsg? {
        markers := markers - {msg.id};
        running := running - {msg.id};
      }
    }

    method HandleStatusEvent(msg: Message, fault: Fault, answers: Answers, now: Time)
      requires Valid() && !msg.SubmittedMsg? && !msg.LogMsg? && Complete(msg)
      modifies this, storage.primary, storage.cache
      ensures Valid() && View() == Handle(table, old(View()), msg, fault, answers, now)
    {
      var ok := ValidateAndUpdateStatus(msg.id, Target(msg), Fields(msg), fault, now);
      if ok {
        UpdateIndex(msg, answers, now);
      }
    }

    method HandleMessage(msg: Message, fault: Fault, answers: Answers, now: Time)
      requires Valid()
      modifies this, storage.primary, storage.cache
      ensures Valid() && View() == Handle(table, old(View()), msg, fault, answers, now)
    {
      if Complete(msg) {
        if msg.LogMsg? {
          HandleLogEvent(msg.id, msg.entry, answers.accepted, now);
        } else if msg.SubmittedMsg? {
          HandleSubmitted(msg, fault, answers, now);
        } else {
          HandleStatusEvent(msg, fault, answers, now);
        }
      }
    }

    /** `timer.cancel()` and the flush of its buffer */
    method CloseOneTimer(id: string, accepted: bool, now: Time)
      requires Valid()
      modifies this, storage.primary, storage.cache
      ensures Valid() && View() == CloseTimer(old(View()), id, accepted, now)
      ensures logBufferTimers == old(logBufferTimers) - {id}
    {
      hide Flush, CancelTimer, Coherent;
      CancelledTimer(LogView(), id);
      CancelFlush(id);
      FlushLogs(id, accepted, now);
    }

    /** Cancels every timer and flushes its buffer. */
    method Shutdown(refused: set<string>, now: Time) returns (ghost ids: seq<string>)
      requires Valid()
      modifies this, storage.primary, storage.cache
      ensures Valid() && View() == CloseTimers(old(View()), ids, refused, now)
      ensures Distinct(ids) && Elements(ids) == old(logBufferTimers) && logBufferTimers == {}
    {
      hide CloseTimer, CloseTimers, Coherent, Distinct, Elements;
      ghost var begun := View();
      NoTimers(begun, refused, now);
      ids := [];
      NoElements<string>();
      var todo := logBufferTimers;
      while todo != {}
        invariant Valid()
        invariant logBufferTimers == todo <= old(logBufferTimers)
        invariant Distinct(ids) && Elements(ids) == old(logBufferTimers) - todo
        invariant View() == CloseTimers(old(View()), ids, refused, now)
        decreases |todo|
      {
        var id :| id in todo;
        todo := todo - {id};
        OneMoreTimer(begun, ids, id, refused, now);
        CloseOneTimer(id, id !in refused, now);
        OneMoreElement(ids, id);
        ids := ids + [id];
      }
    }

    /** `GET /evaluations/running`: members of the set whose marker is still alive. */
    method ListRunningEvaluations() returns (listed: seq<string>)
      ensures Distinct(listed) && Elements(listed) == running * markers.Keys
    {
      hide Distinct, Elements;
      listed := [];
      NoElements<string>();
      var todo := running;
      while todo != {}
        invariant todo <= running && Distinct(listed)
        invariant Elements(listed) == (running - todo) * markers.Keys
        decreases |todo|
      {
        var id :| id in todo;
        todo := todo - {id};
        if id in markers {
          OneMoreElement(listed, id);
          listed := listed + [id];
        }
      }
    }
  }

  lemma NoTimers(w: World, refused: set<string>, now: Time)
    ensures CloseTimers(w, [], refused, now) == w
  {
  }

  lemma {:induction false} OneMoreTimer(w: World, ids: seq<string>, id: string, refused: set<string>, now: Time)
    ensures CloseTimers(w, ids + [id], refused, now) == CloseTimer(CloseTimers(w, ids, refused, now), id, id !in refused, now)
  {
    hide CloseTimer;
    assert (ids + [id])[..|ids|] == ids;
  }

  lemma NothingToFlush(w: World, id: string, accepted: bool, now: Time)
    ensures id !in w.logs.buffers ==> Flush(w, id, accepted, now) == w
  {
  }

  lemma CancelledTimer(l: Logs, id: string)
    ensures CancelTimer(l, id).timers == l.timers - {id}
  {
  }
}
