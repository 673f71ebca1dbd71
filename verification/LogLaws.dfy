/**
 Log batching: when lines are lost, reordered or left behind between a log event
 and the storage endpoint, and what the endpoint stores of them.
 */
module LogLaws {
  import opened Common
  import opened Storage
  import opened StorageLaws
  import opened RecordLaws
  import opened StateMachine
  import opened Worker
  import Strings

  function Flatten(batches: seq<seq<LogEntry>>): seq<LogEntry> {
    if batches == [] then [] else batches[0] + Flatten(batches[1..])
  }

  lemma {:induction false} FlattenSnoc(batches: seq<seq<LogEntry>>, last: seq<LogEntry>)
    ensures Flatten(batches + [last]) == Flatten(batches) + last
  {
    if batches == [] {
      assert (batches + [last])[1..] == [];
    } else {
      assert (batches + [last])[1..] == batches[1..] + [last];
      FlattenSnoc(batches[1..], last);
    }
  }

  predicate BatchesOk(batches: seq<seq<LogEntry>>) {
    forall i :: 0 <= i < |batches| ==> 1 <= |batches[i]| <= 100
  }

  // ----- what the worker keeps for one evaluation -----

  datatype Part = Part(buffer: seq<LogEntry>, flight: Option<seq<LogEntry>>, posted: seq<seq<LogEntry>>,
                       received: seq<LogEntry>, lost: seq<LogEntry>, swapped: bool, timer: bool, flushing: bool)

  function PartOf(l: Logs, id: string): Part {
    Part(BufferOf(l, id), if id in l.flight then Some(l.flight[id]) else None, PostedOf(l, id),
         ReceivedOf(l, id), LostOf(l, id), id in l.swapped, id in l.timers, id in l.flushing)
  }

  /** What one happening does to it; `ok` says whether a log request is carried out. */
  datatype Action =
    | Nothing
    | Line(entry: LogEntry, ok: bool)
    | Take
    | End(ok: bool)
    | Finish
    | Close(answers: Answers)

  function ActionOn(table: Table, w: World, h: Happening, id: string): Action {
    match h
    case TimerTakes(at) => if at == id then Take else Nothing
    case RequestEnds(at, accepted, _) => if at == id then End(accepted && id in w.store.evals) else Nothing
    case TimerFinishes(at) => if at == id then Finish else Nothing
    case MarkerExpires(_) => Nothing
    case Arrives(msg, fault, answers, now) =>
      if msg.id != id || !Complete(msg) then Nothing
      else if msg.LogMsg? then Line(msg.entry, answers.accepted && id in w.store.evals)
      else if msg.CompletedMsg? && ValidateAndUpdate(table, w.store, id, Target(msg), Fields(msg), fault, now).1 then Close(answers)
      else Nothing
  }

  function SendPart(p: Part, batch: seq<LogEntry>, ok: bool): Part {
    if ok then p.(posted := p.posted + [batch]) else p.(lost := p.lost + batch)
  }

  function FlushPart(p: Part, ok: bool): Part {
    if p.buffer == [] then p else SendPart(p.(buffer := []), p.buffer, ok)
  }

  function InFlight(p: Part): seq<LogEntry> {
    if p.flight.Some? then p.flight.value else []
  }

  function CancelPart(p: Part): Part {
    if !p.timer then p else p.(timer := false, flushing := false, flight := None, lost := p.lost + InFlight(p))
  }

  function EndPart(p: Part, ok: bool): Part {
    if InFlight(p) == [] then p else SendPart(p.(flight := None), p.flight.value, ok)
  }

  function EndIf(p: Part, ends: bool, answers: Answers): Part {
    if ends then EndPart(p, !answers.timed.Waits? && answers.timed.ok) else p
  }

  predicate SwapsPart(p: Part, answers: Answers) {
    answers == Answers(true, EndsLast(true)) && InFlight(p) + p.buffer != p.buffer + InFlight(p)
  }

  predicate Flushes(p: Part, entry: LogEntry) {
    |p.buffer| + 1 >= 100 || entry.isFinal
  }

  function StepPart(p: Part, a: Action): Part {
    match a
    case Nothing => p
    case Line(entry, ok) =>
      var q := p.(buffer := p.buffer + [entry], received := p.received + [entry]);
      if Flushes(p, entry) then FlushPart(CancelPart(q), ok) else q.(timer := true)
    case Take =>
      if !p.timer || p.flushing then p
      else if p.buffer == [] then p.(timer := false)
      else p.(buffer := [], flushing := true, flight := Some(p.buffer))
    case End(ok) => EndPart(p, ok)
    case Finish => if p.flushing && p.flight.None? then p.(timer := false, flushing := false) else p
    case Close(answers) =>
      var q := EndIf(FlushPart(EndIf(p, answers.timed.EndsFirst?, answers), answers.accepted), answers.timed.EndsLast?, answers);
      CancelPart(q.(swapped := q.swapped || SwapsPart(p, answers)))
  }

  lemma SendOnPart(w: World, at: string, batch: seq<LogEntry>, accepted: bool, now: Time, id: string)
    requires batch != []
    ensures PartOf(Send(w, at, batch, accepted, now).logs, id)
         == if id == at then SendPart(PartOf(w.logs, id), batch, accepted && at in w.store.evals) else PartOf(w.logs, id)
  {
    hide PlainNext, Combined;
  }

  lemma FlushOnPart(w: World, at: string, accepted: bool, now: Time, id: string)
    ensures PartOf(Flush(w, at, accepted, now).logs, id)
         == if id == at then FlushPart(PartOf(w.logs, id), accepted && at in w.store.evals) else PartOf(w.logs, id)
  {
    hide Send, SendPart;
    if BufferOf(w.logs, at) != [] {
      SendOnPart(w.(logs := Emptied(w.logs, at)), at, BufferOf(w.logs, at), accepted, now, id);
    }
  }

  lemma CancelOnPart(l: Logs, at: string, id: string)
    ensures PartOf(CancelTimer(l, at), id) == if id == at then CancelPart(PartOf(l, id)) else PartOf(l, id)
  {
  }

  lemma LineOnPart(w: World, at: string, entry: LogEntry, accepted: bool, now: Time, id: string)
    requires at != ""
    ensures PartOf(ReceiveLog(w, at, entry, accepted, now).logs, id)
         == if id == at then StepPart(PartOf(w.logs, id), Line(entry, accepted && at in w.store.evals)) else PartOf(w.logs, id)
  {
    hide Flush, FlushPart, CancelTimer, CancelPart;
    var l := Buffered(w.logs, at, entry);
    assert PartOf(l, id) == (var p := PartOf(w.logs, id);
      if id == at then p.(buffer := p.buffer + [entry], received := p.received + [entry]) else p);
    CancelOnPart(l, at, id);
    FlushOnPart(w.(logs := CancelTimer(l, at)), at, accepted, now, id);
  }

  lemma EndOnPart(w: World, at: string, accepted: bool, now: Time, id: string)
    ensures PartOf(EndRequest(w, at, accepted, now).logs, id)
         == if id == at then EndPart(PartOf(w.logs, id), accepted && at in w.store.evals) else PartOf(w.logs, id)
  {
    hide Send, SendPart;
    if FlightOf(w.logs, at) != [] {
      SendOnPart(w.(logs := w.logs.(flight := w.logs.flight - {at})), at, w.logs.flight[at], accepted, now, id);
    }
  }

  /** Log requests neither add records nor change a status. */
  predicate SameStatus(w: World, w': World, id: string) {
    (id in w'.store.evals <==> id in w.store.evals) && (id in w.store.evals ==> w'.store.evals[id].status == w.store.evals[id].status)
  }

  lemma KnownStays(w: World, at: string, accepted: bool, now: Time, id: string)
    ensures SameStatus(w, EndRequest(w, at, accepted, now), id)
    ensures SameStatus(w, Flush(w, at, accepted, now), id)
  {
    hide Send, Combined;
    if FlightOf(w.logs, at) != [] {
      SendKnown(w.(logs := w.logs.(flight := w.logs.flight - {at})), at, w.logs.flight[at], accepted, now, id);
    }
    if BufferOf(w.logs, at) != [] {
      SendKnown(w.(logs := Emptied(w.logs, at)), at, BufferOf(w.logs, at), accepted, now, id);
    }
  }

  lemma SendKnown(w: World, at: string, batch: seq<LogEntry>, accepted: bool, now: Time, id: string)
    requires batch != []
    ensures SameStatus(w, Send(w, at, batch, accepted, now), id)
  {
    hide Combined, Inline;
  }

  lemma CloseOnPart(w: World, at: string, answers: Answers, now: Time, id: string)
    requires at in w.store.evals
    ensures PartOf(CloseLogs(w, at, answers, now).logs, id)
         == if id == at then StepPart(PartOf(w.logs, id), Close(answers)) else PartOf(w.logs, id)
  {
    hide Flush, FlushPart, EndRequest, EndPart, CancelTimer, CancelPart;
    var ok := !answers.timed.Waits? && answers.timed.ok;
    var w0 := if answers.timed.EndsFirst? then EndRequest(w, at, ok, now) else w;
    EndOnPart(w, at, ok, now, id);
    KnownStays(w, at, ok, now, at);
    var w1 := Flush(w0, at, answers.accepted, now);
    FlushOnPart(w0, at, answers.accepted, now, id);
    KnownStays(w0, at, answers.accepted, now, at);
    var w2 := if answers.timed.EndsLast? then EndRequest(w1, at, ok, now) else w1;
    EndOnPart(w1, at, ok, now, id);
    FlushedBuffer(w0, at, answers.accepted, now);
    EndKeepsBuffer(w1, at, ok, now);
    var swaps := Swaps(w, at, answers);
    var l := w2.logs.(buffers := w2.logs.buffers - {at}, swapped := if swaps then w2.logs.swapped + {at} else w2.logs.swapped);
    ForgottenPart(w2.logs, at, swaps, id);
    CancelOnPart(l, at, id);
    assert id == at ==> (swaps <==> SwapsPart(PartOf(w.logs, id), answers));
    hide PartOf, Swaps, SwapsPart;
  }

  lemma ForgottenPart(l: Logs, at: string, swaps: bool, id: string)
    requires BufferOf(l, at) == []
    ensures PartOf(l.(buffers := l.buffers - {at}, swapped := if swaps then l.swapped + {at} else l.swapped), id)
         == if id == at then (var p := PartOf(l, id); p.(swapped := p.swapped || swaps)) else PartOf(l, id)
  {
  }

  lemma EndKeepsBuffer(w: World, at: string, accepted: bool, now: Time)
    ensures BufferOf(EndRequest(w, at, accepted, now).logs, at) == BufferOf(w.logs, at)
  {
    hide PlainNext, Combined;
  }

  lemma FlushedBuffer(w: World, at: string, accepted: bool, now: Time)
    ensures BufferOf(Flush(w, at, accepted, now).logs, at) == []
  {
    hide PlainNext, Combined;
  }

  lemma StatusOnPart(table: Table, w: World, h: Happening, id: string)
    requires h.Arrives? && !h.msg.LogMsg?
    ensures PartOf(NextWorld(table, w, h).logs, id) == StepPart(PartOf(w.logs, id), ActionOn(table, w, h, id))
  {
    hide CloseLogs, PlainNext, Amend, ValidateTransition, CancelPart, FlushPart, SendPart;
    var msg := h.msg;
    if msg.CompletedMsg? && Complete(msg) {
      var (store', ok) := ValidateAndUpdate(table, w.store, msg.id, Target(msg), Fields(msg), h.fault, h.now);
      AmendKeepsIds(w.store, msg.id, Fields(msg).(status := Some(Target(msg))), h.now);
      if ok { CloseOnPart(Unindexed(w.(store := store'), msg.id), msg.id, h.answers, h.now, id); }
    }
  }

  lemma AmendKeepsIds(p: Mem, id: string, req: Request, now: Time)
    ensures id in p.evals ==> id in Amend(p, id, req, now).evals
  {
  }

  lemma TimerOnPart(table: Table, w: World, h: Happening, id: string)
    requires h.TimerTakes? || h.TimerFinishes? || h.MarkerExpires?
    ensures PartOf(NextWorld(table, w, h).logs, id) == StepPart(PartOf(w.logs, id), ActionOn(table, w, h, id))
  {
    hide Handle, StepPart, PartOf, TakeBuffer, FinishTimer;
    NothingHappens(PartOf(w.logs, id));
    match h {
      case TimerTakes(at) => TakeOnPart(w.logs, at, id);
      case TimerFinishes(at) => FinishOnPart(w.logs, at, id);
      case _ =>
    }
  }

  lemma TakeOnPart(l: Logs, at: string, id: string)
    ensures PartOf(TakeBuffer(l, at), id) == if id == at then StepPart(PartOf(l, id), Take) else PartOf(l, id)
  {
    hide FlushPart, CancelPart, SendPart, PartOf, TakeBuffer;
    if id != at {
      TakeElsewhere(l, at, id);
    } else {
      TakeHere(l, id);
    }
  }

  lemma TakeElsewhere(l: Logs, at: string, id: string)
    requires id != at
    ensures PartOf(TakeBuffer(l, at), id) == PartOf(l, id)
  {
    if at in l.timers && at !in l.flushing && BufferOf(l, at) != [] {
      var l' := TakeBuffer(l, at);
      assert l' == Emptied(l, at).(flushing := l.flushing + {at}, flight := l.flight[at := l.buffers[at]]);
      hide TakeBuffer;
    }
  }

  lemma TakeHere(l: Logs, id: string)
    ensures PartOf(TakeBuffer(l, id), id) == StepPart(PartOf(l, id), Take)
  {
    hide FlushPart, CancelPart, SendPart;
  }

  lemma FinishOnPart(l: Logs, at: string, id: string)
    ensures PartOf(FinishTimer(l, at), id) == if id == at then StepPart(PartOf(l, id), Finish) else PartOf(l, id)
  {
    hide FlushPart, CancelPart, SendPart;
  }

  lemma StepOnPart(table: Table, w: World, h: Happening, id: string)
    ensures PartOf(NextWorld(table, w, h).logs, id) == StepPart(PartOf(w.logs, id), ActionOn(table, w, h, id))
  {
    hide StepPart, PartOf, EndRequest, ReceiveLog, ValidateAndUpdate;
    match h {
      case RequestEnds(at, accepted, now) => EndOnPart(w, at, accepted, now, id);
      case Arrives(msg, fault, answers, now) =>
        if !msg.LogMsg? {
          StatusOnPart(table, w, h, id);
        } else if msg.id != "" {
          LineOnPart(w, msg.id, msg.entry, answers.accepted, now, id);
        }
      case _ => TimerOnPart(table, w, h, id);
    }
    NothingHappens(PartOf(w.logs, id));
    EndStep(PartOf(w.logs, id));
  }

  lemma EndStep(p: Part)
    ensures forall ok :: StepPart(p, End(ok)) == EndPart(p, ok)
  {
  }

  lemma NothingHappens(p: Part)
    ensures StepPart(p, Nothing) == p
  {
  }

  function Actions(table: Table, w: World, run: seq<Happening>, id: string): seq<Action>
    decreases |run|
  {
    if run == [] then [] else [ActionOn(table, w, run[0], id)] + Actions(table, NextWorld(table, w, run[0]), run[1..], id)
  }

  function RunPart(p: Part, actions: seq<Action>): Part
    decreases |actions|
  {
    if actions == [] then p else RunPart(StepPart(p, actions[0]), actions[1..])
  }

  /** Seen from one evaluation, a run of the worker is a sequence of these actions. */
  lemma {:induction false} RunOnPart(table: Table, w: World, run: seq<Happening>, id: string)
    ensures PartOf(RunWorld(table, w, run).logs, id) == RunPart(PartOf(w.logs, id), Actions(table, w, run, id))
    decreases |run|
  {
    hide PartOf, StepPart, ActionOn, NextWorld;
    if run != [] {
      StepOnPart(table, w, run[0], id);
      RunOnPart(table, NextWorld(table, w, run[0]), run[1..], id);
    }
  }

  // ----- conservation and order -----

  /** What was received is what was posted, is in flight, is buffered or is lost. */
  predicate Counted(p: Part) {
    multiset(p.received) == multiset(Flatten(p.posted)) + multiset(InFlight(p)) + multiset(p.buffer) + multiset(p.lost)
  }

  /** While nothing is lost, `rest` is what is still to be posted, and what is posted is in order unless two batches were swapped. */
  predicate OrderedBefore(p: Part, rest: seq<LogEntry>) {
    var done := Flatten(p.posted);
    p.lost == [] ==>
      && |done| <= |p.received| && p.received[|done|..] == rest
      && (p.received[..|done|] == done <==> !p.swapped)
  }

  predicate Balanced(p: Part) {
    BatchesOk(p.posted) && Counted(p) && OrderedBefore(p, InFlight(p) + p.buffer)
  }

  /** A sleeping timer has something to flush, a flushing one is registered. */
  predicate TimersOk(p: Part) {
    && |p.buffer| < LOG_BATCH_SIZE
    && (p.flight.Some? ==> 1 <= |p.flight.value| <= LOG_BATCH_SIZE && p.flushing)
    && (p.flushing ==> p.timer)
    && (p.timer && !p.flushing ==> p.buffer != [])
  }

  predicate PartOk(p: Part) {
    Balanced(p) && TimersOk(p)
  }

  lemma SendCounted(p: Part, batch: seq<LogEntry>, ok: bool)
    requires BatchesOk(p.posted) && 1 <= |batch| <= LOG_BATCH_SIZE
    requires multiset(p.received) == multiset(Flatten(p.posted)) + multiset(InFlight(p)) + multiset(p.buffer) + multiset(p.lost) + multiset(batch)
    ensures BatchesOk(SendPart(p, batch, ok).posted) && Counted(SendPart(p, batch, ok))
  {
    FlattenSnoc(p.posted, batch);
    hide Flatten;
  }

  lemma LongerPrefix(received: seq<LogEntry>, done: seq<LogEntry>, batch: seq<LogEntry>, rest: seq<LogEntry>)
    requires |done| <= |received| && received[|done|..] == batch + rest
    ensures var more := done + batch;
      && |more| <= |received| && received[|more|..] == rest
      && (received[..|more|] == more <==> received[..|done|] == done)
  {
    var more := done + batch;
    assert received == received[..|done|] + (batch + rest);
    assert received[..|more|] == received[..|done|] + batch;
    if received[..|more|] == more {
      assert received[..|done|] == more[..|done|] == done;
    }
  }

  lemma SendOrdered(p: Part, batch: seq<LogEntry>, ok: bool, rest: seq<LogEntry>)
    requires OrderedBefore(p, batch + rest) && batch != []
    ensures OrderedBefore(SendPart(p, batch, ok), rest)
  {
    FlattenSnoc(p.posted, batch);
    hide Flatten;
    if p.lost == [] && ok {
      LongerPrefix(p.received, Flatten(p.posted), batch, rest);
    }
  }

  lemma FlushBalanced(p: Part, ok: bool)
    requires Balanced(p) && |p.buffer| <= LOG_BATCH_SIZE && InFlight(p) == []
    ensures Balanced(FlushPart(p, ok)) && FlushPart(p, ok).flight == p.flight && FlushPart(p, ok).buffer == []
  {
    hide Flatten, BatchesOk, OrderedBefore;
    if p.buffer != [] {
      var q := p.(buffer := []);
      assert [] + p.buffer == p.buffer + [] == p.buffer;
      SendCounted(q, p.buffer, ok);
      SameOrder(p, q, p.buffer);
      SendOrdered(q, p.buffer, ok, []);
      assert InFlight(SendPart(q, p.buffer, ok)) + [] == [];
    }
  }

  lemma SameOrder(p: Part, q: Part, rest: seq<LogEntry>)
    requires OrderedBefore(p, rest) && q.posted == p.posted && q.lost == p.lost && q.received == p.received && q.swapped == p.swapped
    ensures OrderedBefore(q, rest)
  {
  }

  lemma EndBalanced(p: Part, ok: bool)
    requires Balanced(p) && |InFlight(p)| <= LOG_BATCH_SIZE
    ensures Balanced(EndPart(p, ok)) && InFlight(EndPart(p, ok)) == [] && EndPart(p, ok).buffer == p.buffer
    ensures EndPart(p, ok).timer == p.timer
  {
    hide Flatten, BatchesOk, OrderedBefore;
    var batch := InFlight(p);
    if batch != [] {
      var q := p.(flight := None);
      SendCounted(q, batch, ok);
      SameOrder(p, q, batch + p.buffer);
      SendOrdered(q, batch, ok, p.buffer);
      assert [] + p.buffer == p.buffer;
    }
  }

  lemma CancelBalanced(p: Part)
    requires Balanced(p)
    ensures Balanced(CancelPart(p))
  {
    hide Flatten, BatchesOk;
  }

  /** Two batches carried out the wrong way round: the order breaks unless they say the same either way. */
  lemma SwappedPrefix(received: seq<LogEntry>, done: seq<LogEntry>, first: seq<LogEntry>, second: seq<LogEntry>)
    requires |done| <= |received| && received[|done|..] == first + second
    ensures var more := done + second + first;
      && |more| == |received|
      && (received == more <==> received[..|done|] == done && first + second == second + first)
  {
    var more := done + second + first;
    assert received == received[..|done|] + (first + second);
    assert more == done + (second + first);
    if received == more {
      assert received[..|done|] == more[..|done|] == done;
      assert more[|done|..] == second + first;
    }
  }

  /** The leftovers carried out, and then the batch in flight. */
  function BothSent(p: Part): Part
    requires p.flight.Some?
  {
    SendPart(SendPart(p.(buffer := []), p.buffer, true).(flight := None), p.flight.value, true)
  }

  lemma BothCounted(p: Part)
    requires BatchesOk(p.posted) && Counted(p) && TimersOk(p) && p.flight.Some? && p.buffer != []
    ensures BatchesOk(BothSent(p).posted) && Counted(BothSent(p))
  {
    hide Flatten, BatchesOk;
    var p1 := SendPart(p.(buffer := []), p.buffer, true);
    SendCounted(p.(buffer := []), p.buffer, true);
    SendCounted(p1.(flight := None), p.flight.value, true);
  }

  lemma BothOrdered(p: Part, swapped: bool)
    requires OrderedBefore(p, InFlight(p) + p.buffer) && p.flight.Some?
    requires swapped <==> p.swapped || InFlight(p) + p.buffer != p.buffer + InFlight(p)
    ensures OrderedBefore(BothSent(p).(swapped := swapped), [])
  {
    hide Flatten;
    var first, second, done := InFlight(p), p.buffer, Flatten(p.posted);
    FlattenSnoc(p.posted, second);
    FlattenSnoc(p.posted + [second], first);
    assert Flatten(BothSent(p).posted) == done + second + first;
    if p.lost == [] {
      SwappedPrefix(p.received, done, first, second);
      assert p.received[..|p.received|] == p.received && p.received[|p.received|..] == [];
    }
  }

  lemma SwapBalanced(p: Part)
    requires PartOk(p) && p.flight.Some? && p.buffer != []
    ensures Balanced(StepPart(p, Close(Answers(true, EndsLast(true)))))
  {
    hide BatchesOk, Counted, OrderedBefore, CancelPart, SendPart;
    var swapped := p.swapped || SwapsPart(p, Answers(true, EndsLast(true)));
    var q := BothSent(p).(swapped := swapped);
    BothCounted(p);
    BothOrdered(p, swapped);
    SwapCounted(BothSent(p), swapped);
    BothLeaves(p);
    assert [] + [] == InFlight(q) + q.buffer;
    CancelBalanced(q);
    CloseSendsBoth(p);
    hide Balanced, StepPart, BothSent, SwapsPart;
  }

  lemma BothLeaves(p: Part)
    requires p.flight.Some?
    ensures BothSent(p).buffer == [] && BothSent(p).flight == None
  {
  }

  lemma CloseSendsBoth(p: Part)
    requires TimersOk(p) && p.flight.Some? && p.buffer != []
    ensures var answers := Answers(true, EndsLast(true));
      StepPart(p, Close(answers)) == CancelPart(BothSent(p).(swapped := p.swapped || SwapsPart(p, answers)))
  {
    hide CancelPart, SwapsPart;
  }

  /** Once something is lost, only the counts matter. */
  lemma CountedIsBalanced(p: Part)
    requires BatchesOk(p.posted) && Counted(p) && p.lost != []
    ensures Balanced(p)
  {
  }

  lemma FlushCounted(p: Part, ok: bool)
    requires Balanced(p) && |p.buffer| <= LOG_BATCH_SIZE
    ensures var q := FlushPart(p, ok);
      && BatchesOk(q.posted) && Counted(q) && q.flight == p.flight && q.timer == p.timer && q.buffer == []
      && (p.buffer != [] && !ok ==> q.lost != []) && (p.lost != [] ==> q.lost != []) && (p.buffer == [] ==> q == p)
  {
    hide Flatten, BatchesOk, OrderedBefore;
    if p.buffer != [] {
      SendCounted(p.(buffer := []), p.buffer, ok);
    }
  }

  lemma EndCounted(p: Part, ok: bool)
    requires BatchesOk(p.posted) && Counted(p) && |InFlight(p)| <= LOG_BATCH_SIZE
    ensures var q := EndPart(p, ok);
      && BatchesOk(q.posted) && Counted(q) && InFlight(q) == [] && q.buffer == p.buffer && q.timer == p.timer
      && (InFlight(p) != [] && !ok ==> q.lost != []) && (p.lost != [] ==> q.lost != [])
  {
    hide Flatten, BatchesOk;
    if InFlight(p) != [] {
      SendCounted(p.(flight := None), InFlight(p), ok);
    }
  }

  lemma CancelCounted(p: Part)
    requires BatchesOk(p.posted) && Counted(p)
    ensures var q := CancelPart(p);
      BatchesOk(q.posted) && Counted(q) && (p.lost != [] || (p.timer && InFlight(p) != []) ==> q.lost != [])
  {
    hide Flatten, BatchesOk;
  }

  /** Nothing in flight, or it ends first: the completion's flush is in order. */
  lemma CloseInOrder(p: Part, answers: Answers)
    requires PartOk(p) && (InFlight(p) == [] || answers.timed.EndsFirst?)
    ensures Balanced(StepPart(p, Close(answers)))
  {
    hide Balanced, FlushPart, EndPart, CancelPart;
    var ok := !answers.timed.Waits? && answers.timed.ok;
    EndBalanced(p, ok);
    NothingEnds(p, ok);
    var p0 := EndIf(p, answers.timed.EndsFirst?, answers);
    FlushBalanced(p0, answers.accepted);
    var p1 := FlushPart(p0, answers.accepted);
    NothingEnds(p1, ok);
    NotSwapped(p, answers);
    assert EndIf(p1, answers.timed.EndsLast?, answers) == p1;
    CancelBalanced(p1);
    assert p1.(swapped := p1.swapped || SwapsPart(p, answers)) == p1;
  }

  lemma NothingEnds(p: Part, ok: bool)
    ensures InFlight(p) == [] ==> EndPart(p, ok) == p
  {
  }

  lemma NotSwapped(p: Part, answers: Answers)
    ensures InFlight(p) == [] || answers.timed.EndsFirst? ==> !SwapsPart(p, answers)
  {
    assert [] + p.buffer == p.buffer == p.buffer + [];
  }

  /** Something in flight, and it stays there or fails, or the leftovers fail: then lines are lost. */
  lemma CloseLosing(p: Part, answers: Answers)
    requires PartOk(p) && p.flight.Some? && !answers.timed.EndsFirst?
    requires answers.timed.Waits? || !answers.timed.ok || (p.buffer != [] && !answers.accepted)
    ensures Balanced(StepPart(p, Close(answers)))
  {
    hide Counted, OrderedBefore, FlushPart, EndPart, CancelPart, BatchesOk;
    var ok := !answers.timed.Waits? && answers.timed.ok;
    var p1 := FlushPart(p, answers.accepted);
    FlushCounted(p, answers.accepted);
    var p2 := EndIf(p1, answers.timed.EndsLast?, answers);
    EndCounted(p1, ok);
    var q := p2.(swapped := p2.swapped || SwapsPart(p, answers));
    SwapCounted(p2, q.swapped);
    CancelCounted(q);
    CountedIsBalanced(CancelPart(q));
    hide Balanced;
  }

  lemma SwapCounted(p: Part, swapped: bool)
    ensures Counted(p.(swapped := swapped)) <==> Counted(p)
  {
    hide Flatten;
  }

  /** Nothing buffered: a request that ends last ends first. */
  lemma CloseEmpty(p: Part, answers: Answers)
    requires PartOk(p) && p.buffer == [] && answers.timed.EndsLast?
    ensures Balanced(StepPart(p, Close(answers)))
  {
    hide Balanced, EndPart, CancelPart;
    var ok := answers.timed.ok;
    assert FlushPart(p, answers.accepted) == p;
    EndBalanced(p, ok);
    assert !SwapsPart(p, answers) by { assert InFlight(p) + [] == InFlight(p) == [] + InFlight(p); }
    var q := EndPart(p, ok);
    assert q.(swapped := q.swapped || SwapsPart(p, answers)) == q;
    CancelBalanced(q);
  }

  lemma CloseBalanced(p: Part, answers: Answers)
    requires PartOk(p)
    ensures Balanced(StepPart(p, Close(answers)))
  {
    hide Balanced, StepPart;
    if InFlight(p) == [] || answers.timed.EndsFirst? {
      CloseInOrder(p, answers);
    } else if answers.timed.Waits? || !answers.timed.ok || (p.buffer != [] && !answers.accepted) {
      CloseLosing(p, answers);
    } else if p.buffer == [] {
      CloseEmpty(p, answers);
    } else {
      SwapBalanced(p);
      assert answers == Answers(true, EndsLast(true));
    }
  }

  lemma BufferedCounted(p: Part, entry: LogEntry)
    requires Counted(p)
    ensures Counted(p.(buffer := p.buffer + [entry], received := p.received + [entry]))
  {
    hide Flatten;
  }

  lemma BufferedOrdered(p: Part, entry: LogEntry)
    requires OrderedBefore(p, InFlight(p) + p.buffer)
    ensures OrderedBefore(p.(buffer := p.buffer + [entry], received := p.received + [entry]), InFlight(p) + (p.buffer + [entry]))
  {
    hide Flatten, InFlight;
    var done, rest := Flatten(p.posted), InFlight(p) + p.buffer;
    if p.lost == [] {
      assert (p.received + [entry])[|done|..] == rest + [entry] == InFlight(p) + (p.buffer + [entry]);
      assert (p.received + [entry])[..|done|] == p.received[..|done|];
    }
  }

  lemma BufferedBalanced(p: Part, entry: LogEntry)
    requires Balanced(p)
    ensures Balanced(p.(buffer := p.buffer + [entry], received := p.received + [entry]))
  {
    hide Counted, OrderedBefore, BatchesOk;
    BufferedCounted(p, entry);
    BufferedOrdered(p, entry);
  }

  lemma LineBalanced(p: Part, entry: LogEntry, ok: bool)
    requires PartOk(p)
    ensures Balanced(StepPart(p, Line(entry, ok)))
  {
    hide Flatten, BatchesOk, Counted, OrderedBefore, FlushPart, CancelPart;
    var q := p.(buffer := p.buffer + [entry], received := p.received + [entry]);
    BufferedBalanced(p, entry);
    CancelBalanced(q);
    CancelledPart(q);
    FlushBalanced(CancelPart(q), ok);
    TimerOnly(q);
  }

  lemma TimerOnly(p: Part)
    requires Balanced(p)
    ensures Balanced(p.(timer := true))
  {
    hide Flatten, BatchesOk;
  }

  lemma CancelledPart(p: Part)
    ensures CancelPart(p).buffer == p.buffer && (p.timer || p.flight.None? ==> InFlight(CancelPart(p)) == [])
  {
  }

  lemma QuietBalanced(p: Part, a: Action)
    requires PartOk(p) && (a.Nothing? || a.Take? || a.Finish?)
    ensures Balanced(StepPart(p, a))
  {
    hide Flatten, BatchesOk;
    assert [] + p.buffer == p.buffer == p.buffer + [];
  }

  lemma StepBalanced(p: Part, a: Action)
    requires PartOk(p)
    ensures Balanced(StepPart(p, a))
  {
    hide Balanced, StepPart;
    match a {
      case Line(entry, ok) => LineBalanced(p, entry, ok);
      case Close(answers) => CloseBalanced(p, answers);
      case End(ok) =>
        EndBalanced(p, ok);
        EndStep(p);
      case _ => QuietBalanced(p, a);
    }
  }

  lemma CloseTimersOk(p: Part, answers: Answers)
    requires TimersOk(p)
    ensures TimersOk(StepPart(p, Close(answers)))
  {
    hide SwapsPart;
  }

  lemma StepTimersOk(p: Part, a: Action)
    requires TimersOk(p)
    ensures TimersOk(StepPart(p, a))
  {
    if a.Close? {
      hide StepPart, TimersOk;
      CloseTimersOk(p, a.answers);
    }
  }

  lemma {:induction false} PartStaysOk(p: Part, actions: seq<Action>)
    requires PartOk(p)
    ensures PartOk(RunPart(p, actions))
    decreases |actions|
  {
    hide Balanced, TimersOk, StepPart;
    if actions != [] {
      StepBalanced(p, actions[0]);
      StepTimersOk(p, actions[0]);
      PartStaysOk(StepPart(p, actions[0]), actions[1..]);
    }
  }

  /**
   Over every run of the worker each line received is posted, in flight, buffered
   or lost, once; batches hold 1 to 100; and the order is kept exactly if nothing
   is lost and no timed batch was carried out after the leftovers of a completion
   that came after it.
   */
  lemma RunConservesLogs(table: Table, w: World, run: seq<Happening>, id: string)
    requires PartOk(PartOf(w.logs, id))
    ensures var p := PartOf(RunWorld(table, w, run).logs, id);
      PartOk(p) && (p.received == Flatten(p.posted) + InFlight(p) + p.buffer <==> p.lost == [] && !p.swapped)
  {
    RunOnPart(table, w, run, id);
    PartStaysOk(PartOf(w.logs, id), Actions(table, w, run, id));
    hide PartOf, Actions, RunPart, RunWorld, StepPart;
    InOrder(PartOf(RunWorld(table, w, run).logs, id));
  }

  lemma InOrder(p: Part)
    requires Balanced(p)
    ensures p.received == Flatten(p.posted) + InFlight(p) + p.buffer <==> p.lost == [] && !p.swapped
  {
    hide Flatten, BatchesOk, InFlight;
    var done, rest := Flatten(p.posted), InFlight(p) + p.buffer;
    assert done + InFlight(p) + p.buffer == done + rest;
    if p.lost == [] {
      hide Counted;
      assert p.received == p.received[..|done|] + rest;
      if p.received == done + rest { assert p.received[..|done|] == done; }
    } else {
      KeptIsShorter(p);
    }
  }

  lemma KeptIsShorter(p: Part)
    requires Counted(p)
    ensures |p.received| == |Flatten(p.posted)| + |InFlight(p)| + |p.buffer| + |p.lost|
  {
    hide Flatten, InFlight;
    var done, flight := Flatten(p.posted), InFlight(p);
    assert |multiset(p.received)| == |p.received| && |multiset(done)| == |done| && |multiset(flight)| == |flight|;
    assert |multiset(p.buffer)| == |p.buffer| && |multiset(p.lost)| == |p.lost|;
  }

  /** A request that is not carried out, or one cancelled while in flight. */
  predicate Loses(p: Part, a: Action) {
    match a
    case Line(entry, ok) => Flushes(p, entry) && (!ok || p.flight.Some?)
    case Close(answers) =>
      || (p.buffer != [] && !answers.accepted)
      || (p.flight.Some? && (answers.timed.Waits? || !answers.timed.ok))
    case End(ok) => p.flight.Some? && !ok
    case _ => false
  }

  /**
   Lines are lost exactly by a log request that is refused or meets no record, and
   by a final line, a full buffer or a completion that overtakes a timed request in
   flight.
   */
  lemma LostExactlyWhen(table: Table, w: World, h: Happening, id: string)
    requires TimersOk(PartOf(w.logs, id))
    ensures LostOf(NextWorld(table, w, h).logs, id) != LostOf(w.logs, id)
       <==> Loses(PartOf(w.logs, id), ActionOn(table, w, h, id))
  {
    hide NextWorld, ActionOn;
    StepOnPart(table, w, h, id);
    LostByStep(PartOf(w.logs, id), ActionOn(table, w, h, id));
  }

  lemma LostByFlush(p: Part, ok: bool)
    ensures var q := FlushPart(p, ok);
      && (if ok || p.buffer == [] then q.lost == p.lost else |q.lost| > |p.lost|)
      && q.flight == p.flight && q.timer == p.timer
  {
  }

  lemma LostByCancel(p: Part)
    ensures var q := CancelPart(p);
      && (if !p.timer || InFlight(p) == [] then q.lost == p.lost else |q.lost| > |p.lost|)
      && q.buffer == p.buffer
  {
    assert p.lost + [] == p.lost;
  }

  lemma LostByEnd(p: Part, ok: bool)
    ensures var q := EndPart(p, ok);
      && (if ok || InFlight(p) == [] then q.lost == p.lost else |q.lost| > |p.lost|)
      && InFlight(q) == [] && q.buffer == p.buffer && q.timer == p.timer
  {
  }

  lemma LostByClose(p: Part, answers: Answers)
    requires TimersOk(p)
    ensures StepPart(p, Close(answers)).lost != p.lost <==> Loses(p, Close(answers))
  {
    hide FlushPart, CancelPart, EndPart, SwapsPart;
    var ok := !answers.timed.Waits? && answers.timed.ok;
    LostByEnd(p, ok);
    var p0 := EndIf(p, answers.timed.EndsFirst?, answers);
    LostByFlush(p0, answers.accepted);
    var p1 := FlushPart(p0, answers.accepted);
    LostByEnd(p1, ok);
    var p2 := EndIf(p1, answers.timed.EndsLast?, answers);
    LostByCancel(p2.(swapped := p2.swapped || SwapsPart(p, answers)));
  }

  lemma LostByLine(p: Part, entry: LogEntry, ok: bool)
    requires TimersOk(p)
    ensures StepPart(p, Line(entry, ok)).lost != p.lost <==> Loses(p, Line(entry, ok))
  {
    hide FlushPart, CancelPart;
    var q := p.(buffer := p.buffer + [entry], received := p.received + [entry]);
    LostByCancel(q);
    LostByFlush(CancelPart(q), ok);
  }

  lemma LostByStep(p: Part, a: Action)
    requires TimersOk(p)
    ensures StepPart(p, a).lost != p.lost <==> Loses(p, a)
  {
    hide FlushPart, CancelPart, EndPart, SwapsPart;
    match a {
      case Line(entry, ok) => LostByLine(p, entry, ok);
      case Close(answers) => LostByClose(p, answers);
      case End(ok) => LostByEnd(p, ok);
      case _ =>
    }
  }

  // ----- timers -----

  /** Something in the buffer will be flushed. */
  predicate Watched(p: Part) {
    p.buffer != [] ==> p.timer
  }

  /** One step keeps the buffer watched exactly unless it finishes a timed flush beside a non-empty buffer. */
  lemma WatchedExactlyUnless(table: Table, w: World, h: Happening, id: string)
    requires TimersOk(PartOf(w.logs, id)) && Watched(PartOf(w.logs, id))
    ensures var p := PartOf(w.logs, id);
      Watched(PartOf(NextWorld(table, w, h).logs, id))
      <==> !(h == TimerFinishes(id) && p.flushing && p.flight.None? && p.buffer != [])
  {
    hide NextWorld;
    StepOnPart(table, w, h, id);
    hide ActionOn;
    FinishOnly(table, w, h, id);
    WatchedStep(PartOf(w.logs, id), ActionOn(table, w, h, id));
  }

  lemma FinishOnly(table: Table, w: World, h: Happening, id: string)
    ensures ActionOn(table, w, h, id) == Finish <==> h == TimerFinishes(id)
  {
    hide ValidateAndUpdate;
  }

  lemma WatchedStep(p: Part, a: Action)
    requires TimersOk(p) && Watched(p)
    ensures Watched(StepPart(p, a)) <==> !(a == Finish && p.flushing && p.flight.None? && p.buffer != [])
  {
  }

  /** The timer's task stays in its request. */
  predicate StaysFlushing(p: Part, actions: seq<Action>)
    decreases |actions|
  {
    p.flushing && (actions != [] ==> StaysFlushing(StepPart(p, actions[0]), actions[1..]))
  }

  function Lines(actions: seq<Action>): seq<LogEntry> {
    if actions == [] then [] else (if actions[0].Line? then [actions[0].entry] else []) + Lines(actions[1..])
  }

  lemma CancelStops(p: Part, ok: bool)
    requires p.timer
    ensures !CancelPart(p).flushing && !FlushPart(CancelPart(p), ok).flushing
  {
  }

  lemma CloseStops(p: Part, answers: Answers)
    requires p.timer
    ensures !StepPart(p, Close(answers)).flushing
  {
    hide FlushPart, EndPart, SwapsPart;
    var ok := !answers.timed.Waits? && answers.timed.ok;
    var p0 := EndIf(p, answers.timed.EndsFirst?, answers);
    LostByEnd(p, ok);
    LostByFlush(p0, answers.accepted);
    LostByEnd(FlushPart(p0, answers.accepted), ok);
  }

  lemma LineWhileFlushing(p: Part, a: Action)
    requires TimersOk(p) && p.flushing && StepPart(p, a).flushing
    ensures StepPart(p, a).buffer == p.buffer + if a.Line? then [a.entry] else []
  {
    hide FlushPart, CancelPart, EndPart, SwapsPart;
    assert p.buffer + [] == p.buffer;
    match a {
      case Line(entry, ok) => CancelStops(p.(buffer := p.buffer + [entry], received := p.received + [entry]), ok);
      case Close(answers) => CloseStops(p, answers);
      case End(ok) => LostByEnd(p, ok);
      case _ =>
    }
  }

  lemma NowFlushing(p: Part, actions: seq<Action>)
    requires StaysFlushing(p, actions)
    ensures p.flushing
  {
  }

  lemma {:induction false} BufferWhileFlushing(p: Part, actions: seq<Action>)
    requires TimersOk(p) && StaysFlushing(p, actions)
    ensures TimersOk(RunPart(p, actions)) && RunPart(p, actions).flushing && RunPart(p, actions).buffer == p.buffer + Lines(actions)
    decreases |actions|
  {
    hide TimersOk, StepPart;
    if actions != [] {
      var a, p' := actions[0], StepPart(p, actions[0]);
      StepTimersOk(p, a);
      NowFlushing(p', actions[1..]);
      LineWhileFlushing(p, a);
      BufferWhileFlushing(p', actions[1..]);
      assert p.buffer + Lines(actions) == p.buffer + (if a.Line? then [a.entry] else []) + Lines(actions[1..]);
      hide Lines, RunPart, StaysFlushing;
    }
  }

  /**
   A timed flush, from taking the buffer to its end with anything in between that
   does not cancel it: afterwards the buffer is watched exactly if no line of that
   evaluation arrived meanwhile.
   */
  lemma TimedFlushStrandsExactlyWhen(table: Table, w: World, run: seq<Happening>, id: string)
    requires TimersOk(PartOf(w.logs, id)) && id in w.logs.timers && id !in w.logs.flushing
    requires var w1 := NextWorld(table, w, TimerTakes(id));
      StaysFlushing(PartOf(w1.logs, id), Actions(table, w1, run, id)) && id !in RunWorld(table, w1, run).logs.flight
    ensures var w1 := NextWorld(table, w, TimerTakes(id));
      var w2 := NextWorld(table, RunWorld(table, w1, run), TimerFinishes(id));
      Watched(PartOf(w2.logs, id)) <==> Lines(Actions(table, w1, run, id)) == []
  {
    var w1 := NextWorld(table, w, TimerTakes(id));
    StepOnPart(table, w, TimerTakes(id), id);
    StepOnPart(table, RunWorld(table, w1, run), TimerFinishes(id), id);
    hide NextWorld, RunWorld, Actions;
    RunOnPart(table, w1, run, id);
    BufferWhileFlushing(PartOf(w1.logs, id), Actions(table, w1, run, id));
    hide RunPart, StaysFlushing, Lines;
  }

  // ----- three short runs -----

  const QUIET := Answers(true, Waits)

  function Submission(id: string, code: string): Happening {
    Arrives(SubmittedMsg(id, code, None, map[]), NoFault, QUIET, 0)
  }

  function LineOf(id: string, entry: LogEntry): Happening {
    Arrives(LogMsg(id, entry), NoFault, QUIET, 0)
  }

  /** A line arrives, its timer fires, and another line arrives during the request. */
  function Overtaken(id: string, first: LogEntry, next: LogEntry): seq<Happening> {
    [LineOf(id, first), TimerTakes(id), LineOf(id, next)]
  }

  lemma RunStep(table: Table, w: World, run: seq<Happening>)
    requires run != []
    ensures RunWorld(table, w, run) == RunWorld(table, NextWorld(table, w, run[0]), run[1..])
  {
  }

  /** Nothing is kept of the id yet, but its record exists. */
  predicate Fresh(w: World, id: string) {
    id != "" && id in w.store.evals && PartOf(w.logs, id) == Part([], None, [], [], [], false, false, false)
  }

  lemma SubmittedIsFresh(table: Table, id: string, code: string)
    requires id != "" && code != ""
    ensures Fresh(NextWorld(table, EMPTY_WORLD, Submission(id, code)), id)
  {
  }

  lemma KnownStep(table: Table, w: World, h: Happening, id: string)
    requires id in w.store.evals && (h.Arrives? ==> h.msg.LogMsg?)
    ensures SameStatus(w, NextWorld(table, w, h), id)
    ensures PartOf(NextWorld(table, w, h).logs, id) == StepPart(PartOf(w.logs, id), ActionOn(table, w, h, id))
  {
    StepOnPart(table, w, h, id);
    hide StepPart, PartOf, ActionOn, Flush, EndRequest;
    if h.Arrives? {
      var l := Buffered(w.logs, h.msg.id, h.msg.entry);
      KnownStays(w.(logs := CancelTimer(l, h.msg.id)), h.msg.id, h.answers.accepted, h.now, id);
    } else if h.RequestEnds? {
      KnownStays(w, h.id, h.accepted, h.now, id);
    }
  }

  lemma OvertakenPart(table: Table, w: World, id: string, first: LogEntry, next: LogEntry)
    requires Fresh(w, id) && !first.isFinal
    ensures var w' := RunWorld(table, w, Overtaken(id, first, next));
      && SameStatus(w, w', id)
      && PartOf(w'.logs, id) == StepPart(Part([], Some([first]), [], [first], [], false, true, true), Line(next, true))
  {
    hide NextWorld, PartOf;
    var w1 := NextWorld(table, w, LineOf(id, first));
    var w2 := NextWorld(table, w1, TimerTakes(id));
    KnownStep(table, w, LineOf(id, first), id);
    KnownStep(table, w1, TimerTakes(id), id);
    KnownStep(table, w2, LineOf(id, next), id);
    assert [] + [first] == [first];
    assert PartOf(w2.logs, id) == Part([], Some([first]), [], [first], [], false, true, true);
    hide StepPart;
    var run := Overtaken(id, first, next);
    RunStep(table, w, run);
    RunStep(table, w1, run[1..]);
    RunStep(table, w2, run[2..]);
  }

  lemma {:induction false} RunsOn(table: Table, w: World, run: seq<Happening>, more: seq<Happening>)
    ensures RunWorld(table, w, run + more) == RunWorld(table, RunWorld(table, w, run), more)
    decreases |run|
  {
    hide NextWorld;
    if run == [] {
      assert run + more == more;
    } else {
      assert (run + more)[1..] == run[1..] + more;
      RunsOn(table, NextWorld(table, w, run[0]), run[1..], more);
    }
  }

  /** The second line stays in the buffer without a timer, though every request was carried out. */
  lemma StrandedLine(table: Table, id: string, code: string, first: LogEntry, next: LogEntry)
    requires id != "" && code != "" && !first.isFinal && !next.isFinal
    ensures var run := [Submission(id, code)] + Overtaken(id, first, next) + [RequestEnds(id, true, 0), TimerFinishes(id)];
      var p := PartOf(RunWorld(table, EMPTY_WORLD, run).logs, id);
      !Watched(p) && p == Part([next], None, [[first]], [first, next], [], false, false, false)
  {
    hide NextWorld, PartOf;
    var w1 := NextWorld(table, EMPTY_WORLD, Submission(id, code));
    SubmittedIsFresh(table, id, code);
    OvertakenPart(table, w1, id, first, next);
    var w2 := RunWorld(table, w1, Overtaken(id, first, next));
    var w3 := NextWorld(table, w2, RequestEnds(id, true, 0));
    KnownStep(table, w2, RequestEnds(id, true, 0), id);
    KnownStep(table, w3, TimerFinishes(id), id);
    assert PartOf(NextWorld(table, w3, TimerFinishes(id)).logs, id) == Part([next], None, [[first]], [first, next], [], false, false, false);
    RunFromSubmission(table, id, code, Overtaken(id, first, next), [RequestEnds(id, true, 0), TimerFinishes(id)]);
    RunStep(table, w2, [RequestEnds(id, true, 0), TimerFinishes(id)]);
    RunStep(table, w3, [TimerFinishes(id)]);
  }

  lemma RunFromSubmission(table: Table, id: string, code: string, run: seq<Happening>, more: seq<Happening>)
    ensures RunWorld(table, EMPTY_WORLD, [Submission(id, code)] + run + more)
         == RunWorld(table, RunWorld(table, NextWorld(table, EMPTY_WORLD, Submission(id, code)), run), more)
  {
    hide NextWorld;
    var whole := [Submission(id, code)] + run + more;
    assert whole[1..] == run + more;
    RunStep(table, EMPTY_WORLD, whole);
    RunsOn(table, NextWorld(table, EMPTY_WORLD, whole[0]), run, more);
  }

  /** A final line that overtakes the request loses the first one. */
  lemma LostLine(table: Table, id: string, code: string, first: LogEntry, next: LogEntry)
    requires id != "" && code != "" && !first.isFinal && next.isFinal
    ensures var run := [Submission(id, code)] + Overtaken(id, first, next);
      PartOf(RunWorld(table, EMPTY_WORLD, run).logs, id) == Part([], None, [[next]], [first, next], [first], false, false, false)
  {
    hide NextWorld, PartOf;
    var w1 := NextWorld(table, EMPTY_WORLD, Submission(id, code));
    SubmittedIsFresh(table, id, code);
    OvertakenPart(table, w1, id, first, next);
    LossOfOne(first, next);
    RunFromSubmission(table, id, code, Overtaken(id, first, next), []);
    assert [Submission(id, code)] + Overtaken(id, first, next) + [] == [Submission(id, code)] + Overtaken(id, first, next);
  }

  lemma LossOfOne(first: LogEntry, next: LogEntry)
    requires next.isFinal
    ensures StepPart(Part([], Some([first]), [], [first], [], false, true, true), Line(next, true))
         == Part([], None, [[next]], [first, next], [first], false, false, false)
  {
    var p := Part([], Some([first]), [], [first], [], false, true, true);
    var q := p.(buffer := p.buffer + [next], received := p.received + [next]);
    assert q == Part([next], Some([first]), [], [first, next], [], false, true, true);
    assert [] + [first] == [first];
    var r := Part([next], None, [], [first, next], [first], false, false, false);
    assert CancelPart(q) == r;
    assert FlushPart(r, true) == Part([], None, [[next]], [first, next], [first], false, false, false);
    assert Flushes(p, next);
    hide CancelPart, FlushPart;
  }

  /** A completion whose leftovers overtake the request swaps the two lines, and loses none. */
  lemma SwappedLines(table: Table, w: World, id: string, first: LogEntry, next: LogEntry, output: string)
    requires Fresh(w, id) && ValidateTransition(table, w.store.evals[id].status, Completed) == Accept
    requires first != next && !first.isFinal && !next.isFinal
    ensures var done := Arrives(CompletedMsg(id, output, "", map[]), NoFault, Answers(true, EndsLast(true)), 0);
      PartOf(RunWorld(table, w, Overtaken(id, first, next) + [done]).logs, id)
      == Part([], None, [[next], [first]], [first, next], [], true, false, false)
  {
    hide NextWorld, PartOf, ValidateTransition, Amend;
    var done := Arrives(CompletedMsg(id, output, "", map[]), NoFault, Answers(true, EndsLast(true)), 0);
    OvertakenPart(table, w, id, first, next);
    var w' := RunWorld(table, w, Overtaken(id, first, next));
    StepOnPart(table, w', done, id);
    assert ActionOn(table, w', done, id) == Close(Answers(true, EndsLast(true)));
    SwapOfTwo(first, next);
    RunsOn(table, w, Overtaken(id, first, next), [done]);
    RunStep(table, w', [done]);
  }

  lemma SwapOfTwo(first: LogEntry, next: LogEntry)
    requires first != next && !next.isFinal
    ensures var p := StepPart(Part([], Some([first]), [], [first], [], false, true, true), Line(next, true));
      StepPart(p, Close(Answers(true, EndsLast(true)))) == Part([], None, [[next], [first]], [first, next], [], true, false, false)
  {
    var p := StepPart(Part([], Some([first]), [], [first], [], false, true, true), Line(next, true));
    assert p == Part([next], Some([first]), [], [first, next], [], false, true, true);
    assert ([first] + [next])[0] != ([next] + [first])[0];
  }

  // ----- shutdown -----

  function ShutPart(p: Part, ok: bool): Part {
    FlushPart(CancelPart(p), ok)
  }

  lemma CloseTimerOnPart(w: World, at: string, accepted: bool, now: Time, id: string)
    ensures var w' := CloseTimer(w, at, accepted, now);
      && (id in w'.store.evals <==> id in w.store.evals)
      && PartOf(w'.logs, id)
         == if id == at then ShutPart(PartOf(w.logs, id), accepted && id in w.store.evals) else PartOf(w.logs, id)
  {
    hide Flush, FlushPart, CancelTimer, CancelPart;
    CancelOnPart(w.logs, at, id);
    FlushOnPart(w.(logs := CancelTimer(w.logs, at)), at, accepted, now, id);
    KnownStays(w.(logs := CancelTimer(w.logs, at)), at, accepted, now, id);
  }

  lemma {:induction false} CloseTimersOnPart(w: World, ids: seq<string>, refused: set<string>, now: Time, id: string)
    requires Distinct(ids)
    ensures var w' := CloseTimers(w, ids, refused, now);
      && (id in w'.store.evals <==> id in w.store.evals)
      && PartOf(w'.logs, id)
         == if id in ids then ShutPart(PartOf(w.logs, id), id !in refused && id in w.store.evals) else PartOf(w.logs, id)
    decreases |ids|
  {
    hide CloseTimer, ShutPart, PartOf, Distinct;
    if ids != [] {
      var n := |ids| - 1;
      FrontDistinct(ids);
      CloseTimersOnPart(w, ids[..n], refused, now, id);
      CloseTimerOnPart(CloseTimers(w, ids[..n], refused, now), ids[n], ids[n] !in refused, now, id);
    }
  }

  lemma FrontDistinct(ids: seq<string>)
    requires Distinct(ids) && ids != []
    ensures var n := |ids| - 1; Distinct(ids[..n]) && ids[n] !in ids[..n] && forall id :: id in ids <==> id == ids[n] || id in ids[..n]
  {
    var n := |ids| - 1;
    assert ids == ids[..n] + [ids[n]];
  }

  lemma ShutPartPosts(p: Part, ok: bool, closed: bool)
    requires PartOk(p) && (closed <==> p.timer)
    ensures var q := if closed then ShutPart(p, ok) else p;
      && (multiset(q.received) == multiset(Flatten(q.posted))
          <==> p.lost == [] && p.flight.None? && Watched(p) && (p.buffer != [] ==> ok))
      && (q.received == Flatten(q.posted) <==> multiset(q.received) == multiset(Flatten(q.posted)) && !p.swapped)
  {
    hide Flatten, BatchesOk, FlushPart, Balanced;
    var q := if closed then ShutPart(p, ok) else p;
    CancelBalanced(p);
    CancelledPart(p);
    FlushBalanced(CancelPart(p), ok);
    assert Balanced(q);
    AllPosted(q);
    ShutPartLeaves(p, ok);
  }

  lemma AllPosted(q: Part)
    requires Balanced(q)
    ensures multiset(q.received) == multiset(Flatten(q.posted)) <==> q.lost == [] && InFlight(q) == [] && q.buffer == []
    ensures q.received == Flatten(q.posted) <==> multiset(q.received) == multiset(Flatten(q.posted)) && !q.swapped
  {
    InOrder(q);
    KeptIsShorter(q);
    hide Flatten, BatchesOk, OrderedBefore, InFlight;
    assert |multiset(q.received)| == |q.received| && |multiset(Flatten(q.posted))| == |Flatten(q.posted)|;
    if InFlight(q) == [] && q.buffer == [] {
      assert Flatten(q.posted) + [] + [] == Flatten(q.posted);
    }
  }

  lemma ShutPartLeaves(p: Part, ok: bool)
    requires TimersOk(p)
    ensures var q := ShutPart(p, ok);
      && q.buffer == [] && (p.timer ==> q.flight.None?) && q.swapped == p.swapped
      && (p.timer ==> (q.lost == [] <==> p.lost == [] && p.flight.None? && (p.buffer != [] ==> ok)))
  {
  }

  /**
   The shutdown, in any reachable state, leaves every line of an evaluation posted
   exactly if none was lost or is in flight, its buffer is watched, and the last
   request, if one is needed, is carried out; and then in order exactly if no
   batches were swapped.
   */
  lemma ShutdownPostsEverythingExactlyWhen(w: World, ids: seq<string>, refused: set<string>, now: Time, id: string)
    requires PartOk(PartOf(w.logs, id)) && Distinct(ids) && Elements(ids) == w.logs.timers
    ensures var l, p := CloseTimers(w, ids, refused, now).logs, PartOf(w.logs, id);
      && (multiset(ReceivedOf(l, id)) == multiset(Flatten(PostedOf(l, id)))
          <==> p.lost == [] && p.flight.None? && Watched(p) && (p.buffer != [] ==> id !in refused && id in w.store.evals))
      && (ReceivedOf(l, id) == Flatten(PostedOf(l, id))
          <==> multiset(ReceivedOf(l, id)) == multiset(Flatten(PostedOf(l, id))) && !p.swapped)
  {
    hide CloseTimers, ShutPart, Balanced, TimersOk, Watched, Distinct;
    assert id in ids <==> id in Elements(ids);
    CloseTimersOnPart(w, ids, refused, now, id);
    ShutPartPosts(PartOf(w.logs, id), id !in refused && id in w.store.evals, id in ids);
  }

  /**
   So a shutdown after such a timed flush, with nothing lost and its own request
   carried out, leaves everything posted exactly if no line arrived during the flush.
   */
  lemma ShutdownAfterTimedFlush(table: Table, w: World, run: seq<Happening>, ids: seq<string>, refused: set<string>, now: Time, id: string)
    requires PartOk(PartOf(w.logs, id)) && id in w.logs.timers && id !in w.logs.flushing
    requires var w1 := NextWorld(table, w, TimerTakes(id));
      var w2 := RunWorld(table, w1, run);
      var w3 := NextWorld(table, w2, TimerFinishes(id));
      && StaysFlushing(PartOf(w1.logs, id), Actions(table, w1, run, id)) && id !in w2.logs.flight
      && LostOf(w3.logs, id) == [] && id in w3.store.evals && id !in refused
      && Distinct(ids) && Elements(ids) == w3.logs.timers
    ensures var w1 := NextWorld(table, w, TimerTakes(id));
      var w3 := NextWorld(table, RunWorld(table, w1, run), TimerFinishes(id));
      var l := CloseTimers(w3, ids, refused, now).logs;
      multiset(ReceivedOf(l, id)) == multiset(Flatten(PostedOf(l, id))) <==> Lines(Actions(table, w1, run, id)) == []
  {
    var w1 := NextWorld(table, w, TimerTakes(id));
    var w2 := RunWorld(table, w1, run);
    var w3 := NextWorld(table, w2, TimerFinishes(id));
    TimedFlushStrandsExactlyWhen(table, w, run, id);
    NothingInFlight(table, w2, id);
    hide NextWorld, RunWorld, Actions, StaysFlushing, CloseTimers, Watched, Balanced, TimersOk;
    StepOk(table, w, TimerTakes(id), id);
    RunConservesLogs(table, w1, run, id);
    StepOk(table, w2, TimerFinishes(id), id);
    ShutdownPostsEverythingExactlyWhen(w3, ids, refused, now, id);
  }

  lemma StepOk(table: Table, w: World, h: Happening, id: string)
    requires PartOk(PartOf(w.logs, id))
    ensures PartOk(PartOf(NextWorld(table, w, h).logs, id))
  {
    hide Balanced, TimersOk, NextWorld, PartOf, ActionOn;
    StepOnPart(table, w, h, id);
    StepBalanced(PartOf(w.logs, id), ActionOn(table, w, h, id));
    StepTimersOk(PartOf(w.logs, id), ActionOn(table, w, h, id));
  }

  lemma NothingInFlight(table: Table, w: World, id: string)
    requires id !in w.logs.flight
    ensures PartOf(NextWorld(table, w, TimerFinishes(id)).logs, id).flight == None
  {
  }

  // ----- from posted batches to the stored output -----

  /** The body left by appending the parts one request at a time. */
  function AppendBodies(body: string, parts: seq<string>): string
    decreases |parts|
  {
    if parts == [] then body else AppendBodies(Inline(body + parts[0]).body, parts[1..])
  }

  lemma {:induction false} AppendBodiesSnoc(body: string, parts: seq<string>, last: string)
    ensures AppendBodies(body, parts + [last]) == Inline(AppendBodies(body, parts) + last).body
    decreases |parts|
  {
    if parts == [] {
      assert (parts + [last])[1..] == [];
    } else {
      assert (parts + [last])[1..] == parts[1..] + [last];
      AppendBodiesSnoc(Inline(body + parts[0]).body, parts[1..], last);
    }
  }

  lemma {:induction false} AppendAllBodies(p: Mem, id: string, parts: seq<string>, now: Time)
    requires id in p.evals
    ensures Body(AppendAll(p, id, parts, now), id) == AppendBodies(Body(p, id), parts)
    decreases |parts|
  {
    if parts != [] {
      AppendAllBodies(PlainNext(p, Append(id, parts[0], true, None, now)), id, parts[1..], now);
    }
  }

  /** The `content` of each line. */
  function ContentsOf(batch: seq<LogEntry>): seq<string> {
    seq(|batch|, i requires 0 <= i < |batch| => batch[i].content)
  }

  /** The contents of a batch, one line each. */
  function Joined(batch: seq<LogEntry>): string {
    Strings.JoinWith(ContentsOf(batch), '\n')
  }

  /** What the worker sends is just that. */
  lemma {:induction false} CombinedIsJoined(batch: seq<LogEntry>)
    ensures Combined(batch) == Joined(batch)
  {
    if |batch| > 1 {
      CombinedIsJoined(batch[1..]);
      assert ContentsOf(batch)[1..] == ContentsOf(batch[1..]);
      assert ['\n'] == "\n";
    }
  }

  function Texts(batches: seq<seq<LogEntry>>): (r: seq<string>)
    ensures |r| == |batches|
  {
    if batches == [] then [] else Texts(batches[..|batches| - 1]) + [Joined(batches[|batches| - 1])]
  }

  /** The output is what the batches posted since `base` have made of the output at that time. */
  predicate OutputFollows(w: World, id: string, base: string, before: nat) {
    id in w.store.evals && before <= |PostedOf(w.logs, id)|
    && Body(w.store, id) == AppendBodies(base, Texts(PostedOf(w.logs, id)[before..]))
  }

  /** The messages that write an output of their own. */
  predicate SetsOutput(h: Happening, id: string) {
    h.Arrives? && h.msg.id == id && (h.msg.SubmittedMsg? || h.msg.CompletedMsg?)
  }

  lemma UpdatedKeepsBody(r: Record, req: Request, now: Time)
    requires req.output == None
    ensures BodyOf(Updated(r, req, now)) == BodyOf(r)
  {
  }

  lemma UpdateKeepsBody(table: Table, p: Mem, msg: Message, fault: Fault, now: Time, id: string)
    requires !msg.SubmittedMsg? && !msg.LogMsg? && id in p.evals && (msg.id == id ==> !msg.CompletedMsg?)
    ensures var p' := ValidateAndUpdate(table, p, msg.id, Target(msg), Fields(msg), fault, now).0;
      id in p'.evals && Body(p', id) == Body(p, id)
  {
    hide Updated, ValidateTransition, Inline;
    if msg.id == id {
      UpdatedKeepsBody(p.evals[id], Fields(msg).(status := Some(Target(msg))), now);
    }
  }

  lemma SameBodyFollows(w: World, w': World, id: string, base: string, before: nat)
    requires OutputFollows(w, id, base, before)
    requires id in w'.store.evals && Body(w'.store, id) == Body(w.store, id) && PostedOf(w'.logs, id) == PostedOf(w.logs, id)
    ensures OutputFollows(w', id, base, before)
  {
  }

  lemma SendFollows(w: World, at: string, batch: seq<LogEntry>, accepted: bool, now: Time, id: string, base: string, before: nat)
    requires OutputFollows(w, id, base, before) && batch != []
    ensures OutputFollows(Send(w, at, batch, accepted, now), id, base, before)
  {
    if id == at && accepted {
      var earlier, later := PostedOf(w.logs, id)[before..], PostedOf(Send(w, at, batch, accepted, now).logs, id)[before..];
      assert later == earlier + [batch] && later[..|later| - 1] == earlier;
      AppendBodiesSnoc(base, Texts(earlier), Joined(batch));
      CombinedIsJoined(batch);
      hide Joined, Combined;
    }
  }

  lemma FlushFollows(w: World, at: string, accepted: bool, now: Time, id: string, base: string, before: nat)
    requires OutputFollows(w, id, base, before)
    ensures OutputFollows(Flush(w, at, accepted, now), id, base, before)
  {
    var w1 := w.(logs := Emptied(w.logs, at));
    SameBodyFollows(w, w1, id, base, before);
    hide OutputFollows, Send;
    if BufferOf(w.logs, at) != [] {
      SendFollows(w1, at, BufferOf(w.logs, at), accepted, now, id, base, before);
    }
  }

  lemma LogFollows(w: World, at: string, entry: LogEntry, accepted: bool, now: Time, id: string, base: string, before: nat)
    requires OutputFollows(w, id, base, before)
    ensures OutputFollows(ReceiveLog(w, at, entry, accepted, now), id, base, before)
  {
    var l := Buffered(w.logs, at, entry);
    var w1 := w.(logs := CancelTimer(l, at));
    SameBodyFollows(w, w1, id, base, before);
    SameBodyFollows(w, w.(logs := l.(timers := l.timers + {at})), id, base, before);
    hide OutputFollows, Flush, CancelTimer;
    FlushFollows(w1, at, accepted, now, id, base, before);
  }

  lemma EndFollows(w: World, at: string, accepted: bool, now: Time, id: string, base: string, before: nat)
    requires OutputFollows(w, id, base, before)
    ensures OutputFollows(EndRequest(w, at, accepted, now), id, base, before)
  {
    var w1 := w.(logs := w.logs.(flight := w.logs.flight - {at}));
    SameBodyFollows(w, w1, id, base, before);
    hide OutputFollows, Send;
    if FlightOf(w.logs, at) != [] {
      SendFollows(w1, at, w.logs.flight[at], accepted, now, id, base, before);
    }
  }

  lemma CloseFollows(w: World, at: string, answers: Answers, now: Time, id: string, base: string, before: nat)
    requires OutputFollows(w, id, base, before)
    ensures OutputFollows(CloseLogs(w, at, answers, now), id, base, before)
  {
    hide OutputFollows, Flush, EndRequest, Swaps;
    var ok := !answers.timed.Waits? && answers.timed.ok;
    EndFollows(w, at, ok, now, id, base, before);
    var w0 := if answers.timed.EndsFirst? then EndRequest(w, at, ok, now) else w;
    FlushFollows(w0, at, answers.accepted, now, id, base, before);
    var w1 := Flush(w0, at, answers.accepted, now);
    EndFollows(w1, at, ok, now, id, base, before);
    var w2 := if answers.timed.EndsLast? then EndRequest(w1, at, ok, now) else w1;
    FollowsKnown(w2, id, base, before);
    SameBodyFollows(w2, CloseLogs(w, at, answers, now), id, base, before);
  }

  lemma StatusFollows(table: Table, w: World, msg: Message, fault: Fault, answers: Answers, now: Time, id: string, base: string, before: nat)
    requires OutputFollows(w, id, base, before) && !msg.SubmittedMsg? && !msg.LogMsg? && (msg.id == id ==> !msg.CompletedMsg?)
    ensures OutputFollows(Handle(table, w, msg, fault, answers, now), id, base, before)
  {
    hide OutputFollows, ValidateAndUpdate, CloseLogs, Body;
    FollowsKnown(w, id, base, before);
    UpdateKeepsBody(table, w.store, msg, fault, now, id);
    var (store', ok) := ValidateAndUpdate(table, w.store, msg.id, Target(msg), Fields(msg), fault, now);
    var w1 := w.(store := store');
    SameBodyFollows(w, w1, id, base, before);
    SameBodyFollows(w, Unindexed(w1, msg.id), id, base, before);
    CloseFollows(Unindexed(w1, msg.id), msg.id, answers, now, id, base, before);
    if !msg.CompletedMsg? { SameBodyFollows(w, Reindex(w1, msg, answers, now), id, base, before); }
  }

  lemma FollowsKnown(w: World, id: string, base: string, before: nat)
    requires OutputFollows(w, id, base, before)
    ensures id in w.store.evals
  {
  }

  lemma StepFollows(table: Table, w: World, h: Happening, id: string, base: string, before: nat)
    requires OutputFollows(w, id, base, before) && !SetsOutput(h, id)
    ensures OutputFollows(NextWorld(table, w, h), id, base, before)
  {
    hide ReceiveLog, EndRequest, ValidateAndUpdate, Reindex, Body, PlainNext;
    match h {
      case RequestEnds(at, accepted, now) => EndFollows(w, at, accepted, now, id, base, before);
      case Arrives(msg, fault, answers, now) =>
        if msg.LogMsg? {
          LogFollows(w, msg.id, msg.entry, answers.accepted, now, id, base, before);
        } else if msg.SubmittedMsg? {
          CreateFollows(table, w, msg, fault, answers, now, id, base, before);
        } else {
          StatusFollows(table, w, msg, fault, answers, now, id, base, before);
        }
      case _ => SameBodyFollows(w, NextWorld(table, w, h), id, base, before);
    }
  }

  lemma CreateFollows(table: Table, w: World, msg: Message, fault: Fault, answers: Answers, now: Time, id: string, base: string, before: nat)
    requires OutputFollows(w, id, base, before) && msg.SubmittedMsg? && msg.id != id
    ensures OutputFollows(Handle(table, w, msg, fault, answers, now), id, base, before)
  {
    FollowsKnown(w, id, base, before);
    SameBodyFollows(w, Handle(table, w, msg, fault, answers, now), id, base, before);
  }

  predicate NeverSetsOutput(run: seq<Happening>, id: string)
    decreases |run|
  {
    run != [] ==> !SetsOutput(run[0], id) && NeverSetsOutput(run[1..], id)
  }

  lemma {:induction false} RunFollows(table: Table, w: World, run: seq<Happening>, id: string, base: string, before: nat)
    requires OutputFollows(w, id, base, before) && NeverSetsOutput(run, id)
    ensures OutputFollows(RunWorld(table, w, run), id, base, before)
    decreases |run|
  {
    if run != [] {
      StepFollows(table, w, run[0], id, base, before);
      RunFollows(table, NextWorld(table, w, run[0]), run[1..], id, base, before);
    }
  }

  /**
   End to end: while nothing but log lines writes it, the stored output is the
   old one followed by all batches posted meanwhile, exactly when that fits inline.
   */
  lemma StoredOutputExactlyWhen(table: Table, w: World, run: seq<Happening>, id: string)
    requires id in w.store.evals && |Body(w.store, id)| <= INLINE_THRESHOLD && NeverSetsOutput(run, id)
    ensures var w' := RunWorld(table, w, run);
      id in w'.store.evals && |PostedOf(w.logs, id)| <= |PostedOf(w'.logs, id)|
      && (var texts := Texts(PostedOf(w'.logs, id)[|PostedOf(w.logs, id)|..]);
          Body(w'.store, id) == Body(w.store, id) + Concat(texts)
          <==> |Body(w.store, id)| + |Concat(texts)| <= INLINE_THRESHOLD)
  {
    var base, before := Body(w.store, id), |PostedOf(w.logs, id)|;
    assert PostedOf(w.logs, id)[before..] == [];
    RunFollows(table, w, run, id, base, before);
    var w' := RunWorld(table, w, run);
    var texts := Texts(PostedOf(w'.logs, id)[before..]);
    AppendAllBodies(w.store, id, texts, 0);
    OutputIsConcatenationExactlyWhen(w.store, id, texts, 0);
  }

  // ----- where two batches meet -----

  lemma {:induction false} JoinedJoins(a: seq<LogEntry>, b: seq<LogEntry>)
    requires a != [] && b != []
    ensures Joined(a + b) == Joined(a) + "\n" + Joined(b)
    decreases |a|
  {
    JoinedStep(a);
    JoinedStep(a + b);
    hide Joined;
    if |a| == 1 {
      assert (a + b)[1..] == b;
    } else {
      assert (a + b)[1..] == a[1..] + b;
      JoinedJoins(a[1..], b);
      assert a[0].content + "\n" + (Joined(a[1..]) + "\n" + Joined(b)) == a[0].content + "\n" + Joined(a[1..]) + "\n" + Joined(b);
    }
  }

  lemma JoinedStep(batch: seq<LogEntry>)
    requires batch != []
    ensures Joined(batch) == if |batch| == 1 then batch[0].content else batch[0].content + "\n" + Joined(batch[1..])
  {
    assert ContentsOf(batch)[1..] == ContentsOf(batch[1..]);
    assert ['\n'] == "\n";
  }

  lemma {:induction false} FlattenNonEmpty(batches: seq<seq<LogEntry>>)
    requires BatchesOk(batches) && batches != []
    ensures Flatten(batches) != []
  {
    assert |batches[0]| >= 1;
  }

  lemma {:induction false} TextsCons(batches: seq<seq<LogEntry>>)
    requires batches != []
    ensures Texts(batches) == [Joined(batches[0])] + Texts(batches[1..])
    decreases |batches|
  {
    if |batches| > 1 {
      var front := batches[..|batches| - 1];
      TextsCons(front);
      assert batches[1..][..|batches| - 2] == front[1..];
    } else {
      assert batches[..0] == [] && batches[1..] == [];
    }
  }

  lemma {:induction false} MissingNewlines(batches: seq<seq<LogEntry>>)
    requires BatchesOk(batches) && batches != []
    ensures |Joined(Flatten(batches))| == |Concat(Texts(batches))| + |batches| - 1
    decreases |batches|
  {
    TextsCons(batches);
    var rest := batches[1..];
    assert Texts(batches)[1..] == Texts(rest);
    if rest == [] {
      assert Flatten(batches) == batches[0] && Concat(Texts(rest)) == "";
    } else {
      assert BatchesOk(rest) by {
        forall i | 0 <= i < |rest| ensures 1 <= |rest[i]| <= LOG_BATCH_SIZE { assert rest[i] == batches[i + 1]; }
      }
      FlattenNonEmpty(rest);
      assert |batches[0]| >= 1;
      JoinedJoins(batches[0], Flatten(rest));
      MissingNewlines(rest);
    }
  }

  /**
   Lines are joined by newlines inside a batch but batches are glued without
   one, so the stored text is the joined lines exactly if there was one batch.
   */
  lemma BatchingIsInvisibleExactlyWhen(batches: seq<seq<LogEntry>>)
    requires BatchesOk(batches)
    ensures Concat(Texts(batches)) == Joined(Flatten(batches)) <==> |batches| <= 1
  {
    if batches != [] {
      MissingNewlines(batches);
      if |batches| == 1 {
        OneBatch(batches[0]);
        assert batches == [batches[0]];
      }
    }
  }

  lemma OneBatch(batch: seq<LogEntry>)
    ensures Flatten([batch]) == batch && Concat(Texts([batch])) == Joined(batch)
  {
    assert [batch][1..] == [] && [batch][..0] == [];
    assert Texts([batch]) == [Joined(batch)] && [Joined(batch)][1..] == [];
    assert Joined(batch) + "" == Joined(batch);
  }

  // ----- the completed handler and the listener -----

  /** One request's text, if there is a batch and it is carried out. */
  function Sent(batch: seq<LogEntry>, ok: bool): seq<string> {
    if batch != [] && ok then [Joined(batch)] else []
  }

  /** What an accepted completion appends: the leftovers, with a timed batch in flight before or after them. */
  function Appended(l: Logs, id: string, answers: Answers): seq<string> {
    Sent(FlightOf(l, id), answers.timed == EndsFirst(true))
    + Sent(BufferOf(l, id), answers.accepted)
    + Sent(FlightOf(l, id), answers.timed == EndsLast(true))
  }

  /** An accepted completion stores its own output and appends these batches to that. */
  lemma CompletionAppendsLeftovers(table: Table, w: World, msg: Message, answers: Answers, now: Time)
    requires msg.CompletedMsg? && Complete(msg) && msg.id in w.store.evals
    requires ValidateTransition(table, w.store.evals[msg.id].status, Completed) == Accept
    ensures var p' := NextWorld(table, w, Arrives(msg, NoFault, answers, now)).store;
      msg.id in p'.evals && Body(p', msg.id) == AppendBodies(Inline(msg.output).body, Appended(w.logs, msg.id, answers))
  {
    hide Inline, Joined, Combined, ValidateTransition, CloseLogs, AppendBodies, RuntimeMs;
    var p1 := ValidateAndUpdate(table, w.store, msg.id, Completed, Fields(msg), NoFault, now).0;
    assert msg.id in p1.evals && Body(p1, msg.id) == Inline(msg.output).body;
    var w1 := Unindexed(w.(store := p1), msg.id);
    CloseAppends(w1, msg.id, answers, now);
    assert w1.logs == w.logs;
  }

  /** A carried out request appends the joined lines, and notes the time of the last one. */
  lemma SentIsStored(w: World, id: string, batch: seq<LogEntry>, now: Time)
    requires batch != [] && id in w.store.evals
    ensures var p' := Send(w, id, batch, true, now).store;
      && OnlyAbout(w.store, p', id) && EventsOf(p', id) == EventsOf(w.store, id) && id in p'.evals
      && var r, r' := w.store.evals[id], p'.evals[id];
         && KeepsText(r'.output, (if r.output.Some? then r.output.value.body else "") + Joined(batch))
         && Merged(r.extra, map["last_update" := batch[|batch| - 1].timestamp], r'.extra)
         && r' == r.(output := r'.output, extra := r'.extra)
  {
    hide PlainNext, Combined, Joined, OnlyAbout, KeepsText, Merged;
    CombinedIsJoined(batch);
    OneAppend(w.store, id, Joined(batch), true, Some(batch[|batch| - 1].timestamp), now);
  }

  lemma SendAppends(w: World, id: string, batch: seq<LogEntry>, accepted: bool, now: Time)
    requires batch != [] && id in w.store.evals
    ensures var w' := Send(w, id, batch, accepted, now);
      id in w'.store.evals && Body(w'.store, id) == if accepted then Inline(Body(w.store, id) + Joined(batch)).body else Body(w.store, id)
  {
    CombinedIsJoined(batch);
    hide Inline, Combined, Joined;
  }

  lemma AppendOne(body: string, part: string, rest: seq<string>)
    ensures AppendBodies(body, [part] + rest) == AppendBodies(Inline(body + part).body, rest)
  {
    hide Inline;
    assert ([part] + rest)[1..] == rest;
  }

  lemma CloseAppends(w: World, id: string, answers: Answers, now: Time)
    requires id in w.store.evals
    ensures var w' := CloseLogs(w, id, answers, now);
      id in w'.store.evals && Body(w'.store, id) == AppendBodies(Body(w.store, id), Appended(w.logs, id, answers))
  {
    hide Inline, Joined, Combined, AppendBodies, EndRequest, Flush, CancelTimer, Swaps, Body, Sent;
    var w0 := if answers.timed.EndsFirst? then EndRequest(w, id, answers.timed.ok, now) else w;
    var w1 := Flush(w0, id, answers.accepted, now);
    var w2 := if answers.timed.EndsLast? then EndRequest(w1, id, answers.timed.ok, now) else w1;
    var c := Sent(FlightOf(w.logs, id), answers.timed == EndsLast(true));
    var b := Sent(BufferOf(w.logs, id), answers.accepted);
    EndIfAppends(w, id, answers.timed.EndsFirst?, answers, now, b + c);
    FlushAppends(w0, id, answers.accepted, now, c);
    EndIfAppends(w1, id, answers.timed.EndsLast?, answers, now, []);
    AppendNone(Body(w2.store, id));
    var a := Sent(FlightOf(w.logs, id), answers.timed == EndsFirst(true));
    assert c + [] == c && a + b + c == a + (b + c);
    NothingSent(w.logs, id);
  }

  lemma NothingSent(l: Logs, id: string)
    ensures Sent([], true) == [] && Sent(FlightOf(l, id), false) == []
  {
  }

  lemma AppendNone(body: string)
    ensures AppendBodies(body, []) == body
  {
  }

  lemma EndAppends(w: World, id: string, accepted: bool, now: Time, rest: seq<string>)
    requires id in w.store.evals
    ensures var w' := EndRequest(w, id, accepted, now);
      && id in w'.store.evals && BufferOf(w'.logs, id) == BufferOf(w.logs, id)
      && AppendBodies(Body(w.store, id), Sent(FlightOf(w.logs, id), accepted) + rest) == AppendBodies(Body(w'.store, id), rest)
  {
    hide Inline, Joined, Combined, AppendBodies, Send, Body;
    EndKeepsBuffer(w, id, accepted, now);
    var batch := FlightOf(w.logs, id);
    assert [] + rest == rest;
    if batch != [] {
      var w1 := w.(logs := w.logs.(flight := w.logs.flight - {id}));
      SendAppends(w1, id, batch, accepted, now);
      AppendOne(Body(w.store, id), Joined(batch), rest);
    }
  }

  lemma EndIfAppends(w: World, id: string, ends: bool, answers: Answers, now: Time, rest: seq<string>)
    requires id in w.store.evals && (ends ==> !answers.timed.Waits?)
    ensures var w' := if ends then EndRequest(w, id, answers.timed.ok, now) else w;
      && id in w'.store.evals && BufferOf(w'.logs, id) == BufferOf(w.logs, id)
      && AppendBodies(Body(w.store, id), Sent(FlightOf(w.logs, id), ends && answers.timed.ok) + rest)
         == AppendBodies(Body(w'.store, id), rest)
  {
    hide AppendBodies, EndRequest, Body, Joined;
    assert [] + rest == rest;
    if ends { EndAppends(w, id, answers.timed.ok, now, rest); }
  }

  lemma FlushAppends(w: World, id: string, accepted: bool, now: Time, rest: seq<string>)
    requires id in w.store.evals
    ensures var w' := Flush(w, id, accepted, now);
      && id in w'.store.evals && FlightOf(w'.logs, id) == FlightOf(w.logs, id)
      && AppendBodies(Body(w.store, id), Sent(BufferOf(w.logs, id), accepted) + rest) == AppendBodies(Body(w'.store, id), rest)
  {
    hide Inline, Joined, Combined, AppendBodies, Send, Body;
    FlushKeepsFlight(w, id, accepted, now);
    var batch := BufferOf(w.logs, id);
    assert [] + rest == rest;
    if batch != [] {
      var w1 := w.(logs := Emptied(w.logs, id));
      SendAppends(w1, id, batch, accepted, now);
      AppendOne(Body(w.store, id), Joined(batch), rest);
    }
  }

  lemma FlushKeepsFlight(w: World, id: string, accepted: bool, now: Time)
    ensures FlightOf(Flush(w, id, accepted, now).logs, id) == FlightOf(w.logs, id)
  {
    hide PlainNext, Combined;
  }
}
