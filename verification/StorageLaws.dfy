/**
 What the storage manager promises: the cache is invisible, the event log is the
 history of the status, timestamps and truncation flags are consistent, and
 appended logs are kept exactly while they fit.
 */
module StorageLaws {
  import opened Common
  import opened Storage

  datatype Op =
    | Create(id: string, code: string, status: Status, extra: map<string, string>, now: Time)
    | Update(id: string, req: Request, now: Time)
    | Append(id: string, content: string, append: bool, lastUpdate: Option<string>, now: Time)
    | Get(id: string)
    | List(limit: nat, offset: nat, wanted: Option<Status>)
    | Count(wanted: Option<Status>)
    | Delete(id: string)
    | AddEvent(id: string, event: Event)
    | GetEvents(id: string)

  datatype Answer =
    | Flag(ok: bool)
    | Found(record: Option<Record>)
    | Listing(records: seq<Record>)
    | Total(count: nat)
    | History(events: seq<Event>)

  function Apply(m: Mgr, op: Op): (Mgr, Answer) {
    match op
    case Create(id, code, status, extra, now) => (CreateEval(m, id, NewRecord(code, status, extra, now), now), Flag(true))
    case Update(id, req, now) => var (m', ok) := UpdateEval(m, id, req, now); (m', Flag(ok))
    case Append(id, content, append, last, now) => var (m', ok) := AppendLogs(m, id, content, append, last, now); (m', Flag(ok))
    case Get(id) => var (m', r) := GetEval(m, id); (m', Found(r))
    case List(limit, offset, wanted) => var (m', rs) := Collect(m, Page(m.primary, limit, offset), wanted); (m', Listing(rs))
    case Count(wanted) => var (m', n) := CountEvals(m, wanted); (m', Total(n))
    case Delete(id) => var (m', ok) := DeleteFrom(m, id); (m', Flag(ok))
    case AddEvent(id, e) => (AddEventTo(m, id, e), Flag(true))
    case GetEvents(id) => (m, History(EventsOf(m.primary, id)))
  }

  function Run(m: Mgr, ops: seq<Op>): (Mgr, seq<Answer>)
    decreases |ops|
  {
    if ops == [] then (m, []) else
      var (m1, a) := Apply(m, ops[0]);
      var (m2, rest) := Run(m1, ops[1..]);
      (m2, [a] + rest)
  }

  // ----- the reference: one plain map, no cache -----

  function Amend(p: Mem, id: string, req: Request, now: Time): Mem
    requires id in p.evals
  {
    var p' := StoreEval(p, id, Updated(p.evals[id], req, now));
    if req.status.Some? then StoreEvents(p', id, EventsOf(p, id) + [Event(STATUS_CHANGED, now, req.status)]) else p'
  }

  function PlainNext(p: Mem, op: Op): Mem {
    match op
    case Create(id, code, status, extra, now) =>
      StoreEvents(StoreEval(p, id, NewRecord(code, status, extra, now)), id, [Event("submitted", now, None)])
    case Update(id, req, now) => if id in p.evals then Amend(p, id, req, now) else p
    case Append(id, content, append, last, now) =>
      if id in p.evals then Amend(p, id, AppendRequest(p.evals[id], content, append, last), now) else p
    case Delete(id) => DeleteEval(p, id)
    case AddEvent(id, e) => StoreEvents(p, id, EventsOf(p, id) + [e])
    case _ => p
  }

  function Lookup(p: Mem, id: string): Option<Record> {
    if id in p.evals then Some(p.evals[id]) else None
  }

  function Select(p: Mem, ids: seq<string>, wanted: Option<Status>): seq<Record> {
    if ids == [] then [] else
      var r := Lookup(p, ids[|ids| - 1]);
      Select(p, ids[..|ids| - 1], wanted) + if Matches(r, wanted) then [r.value] else []
  }

  function PlainAnswer(p: Mem, op: Op): Answer {
    match op
    case Update(id, _, _) => Flag(id in p.evals)
    case Append(id, _, _, _, _) => Flag(id in p.evals)
    case Get(id) => Found(Lookup(p, id))
    case List(limit, offset, wanted) => Listing(Select(p, Page(p, limit, offset), wanted))
    case Count(wanted) =>
      var all := Page(p, COUNT_LIMIT, 0);
      Total(if wanted == None then |all| else |Select(p, all, wanted)|)
    case Delete(id) => Flag(id in p.evals || id in p.events)
    case GetEvents(id) => History(EventsOf(p, id))
    case _ => Flag(true)
  }

  function PlainRun(p: Mem, ops: seq<Op>): (Mem, seq<Answer>)
    decreases |ops|
  {
    if ops == [] then (p, []) else
      var (p', rest) := PlainRun(PlainNext(p, ops[0]), ops[1..]);
      (p', [PlainAnswer(p, ops[0])] + rest)
  }

  // ----- transparency -----

  /** Each cached record is the primary's. */
  ghost predicate Coherent(m: Mgr) {
    m.cache.Some? ==> forall id :: id in m.cache.value.evals ==>
      id in m.primary.evals && m.cache.value.evals[id] == m.primary.evals[id]
  }

  lemma GetAgrees(m: Mgr, id: string)
    requires Coherent(m)
    ensures var (m', r) := GetEval(m, id); Coherent(m') && m'.primary == m.primary && r == Lookup(m.primary, id)
  {
  }

  lemma {:induction false} CollectAgrees(m: Mgr, ids: seq<string>, wanted: Option<Status>)
    requires Coherent(m)
    ensures var (m', rs) := Collect(m, ids, wanted); Coherent(m') && m'.primary == m.primary && rs == Select(m.primary, ids, wanted)
    decreases |ids|
  {
    if ids != [] {
      CollectAgrees(m, ids[..|ids| - 1], wanted);
      GetAgrees(Collect(m, ids[..|ids| - 1], wanted).0, ids[|ids| - 1]);
    }
  }

  lemma UpdateAgrees(m: Mgr, id: string, req: Request, now: Time)
    requires Coherent(m)
    ensures var (m', ok) := UpdateEval(m, id, req, now);
      Coherent(m') && ok == (id in m.primary.evals) && m'.primary == if ok then Amend(m.primary, id, req, now) else m.primary
  {
    GetAgrees(m, id);
  }

  lemma ApplyAgrees(m: Mgr, op: Op)
    requires Coherent(m)
    ensures Coherent(Apply(m, op).0)
    ensures Apply(m, op).0.primary == PlainNext(m.primary, op)
    ensures Apply(m, op).1 == PlainAnswer(m.primary, op)
  {
    match op {
      case Update(id, req, now) => UpdateAgrees(m, id, req, now);
      case Append(id, content, append, last, now) =>
        GetAgrees(m, id);
        var (m1, r) := GetEval(m, id);
        if r.Some? { UpdateAgrees(m1, id, AppendRequest(r.value, content, append, last), now); }
      case List(limit, offset, wanted) => CollectAgrees(m, Page(m.primary, limit, offset), wanted);
      case Count(wanted) => CollectAgrees(m, Page(m.primary, COUNT_LIMIT, 0), wanted);
      case _ =>
    }
  }

  /** The manager, cached or not, is the plain map. */
  lemma {:induction false} ManagerRefinesPlainMap(m: Mgr, ops: seq<Op>)
    requires Coherent(m)
    ensures Run(m, ops).1 == PlainRun(m.primary, ops).1
    ensures Run(m, ops).0.primary == PlainRun(m.primary, ops).0
    ensures Coherent(Run(m, ops).0)
    decreases |ops|
  {
    if ops != [] {
      ApplyAgrees(m, ops[0]);
      ManagerRefinesPlainMap(Apply(m, ops[0]).0, ops[1..]);
    }
  }

  lemma {:induction false} CacheIsTransparent(start: Mem, ops: seq<Op>)
    ensures Run(Mgr(start, Some(EMPTY_MEM)), ops).1 == Run(Mgr(start, None), ops).1
    ensures Run(Mgr(start, Some(EMPTY_MEM)), ops).0.primary == Run(Mgr(start, None), ops).0.primary
  {
    ManagerRefinesPlainMap(Mgr(start, Some(EMPTY_MEM)), ops);
    ManagerRefinesPlainMap(Mgr(start, None), ops);
  }

  // ----- the event log -----

  function Replay(initial: Status, log: seq<Event>): Status {
    if log == [] then initial else
      var e := log[|log| - 1];
      if e.kind == STATUS_CHANGED && e.newStatus.Some? then e.newStatus.value else Replay(initial, log[..|log| - 1])
  }

  /** Creates an id only while it has neither record nor events; writes no `status_changed` by hand. */
  predicate Orderly(p: Mem, op: Op) {
    match op
    case Create(id, _, _, _, _) => id !in p.evals && id !in p.events
    case AddEvent(_, e) => e.kind != STATUS_CHANGED
    case _ => true
  }

  predicate OrderlyRun(p: Mem, ops: seq<Op>)
    decreases |ops|
  {
    ops != [] ==> Orderly(p, ops[0]) && OrderlyRun(PlainNext(p, ops[0]), ops[1..])
  }

  function Initials(seen: map<string, Status>, ops: seq<Op>): map<string, Status>
    decreases |ops|
  {
    if ops == [] then seen else
      Initials(if ops[0].Create? then seen[ops[0].id := ops[0].status] else seen, ops[1..])
  }

  ghost predicate Tracks(p: Mem, initials: map<string, Status>) {
    forall id :: id in p.evals ==>
      id in initials && id in p.events && Replay(initials[id], p.events[id]) == p.evals[id].status
  }

  lemma ReplaySnoc(initial: Status, log: seq<Event>, e: Event)
    ensures Replay(initial, log + [e])
         == if e.kind == STATUS_CHANGED && e.newStatus.Some? then e.newStatus.value else Replay(initial, log)
  {
    assert (log + [e])[..|log|] == log;
  }

  lemma AmendTracks(p: Mem, initials: map<string, Status>, id: string, req: Request, now: Time)
    requires Tracks(p, initials) && id in p.evals
    ensures Tracks(Amend(p, id, req, now), initials)
  {
    ReplaySnoc(initials[id], p.events[id], Event(STATUS_CHANGED, now, req.status));
    assert Updated(p.evals[id], req, now).status == if req.status.Some? then req.status.value else p.evals[id].status;
    hide Replay, Updated;
  }

  lemma TracksStep(p: Mem, initials: map<string, Status>, op: Op)
    requires Tracks(p, initials) && Orderly(p, op)
    ensures Tracks(PlainNext(p, op), if op.Create? then initials[op.id := op.status] else initials)
  {
    match op {
      case Create(id, _, status, _, now) =>
        ReplaySnoc(status, [], Event("submitted", now, None));
        assert [] + [Event("submitted", now, None)] == [Event("submitted", now, None)];
      case Update(id, req, now) => if id in p.evals { AmendTracks(p, initials, id, req, now); }
      case Append(id, content, append, last, now) =>
        if id in p.evals { AmendTracks(p, initials, id, AppendRequest(p.evals[id], content, append, last), now); }
      case AddEvent(id, e) =>
        if id in initials { ReplaySnoc(initials[id], EventsOf(p, id), e); }
      case _ =>
    }
    hide Amend;
  }

  /** Replaying the status changes of a record's log gives its current status. */
  lemma {:induction false} LogReplaysToStatus(p: Mem, initials: map<string, Status>, ops: seq<Op>)
    requires Tracks(p, initials) && OrderlyRun(p, ops)
    ensures Tracks(PlainRun(p, ops).0, Initials(initials, ops))
    decreases |ops|
  {
    if ops != [] {
      TracksStep(p, initials, ops[0]);
      LogReplaysToStatus(PlainNext(p, ops[0]), if ops[0].Create? then initials[ops[0].id := ops[0].status] else initials, ops[1..]);
    }
  }

  predicate Keeps(id: string, ops: seq<Op>) {
    forall i :: 0 <= i < |ops| ==> ops[i] != Delete(id)
  }

  /** Without a deletion the log of an id only ever grows at its end. */
  lemma {:induction false} LogOnlyGrows(p: Mem, ops: seq<Op>, id: string)
    requires OrderlyRun(p, ops) && Keeps(id, ops)
    ensures EventsOf(p, id) <= EventsOf(PlainRun(p, ops).0, id)
    decreases |ops|
  {
    if ops != [] {
      var op, p' := ops[0], PlainNext(p, ops[0]);
      assert EventsOf(p, id) <= EventsOf(p', id) by {
        if op.Delete? { assert op.id != id; }
      }
      assert Keeps(id, ops[1..]) by {
        forall i | 0 <= i < |ops| - 1 ensures ops[1..][i] != Delete(id) { assert ops[1..][i] == ops[i + 1]; }
      }
      LogOnlyGrows(p', ops[1..], id);
    }
  }

  // ----- timestamps -----

  predicate NotEarlier(op: Op, clock: Time) {
    op.Create? || op.Update? || op.Append? ==> clock <= op.now
  }

  function Advance(op: Op, clock: Time): Time {
    if op.Create? || op.Update? || op.Append? then op.now else clock
  }

  predicate Monotone(ops: seq<Op>, clock: Time)
    decreases |ops|
  {
    ops != [] ==> NotEarlier(ops[0], clock) && Monotone(ops[1..], Advance(ops[0], clock))
  }

  function LastClock(ops: seq<Op>, clock: Time): Time
    decreases |ops|
  {
    if ops == [] then clock else LastClock(ops[1..], Advance(ops[0], clock))
  }

  predicate TimesOk(r: Record, clock: Time) {
    && (r.startedAt.Some? ==> r.startedAt.value <= clock)
    && (r.runtimeMs.Some? ==>
          && r.startedAt.Some? && r.completedAt.Some?
          && 0 <= r.runtimeMs.value == (r.completedAt.value - r.startedAt.value) / 1000)
  }

  predicate TextOk(t: Text) {
    && (t.truncated <==> t.size > INLINE_THRESHOLD)
    && |t.body| == if t.truncated then PREVIEW_SIZE else t.size
  }

  predicate SizesOk(r: Record) {
    (r.output.Some? ==> TextOk(r.output.value)) && (r.error.Some? ==> TextOk(r.error.value))
  }

  ghost predicate RecordsOk(p: Mem, clock: Time) {
    forall id :: id in p.evals ==> TimesOk(p.evals[id], clock) && SizesOk(p.evals[id])
  }

  lemma InlineOk(text: string)
    ensures TextOk(Inline(text)) && Inline(text).size == |text| && Inline(text).body <= text
  {
  }

  lemma WithStatusOk(r: Record, status: Status, clock: Time, now: Time)
    requires TimesOk(r, clock) && clock <= now
    ensures TimesOk(WithStatus(r, status, now), now)
  {
    if Ends(status) && r.startedAt.Some? {
      assert now - r.startedAt.value >= 0;
    }
  }

  lemma UpdatedOk(r: Record, req: Request, clock: Time, now: Time)
    requires TimesOk(r, clock) && SizesOk(r) && clock <= now
    ensures TimesOk(Updated(r, req, now), now) && SizesOk(Updated(r, req, now))
  {
    if req.status.Some? { WithStatusOk(r, req.status.value, clock, now); }
    if req.output.Some? { InlineOk(req.output.value); }
    if req.error.Some? { InlineOk(req.error.value); }
    var r1 := if req.status.Some? then WithStatus(r, req.status.value, now) else r;
    var r2 := Updated(r, req, now);
    assert TimesOk(r1, now);
    assert r2.startedAt == r1.startedAt && r2.completedAt == r1.completedAt && r2.runtimeMs == r1.runtimeMs;
  }

  /**
   With a clock that never runs back, runtimes are the non-negative gap between
   the two timestamps; truncation flags always say whether the size is over the
   threshold.
   */
  lemma {:induction false} TimesAndSizesStayOk(p: Mem, ops: seq<Op>, clock: Time)
    requires RecordsOk(p, clock) && Monotone(ops, clock)
    ensures RecordsOk(PlainRun(p, ops).0, LastClock(ops, clock))
    decreases |ops|
  {
    if ops != [] {
      var op, p' := ops[0], PlainNext(p, ops[0]);
      forall id | id in p'.evals
        ensures TimesOk(p'.evals[id], Advance(op, clock)) && SizesOk(p'.evals[id])
      {
        match op {
          case Update(i, req, now) => if i == id { UpdatedOk(p.evals[id], req, clock, now); }
          case Append(i, content, append, last, now) =>
            if i == id { UpdatedOk(p.evals[id], AppendRequest(p.evals[id], content, append, last), clock, now); }
          case _ =>
        }
      }
      TimesAndSizesStayOk(p', ops[1..], Advance(op, clock));
    }
  }

  predicate Touches(id: string, op: Op) {
    (op.Create? || op.Delete?) && op.id == id
  }

  predicate Untouched(id: string, ops: seq<Op>)
    decreases |ops|
  {
    ops != [] ==> !Touches(id, ops[0]) && Untouched(id, ops[1..])
  }

  lemma StartStep(p: Mem, op: Op, id: string)
    requires id in p.evals && p.evals[id].startedAt.Some? && !Touches(id, op)
    ensures var p' := PlainNext(p, op); id in p'.evals && p'.evals[id].startedAt == p.evals[id].startedAt
  {
  }

  /** Once set, `started_at` never moves. */
  lemma {:induction false} StartIsFixed(p: Mem, ops: seq<Op>, id: string)
    requires id in p.evals && p.evals[id].startedAt.Some? && Untouched(id, ops)
    ensures var p' := PlainRun(p, ops).0; id in p'.evals && p'.evals[id].startedAt == p.evals[id].startedAt
    decreases |ops|
  {
    if ops != [] {
      StartStep(p, ops[0], id);
      StartIsFixed(PlainNext(p, ops[0]), ops[1..], id);
    }
  }

  // ----- listings -----

  lemma StoreKeepsOrder(m: Mem, id: string, r: Record)
    requires MemOk(m)
    ensures MemOk(StoreEval(m, id, r))
  {
    hide Distinct, Elements;
    OneMoreElement(m.order, id);
  }

  lemma StepKeepsOrder(p: Mem, op: Op)
    requires MemOk(p)
    ensures MemOk(PlainNext(p, op))
  {
    hide Distinct, Elements, Updated;
    match op {
      case Create(id, code, status, extra, now) => StoreKeepsOrder(p, id, NewRecord(code, status, extra, now));
      case Update(id, req, now) => if id in p.evals { StoreKeepsOrder(p, id, Updated(p.evals[id], req, now)); }
      case Append(id, content, append, last, now) =>
        if id in p.evals { StoreKeepsOrder(p, id, Updated(p.evals[id], AppendRequest(p.evals[id], content, append, last), now)); }
      case _ =>
    }
  }

  /** The key order always lists the stored ids, each once. */
  lemma {:induction false} RunKeepsOrder(p: Mem, ops: seq<Op>)
    requires MemOk(p)
    ensures MemOk(PlainRun(p, ops).0)
    decreases |ops|
  {
    hide MemOk, PlainNext;
    if ops != [] {
      StepKeepsOrder(p, ops[0]);
      RunKeepsOrder(PlainNext(p, ops[0]), ops[1..]);
    }
  }

  lemma {:induction false} SelectAll(p: Mem, ids: seq<string>)
    requires forall i :: 0 <= i < |ids| ==> ids[i] in p.evals
    ensures var rs := Select(p, ids, None); |rs| == |ids| && forall i :: 0 <= i < |ids| ==> rs[i] == p.evals[ids[i]]
    decreases |ids|
  {
    if ids != [] {
      SelectAll(p, ids[..|ids| - 1]);
    }
  }

  /**
   After any run from an empty store, a listing whose limit is large enough shows
   each stored record exactly once, in the order of creation, and the count is the
   number of records up to 100000.
   */
  lemma ListingIsComplete(ops: seq<Op>, limit: nat)
    ensures var p := PlainRun(EMPTY_MEM, ops).0;
      && Distinct(p.order) && Elements(p.order) == p.evals.Keys
      && PlainAnswer(p, Count(None)) == Total(if |p.evals| <= COUNT_LIMIT then |p.evals| else COUNT_LIMIT)
      && (limit >= |p.evals| ==>
            && PlainAnswer(p, List(limit, 0, None)).Listing?
            && var rs := PlainAnswer(p, List(limit, 0, None)).records;
               |rs| == |p.order| && forall i :: 0 <= i < |rs| ==> p.order[i] in p.evals && rs[i] == p.evals[p.order[i]])
  {
    hide PlainRun, PlainAnswer, MemOk;
    assert MemOk(EMPTY_MEM) by { EmptyMemOk(); }
    RunKeepsOrder(EMPTY_MEM, ops);
    ListingShowsAll(PlainRun(EMPTY_MEM, ops).0, limit);
  }

  lemma EmptyMemOk()
    ensures MemOk(EMPTY_MEM)
  {
  }

  lemma ListingShowsAll(p: Mem, limit: nat)
    requires MemOk(p)
    ensures Distinct(p.order) && Elements(p.order) == p.evals.Keys
    ensures PlainAnswer(p, Count(None)) == Total(if |p.evals| <= COUNT_LIMIT then |p.evals| else COUNT_LIMIT)
    ensures limit >= |p.evals| ==>
            && PlainAnswer(p, List(limit, 0, None)).Listing?
            && var rs := PlainAnswer(p, List(limit, 0, None)).records;
               |rs| == |p.order| && forall i :: 0 <= i < |rs| ==> p.order[i] in p.evals && rs[i] == p.evals[p.order[i]]
  {
    DistinctSize(p.order);
    forall i | 0 <= i < |p.order| ensures p.order[i] in p.evals {
      assert p.order[i] in Elements(p.order);
    }
    hide Distinct, Elements, Select;
    if limit >= |p.evals| {
      assert Page(p, limit, 0) == p.order;
      SelectAll(p, p.order);
    }
  }

  // ----- appended logs -----

  function AppendAll(p: Mem, id: string, parts: seq<string>, now: Time): (p': Mem)
    requires id in p.evals
    ensures id in p'.evals
    decreases |parts|
  {
    if parts == [] then p
    else AppendAll(PlainNext(p, Append(id, parts[0], true, None, now)), id, parts[1..], now)
  }

  function Body(p: Mem, id: string): string
    requires id in p.evals
  {
    BodyOf(p.evals[id])
  }

  lemma {:induction false} AppendsAddNoMore(p: Mem, id: string, parts: seq<string>, now: Time)
    requires id in p.evals
    ensures |Body(AppendAll(p, id, parts, now), id)| <= |Body(p, id)| + |Concat(parts)|
    decreases |parts|
  {
    if parts != [] {
      AppendsAddNoMore(PlainNext(p, Append(id, parts[0], true, None, now)), id, parts[1..], now);
    }
  }

  /** The stored output is all that was appended exactly when all of it fits inline. */
  lemma {:induction false} OutputIsConcatenationExactlyWhen(p: Mem, id: string, parts: seq<string>, now: Time)
    requires id in p.evals && |Body(p, id)| <= INLINE_THRESHOLD
    ensures Body(AppendAll(p, id, parts, now), id) == Body(p, id) + Concat(parts)
            <==> |Body(p, id)| + |Concat(parts)| <= INLINE_THRESHOLD
    decreases |parts|
  {
    if parts == [] {
      assert Body(p, id) + "" == Body(p, id);
    } else {
      var p1 := PlainNext(p, Append(id, parts[0], true, None, now));
      if |Body(p, id)| + |parts[0]| <= INLINE_THRESHOLD {
        OutputIsConcatenationExactlyWhen(p1, id, parts[1..], now);
        assert Body(p, id) + (parts[0] + Concat(parts[1..])) == Body(p1, id) + Concat(parts[1..]);
      } else {
        AppendsAddNoMore(p1, id, parts[1..], now);
      }
    }
  }

  lemma {:induction false} AppendAllSnoc(p: Mem, id: string, parts: seq<string>, last: string, now: Time)
    requires id in p.evals
    ensures AppendAll(p, id, parts + [last], now) == PlainNext(AppendAll(p, id, parts, now), Append(id, last, true, None, now))
    decreases |parts|
  {
    if parts == [] {
      assert (parts + [last])[1..] == [];
    } else {
      assert (parts + [last])[1..] == parts[1..] + [last];
      AppendAllSnoc(PlainNext(p, Append(id, parts[0], true, None, now)), id, parts[1..], last, now);
    }
  }

  /**
   The truncation flag only remembers the latest append: text is missing and yet
   unflagged exactly when the total is over the threshold but the latest append,
   on top of what was then stored, is not.
   */
  lemma LossIsUnflaggedExactlyWhen(p: Mem, id: string, parts: seq<string>, last: string, now: Time)
    requires id in p.evals && |Body(p, id)| <= INLINE_THRESHOLD
    ensures var p' := AppendAll(p, id, parts + [last], now);
      p'.evals[id].output.Some?
      && ((Body(p', id) != Body(p, id) + Concat(parts + [last]) && !p'.evals[id].output.value.truncated)
          <==> (|Body(p, id)| + |Concat(parts + [last])| > INLINE_THRESHOLD
                && |Body(AppendAll(p, id, parts, now), id)| + |last| <= INLINE_THRESHOLD))
  {
    OutputIsConcatenationExactlyWhen(p, id, parts + [last], now);
    AppendAllSnoc(p, id, parts, last, now);
  }

  lemma UnflaggedLossHappens(p: Mem, id: string, now: Time)
    requires id in p.evals && |Body(p, id)| <= INLINE_THRESHOLD
    ensures exists parts, last :: var p' := AppendAll(p, id, parts + [last], now);
      Body(p', id) != Body(p, id) + Concat(parts + [last])
      && p'.evals[id].output.Some? && !p'.evals[id].output.value.truncated
  {
    var big := seq(INLINE_THRESHOLD + 1, _ => 'x');
    ConcatAppend([big], ["y"]);
    LossIsUnflaggedExactlyWhen(p, id, [big], "y", now);
    assert AppendAll(p, id, [big], now) == PlainNext(p, Append(id, big, true, None, now)) by {
      assert [big][1..] == [];
    }
    assert |Body(AppendAll(p, id, [big], now), id)| == PREVIEW_SIZE;
  }
}
