/**
 The storage manager: a primary in-memory backend, an optional write-through
 cache of the same kind, an event log per evaluation, and outputs that are kept
 inline up to a threshold and cut to a preview beyond it.
 */
module Storage {
  import opened Common

  /** Microseconds. */
  type Time = int

  datatype Status =
    | Submitted | Queued | Provisioning | Running
    | Completed | Failed | Cancelled
    | TimedOut             // "timeout": known to the manager only
    | Other(name: string)

  const INLINE_THRESHOLD: nat := 1024 * 1024
  const PREVIEW_SIZE: nat := 1024
  const COUNT_LIMIT: nat := 100000

  /** An output or error field together with its size and truncation flag. */
  datatype Text = Text(body: string, size: nat, truncated: bool)

  datatype Record = Record(
    status: Status, code: string, createdAt: Time,
    startedAt: Option<Time>, completedAt: Option<Time>, runtimeMs: Option<int>,
    output: Option<Text>, error: Option<Text>,
    metadata: map<string, string>, extra: map<string, string>)

  datatype Event = Event(kind: string, at: Time, newStatus: Option<Status>)

  const STATUS_CHANGED := "status_changed"

  /** The keyword arguments of `update_evaluation`. */
  datatype Request = Request(
    status: Option<Status>, output: Option<string>, error: Option<string>,
    metadata: Option<map<string, string>>, extra: map<string, string>)

  function NewRecord(code: string, status: Status, extra: map<string, string>, now: Time): Record {
    Record(status, code, now, None, None, None, None, None, map[], extra)
  }

  /** `int((completed - started).total_seconds() * 1000)`: toward zero. */
  function RuntimeMs(started: Time, completed: Time): int {
    if completed >= started then (completed - started) / 1000 else -((started - completed) / 1000)
  }

  predicate Ends(status: Status) {
    status in {Completed, Failed, TimedOut}
  }

  function Inline(text: string): Text {
    if |text| <= INLINE_THRESHOLD then Text(text, |text|, false) else Text(text[..PREVIEW_SIZE], |text|, true)
  }

  function WithStatus(r: Record, status: Status, now: Time): Record {
    if status == Running && r.startedAt == None then r.(status := status, startedAt := Some(now))
    else if Ends(status) then
      r.(status := status, completedAt := Some(now),
         runtimeMs := if r.startedAt.Some? then Some(RuntimeMs(r.startedAt.value, now)) else r.runtimeMs)
    else r.(status := status)
  }

  function Updated(r: Record, req: Request, now: Time): Record {
    var r1 := if req.status.Some? then WithStatus(r, req.status.value, now) else r;
    r1.(output := if req.output.Some? then Some(Inline(req.output.value)) else r.output,
        error := if req.error.Some? then Some(Inline(req.error.value)) else r.error,
        metadata := if req.metadata.Some? then r.metadata + req.metadata.value else r.metadata,
        extra := r.extra + req.extra)
  }

  // ----- the memory backend -----

  /** Python dictionaries keep insertion order; `order` is the key order of `evals`. */
  datatype Mem = Mem(order: seq<string>, evals: map<string, Record>, events: map<string, seq<Event>>)

  const EMPTY_MEM := Mem([], map[], map[])

  function StoreEval(m: Mem, id: string, r: Record): Mem {
    Mem(if id in m.evals then m.order else m.order + [id], m.evals[id := r], m.events)
  }

  function StoreEvents(m: Mem, id: string, events: seq<Event>): Mem {
    m.(events := m.events[id := events])
  }

  function EventsOf(m: Mem, id: string): seq<Event> {
    if id in m.events then m.events[id] else []
  }

  function Without(order: seq<string>, id: string): (r: seq<string>)
    ensures Elements(r) == Elements(order) - {id}
    ensures Distinct(order) ==> Distinct(r)
  {
    if order == [] then []
    else
      assert Elements(order) == Elements(order[1..]) + {order[0]};
      var rest := Without(order[1..], id);
      if order[0] == id then rest else
        assert Distinct(order) ==> order[0] !in Elements(order[1..]);
        assert Elements([order[0]] + rest) == Elements(rest) + {order[0]};
        [order[0]] + rest
  }

  function DeleteEval(m: Mem, id: string): Mem {
    Mem(if id in m.evals then Without(m.order, id) else m.order, m.evals - {id}, m.events - {id})
  }

  function Page(m: Mem, limit: nat, offset: nat): seq<string> {
    if offset >= |m.order| then []
    else if offset + limit >= |m.order| then m.order[offset..]
    else m.order[offset..offset + limit]
  }

  ghost predicate MemOk(m: Mem) {
    Distinct(m.order) && Elements(m.order) == m.evals.Keys
  }

  // ----- the manager -----

  datatype Mgr = Mgr(primary: Mem, cache: Option<Mem>)

  function CachePut(cache: Option<Mem>, id: string, r: Record): Option<Mem> {
    if cache.Some? then Some(StoreEval(cache.value, id, r)) else None
  }

  function GetEval(m: Mgr, id: string): (Mgr, Option<Record>) {
    if m.cache.Some? && id in m.cache.value.evals then (m, Some(m.cache.value.evals[id]))
    else if id in m.primary.evals then
      (m.(cache := CachePut(m.cache, id, m.primary.evals[id])), Some(m.primary.evals[id]))
    else (m, None)
  }

  function CreateEval(m: Mgr, id: string, r: Record, now: Time): Mgr {
    Mgr(StoreEvents(StoreEval(m.primary, id, r), id, [Event("submitted", now, None)]), CachePut(m.cache, id, r))
  }

  function UpdateEval(m: Mgr, id: string, req: Request, now: Time): (Mgr, bool) {
    var (m1, current) := GetEval(m, id);
    if current == None then (m1, false) else
      var r := Updated(current.value, req, now);
      var p := StoreEval(m1.primary, id, r);
      (Mgr(if req.status.Some? then StoreEvents(p, id, EventsOf(p, id) + [Event(STATUS_CHANGED, now, req.status)]) else p,
           CachePut(m1.cache, id, r)), true)
  }

  predicate Matches(r: Option<Record>, status: Option<Status>) {
    r.Some? && (status == None || r.value.status == status.value)
  }

  /** Fetches the ids one after the other, keeping the records with the wanted status. */
  function Collect(m: Mgr, ids: seq<string>, status: Option<Status>): (Mgr, seq<Record>)
    decreases |ids|
  {
    if ids == [] then (m, []) else
      var (m1, front) := Collect(m, ids[..|ids| - 1], status);
      var (m2, r) := GetEval(m1, ids[|ids| - 1]);
      (m2, if Matches(r, status) then front + [r.value] else front)
  }

  function CountEvals(m: Mgr, status: Option<Status>): (Mgr, nat) {
    var all := Page(m.primary, COUNT_LIMIT, 0);
    if status == None then (m, |all|) else
      var (m', found) := Collect(m, all, status);
      (m', |found|)
  }

  function DeleteFrom(m: Mgr, id: string): (Mgr, bool) {
    (Mgr(DeleteEval(m.primary, id), if m.cache.Some? then Some(DeleteEval(m.cache.value, id)) else None),
     id in m.primary.evals || id in m.primary.events)
  }

  function AddEventTo(m: Mgr, id: string, e: Event): Mgr {
    m.(primary := StoreEvents(m.primary, id, EventsOf(m.primary, id) + [e]))
  }

  class InMemoryStorage {
    var order: seq<string>
    var evaluations: map<string, Record>
    var events: map<string, seq<Event>>

    function View(): Mem
      reads this
    {
      Mem(order, evaluations, events)
    }

    constructor ()
      ensures View() == EMPTY_MEM
    {
      order, evaluations, events := [], map[], map[];
    }

    method StoreEvaluation(id: string, data: Record) returns (stored: bool)
      modifies this
      ensures View() == StoreEval(old(View()), id, data) && stored
    {
      if id !in evaluations {
        order := order + [id];
      }
      evaluations := evaluations[id := data];
      stored := true;
    }

    method RetrieveEvaluation(id: string) returns (r: Option<Record>)
      ensures r == if id in View().evals then Some(View().evals[id]) else None
    {
      r := if id in evaluations then Some(evaluations[id]) else None;
    }

    method StoreEventList(id: string, list: seq<Event>) returns (stored: bool)
      modifies this
      ensures View() == StoreEvents(old(View()), id, list) && stored
    {
      events := events[id := list];
      stored := true;
    }

    method RetrieveEvents(id: string) returns (list: seq<Event>)
      ensures list == EventsOf(View(), id)
    {
      list := if id in events then events[id] else [];
    }

    method ListEvaluations(limit: nat, offset: nat) returns (ids: seq<string>)
      ensures ids == Page(View(), limit, offset)
    {
      var lo := if offset < |order| then offset else |order|;
      var hi := if offset + limit < |order| then offset + limit else |order|;
      ids := order[lo..hi];
    }

    method DeleteEvaluation(id: string) returns (deleted: bool)
      modifies this
      ensures View() == DeleteEval(old(View()), id)
      ensures deleted <==> id in old(evaluations) || id in old(events)
    {
      deleted := false;
      if id in evaluations {
        evaluations := evaluations - {id};
        order := Without(order, id);
        deleted := true;
      }
      if id in events {
        events := events - {id};
        deleted := true;
      }
    }
  }

  class FlexibleStorageManager {
    const primary: InMemoryStorage
    const cache: InMemoryStorage?

    constructor (primary: InMemoryStorage, cache: InMemoryStorage?)
      requires primary != cache
      ensures this.primary == primary && this.cache == cache && Valid()
    {
      this.primary, this.cache := primary, cache;
    }

    predicate Valid() {
      primary != cache
    }

    function View(): Mgr
      reads primary, cache
    {
      Mgr(primary.View(), if cache == null then None else Some(cache.View()))
    }

    method CreateEvaluation(id: string, data: Record, now: Time) returns (ok: bool)
      requires Valid()
      modifies primary, cache
      ensures View() == CreateEval(old(View()), id, data, now) && ok
    {
      if cache != null {
        var _ := cache.StoreEvaluation(id, data);
      }
      ok := primary.StoreEvaluation(id, data);
      if ok {
        var _ := primary.StoreEventList(id, [Event("submitted", now, None)]);
      }
    }

    method GetEvaluation(id: string) returns (r: Option<Record>)
      requires Valid()
      modifies primary, cache
      ensures (View(), r) == GetEval(old(View()), id)
    {
      if cache != null {
        r := cache.RetrieveEvaluation(id);
        if r.Some? {
          return;
        }
      }
      r := primary.RetrieveEvaluation(id);
      if r.Some? && cache != null {
        var _ := cache.StoreEvaluation(id, r.value);
      }
    }

    method UpdateEvaluation(id: string, req: Request, now: Time) returns (ok: bool)
      requires Valid()
      modifies primary, cache
      ensures (View(), ok) == UpdateEval(old(View()), id, req, now)
    {
      var found := GetEvaluation(id);
      if found == None {
        return false;
      }
      var current := found.value;
      if req.status.Some? {
        var status := req.status.value;
        current := current.(status := status);
        if status == Running && current.startedAt == None {
          current := current.(startedAt := Some(now));
        } else if Ends(status) {
          current := current.(completedAt := Some(now));
          if current.startedAt.Some? {
            current := current.(runtimeMs := Some(RuntimeMs(current.startedAt.value, now)));
          }
        }
      }
      if req.output.Some? {
        current := current.(output := Some(Inline(req.output.value)));
      }
      if req.error.Some? {
        current := current.(error := Some(Inline(req.error.value)));
      }
      if req.metadata.Some? {
        current := current.(metadata := current.metadata + req.metadata.value);
      }
      current := current.(extra := current.extra + req.extra);
      assert current == Updated(found.value, req, now);
      if cache != null {
        var _ := cache.StoreEvaluation(id, current);
      }
      ok := primary.StoreEvaluation(id, current);
      if ok && req.status.Some? {
        var log := primary.RetrieveEvents(id);
        var _ := primary.StoreEventList(id, log + [Event(STATUS_CHANGED, now, req.status)]);
      }
    }

    method FetchMatching(ids: seq<string>, status: Option<Status>) returns (found: seq<Record>)
      requires Valid()
      modifies primary, cache
      ensures (View(), found) == Collect(old(View()), ids, status)
    {
      found := [];
      for i := 0 to |ids|
        invariant (View(), found) == Collect(old(View()), ids[..i], status)
      {
        assert ids[..i + 1][..i] == ids[..i];
        var r := GetEvaluation(ids[i]);
        if Matches(r, status) {
          found := found + [r.value];
        }
      }
      assert ids[..|ids|] == ids;
    }

    method ListEvaluations(limit: nat, offset: nat, status: Option<Status>) returns (found: seq<Record>)
      requires Valid()
      modifies primary, cache
      ensures (View(), found) == Collect(old(View()), Page(old(View()).primary, limit, offset), status)
    {
      var ids := primary.ListEvaluations(limit, offset);
      found := FetchMatching(ids, status);
    }

    method CountEvaluations(status: Option<Status>) returns (count: nat)
      requires Valid()
      modifies primary, cache
      ensures (View(), count) == CountEvals(old(View()), status)
    {
      var all := primary.ListEvaluations(COUNT_LIMIT, 0);
      if status == None {
        return |all|;
      }
      count := 0;
      for i := 0 to |all|
        invariant View() == Collect(old(View()), all[..i], status).0
        invariant count == |Collect(old(View()), all[..i], status).1|
      {
        assert all[..i + 1][..i] == all[..i];
        var r := GetEvaluation(all[i]);
        if Matches(r, status) {
          count := count + 1;
        }
      }
      assert all[..|all|] == all;
    }

    method DeleteEvaluation(id: string) returns (deleted: bool)
      requires Valid()
      modifies primary, cache
      ensures (View(), deleted) == DeleteFrom(old(View()), id)
    {
      if cache != null {
        var _ := cache.DeleteEvaluation(id);
      }
      deleted := primary.DeleteEvaluation(id);
    }

    method AddEvent(id: string, event: Event) returns (ok: bool)
      requires Valid()
      modifies primary
      ensures View() == AddEventTo(old(View()), id, event) && ok
    {
      var log := primary.RetrieveEvents(id);
      ok := primary.StoreEventList(id, log + [event]);
    }
  }

  // ----- the log endpoint of the storage service -----

  function BodyOf(r: Record): string {
    if r.output.Some? then r.output.value.body else ""
  }

  function AppendRequest(r: Record, content: string, append: bool, lastUpdate: Option<string>): Request {
    Request(None, Some(if append then BodyOf(r) + content else content), None, None,
            if lastUpdate.Some? then map["last_update" := lastUpdate.value] else map[])
  }

  function AppendLogs(m: Mgr, id: string, content: string, append: bool, lastUpdate: Option<string>, now: Time): (Mgr, bool) {
    var (m1, existing) := GetEval(m, id);
    if existing == None then (m1, false)
    else UpdateEval(m1, id, AppendRequest(existing.value, content, append, lastUpdate), now)
  }

  method AppendEvaluationLogs(storage: FlexibleStorageManager, id: string, content: string, append: bool,
                              lastUpdate: Option<string>, now: Time) returns (ok: bool)
    requires storage.Valid()
    modifies storage.primary, storage.cache
    ensures (storage.View(), ok) == AppendLogs(old(storage.View()), id, content, append, lastUpdate, now)
  {
    var existing := storage.GetEvaluation(id);
    if existing == None {
      return false;
    }
    var newOutput := content;
    if append {
      newOutput := BodyOf(existing.value) + content;
    }
    var extra := map[];
    if lastUpdate.Some? {
      extra := map["last_update" := lastUpdate.value];
    }
    ok := storage.UpdateEvaluation(id, Request(None, Some(newOutput), None, None, extra), now);
  }
}
