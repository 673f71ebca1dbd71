/**
 What single operations do to a record, which records a listing shows, and how
 the timestamps of a record follow from its event log. Only the data types of the
 manager are used to say so.
 */
module RecordLaws {
  import opened Common
  import opened Storage
  import opened StorageLaws

  // ----- one operation -----

  /** A text as it is kept: whole up to the threshold, cut to the preview beyond it. */
  predicate KeepsText(t: Option<Text>, text: string) {
    && t.Some? && t.value.size == |text|
    && (t.value.truncated <==> |text| > INLINE_THRESHOLD)
    && t.value.body == if |text| > INLINE_THRESHOLD then text[..PREVIEW_SIZE] else text
  }

  /** New values win, all other keys stay. */
  predicate Merged(before: map<string, string>, added: map<string, string>, after: map<string, string>) {
    && after.Keys == before.Keys + added.Keys
    && (forall k :: k in added ==> after[k] == added[k])
    && (forall k :: k in before && k !in added ==> after[k] == before[k])
  }

  predicate SameTimes(r: Record, r': Record) {
    r'.createdAt == r.createdAt && r'.startedAt == r.startedAt && r'.completedAt == r.completedAt && r'.runtimeMs == r.runtimeMs
  }

  /** Other ids keep their records, their events and their order. */
  ghost predicate OnlyAbout(p: Mem, p': Mem, id: string) {
    forall other :: other != id ==>
      && (other in p'.evals <==> other in p.evals) && (other in p.evals ==> p'.evals[other] == p.evals[other])
      && (other in p'.events <==> other in p.events) && (other in p.events ==> p'.events[other] == p.events[other])
  }

  /** An update writes what it is given, each to its own field. */
  predicate Written(r: Record, req: Request, r': Record) {
    && r'.code == r.code && r'.createdAt == r.createdAt
    && r'.status == (if req.status.Some? then req.status.value else r.status)
    && (if req.output.Some? then KeepsText(r'.output, req.output.value) else r'.output == r.output)
    && (if req.error.Some? then KeepsText(r'.error, req.error.value) else r'.error == r.error)
    && (if req.metadata.Some? then Merged(r.metadata, req.metadata.value, r'.metadata) else r'.metadata == r.metadata)
    && Merged(r.extra, req.extra, r'.extra)
    && (req.status == None ==> SameTimes(r, r'))
  }

  lemma InlineKeeps(text: string)
    ensures KeepsText(Some(Inline(text)), text)
  {
  }

  lemma SumMerges(before: map<string, string>, added: map<string, string>)
    ensures Merged(before, added, before + added)
  {
  }

  lemma StatusOnly(r: Record, status: Status, now: Time)
    ensures var r' := WithStatus(r, status, now);
      r' == r.(status := status, startedAt := r'.startedAt, completedAt := r'.completedAt, runtimeMs := r'.runtimeMs)
  {
  }

  lemma UpdatedIsWritten(r: Record, req: Request, now: Time)
    ensures Written(r, req, Updated(r, req, now))
  {
    if req.status.Some? { StatusOnly(r, req.status.value, now); }
    hide WithStatus;
    if req.output.Some? { InlineKeeps(req.output.value); }
    if req.error.Some? { InlineKeeps(req.error.value); }
    if req.metadata.Some? { SumMerges(r.metadata, req.metadata.value); }
    SumMerges(r.extra, req.extra);
    hide Inline, KeepsText, Merged;
  }

  lemma AmendParts(p: Mem, id: string, req: Request, now: Time)
    requires id in p.evals
    ensures var p' := Amend(p, id, req, now);
      && OnlyAbout(p, p', id) && p'.order == p.order && id in p'.evals && p'.evals[id] == Updated(p.evals[id], req, now)
      && EventsOf(p', id) == EventsOf(p, id) + if req.status.Some? then [Event("status_changed", now, req.status)] else []
  {
    hide Updated;
    assert EventsOf(p, id) + [] == EventsOf(p, id);
  }

  /** The new record is written, a status is logged, and nothing else happens. */
  lemma OneUpdate(p: Mem, id: string, req: Request, now: Time)
    requires id in p.evals
    ensures var p' := PlainNext(p, Update(id, req, now));
      && OnlyAbout(p, p', id) && p'.order == p.order && id in p'.evals && Written(p.evals[id], req, p'.evals[id])
      && EventsOf(p', id) == EventsOf(p, id) + if req.status.Some? then [Event("status_changed", now, req.status)] else []
  {
    hide Updated, Written, OnlyAbout, Amend;
    AmendParts(p, id, req, now);
    UpdatedIsWritten(p.evals[id], req, now);
  }

  /** An appended text follows what was stored, or replaces it. */
  lemma OneAppend(p: Mem, id: string, content: string, append: bool, last: Option<string>, now: Time)
    requires id in p.evals
    ensures var p' := PlainNext(p, Append(id, content, append, last, now));
      && OnlyAbout(p, p', id) && p'.order == p.order && EventsOf(p', id) == EventsOf(p, id) && id in p'.evals
      && var r, r' := p.evals[id], p'.evals[id];
         && KeepsText(r'.output, (if append && r.output.Some? then r.output.value.body else "") + content)
         && Merged(r.extra, if last.Some? then map["last_update" := last.value] else map[], r'.extra)
         && r' == r.(output := r'.output, extra := r'.extra)
  {
    assert "" + content == content;
  }

  /** A new record holds its code and status, no times, no texts, and starts its log. */
  lemma OneCreate(p: Mem, id: string, code: string, status: Status, extra: map<string, string>, now: Time)
    ensures var p' := PlainNext(p, Create(id, code, status, extra, now));
      && OnlyAbout(p, p', id) && id in p'.evals && EventsOf(p', id) == [Event("submitted", now, None)]
      && p'.order == p.order + (if id in p.evals then [] else [id])
      && var r := p'.evals[id];
         && r.code == code && r.status == status && r.createdAt == now && r.extra == extra && r.metadata == map[]
         && r.startedAt == None && r.completedAt == None && r.runtimeMs == None && r.output == None && r.error == None
  {
    assert p.order + [] == p.order;
  }

  lemma {:induction false} WithoutNone(order: seq<string>, id: string)
    requires id !in order
    ensures Without(order, id) == order
  {
    hide Elements, Distinct;
    if order != [] {
      WithoutNone(order[1..], id);
    }
  }

  lemma {:induction false} WithoutOnce(a: seq<string>, id: string, b: seq<string>)
    requires id !in a && id !in b
    ensures Without(a + [id] + b, id) == a + b
    decreases |a|
  {
    hide Elements, Distinct;
    var order := a + [id] + b;
    if a == [] {
      assert order[1..] == b && a + b == b;
      WithoutNone(b, id);
    } else {
      assert order[1..] == a[1..] + [id] + b && order[0] == a[0];
      WithoutOnce(a[1..], id, b);
      assert [a[0]] + (a[1..] + b) == a + b;
    }
  }

  lemma SplitAt(order: seq<string>, id: string) returns (a: seq<string>, b: seq<string>)
    requires Distinct(order) && id in order
    ensures order == a + [id] + b && Without(order, id) == a + b && id !in a && id !in b
  {
    var i :| 0 <= i < |order| && order[i] == id;
    a, b := order[..i], order[i + 1..];
    WithoutOnce(a, id, b);
    hide Without;
  }

  /** A deleted id has no record, no events and no place in the order; the others keep theirs. */
  lemma OneDelete(p: Mem, id: string)
    requires MemOk(p)
    ensures var p' := PlainNext(p, Delete(id));
      && OnlyAbout(p, p', id) && id !in p'.evals && id !in p'.events
      && (id in p.evals ==> exists a, b :: p.order == a + [id] + b && p'.order == a + b && id !in a && id !in b)
      && (id !in p.evals ==> p'.order == p.order)
      && PlainAnswer(p, Delete(id)) == Flag(id in p.evals || id in p.events)
      && PlainAnswer(p', Get(id)) == Found(None) && PlainAnswer(p', GetEvents(id)) == History([])
  {
    hide MemOk;
    if id in p.evals { DeletedOrder(p, id); }
    hide Without;
  }

  lemma DeletedOrder(p: Mem, id: string)
    requires MemOk(p) && id in p.evals
    ensures exists a, b :: p.order == a + [id] + b && Without(p.order, id) == a + b && id !in a && id !in b
  {
    assert id in Elements(p.order);
    var a, b := SplitAt(p.order, id);
    hide Without, Distinct, Elements;
  }

  // ----- what a listing shows -----

  /**
   `at` are the positions on the page of `size` keys from `lo` on whose record has
   the wanted status, ascending, and `found` are these records.
   */
  ghost predicate Shows(p: Mem, lo: nat, size: nat, wanted: Option<Status>, at: seq<nat>, found: seq<Record>) {
    && |at| == |found|
    && (forall a, b :: 0 <= a < b < |at| ==> at[a] < at[b])
    && (forall a :: 0 <= a < |at| ==>
          lo <= at[a] < lo + size && at[a] < |p.order| && p.order[at[a]] in p.evals && found[a] == p.evals[p.order[at[a]]])
    && (forall i: nat :: i in at <==>
          && lo <= i < lo + size && i < |p.order| && p.order[i] in p.evals
          && (wanted.Some? ==> p.evals[p.order[i]].status == wanted.value))
  }

  lemma SelectEnd(p: Mem, ids: seq<string>, id: string, wanted: Option<Status>)
    ensures Select(p, ids + [id], wanted)
         == Select(p, ids, wanted) + if Matches(Lookup(p, id), wanted) then [Lookup(p, id).value] else []
  {
    assert (ids + [id])[..|ids|] == ids;
  }

  lemma {:induction false} SelectShows(p: Mem, lo: nat, size: nat, wanted: Option<Status>) returns (at: seq<nat>)
    requires lo + size <= |p.order|
    ensures Shows(p, lo, size, wanted, at, Select(p, p.order[lo..lo + size], wanted))
    decreases size
  {
    hide Shows, Select, Matches, Lookup;
    if size == 0 {
      at := [];
      NoneShown(p, lo, wanted);
    } else {
      var front := p.order[lo..lo + size - 1];
      var id := p.order[lo + size - 1];
      at := SelectShows(p, lo, size - 1, wanted);
      assert p.order[lo..lo + size] == front + [id];
      SelectEnd(p, front, id, wanted);
      OneMoreShown(p, lo, size, wanted, at, Select(p, front, wanted));
      assert Select(p, front, wanted) + [] == Select(p, front, wanted);
      if Matches(Lookup(p, id), wanted) {
        at := at + [lo + size - 1];
      }
    }
  }

  lemma NoneShown(p: Mem, lo: nat, wanted: Option<Status>)
    ensures Shows(p, lo, 0, wanted, [], Select(p, p.order[Min(lo, |p.order|)..Min(lo, |p.order|)], wanted))
  {
  }

  lemma OneMoreShown(p: Mem, lo: nat, size: nat, wanted: Option<Status>, at: seq<nat>, found: seq<Record>)
    requires size > 0 && lo + size <= |p.order| && Shows(p, lo, size - 1, wanted, at, found)
    ensures var r := Lookup(p, p.order[lo + size - 1]);
      if Matches(r, wanted) then Shows(p, lo, size, wanted, at + [lo + size - 1], found + [r.value])
      else Shows(p, lo, size, wanted, at, found)
  {
    forall i: nat ensures i in at + [lo + size - 1] <==> i in at || i == lo + size - 1 {
    }
  }

  /** A page is cut off where the keys end. */
  lemma PageIsSlice(p: Mem, limit: nat, offset: nat)
    ensures Page(p, limit, offset) == p.order[Min(offset, |p.order|)..Min(offset + limit, |p.order|)]
  {
  }

  lemma PageShows(p: Mem, limit: nat, offset: nat, wanted: Option<Status>) returns (at: seq<nat>)
    ensures Shows(p, offset, limit, wanted, at, Select(p, Page(p, limit, offset), wanted))
  {
    PageIsSlice(p, limit, offset);
    var lo, hi := Min(offset, |p.order|), Min(offset + limit, |p.order|);
    hide Page, Select;
    at := SelectShows(p, lo, hi - lo, wanted);
  }

  /** A listing shows the records with the wanted status on its page, each once, in the order of the keys. */
  lemma ListingShows(p: Mem, limit: nat, offset: nat, wanted: Option<Status>)
    ensures var answer := PlainAnswer(p, List(limit, offset, wanted));
      answer.Listing? && exists at :: Shows(p, offset, limit, wanted, at, answer.records)
  {
    hide Page, Shows, Select;
    var at := PageShows(p, limit, offset, wanted);
  }

  /** A count by status is the number of such positions among the first 100000. */
  lemma CountShows(p: Mem, wanted: Status)
    ensures exists at, found :: Shows(p, 0, 100000, Some(wanted), at, found) && PlainAnswer(p, Count(Some(wanted))) == Total(|at|)
  {
    hide Page, Select;
    var at := PageShows(p, COUNT_LIMIT, 0, Some(wanted));
    assert |at| == |Select(p, Page(p, COUNT_LIMIT, 0), Some(wanted))|;
    hide Shows;
  }

  predicate Before(order: seq<string>, a: string, b: string) {
    exists i, j :: 0 <= i < j < |order| && order[i] == a && order[j] == b
  }

  /** `a` is stored, and ahead of `b` if that is stored too. */
  ghost predicate Ahead(p: Mem, a: string, b: string) {
    a in p.evals && (b in p.evals ==> Before(p.order, a, b))
  }

  lemma BeforeAppended(order: seq<string>, more: string, a: string, b: string)
    requires Before(order, a, b) || (a in order && b == more)
    ensures Before(order + [more], a, b)
  {
    var longer := order + [more];
    if Before(order, a, b) {
      var i, j :| 0 <= i < j < |order| && order[i] == a && order[j] == b;
      assert longer[i] == a && longer[j] == b;
    } else {
      var i :| 0 <= i < |order| && order[i] == a;
      assert longer[i] == a && longer[|order|] == b;
    }
  }

  lemma BeforeRemoved(left: seq<string>, id: string, right: seq<string>, a: string, b: string)
    requires Before(left + [id] + right, a, b) && a != id && b != id
    ensures Before(left + right, a, b)
  {
    var order, less := left + [id] + right, left + right;
    var i, j :| 0 <= i < j < |order| && order[i] == a && order[j] == b;
    var k, l := if i < |left| then i else i - 1, if j < |left| then j else j - 1;
    assert less[k] == a && less[l] == b;
  }

  lemma AheadStep(p: Mem, op: Op, a: string, b: string)
    requires MemOk(p) && Ahead(p, a, b) && a != b && op != Delete(a)
    ensures Ahead(PlainNext(p, op), a, b)
  {
    hide Updated, Without, Before;
    assert a in Elements(p.order);
    match op {
      case Create(id, code, status, extra, now) =>
        if id !in p.evals && (b in p.evals || b == id) { BeforeAppended(p.order, id, a, b); }
      case Delete(id) =>
        OneDelete(p, id);
        if id in p.evals && b in p.evals && b != id {
          var left, right :| p.order == left + [id] + right && PlainNext(p, op).order == left + right && id !in left && id !in right;
          BeforeRemoved(left, id, right, a, b);
        }
      case _ =>
    }
  }

  /** The order of the keys is that of their creation: what is not deleted stays ahead of whatever is created after it. */
  lemma {:induction false} OrderIsCreationOrder(p: Mem, ops: seq<Op>, a: string, b: string)
    requires MemOk(p) && Ahead(p, a, b) && a != b && Keeps(a, ops)
    ensures Ahead(PlainRun(p, ops).0, a, b)
    decreases |ops|
  {
    hide MemOk, Ahead, PlainNext;
    if ops != [] {
      AheadStep(p, ops[0], a, b);
      StepKeepsOrder(p, ops[0]);
      assert Keeps(a, ops[1..]) by {
        forall i | 0 <= i < |ops| - 1 ensures ops[1..][i] != Delete(a) { assert ops[1..][i] == ops[i + 1]; }
      }
      OrderIsCreationOrder(PlainNext(p, ops[0]), ops[1..], a, b);
    }
  }

  predicate NeverCreated(ops: seq<Op>, id: string) {
    forall i :: 0 <= i < |ops| ==> !(ops[i].Create? && ops[i].id == id)
  }

  /** A deleted id stays gone until it is created again: nothing is found, and no listing shows a position of its own. */
  lemma {:induction false} DeletedStaysGone(p: Mem, ops: seq<Op>, id: string)
    requires MemOk(p) && id !in p.evals && NeverCreated(ops, id)
    ensures var p' := PlainRun(p, ops).0;
      id !in p'.evals && PlainAnswer(p', Get(id)) == Found(None) && forall i :: 0 <= i < |p'.order| ==> p'.order[i] != id
    decreases |ops|
  {
    hide Updated;
    if ops == [] {
      forall i | 0 <= i < |p.order| ensures p.order[i] != id { assert p.order[i] in Elements(p.order); }
    } else {
      StepKeepsOrder(p, ops[0]);
      assert id !in PlainNext(p, ops[0]).evals;
      assert NeverCreated(ops[1..], id) by {
        forall i | 0 <= i < |ops| - 1 ensures !(ops[1..][i].Create? && ops[1..][i].id == id) { assert ops[1..][i] == ops[i + 1]; }
      }
      hide MemOk, PlainNext, PlainAnswer;
      DeletedStaysGone(PlainNext(p, ops[0]), ops[1..], id);
    }
  }

  // ----- timestamps, told by the log -----

  predicate Starts(e: Event) {
    e.kind == "status_changed" && e.newStatus == Some(Running)
  }

  predicate Finishes(e: Event) {
    e.kind == "status_changed" && e.newStatus.Some? && (e.newStatus.value.Completed? || e.newStatus.value.Failed? || e.newStatus.value.TimedOut?)
  }

  predicate FirstStart(log: seq<Event>, i: nat) {
    i < |log| && Starts(log[i]) && forall k :: 0 <= k < i ==> !Starts(log[k])
  }

  predicate LastFinish(log: seq<Event>, j: nat) {
    j < |log| && Finishes(log[j]) && forall k :: j < k < |log| ==> !Finishes(log[k])
  }

  /**
   The start is the time of the first change to running, the completion that of
   the last final change, and there is a runtime exactly if the one comes before
   the other, the gap between the two in milliseconds.
   */
  ghost predicate Told(r: Record, log: seq<Event>) {
    && (forall i: nat :: FirstStart(log, i) ==> r.startedAt == Some(log[i].at))
    && (r.startedAt.Some? ==> exists i: nat :: FirstStart(log, i))
    && (forall j: nat :: LastFinish(log, j) ==> r.completedAt == Some(log[j].at))
    && (r.completedAt.Some? ==> exists j: nat :: LastFinish(log, j))
    && (forall i: nat, j: nat :: FirstStart(log, i) && LastFinish(log, j) && i < j ==> r.runtimeMs == Some(RuntimeMs(log[i].at, log[j].at)))
    && (r.runtimeMs.Some? ==> exists i: nat, j: nat :: i < j && FirstStart(log, i) && LastFinish(log, j))
  }

  lemma FirstStartMore(log: seq<Event>, e: Event)
    ensures var longer := log + [e];
      && (forall i: nat :: i < |log| ==> (FirstStart(longer, i) <==> FirstStart(log, i)))
      && (FirstStart(longer, |log|) <==> Starts(e) && forall i: nat :: !FirstStart(log, i))
  {
    var longer := log + [e];
    assert forall i :: 0 <= i < |log| ==> longer[i] == log[i];
    if exists k :: 0 <= k < |log| && Starts(log[k]) {
      var k :| 0 <= k < |log| && Starts(log[k]);
      var i := Earliest(log, k);
      assert Starts(longer[i]);
    } else {
      assert forall k :: 0 <= k < |log| ==> !Starts(longer[k]);
    }
  }

  lemma {:induction false} Earliest(log: seq<Event>, k: nat) returns (i: nat)
    requires k < |log| && Starts(log[k])
    ensures FirstStart(log, i) && i <= k
    decreases k
  {
    if j :| 0 <= j < k && Starts(log[j]) {
      i := Earliest(log, j);
    } else {
      i := k;
    }
  }

  lemma LastFinishMore(log: seq<Event>, e: Event)
    ensures var longer := log + [e];
      && (forall j: nat :: j < |log| ==> (LastFinish(longer, j) <==> LastFinish(log, j) && !Finishes(e)))
      && (LastFinish(longer, |log|) <==> Finishes(e))
  {
    var longer := log + [e];
    assert longer[|log|] == e && forall i :: 0 <= i < |log| ==> longer[i] == log[i];
    forall j: nat | j < |log| ensures LastFinish(longer, j) <==> LastFinish(log, j) && !Finishes(e) {
      if LastFinish(longer, j) {
        assert !Finishes(longer[|log|]);
        assert forall k :: j < k < |log| ==> longer[k] == log[k];
      }
    }
  }

  lemma ToldMore(r: Record, log: seq<Event>, e: Event)
    requires Told(r, log) && !Starts(e) && !Finishes(e)
    ensures Told(r, log + [e])
  {
    var longer := log + [e];
    FirstStartMore(log, e);
    LastFinishMore(log, e);
    InLog(log);
    assert (log + [e])[|log|] == e && forall i :: 0 <= i < |log| ==> (log + [e])[i] == log[i];
    hide FirstStart, LastFinish;
  }

  lemma ToldStart(r: Record, log: seq<Event>, now: Time)
    requires Told(r, log)
    ensures Told(WithStatus(r, Running, now), log + [Event("status_changed", now, Some(Running))])
  {
    var e := Event("status_changed", now, Some(Running));
    FirstStartMore(log, e);
    LastFinishMore(log, e);
    InLog(log);
    assert (log + [e])[|log|] == e && forall i :: 0 <= i < |log| ==> (log + [e])[i] == log[i];
    hide FirstStart, LastFinish;
  }

  lemma ToldFinish(r: Record, log: seq<Event>, status: Status, now: Time)
    requires Told(r, log) && Finishes(Event("status_changed", now, Some(status)))
    ensures Told(WithStatus(r, status, now), log + [Event("status_changed", now, Some(status))])
  {
    var e := Event("status_changed", now, Some(status));
    FirstStartMore(log, e);
    LastFinishMore(log, e);
    InLog(log);
    assert (log + [e])[|log|] == e && forall i :: 0 <= i < |log| ==> (log + [e])[i] == log[i];
    hide FirstStart, LastFinish, RuntimeMs;
  }

  lemma InLog(log: seq<Event>)
    ensures forall i: nat :: FirstStart(log, i) ==> i < |log|
    ensures forall j: nat :: LastFinish(log, j) ==> j < |log|
  {
  }

  lemma ToldStatus(r: Record, log: seq<Event>, status: Status, now: Time)
    requires Told(r, log)
    ensures Told(WithStatus(r, status, now), log + [Event("status_changed", now, Some(status))])
  {
    hide Told;
    if status == Running {
      ToldStart(r, log, now);
    } else if Finishes(Event("status_changed", now, Some(status))) {
      ToldFinish(r, log, status, now);
    } else {
      ToldMore(r, log, Event("status_changed", now, Some(status)));
      SameStory(r, WithStatus(r, status, now), log + [Event("status_changed", now, Some(status))]);
    }
  }

  lemma SameStory(r: Record, r': Record, log: seq<Event>)
    requires Told(r, log) && SameTimes(r, r')
    ensures Told(r', log)
  {
  }

  ghost predicate AllTold(p: Mem) {
    forall id :: id in p.evals ==> id in p.events && Told(p.evals[id], p.events[id])
  }

  lemma AmendTold(p: Mem, id: string, req: Request, now: Time)
    requires AllTold(p) && id in p.evals
    ensures AllTold(Amend(p, id, req, now))
  {
    hide Told, WithStatus;
    var r := p.evals[id];
    if req.status.Some? {
      ToldStatus(r, p.events[id], req.status.value, now);
      SameStory(WithStatus(r, req.status.value, now), Updated(r, req, now), p.events[id] + [Event("status_changed", now, req.status)]);
    } else {
      SameStory(r, Updated(r, req, now), p.events[id]);
    }
    hide Updated;
  }

  lemma NothingTold(r: Record, e: Event)
    requires r.startedAt == None && r.completedAt == None && r.runtimeMs == None && !Starts(e) && !Finishes(e)
    ensures Told(r, [e])
  {
  }

  lemma ToldStep(p: Mem, op: Op)
    requires AllTold(p) && Orderly(p, op)
    ensures AllTold(PlainNext(p, op))
  {
    hide Told, Amend;
    match op {
      case Create(id, code, status, extra, now) => NothingTold(NewRecord(code, status, extra, now), Event("submitted", now, None));
      case Update(id, req, now) => if id in p.evals { AmendTold(p, id, req, now); }
      case Append(id, content, append, last, now) =>
        if id in p.evals { AmendTold(p, id, AppendRequest(p.evals[id], content, append, last), now); }
      case AddEvent(id, e) => if id in p.evals { ToldMore(p.evals[id], p.events[id], e); }
      case _ =>
    }
  }

  lemma {:induction false} RunIsTold(p: Mem, ops: seq<Op>)
    requires AllTold(p) && OrderlyRun(p, ops)
    ensures AllTold(PlainRun(p, ops).0)
    decreases |ops|
  {
    hide AllTold, PlainNext;
    if ops != [] {
      ToldStep(p, ops[0]);
      RunIsTold(PlainNext(p, ops[0]), ops[1..]);
    }
  }

  /** So after every orderly run from an empty store. */
  lemma TimesAreToldByTheLog(ops: seq<Op>, id: string)
    requires OrderlyRun(EMPTY_MEM, ops) && id in PlainRun(EMPTY_MEM, ops).0.evals
    ensures var p := PlainRun(EMPTY_MEM, ops).0; id in p.events && Told(p.evals[id], p.events[id])
  {
    hide Told, PlainRun, OrderlyRun;
    RunIsTold(EMPTY_MEM, ops);
  }

  /** A runtime is the gap cut to whole milliseconds, whichever way the clock ran. */
  lemma RuntimeIsGap(started: Time, completed: Time)
    ensures var ms, gap := RuntimeMs(started, completed), completed - started;
      if gap >= 0 then 1000 * ms <= gap < 1000 * (ms + 1) else 1000 * (ms - 1) < gap <= 1000 * ms
  {
  }

  // ----- the same through the cache -----

  /** What was updated is what is read next, cached or not. */
  lemma UpdatedIsRead(m: Mgr, id: string, req: Request, now: Time)
    requires Coherent(m) && id in m.primary.evals
    ensures var (m', ok) := UpdateEval(m, id, req, now);
      ok && GetEval(m', id).1.Some? && Written(m.primary.evals[id], req, GetEval(m', id).1.value)
  {
    hide UpdateEval, GetEval, Updated, Written, Coherent;
    UpdateAgrees(m, id, req, now);
    GetAgrees(UpdateEval(m, id, req, now).0, id);
    UpdatedIsWritten(m.primary.evals[id], req, now);
  }

  /** What was deleted is found neither in the cache nor behind it. */
  lemma DeletedIsNotRead(m: Mgr, id: string)
    requires Coherent(m)
    ensures var m' := DeleteFrom(m, id).0;
      GetEval(m', id).1 == None && forall other :: other != id ==> GetEval(m', other).1 == GetEval(m, other).1
  {
    ApplyAgrees(m, Delete(id));
    var m' := DeleteFrom(m, id).0;
    GetAgrees(m', id);
    forall other | other != id ensures GetEval(m', other).1 == GetEval(m, other).1 {
      GetAgrees(m', other);
      GetAgrees(m, other);
    }
    hide GetEval;
  }

  ghost predicate Cached(m: Mgr, id: string, r: Record) {
    m.cache.Some? ==> id in m.cache.value.evals && m.cache.value.evals[id] == r
  }

  /** Creating, updating and reading all leave the record in the cache, if there is one. */
  lemma CacheIsFilled(m: Mgr, id: string, r: Record, req: Request, now: Time)
    ensures Cached(CreateEval(m, id, r, now), id, r)
    ensures GetEval(m, id).1.Some? ==> Cached(GetEval(m, id).0, id, GetEval(m, id).1.value)
    ensures GetEval(m, id).1.Some? ==> Cached(UpdateEval(m, id, req, now).0, id, Updated(GetEval(m, id).1.value, req, now))
  {
    hide Updated;
  }
}
