/**
 The dead letter queue: failed tasks in a Redis list, one metadata hash per task
 id with a time to live, and resubmission to the broker.
 */
module DeadLetterQueue {
  import opened Common

  /** One serialised entry; `body` stands for everything but the id. */
  datatype Task = Task(id: string, body: string)

  datatype Queue = Queue(list: seq<Task>, meta: map<string, string>)

  /** The first position holding the id, or the length. */
  function IndexOf(list: seq<Task>, id: string): (k: nat)
    ensures k <= |list|
    ensures forall i :: 0 <= i < k ==> list[i].id != id
    ensures k < |list| ==> list[k].id == id
  {
    if list == [] || list[0].id == id then 0 else 1 + IndexOf(list[1..], id)
  }

  predicate Queued(list: seq<Task>, id: string) {
    IndexOf(list, id) < |list|
  }

  function Get(q: Queue, id: string): Option<Task> {
    if Queued(q.list, id) then Some(q.list[IndexOf(q.list, id)]) else None
  }

  /** LREM key 1 value: drops the first element equal to the value. */
  function Lrem(list: seq<Task>, t: Task): seq<Task> {
    if list == [] then [] else if list[0] == t then list[1..] else [list[0]] + Lrem(list[1..], t)
  }

  function DropAt(list: seq<Task>, k: nat): seq<Task>
    requires k < |list|
  {
    list[..k] + list[k + 1..]
  }

  function AddTo(q: Queue, t: Task, info: string): Queue {
    Queue(q.list + [t], q.meta[t.id := info])
  }

  /** The list without the entry that `Get` finds, and no metadata for the id. */
  function Taken(q: Queue, id: string): Queue {
    Queue(if Queued(q.list, id) then DropAt(q.list, IndexOf(q.list, id)) else q.list, q.meta - {id})
  }

  /** A retry: an unknown id changes nothing, otherwise entry and metadata go, whether or not the broker then raises. */
  function Retried(q: Queue, id: string): Queue {
    if Queued(q.list, id) then Taken(q, id) else q
  }

  /** What a retry hands to the broker. */
  function Resent(q: Queue, id: string, raises: bool): seq<Task> {
    if Queued(q.list, id) && !raises then [q.list[IndexOf(q.list, id)]] else []
  }

  /** Removing by value hits the entry found by id, whatever duplicates the list holds. */
  lemma {:induction false} LremHitsTheFound(list: seq<Task>, id: string)
    requires Queued(list, id)
    ensures Lrem(list, list[IndexOf(list, id)]) == DropAt(list, IndexOf(list, id))
  {
    if list[0].id != id {
      LremHitsTheFound(list[1..], id);
      DropLater(list, IndexOf(list[1..], id));
      hide DropAt;
    }
  }

  lemma DropLater(list: seq<Task>, k: nat)
    requires k + 1 < |list|
    ensures DropAt(list, k + 1) == [list[0]] + DropAt(list[1..], k)
  {
  }

  /** An added task is the last one, its metadata stands under its id, and nothing else changes. */
  lemma AddStores(q: Queue, t: Task, info: string)
    ensures var q' := AddTo(q, t, info);
      && q'.list == q.list + [t] && q'.meta.Keys == q.meta.Keys + {t.id} && q'.meta[t.id] == info
      && forall id :: id in q.meta && id != t.id ==> q'.meta[id] == q.meta[id]
  {
  }

  lemma FirstIsThere(list: seq<Task>, id: string, k: nat)
    requires k < |list| && list[k].id == id && forall i :: 0 <= i < k ==> list[i].id != id
    ensures IndexOf(list, id) == k
  {
  }

  /** Taking an id out drops its first entry, the one `Get` finds, and its metadata; an unknown id leaves the list alone. */
  lemma TakenIsFirst(a: seq<Task>, t: Task, b: seq<Task>, meta: map<string, string>)
    requires forall i :: 0 <= i < |a| ==> a[i].id != t.id
    ensures Get(Queue(a + [t] + b, meta), t.id) == Some(t)
    ensures Taken(Queue(a + [t] + b, meta), t.id) == Queue(a + b, meta - {t.id})
    ensures Get(Queue(a, meta), t.id) == None && Taken(Queue(a, meta), t.id) == Queue(a, meta - {t.id})
    ensures Retried(Queue(a + [t] + b, meta), t.id) == Queue(a + b, meta - {t.id}) && Retried(Queue(a, meta), t.id) == Queue(a, meta)
    ensures Resent(Queue(a + [t] + b, meta), t.id, false) == [t] && Resent(Queue(a + [t] + b, meta), t.id, true) == []
  {
    var list := a + [t] + b;
    assert list[|a|] == t && forall i :: 0 <= i < |a| ==> list[i] == a[i];
    FirstIsThere(list, t.id, |a|);
    hide IndexOf;
    assert DropAt(list, |a|) == a + b;
  }

  class DeadLetterQueue {
    var list: seq<Task>
    var meta: map<string, string>
    /** What the broker was sent. */
    var sent: seq<Task>

    function Contents(): Queue
      reads this
    {
      Queue(list, meta)
    }

    constructor ()
      ensures Contents() == Queue([], map[]) && sent == []
    {
      list, meta, sent := [], map[], [];
    }

    method AddTask(t: Task, info: string)
      modifies this`list, this`meta
      ensures Contents() == AddTo(old(Contents()), t, info)
    {
      list := list + [t];
      meta := meta[t.id := info];
    }

    method GetTask(id: string) returns (t: Option<Task>)
      ensures t == Get(Contents(), id)
    {
      for i := 0 to |list|
        invariant forall j :: 0 <= j < i ==> list[j].id != id
      {
        if list[i].id == id {
          return Some(list[i]);
        }
      }
      t := None;
    }

    method DropEntry(id: string) returns (dropped: bool)
      modifies this`list
      ensures list == Taken(old(Contents()), id).list
      ensures dropped == Queued(old(list), id)
    {
      for i := 0 to |list|
        invariant list == old(list)
        invariant forall j :: 0 <= j < i ==> list[j].id != id
      {
        if list[i].id == id {
          LremHitsTheFound(list, id);
          list := Lrem(list, list[i]);
          return true;
        }
      }
      dropped := false;
    }

    /** `raises` says whether handing the task to the broker fails. */
    method RetryTask(id: string, raises: bool) returns (ok: bool)
      modifies this
      ensures ok == (Queued(old(list), id) && !raises)
      ensures Contents() == Retried(old(Contents()), id)
      ensures sent == old(sent) + Resent(old(Contents()), id, raises)
    {
      var t := GetTask(id);
      if t == None {
        return false;
      }
      var _ := DropEntry(id);
      meta := meta - {id};
      if raises {
        return false;
      }
      sent := sent + [t.value];
      ok := true;
    }

    method RemoveTask(id: string) returns (removed: bool)
      modifies this`list, this`meta
      ensures removed == Queued(old(list), id)
      ensures Contents() == Taken(old(Contents()), id)
    {
      removed := DropEntry(id);
      meta := meta - {id};
    }
  }

  // ---------------------------------------------------------------------
  // Whole runs
  // ---------------------------------------------------------------------

  datatype Op =
    | Add(task: Task, info: string)
    | Retry(id: string, raises: bool)
    | Remove(id: string)
    | MetaExpires(id: string)

  /** The queue with the fate of every task that ever entered it. */
  datatype Sys = Sys(q: Queue, added: seq<Task>, resubmitted: seq<Task>, removed: seq<Task>, lost: seq<Task>, expired: set<string>)

  const EMPTY := Sys(Queue([], map[]), [], [], [], [], {})

  function Found(list: seq<Task>, id: string): seq<Task> {
    if Queued(list, id) then [list[IndexOf(list, id)]] else []
  }

  function Next(s: Sys, op: Op): Sys {
    match op
    case Add(t, info) => s.(q := AddTo(s.q, t, info), added := s.added + [t], expired := s.expired - {t.id})
    case Retry(id, raises) =>
      s.(q := Retried(s.q, id), resubmitted := s.resubmitted + Resent(s.q, id, raises),
         lost := if raises then s.lost + Found(s.q.list, id) else s.lost,
         expired := if Queued(s.q.list, id) then s.expired - {id} else s.expired)
    case Remove(id) => s.(q := Taken(s.q, id), removed := s.removed + Found(s.q.list, id), expired := s.expired - {id})
    case MetaExpires(id) =>
      s.(q := s.q.(meta := s.q.meta - {id}), expired := if id in s.q.meta then s.expired + {id} else s.expired)
  }

  function Run(s: Sys, ops: seq<Op>): Sys
    decreases |ops|
  {
    if ops == [] then s else Run(Next(s, ops[0]), ops[1..])
  }

  ghost predicate Accounted(s: Sys) {
    multiset(s.added) == multiset(s.q.list) + multiset(s.resubmitted) + multiset(s.removed) + multiset(s.lost)
  }

  lemma DropAtMultiset(list: seq<Task>, k: nat)
    requires k < |list|
    ensures multiset(list) == multiset(DropAt(list, k)) + multiset{list[k]}
  {
    assert list == list[..k] + [list[k]] + list[k + 1..];
  }

  lemma TakenSplits(q: Queue, id: string)
    ensures multiset(q.list) == multiset(Taken(q, id).list) + multiset(Found(q.list, id))
    ensures !Queued(q.list, id) ==> Found(q.list, id) == []
  {
    hide DropAt, IndexOf;
    if Queued(q.list, id) {
      DropAtMultiset(q.list, IndexOf(q.list, id));
    }
  }

  lemma AccountedRetry(s: Sys, id: string, raises: bool)
    requires Accounted(s)
    ensures Accounted(Next(s, Retry(id, raises)))
  {
    var found, s' := Found(s.q.list, id), Next(s, Retry(id, raises));
    TakenSplits(s.q, id);
    assert Resent(s.q, id, raises) == if raises then [] else found;
    assert multiset(s'.q.list) + multiset(found) == multiset(s.q.list);
    hide Taken, Found, IndexOf;
    if raises {
      assert s'.resubmitted == s.resubmitted && multiset(s'.lost) == multiset(s.lost) + multiset(found);
    } else {
      assert multiset(s'.resubmitted) == multiset(s.resubmitted) + multiset(found) && s'.lost == s.lost;
    }
  }

  lemma AccountedStep(s: Sys, op: Op)
    requires Accounted(s)
    ensures Accounted(Next(s, op))
  {
    hide Taken, Found, IndexOf, Retried, Resent;
    match op {
      case Retry(id, raises) => AccountedRetry(s, id, raises);
      case Remove(id) => TakenSplits(s.q, id);
      case _ =>
    }
  }

  /** Each added entry is queued, resubmitted, removed by hand, or lost to a resubmission that raised, exactly once. */
  lemma {:induction false} EveryTaskIsAccountedFor(s: Sys, ops: seq<Op>)
    requires Accounted(s)
    ensures Accounted(Run(s, ops))
    decreases |ops|
  {
    if ops != [] {
      AccountedStep(s, ops[0]);
      EveryTaskIsAccountedFor(Next(s, ops[0]), ops[1..]);
    }
  }

  /** A retry keeps every task in the queue or with the broker exactly unless the task was there and the broker call raised. */
  lemma RetryLosesExactlyWhen(q: Queue, sent: seq<Task>, id: string, raises: bool)
    ensures multiset(Retried(q, id).list) + multiset(sent + Resent(q, id, raises)) == multiset(q.list) + multiset(sent)
       <==> !(Queued(q.list, id) && raises)
  {
    hide DropAt, IndexOf;
    if Queued(q.list, id) {
      var found := q.list[IndexOf(q.list, id)];
      DropAtMultiset(q.list, IndexOf(q.list, id));
      if raises {
        assert sent + [] == sent;
        assert (multiset(q.list) + multiset(sent))[found] == (multiset(Taken(q, id).list) + multiset(sent))[found] + 1;
      }
    } else {
      assert sent + [] == sent;
    }
  }

  // ----- ids and metadata -----

  ghost function Ids(list: seq<Task>): set<string> {
    set i | 0 <= i < |list| :: list[i].id
  }

  predicate DistinctIds(list: seq<Task>) {
    forall i, j :: 0 <= i < j < |list| ==> list[i].id != list[j].id
  }

  /** Ids are distinct and the metadata keys are the queued ids whose metadata has not expired. */
  ghost predicate Tidy(s: Sys) {
    DistinctIds(s.q.list) && s.expired <= Ids(s.q.list) && s.q.meta.Keys == Ids(s.q.list) - s.expired
  }

  lemma QueuedIffId(list: seq<Task>, id: string)
    ensures Queued(list, id) <==> id in Ids(list)
  {
    if id in Ids(list) {
      var i :| 0 <= i < |list| && list[i].id == id;
    }
  }

  lemma IdsAfterAdd(list: seq<Task>, t: Task)
    ensures Ids(list + [t]) == Ids(list) + {t.id}
    ensures DistinctIds(list + [t]) <==> DistinctIds(list) && t.id !in Ids(list)
  {
    var longer := list + [t];
    assert forall i :: 0 <= i < |list| ==> longer[i] == list[i];
    assert longer[|list|] == t;
    if DistinctIds(longer) {
      forall i, j | 0 <= i < j < |list| ensures list[i].id != list[j].id { assert longer[i].id != longer[j].id; }
    }
  }

  lemma IdsAfterDrop(list: seq<Task>, k: nat)
    requires DistinctIds(list) && k < |list|
    ensures DistinctIds(DropAt(list, k)) && Ids(DropAt(list, k)) == Ids(list) - {list[k].id}
  {
    var less := DropAt(list, k);
    assert forall i :: 0 <= i < |less| ==> less[i] == if i < k then list[i] else list[i + 1];
    forall id | id in Ids(list) - {list[k].id} ensures id in Ids(less) {
      var i :| 0 <= i < |list| && list[i].id == id;
      assert less[if i < k then i else i - 1].id == id;
    }
  }

  /** A step keeps the queue tidy exactly unless it adds an id that is still queued. */
  lemma TidyExactlyUnless(s: Sys, op: Op)
    requires Tidy(s)
    ensures Tidy(Next(s, op)) <==> !(op.Add? && op.task.id in Ids(s.q.list))
  {
    match op {
      case Add(t, _) => IdsAfterAdd(s.q.list, t);
      case MetaExpires(_) =>
      case Retry(id, _) =>
        QueuedIffId(s.q.list, id);
        if Queued(s.q.list, id) { IdsAfterDrop(s.q.list, IndexOf(s.q.list, id)); }
      case Remove(id) =>
        QueuedIffId(s.q.list, id);
        if Queued(s.q.list, id) { IdsAfterDrop(s.q.list, IndexOf(s.q.list, id)); }
    }
  }

  ghost predicate NoReAdding(s: Sys, ops: seq<Op>)
    decreases |ops|
  {
    ops != [] ==> !(ops[0].Add? && ops[0].task.id in Ids(s.q.list)) && NoReAdding(Next(s, ops[0]), ops[1..])
  }

  lemma {:induction false} RunStaysTidy(s: Sys, ops: seq<Op>)
    requires Tidy(s) && NoReAdding(s, ops)
    ensures Tidy(Run(s, ops))
    decreases |ops|
  {
    if ops != [] {
      TidyExactlyUnless(s, ops[0]);
      RunStaysTidy(Next(s, ops[0]), ops[1..]);
    }
  }

  predicate NothingRaises(ops: seq<Op>)
    decreases |ops|
  {
    ops != [] ==> !(ops[0].Retry? && ops[0].raises) && NothingRaises(ops[1..])
  }

  lemma {:induction false} NothingIsLost(s: Sys, ops: seq<Op>)
    requires NothingRaises(ops)
    ensures Run(s, ops).lost == s.lost
    decreases |ops|
  {
    if ops != [] {
      NothingIsLost(Next(s, ops[0]), ops[1..]);
    }
  }

  /** Without raising, every task ever added has exactly one of three fates. */
  lemma ThreeFates(ops: seq<Op>)
    requires NothingRaises(ops)
    ensures var s := Run(EMPTY, ops);
      multiset(s.added) == multiset(s.q.list) + multiset(s.resubmitted) + multiset(s.removed)
  {
    hide Run;
    NothingIsLost(EMPTY, ops);
    EveryTaskIsAccountedFor(EMPTY, ops);
  }

  // ----- order -----

  /** `part` is what is left of `whole` after dropping some entries. */
  predicate Subsequence(part: seq<Task>, whole: seq<Task>) {
    if part == [] then true
    else if whole == [] then false
    else if part[|part| - 1] == whole[|whole| - 1] then Subsequence(part[..|part| - 1], whole[..|whole| - 1])
    else Subsequence(part, whole[..|whole| - 1])
  }

  lemma {:induction false} SubsequenceDrop(part: seq<Task>, whole: seq<Task>, k: nat)
    requires Subsequence(part, whole) && k < |part|
    ensures Subsequence(DropAt(part, k), whole)
    decreases |whole|, 2
  {
    var shorter, front := whole[..|whole| - 1], part[..|part| - 1];
    var less := DropAt(part, k);
    if part[|part| - 1] != whole[|whole| - 1] {
      SubsequenceDrop(part, shorter, k);
      if less != [] && less[|less| - 1] == whole[|whole| - 1] {
        SubsequenceFront(less, shorter);
      }
    } else if k == |part| - 1 {
      assert less == front;
      SubsequenceLonger(front, shorter, whole[|whole| - 1]);
      assert shorter + [whole[|whole| - 1]] == whole;
    } else {
      SubsequenceDrop(front, shorter, k);
      assert less[..|less| - 1] == DropAt(front, k) && less[|less| - 1] == part[|part| - 1];
    }
  }

  lemma {:induction false} SubsequenceFront(part: seq<Task>, whole: seq<Task>)
    requires Subsequence(part, whole) && part != []
    ensures Subsequence(part[..|part| - 1], whole)
    decreases |whole|, 0
  {
    var shorter, front := whole[..|whole| - 1], part[..|part| - 1];
    if part[|part| - 1] == whole[|whole| - 1] {
      SubsequenceLonger(front, shorter, whole[|whole| - 1]);
      assert shorter + [whole[|whole| - 1]] == whole;
    } else {
      SubsequenceFront(part, shorter);
      SubsequenceLonger(front, shorter, whole[|whole| - 1]);
      assert shorter + [whole[|whole| - 1]] == whole;
    }
  }

  lemma {:induction false} SubsequenceLonger(part: seq<Task>, whole: seq<Task>, t: Task)
    requires Subsequence(part, whole)
    ensures Subsequence(part, whole + [t])
    decreases |whole|, 1
  {
    assert (whole + [t])[..|whole|] == whole;
    if part != [] && part[|part| - 1] == t {
      SubsequenceFront(part, whole);
    }
  }

  /** The queue is always the tasks added, in order, minus those taken out. */
  lemma {:induction false} QueueKeepsArrivalOrder(s: Sys, ops: seq<Op>)
    requires Subsequence(s.q.list, s.added)
    ensures Subsequence(Run(s, ops).q.list, Run(s, ops).added)
    decreases |ops|
  {
    if ops != [] {
      var op, s' := ops[0], Next(s, ops[0]);
      if op.Add? {
        assert s'.q.list[..|s.q.list|] == s.q.list && s'.added[..|s.added|] == s.added;
      } else if (op.Retry? || op.Remove?) && Queued(s.q.list, op.id) {
        SubsequenceDrop(s.q.list, s.added, IndexOf(s.q.list, op.id));
      }
      QueueKeepsArrivalOrder(s', ops[1..]);
    }
  }
}
