/**
 Batch submission: items go out five at a time with pauses between items and
 between batches, and each item is retried with growing delays.
 Times are in milliseconds.
 */
module BatchSubmission {
  import opened Common

  const BATCH_SIZE: nat := 5
  const BASE_DELAY: nat := 100
  const BATCH_DELAY: nat := 500
  const MAX_RETRIES: nat := 3
  const BACKOFF_FACTOR: nat := 2

  datatype Event =
    | Submitted(item: nat)
    | Failed(item: nat)
    | Published(item: nat)   // the "batch_submission" failure event
    | Slept(ms: nat)

  /** Whether the given attempt at the given item raises. */
  type Faults = (nat, nat) -> bool

  function Power(base: nat, exponent: nat): nat {
    if exponent == 0 then 1 else base * Power(base, exponent - 1)
  }

  function Backoff(retry: nat): nat
    requires retry >= 1
  {
    BASE_DELAY * Power(BACKOFF_FACTOR, retry - 1)
  }

  /** What happens to one item from its `k`th failure on. */
  function ItemFrom(item: nat, k: nat, faults: Faults): seq<Event>
    decreases MAX_RETRIES + 1 - k
  {
    if !faults(item, k) then [Submitted(item)]
    else if k < MAX_RETRIES then [Failed(item), Slept(Backoff(k + 1))] + ItemFrom(item, k + 1, faults)
    else [Failed(item), Published(item)]
  }

  /** The pause after an item, in a list of `n`. */
  function Pause(item: nat, n: nat): seq<Event> {
    if item + 1 >= n then []
    else if (item + 1) % BATCH_SIZE == 0 then [Slept(BATCH_DELAY)]
    else [Slept(BASE_DELAY)]
  }

  /** The first `k` of `n` items, one after the other. */
  function Trace(k: nat, n: nat, faults: Faults): seq<Event> {
    if k == 0 then [] else Trace(k - 1, n, faults) + ItemFrom(k - 1, 0, faults) + Pause(k - 1, n)
  }

  lemma ItemStep(item: nat, k: nat, faults: Faults)
    requires k <= MAX_RETRIES
    ensures ItemFrom(item, k, faults) ==
            if !faults(item, k) then [Submitted(item)]
            else if k == MAX_RETRIES then [Failed(item), Published(item)]
            else [Failed(item), Slept(Backoff(k + 1))] + ItemFrom(item, k + 1, faults)
  {
    hide Backoff;
  }

  lemma AppendTwo(trace: seq<Event>, a: Event, b: Event, rest: seq<Event>)
    ensures trace + [a] + [b] + rest == trace + ([a, b] + rest)
  {
  }

  method ProcessItem(item: nat, faults: Faults) returns (trace: seq<Event>)
    ensures trace == ItemFrom(item, 0, faults)
  {
    hide ItemFrom, Backoff;
    trace := [];
    var retries := 0;
    while retries <= MAX_RETRIES
      invariant retries <= MAX_RETRIES
      invariant trace + ItemFrom(item, retries, faults) == ItemFrom(item, 0, faults)
      decreases MAX_RETRIES + 1 - retries
    {
      ItemStep(item, retries, faults);
      if !faults(item, retries) {
        trace := trace + [Submitted(item)];
        return;
      }
      ghost var before, from := trace, retries;
      trace := trace + [Failed(item)];
      retries := retries + 1;
      if retries > MAX_RETRIES {
        trace := trace + [Published(item)];
        assert trace == before + [Failed(item), Published(item)];
        return;
      }
      trace := trace + [Slept(Backoff(retries))];
      AppendTwo(before, Failed(item), Slept(Backoff(retries)), ItemFrom(item, retries, faults));
    }
  }

  /** The pause still due when the items of a sub-batch are done. */
  function Due(done: bool, start: nat, n: nat): seq<Event> {
    if done && start + BATCH_SIZE < n then [Slept(BATCH_DELAY)] else []
  }

  lemma PauseParts(start: nat, i: nat, size: nat, n: nat)
    requires start % BATCH_SIZE == 0 && start < n && size == Min(BATCH_SIZE, n - start) && i < size
    ensures Pause(start + i, n) == (if i < size - 1 then [Slept(BASE_DELAY)] else []) + Due(i + 1 == size, start, n)
  {
    assert (start + i + 1) % BATCH_SIZE == (i + 1) % BATCH_SIZE;
  }

  lemma TraceStep(k: nat, n: nat, faults: Faults)
    ensures Trace(k + 1, n, faults) == Trace(k, n, faults) + (ItemFrom(k, 0, faults) + Pause(k, n))
  {
    hide ItemFrom, Pause;
  }

  /** The nested loops over sub-batches come to one pass over all items. */
  method ProcessBatch(n: nat, faults: Faults) returns (trace: seq<Event>)
    ensures trace == Trace(n, n, faults)
  {
    hide ItemFrom, Pause, Trace;
    trace := [];
    assert Trace(0, n, faults) == [] by { EmptyTrace(n, faults); }
    var start := 0;
    while start < n
      invariant start % BATCH_SIZE == 0
      invariant trace == Trace(Min(start, n), n, faults)
    {
      var size := Min(BATCH_SIZE, n - start);
      for i := 0 to size
        invariant trace + Due(i == size, start, n) == Trace(start + i, n, faults)
      {
        ghost var before := trace;
        var item := ProcessItem(start + i, faults);
        trace := trace + item;
        if i < size - 1 {
          trace := trace + [Slept(BASE_DELAY)];
        }
        TraceStep(start + i, n, faults);
        PauseParts(start, i, size, n);
        assert trace + Due(i + 1 == size, start, n) == before + (item + Pause(start + i, n));
      }
      if start + BATCH_SIZE < n {
        trace := trace + [Slept(BATCH_DELAY)];
      }
      start := start + BATCH_SIZE;
    }
  }

  lemma EmptyTrace(n: nat, faults: Faults)
    ensures Trace(0, n, faults) == []
  {
  }

  // ----- every item ends exactly once -----

  function Count(trace: seq<Event>, e: Event): nat {
    if trace == [] then 0 else (if trace[0] == e then 1 else 0) + Count(trace[1..], e)
  }

  lemma {:induction false} CountAppend(a: seq<Event>, b: seq<Event>, e: Event)
    ensures Count(a + b, e) == Count(a, e) + Count(b, e)
  {
    if a == [] {
      assert a + b == b;
    } else {
      assert (a + b)[1..] == a[1..] + b;
      CountAppend(a[1..], b, e);
    }
  }

  predicate AllFail(item: nat, faults: Faults) {
    forall k: nat :: k <= MAX_RETRIES ==> faults(item, k)
  }

  lemma CountTwo(a: Event, b: Event, e: Event)
    ensures Count([a, b], e) == (if a == e then 1 else 0) + (if b == e then 1 else 0)
    ensures Count([a], e) == if a == e then 1 else 0
  {
    CountOne(a, e);
    CountOne(b, e);
    CountAppend([a], [b], e);
    assert [a] + [b] == [a, b];
  }

  lemma CountOne(a: Event, e: Event)
    ensures Count([a], e) == if a == e then 1 else 0
  {
    assert [a][1..] == [];
  }

  lemma {:induction false} ItemEndsOnce(item: nat, k: nat, faults: Faults)
    requires k <= MAX_RETRIES && forall j: nat :: j < k ==> faults(item, j)
    ensures var t := ItemFrom(item, k, faults);
      if AllFail(item, faults)
      then Count(t, Submitted(item)) == 0 && Count(t, Published(item)) == 1 && Count(t, Failed(item)) == MAX_RETRIES + 1 - k
      else Count(t, Submitted(item)) == 1 && Count(t, Published(item)) == 0 && Count(t, Failed(item)) <= MAX_RETRIES - k
    decreases MAX_RETRIES + 1 - k
  {
    hide ItemFrom, Count, Backoff;
    ItemStep(item, k, faults);
    if !faults(item, k) {
      CountTwo(Submitted(item), Submitted(item), Submitted(item));
      CountTwo(Submitted(item), Submitted(item), Published(item));
      CountTwo(Submitted(item), Submitted(item), Failed(item));
    } else {
      var second := if k < MAX_RETRIES then Slept(Backoff(k + 1)) else Published(item);
      CountTwo(Failed(item), second, Submitted(item));
      CountTwo(Failed(item), second, Published(item));
      CountTwo(Failed(item), second, Failed(item));
      if k < MAX_RETRIES {
        ItemEndsOnce(item, k + 1, faults);
        var rest := ItemFrom(item, k + 1, faults);
        CountAppend([Failed(item), second], rest, Submitted(item));
        CountAppend([Failed(item), second], rest, Published(item));
        CountAppend([Failed(item), second], rest, Failed(item));
      }
    }
  }

  predicate About(e: Event, item: nat) {
    e == Submitted(item) || e == Failed(item) || e == Published(item)
  }

  lemma {:induction false} ItemOnlyAboutItself(item: nat, k: nat, faults: Faults, other: nat, e: Event)
    requires other != item && About(e, other) && k <= MAX_RETRIES
    ensures Count(ItemFrom(item, k, faults), e) == 0
    decreases MAX_RETRIES + 1 - k
  {
    hide ItemFrom, Count, Backoff;
    ItemStep(item, k, faults);
    if !faults(item, k) {
      CountTwo(Submitted(item), Submitted(item), e);
    } else {
      var second := if k < MAX_RETRIES then Slept(Backoff(k + 1)) else Published(item);
      CountTwo(Failed(item), second, e);
      if k < MAX_RETRIES {
        ItemOnlyAboutItself(item, k + 1, faults, other, e);
        CountAppend([Failed(item), second], ItemFrom(item, k + 1, faults), e);
      }
    }
  }

  lemma PauseSilent(item: nat, n: nat, other: nat, e: Event)
    requires About(e, other)
    ensures Count(Pause(item, n), e) == 0
  {
    if Pause(item, n) != [] {
      CountTwo(Pause(item, n)[0], Pause(item, n)[0], e);
      assert Pause(item, n) == [Pause(item, n)[0]];
    }
  }

  lemma CountNothing(e: Event)
    ensures Count([], e) == 0
  {
  }

  lemma {:induction false} CountInTrace(k: nat, n: nat, faults: Faults, item: nat, e: Event)
    requires About(e, item)
    ensures Count(Trace(k, n, faults), e) == if item < k then Count(ItemFrom(item, 0, faults), e) else 0
    decreases k
  {
    hide ItemFrom, Pause, Count;
    if k == 0 {
      CountNothing(e);
    } else {
      TraceStep(k - 1, n, faults);
      CountInTrace(k - 1, n, faults, item, e);
      CountAppend(Trace(k - 1, n, faults), ItemFrom(k - 1, 0, faults) + Pause(k - 1, n), e);
      CountAppend(ItemFrom(k - 1, 0, faults), Pause(k - 1, n), e);
      PauseSilent(k - 1, n, item, e);
      if item != k - 1 { ItemOnlyAboutItself(k - 1, 0, faults, item, e); }
    }
  }

  /** Each item of any batch ends in one submission or, after four attempts, in one failure event. */
  lemma EveryItemEndsOnce(n: nat, faults: Faults, item: nat)
    requires item < n
    ensures var t := Trace(n, n, faults);
      if AllFail(item, faults)
      then Count(t, Submitted(item)) == 0 && Count(t, Published(item)) == 1 && Count(t, Failed(item)) == 4
      else Count(t, Submitted(item)) == 1 && Count(t, Published(item)) == 0 && Count(t, Failed(item)) <= 3
  {
    CountInTrace(n, n, faults, item, Submitted(item));
    CountInTrace(n, n, faults, item, Published(item));
    CountInTrace(n, n, faults, item, Failed(item));
    ItemEndsOnce(item, 0, faults);
  }

  // ----- how long it takes -----

  function TotalSleep(trace: seq<Event>): nat {
    if trace == [] then 0 else (if trace[0].Slept? then trace[0].ms else 0) + TotalSleep(trace[1..])
  }

  lemma {:induction false} SleepAppend(a: seq<Event>, b: seq<Event>)
    ensures TotalSleep(a + b) == TotalSleep(a) + TotalSleep(b)
  {
    if a == [] {
      assert a + b == b;
    } else {
      assert (a + b)[1..] == a[1..] + b;
      SleepAppend(a[1..], b);
    }
  }

  /** The delays spent on retrying the first `k` items. */
  function RetrySleep(k: nat, faults: Faults): nat {
    if k == 0 then 0 else RetrySleep(k - 1, faults) + TotalSleep(ItemFrom(k - 1, 0, faults))
  }

  function PauseSleep(k: nat, n: nat): nat {
    if k == 0 then 0 else PauseSleep(k - 1, n) + TotalSleep(Pause(k - 1, n))
  }

  lemma {:induction false} SleepSplits(k: nat, n: nat, faults: Faults)
    ensures TotalSleep(Trace(k, n, faults)) == PauseSleep(k, n) + RetrySleep(k, faults)
  {
    hide ItemFrom, Pause;
    if k > 0 {
      SleepSplits(k - 1, n, faults);
      SleepAppend(Trace(k - 1, n, faults), ItemFrom(k - 1, 0, faults));
      SleepAppend(Trace(k - 1, n, faults) + ItemFrom(k - 1, 0, faults), Pause(k - 1, n));
    }
  }

  function Batches(n: nat): nat {
    (n + BATCH_SIZE - 1) / BATCH_SIZE
  }

  lemma PauseLength(item: nat, n: nat)
    ensures TotalSleep(Pause(item, n))
         == if item + 1 >= n then 0 else if (item + 1) % BATCH_SIZE == 0 then BATCH_DELAY else BASE_DELAY
  {
    SleepOne(Slept(BATCH_DELAY));
    SleepOne(Slept(BASE_DELAY));
  }

  lemma NextQuotient(k: nat)
    requires k > 0
    ensures k / BATCH_SIZE == (k - 1) / BATCH_SIZE + if k % BATCH_SIZE == 0 then 1 else 0
  {
  }

  lemma {:induction false} PausesUpTo(k: nat, n: nat)
    requires k < n
    ensures PauseSleep(k, n) == BASE_DELAY * (k - k / BATCH_SIZE) + BATCH_DELAY * (k / BATCH_SIZE)
  {
    hide Pause, TotalSleep;
    if k > 0 {
      PausesUpTo(k - 1, n);
      PauseLength(k - 1, n);
      NextQuotient(k);
    }
  }

  /** Pauses depend on the length alone; retries add their own delays on top. */
  lemma TotalSleepOf(n: nat, faults: Faults)
    requires n > 0
    ensures TotalSleep(Trace(n, n, faults))
         == BASE_DELAY * (n - Batches(n)) + BATCH_DELAY * (Batches(n) - 1) + RetrySleep(n, faults)
  {
    hide Pause, TotalSleep, Trace, RetrySleep;
    SleepSplits(n, n, faults);
    PausesUpTo(n - 1, n);
    PauseLength(n - 1, n);
    assert Batches(n) == (n - 1) / BATCH_SIZE + 1;
  }

  lemma SleepTwo(item: nat, b: Event)
    ensures TotalSleep([Failed(item), b]) == (if b.Slept? then b.ms else 0) && TotalSleep([Submitted(item)]) == 0
  {
    SleepOne(Failed(item));
    SleepOne(Submitted(item));
    SleepOne(b);
    SleepAppend([Failed(item)], [b]);
    assert [Failed(item)] + [b] == [Failed(item), b];
  }

  lemma SleepOne(e: Event)
    ensures TotalSleep([e]) == if e.Slept? then e.ms else 0
  {
    assert [e][1..] == [];
  }

  lemma BackoffDoubles(retry: nat)
    requires retry >= 1
    ensures Backoff(retry + 1) == 2 * Backoff(retry)
  {
  }

  /** From its `k`th attempt on, an item that succeeds at attempt `j`, or never when `j` is 4, sleeps a geometric sum. */
  lemma {:induction false} RetriesCost(item: nat, k: nat, j: nat, faults: Faults)
    requires k <= MAX_RETRIES && k <= j <= MAX_RETRIES + 1
    requires forall i: nat :: k <= i < j ==> faults(item, i)
    requires j <= MAX_RETRIES ==> !faults(item, j)
    ensures TotalSleep(ItemFrom(item, k, faults)) == Backoff(Min(j, MAX_RETRIES) + 1) - Backoff(k + 1)
    decreases MAX_RETRIES - k
  {
    hide ItemFrom, TotalSleep, Backoff;
    ItemStep(item, k, faults);
    SleepTwo(item, if k < MAX_RETRIES then Slept(Backoff(k + 1)) else Published(item));
    if k < j && k < MAX_RETRIES {
      RetriesCost(item, k + 1, j, faults);
      SleepAppend([Failed(item), Slept(Backoff(k + 1))], ItemFrom(item, k + 1, faults));
      BackoffDoubles(k + 1);
    }
  }

  /** An item that never succeeds waits 0.7 seconds between its attempts, one that succeeds at once does not wait. */
  lemma FailureCosts(item: nat, faults: Faults)
    ensures AllFail(item, faults) ==> TotalSleep(ItemFrom(item, 0, faults)) == 700
    ensures !faults(item, 0) ==> TotalSleep(ItemFrom(item, 0, faults)) == 0
  {
    hide ItemFrom, TotalSleep, Backoff;
    assert Backoff(1) == 100 && Backoff(2) == 200 && Backoff(3) == 400 && Backoff(4) == 800 by {
      FirstBackoff();
      BackoffDoubles(1);
      BackoffDoubles(2);
      BackoffDoubles(3);
    }
    if AllFail(item, faults) { RetriesCost(item, 0, 4, faults); }
    if !faults(item, 0) { RetriesCost(item, 0, 0, faults); }
  }

  lemma FirstBackoff()
    ensures Backoff(1) == BASE_DELAY
  {
  }

  // ----- the whole trace, spelled out -----

  /** What becomes of an item whose first `failures` attempts raise. */
  function Attempts(item: nat, failures: nat): seq<Event> {
    if failures == 0 then [Submitted(item)]
    else if failures == 1 then [Failed(item), Slept(100), Submitted(item)]
    else if failures == 2 then [Failed(item), Slept(100), Failed(item), Slept(200), Submitted(item)]
    else if failures == 3 then [Failed(item), Slept(100), Failed(item), Slept(200), Failed(item), Slept(400), Submitted(item)]
    else [Failed(item), Slept(100), Failed(item), Slept(200), Failed(item), Slept(400), Failed(item), Published(item)]
  }

  /** How many attempts fail before the first that does not, of four. */
  function FailuresOf(item: nat, faults: Faults): nat {
    if !faults(item, 0) then 0 else if !faults(item, 1) then 1 else if !faults(item, 2) then 2 else if !faults(item, 3) then 3 else 4
  }

  lemma ItemSpelledOut(item: nat, faults: Faults)
    ensures ItemFrom(item, 0, faults) == Attempts(item, FailuresOf(item, faults))
  {
    hide ItemFrom, Backoff;
    assert Backoff(1) == 100 && Backoff(2) == 200 && Backoff(3) == 400 by {
      FirstBackoff();
      BackoffDoubles(1);
      BackoffDoubles(2);
    }
    ItemStep(item, 0, faults);
    ItemStep(item, 1, faults);
    ItemStep(item, 2, faults);
    ItemStep(item, 3, faults);
  }

  /** The items in order, with a pause before each but the first: half a second before every fifth, else a tenth. */
  function Spelled(n: nat, faults: Faults): seq<Event> {
    if n == 0 then []
    else if n == 1 then Attempts(0, FailuresOf(0, faults))
    else Spelled(n - 1, faults) + [Slept(if (n - 1) % 5 == 0 then 500 else 100)] + Attempts(n - 1, FailuresOf(n - 1, faults))
  }

  lemma {:induction false} TraceUpTo(k: nat, n: nat, faults: Faults)
    requires k < n
    ensures Trace(k + 1, n, faults) == Spelled(k + 1, faults) + Pause(k, n)
    decreases k
  {
    hide ItemFrom, Pause, Attempts, FailuresOf;
    ItemSpelledOut(k, faults);
    TraceStep(k, n, faults);
    if k == 0 {
      EmptyTrace(n, faults);
    } else {
      TraceUpTo(k - 1, n, faults);
      PauseBetween(k, n);
      assert Spelled(k, faults) + Pause(k - 1, n) + (ItemFrom(k, 0, faults) + Pause(k, n))
          == Spelled(k, faults) + Pause(k - 1, n) + ItemFrom(k, 0, faults) + Pause(k, n);
    }
  }

  lemma PauseBetween(k: nat, n: nat)
    requires 0 < k < n
    ensures Pause(k - 1, n) == [Slept(if k % 5 == 0 then 500 else 100)]
  {
  }

  /** What the nested loops do to any batch, event by event. */
  lemma BatchSpelledOut(n: nat, faults: Faults)
    ensures Trace(n, n, faults) == Spelled(n, faults)
  {
    hide Trace, Spelled;
    if n == 0 {
      EmptyTrace(0, faults);
      NothingSpelled(faults);
    } else {
      TraceUpTo(n - 1, n, faults);
      assert Pause(n - 1, n) == [];
    }
  }

  lemma NothingSpelled(faults: Faults)
    ensures Spelled(0, faults) == []
  {
  }
}
