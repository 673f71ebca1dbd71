/**
 The executor pool: workers share one Redis list of free executors and one
 "busy" marker per executor. A claim is two Redis calls (RPOP, then SETEX), a
 release is one atomic Lua script, and a marker may expire at any moment.
 */
module ExecutorPool {
  import opened Common

  /** One JSON item of the list `executors:available`. */
  datatype Entry = Entry(url: string, stamp: int)

  /** The shared Redis keys; `available[0]` is the left end of the list. */
  datatype Pool = Pool(available: seq<Entry>, busy: map<string, string>)

  datatype ReleaseStatus = Released | AlreadyInPool | NotBusy

  /** What becomes of the SETEX of a claim: carried out, not carried out, or carried out with its reply lost. */
  datatype MarkOutcome = Marked | NotSent | ReplyLost

  predicate Listed(available: seq<Entry>, url: string) {
    exists i :: 0 <= i < |available| && available[i].url == url
  }

  /** LPUSH */
  function PushPool(p: Pool, e: Entry): Pool {
    p.(available := [e] + p.available)
  }

  /** RPOP of a non-empty list */
  function PopPool(p: Pool): Pool
    requires p.available != []
  {
    p.(available := p.available[..|p.available| - 1])
  }

  function Oldest(p: Pool): Entry
    requires p.available != []
  {
    p.available[|p.available| - 1]
  }

  /** SETEX of the busy marker */
  function MarkPool(p: Pool, url: string, eval: string): Pool {
    p.(busy := p.busy[url := eval])
  }

  /** DEL of the busy marker, or its expiry */
  function UnmarkPool(p: Pool, url: string): Pool {
    p.(busy := p.busy - {url})
  }

  predicate Readmits(p: Pool, url: string) {
    url in p.busy && !Listed(p.available, url)
  }

  /** The Lua script. */
  function ReleasePool(p: Pool, url: string, now: int): Pool {
    if Readmits(p, url) then PushPool(UnmarkPool(p, url), Entry(url, now)) else UnmarkPool(p, url)
  }

  function StatusOfRelease(p: Pool, url: string): ReleaseStatus {
    if Listed(p.available, url) then AlreadyInPool else if url in p.busy then Released else NotBusy
  }

  function FreshList(urls: seq<string>, stamps: seq<int>): (r: seq<Entry>)
    requires |urls| == |stamps|
    ensures |r| == |urls|
    ensures forall i :: 0 <= i < |urls| ==> r[|urls| - 1 - i] == Entry(urls[i], stamps[i])
  {
    if urls == [] then [] else
      var n := |urls| - 1;
      [Entry(urls[n], stamps[n])] + FreshList(urls[..n], stamps[..n])
  }

  class ExecutorPool {
    var available: seq<Entry>
    var busy: map<string, string>

    function Contents(): Pool
      reads this
    {
      Pool(available, busy)
    }

    constructor ()
      ensures Contents() == Pool([], map[])
    {
      available, busy := [], map[];
    }

    /** Refills the list; busy markers of an earlier life are left alone. */
    method InitializePool(urls: seq<string>, stamps: seq<int>)
      requires |urls| == |stamps|
      modifies this
      ensures Contents() == Pool(FreshList(urls, stamps), old(busy))
    {
      available := [];
      for i := 0 to |urls|
        invariant available == FreshList(urls[..i], stamps[..i])
        invariant busy == old(busy)
      {
        assert urls[..i + 1][..i] == urls[..i] && stamps[..i + 1][..i] == stamps[..i];
        available := [Entry(urls[i], stamps[i])] + available;
      }
      assert urls[..|urls|] == urls && stamps[..|urls|] == stamps;
    }

    /** A raising SETEX sends the item back, even if the marker was set after all. */
    method ClaimExecutor(eval: string, outcome: MarkOutcome) returns (url: Option<string>)
      modifies this
      ensures old(available) == [] ==> url == None && Contents() == old(Contents())
      ensures old(available) != [] ==>
        var popped, e := PopPool(old(Contents())), Oldest(old(Contents()));
        match outcome
        case Marked => url == Some(e.url) && Contents() == MarkPool(popped, e.url, eval)
        case NotSent => url == None && Contents() == PushPool(popped, e)
        case ReplyLost => url == None && Contents() == PushPool(MarkPool(popped, e.url, eval), e)
      ensures url.Some? ==> url.value in busy && busy[url.value] == eval && busy - {url.value} == old(busy) - {url.value}
    {
      if available == [] {
        return None;
      }
      var item := available[|available| - 1];
      available := available[..|available| - 1];
      if outcome != NotSent {
        busy := busy[item.url := eval];
      }
      if outcome != Marked {
        available := [item] + available;
        return None;
      }
      url := Some(item.url);
    }

    method ReleaseExecutor(url: string, now: int) returns (status: ReleaseStatus)
      modifies this
      ensures Contents() == ReleasePool(old(Contents()), url, now)
      ensures status == StatusOfRelease(old(Contents()), url)
    {
      var wasBusy := url in busy;
      busy := busy - {url};
      for i := 0 to |available|
        invariant available == old(available) && busy == old(busy) - {url}
        invariant forall j :: 0 <= j < i ==> available[j].url != url
      {
        if available[i].url == url {
          return AlreadyInPool;
        }
      }
      if wasBusy {
        available := [Entry(url, now)] + available;
        status := Released;
      } else {
        status := NotBusy;
      }
    }

    /** The details name the evaluation behind each marker. */
    method GetPoolStatus() returns (free: nat, taken: nat, total: nat, details: map<string, string>)
      ensures free == |available| && details == busy && taken == |busy| && total == free + taken
    {
      free := |available|;
      details := map[];
      var keys := busy.Keys;
      taken := |keys|;
      while keys != {}
        invariant keys <= busy.Keys && details.Keys == busy.Keys - keys
        invariant forall url :: url in details ==> details[url] == busy[url]
        decreases |keys|
      {
        var url :| url in keys;
        keys := keys - {url};
        details := details[url := busy[url]];
      }
      total := free + taken;
    }
  }

  // ---------------------------------------------------------------------
  // The list as a set of URLs
  // ---------------------------------------------------------------------

  predicate DistinctUrls(list: seq<Entry>) {
    forall i, j :: 0 <= i < j < |list| ==> list[i].url != list[j].url
  }

  lemma ListedPush(e: Entry, list: seq<Entry>)
    ensures forall url :: Listed([e] + list, url) <==> url == e.url || Listed(list, url)
    ensures DistinctUrls([e] + list) <==> DistinctUrls(list) && !Listed(list, e.url)
  {
    var longer := [e] + list;
    assert longer[0] == e;
    assert forall i :: 0 <= i < |list| ==> list[i] == longer[i + 1];
    forall url | url == e.url || Listed(list, url) ensures Listed(longer, url) {
      if Listed(list, url) {
        var i :| 0 <= i < |list| && list[i].url == url;
        assert longer[i + 1].url == url;
      }
    }
    if DistinctUrls(longer) {
      forall i, j | 0 <= i < j < |list| ensures list[i].url != list[j].url {
        assert longer[i + 1].url != longer[j + 1].url;
      }
    }
  }

  lemma ListedPop(list: seq<Entry>)
    requires list != []
    ensures var front, last := list[..|list| - 1], list[|list| - 1];
      && (forall url :: Listed(list, url) <==> url == last.url || Listed(front, url))
      && (DistinctUrls(list) <==> DistinctUrls(front) && !Listed(front, last.url))
  {
    var n := |list| - 1;
    var front := list[..n];
    forall url | url == list[n].url || Listed(front, url) ensures Listed(list, url) {
      if Listed(front, url) {
        var i :| 0 <= i < n && front[i].url == url;
        assert list[i].url == url;
      }
    }
    if DistinctUrls(list) {
      forall i, j | 0 <= i < j < n ensures front[i].url != front[j].url {
        assert list[i].url != list[j].url;
      }
    }
  }

  lemma {:induction false} ListedFresh(urls: seq<string>, stamps: seq<int>)
    requires |urls| == |stamps|
    ensures forall url :: Listed(FreshList(urls, stamps), url) <==> url in urls
    ensures DistinctUrls(FreshList(urls, stamps)) <==> Distinct(urls)
  {
    hide Listed, DistinctUrls;
    if urls == [] {
      EmptyList();
    } else {
      var n := |urls| - 1;
      ListedFresh(urls[..n], stamps[..n]);
      ListedPush(Entry(urls[n], stamps[n]), FreshList(urls[..n], stamps[..n]));
      DistinctEnd(urls);
    }
  }

  lemma EmptyList()
    ensures DistinctUrls([]) && forall url :: !Listed([], url)
  {
  }

  lemma DistinctEnd(urls: seq<string>)
    requires urls != []
    ensures var n := |urls| - 1;
      (Distinct(urls) <==> Distinct(urls[..n]) && urls[n] !in urls[..n])
      && forall url :: url in urls <==> url == urls[n] || url in urls[..n]
  {
    var n := |urls| - 1;
    assert urls == urls[..n] + [urls[n]];
    if Distinct(urls) {
      forall i, j | 0 <= i < j < n ensures urls[..n][i] != urls[..n][j] {
        assert urls[i] != urls[j];
      }
    }
  }

  // ---------------------------------------------------------------------
  // All interleavings of initialisations, claims, releases and expiries
  // ---------------------------------------------------------------------

  /**
   The pool together with every claim in progress. A claim carries a ticket of
   its own, so that two claims by one evaluation are told apart. `popped` are
   the claims between RPOP and their end, `held` those whose caller has the URL
   and has not released it yet, `last` the latest claim of each URL. `stray`
   are the markers left beside a free or popped URL: set by a SETEX whose reply
   was lost, or older than the push that initialised the URL.
   */
  datatype Sys = Sys(pool: Pool, popped: map<nat, Entry>, held: map<nat, string>,
                     last: map<string, nat>, tickets: set<nat>, stray: set<string>)

  datatype Step =
    | Clear
    | Supply(url: string, stamp: int)
    | Pop(c: nat)
    | Mark(c: nat, eval: string)
    | MarkUnanswered(c: nat, eval: string)
    | Abort(c: nat)
    | Release(c: nat, url: string, now: int)
    | FailedRelease(c: nat, url: string)
    | Expire(url: string)

  predicate Enabled(s: Sys, st: Step) {
    match st
    case Pop(c) => c !in s.tickets
    case Mark(c, _) => c in s.popped
    case MarkUnanswered(c, _) => c in s.popped
    case Abort(c) => c in s.popped
    case _ => true
  }

  function StopHolding(s: Sys, c: nat, url: string): map<nat, string> {
    if c in s.held && s.held[c] == url then s.held - {c} else s.held
  }

  function Next(s: Sys, st: Step): Sys
    requires Enabled(s, st)
  {
    match st
    case Clear =>
      s.(pool := s.pool.(available := []), stray := set url | url in s.stray && !Listed(s.pool.available, url))
    case Supply(url, stamp) =>
      s.(pool := PushPool(s.pool, Entry(url, stamp)), stray := if url in s.pool.busy then s.stray + {url} else s.stray)
    case Pop(c) =>
      if s.pool.available == [] then s.(tickets := s.tickets + {c}) else
        var e := Oldest(s.pool);
        s.(pool := PopPool(s.pool), popped := s.popped[c := e], last := s.last[e.url := c], tickets := s.tickets + {c})
    case Mark(c, eval) =>
      var url := s.popped[c].url;
      s.(pool := MarkPool(s.pool, url, eval), popped := s.popped - {c}, held := s.held[c := url], stray := s.stray - {url})
    case MarkUnanswered(c, eval) =>
      var url := s.popped[c].url;
      s.(pool := MarkPool(s.pool, url, eval), stray := s.stray + {url})
    case Abort(c) =>
      s.(pool := PushPool(s.pool, s.popped[c]), popped := s.popped - {c})
    case Release(c, url, now) =>
      s.(pool := ReleasePool(s.pool, url, now), held := StopHolding(s, c, url), stray := s.stray - {url})
    case FailedRelease(c, url) =>
      s.(pool := UnmarkPool(s.pool, url), held := StopHolding(s, c, url), stray := s.stray - {url})
    case Expire(url) =>
      s.(pool := UnmarkPool(s.pool, url), stray := s.stray - {url})
  }

  function Fresh(urls: seq<string>, stamps: seq<int>): Sys
    requires |urls| == |stamps|
  {
    Sys(Pool(FreshList(urls, stamps), map[]), map[], map[], map[], {}, {})
  }

  predicate IsRun(s: Sys, run: seq<Step>)
    decreases |run|
  {
    run != [] ==> Enabled(s, run[0]) && IsRun(Next(s, run[0]), run[1..])
  }

  function After(s: Sys, run: seq<Step>): Sys
    requires IsRun(s, run)
    decreases |run|
  {
    if run == [] then s else After(Next(s, run[0]), run[1..])
  }

  /** A claim that raises with the marker set, as the method does it, is three steps of the system. */
  lemma LostReplyInSteps(s: Sys, c: nat, eval: string)
    requires c !in s.tickets && c !in s.popped && s.pool.available != []
    ensures var run, e := [Pop(c), MarkUnanswered(c, eval), Abort(c)], Oldest(s.pool);
      IsRun(s, run) && After(s, run).pool == PushPool(MarkPool(PopPool(s.pool), e.url, eval), e)
  {
    ThreeSteps(s, Pop(c), MarkUnanswered(c, eval), Abort(c));
  }

  lemma ThreeSteps(s: Sys, a: Step, b: Step, c: Step)
    requires Enabled(s, a) && Enabled(Next(s, a), b) && Enabled(Next(Next(s, a), b), c)
    ensures IsRun(s, [a, b, c]) && After(s, [a, b, c]) == Next(Next(Next(s, a), b), c)
  {
    hide Next, Enabled;
    assert [a, b, c][1..] == [b, c] && [b, c][1..] == [c] && [c][1..] == [];
    var s1 := Next(s, a);
    var s2 := Next(s1, b);
    assert IsRun(s2, [c]) && After(s2, [c]) == Next(s2, c);
    assert IsRun(s1, [b, c]) && After(s1, [b, c]) == After(s2, [c]);
  }

  // ----- the initialisation, one push at a time -----

  function Supplies(urls: seq<string>, stamps: seq<int>): seq<Step>
    requires |urls| == |stamps|
  {
    if urls == [] then [] else [Supply(urls[0], stamps[0])] + Supplies(urls[1..], stamps[1..])
  }

  function Initialisation(urls: seq<string>, stamps: seq<int>): seq<Step>
    requires |urls| == |stamps|
  {
    [Clear] + Supplies(urls, stamps)
  }

  predicate SameButList(s: Sys, s': Sys) {
    s'.pool.busy == s.pool.busy && s'.popped == s.popped && s'.held == s.held && s'.last == s.last && s'.tickets == s.tickets
  }

  lemma {:induction false} SuppliesFill(s: Sys, urls: seq<string>, stamps: seq<int>)
    requires |urls| == |stamps|
    ensures IsRun(s, Supplies(urls, stamps))
    ensures var s' := After(s, Supplies(urls, stamps));
      SameButList(s, s') && s'.pool.available == FreshList(urls, stamps) + s.pool.available
    decreases |urls|
  {
    hide FreshList;
    if urls == [] {
      NothingFresh(stamps);
    } else {
      var e := Entry(urls[0], stamps[0]);
      SuppliesFill(Next(s, Supply(urls[0], stamps[0])), urls[1..], stamps[1..]);
      FreshFirst(urls, stamps);
      assert FreshList(urls[1..], stamps[1..]) + ([e] + s.pool.available)
          == FreshList(urls[1..], stamps[1..]) + [e] + s.pool.available;
      assert Supplies(urls, stamps)[1..] == Supplies(urls[1..], stamps[1..]);
    }
  }

  lemma NothingFresh(stamps: seq<int>)
    requires stamps == []
    ensures FreshList([], stamps) == []
  {
  }

  lemma FreshFirst(urls: seq<string>, stamps: seq<int>)
    requires |urls| == |stamps| && urls != []
    ensures FreshList(urls, stamps) == FreshList(urls[1..], stamps[1..]) + [Entry(urls[0], stamps[0])]
  {
    var n, a, b := |urls| - 1, FreshList(urls, stamps), FreshList(urls[1..], stamps[1..]);
    forall i | 0 <= i < n ensures a[i] == b[i] {
      assert a[n - (n - i)] == Entry(urls[n - i], stamps[n - i]);
      assert b[n - 1 - (n - 1 - i)] == Entry(urls[1..][n - 1 - i], stamps[1..][n - 1 - i]);
    }
    assert a[n - 0] == Entry(urls[0], stamps[0]);
    assert a == b + [Entry(urls[0], stamps[0])];
  }

  /** Run without interruption, the steps do what the method does, and leave claims and markers alone. */
  lemma InitialisationInSteps(s: Sys, urls: seq<string>, stamps: seq<int>)
    requires |urls| == |stamps|
    ensures IsRun(s, Initialisation(urls, stamps))
    ensures var s' := After(s, Initialisation(urls, stamps));
      SameButList(s, s') && s'.pool.available == FreshList(urls, stamps)
  {
    hide FreshList;
    SuppliesFill(Next(s, Clear), urls, stamps);
    assert Initialisation(urls, stamps)[1..] == Supplies(urls, stamps);
    assert FreshList(urls, stamps) + [] == FreshList(urls, stamps);
  }

  // ----- conservation: available, popped, busy and lost split the URLs -----

  predicate PoppedUrl(s: Sys, url: string) {
    exists c :: c in s.popped && s.popped[c].url == url
  }

  /** No URL is invented, listed twice, popped twice, or both listed and popped. */
  ghost predicate Unduplicated(urls: set<string>, s: Sys) {
    && DistinctUrls(s.pool.available)
    && (forall c, d :: c in s.popped && d in s.popped && c != d ==> s.popped[c].url != s.popped[d].url)
    && (forall url :: Listed(s.pool.available, url) ==> url in urls)
    && (forall c :: c in s.popped ==> s.popped[c].url in urls && !Listed(s.pool.available, s.popped[c].url))
    && s.pool.busy.Keys <= urls
    && s.popped.Keys <= s.tickets
  }

  ghost predicate Conserved(urls: set<string>, s: Sys) {
    && Unduplicated(urls, s)
    && (forall url :: Listed(s.pool.available, url) || PoppedUrl(s, url) ==> url !in s.pool.busy)
  }

  /** `stray` names exactly the markers that stand beside a free or popped URL. */
  ghost predicate Sound(urls: set<string>, s: Sys) {
    && Unduplicated(urls, s)
    && (forall url :: url in s.stray <==> url in s.pool.busy && (Listed(s.pool.available, url) || PoppedUrl(s, url)))
  }

  lemma FreshConserved(urls: seq<string>, stamps: seq<int>)
    requires |urls| == |stamps| && Distinct(urls)
    ensures Conserved(Elements(urls), Fresh(urls, stamps)) && Sound(Elements(urls), Fresh(urls, stamps))
  {
    hide Listed, DistinctUrls, FreshList;
    ListedFresh(urls, stamps);
  }

  /** No marker is stray exactly when available, popped and busy are disjoint. */
  lemma ConservedMeansNoStrays(urls: set<string>, s: Sys)
    requires Sound(urls, s)
    ensures Conserved(urls, s) <==> s.stray == {}
  {
    hide Listed, DistinctUrls, PoppedUrl;
    assert s.stray == {} <==> forall url :: url !in s.stray;
  }

  /** Releases that do not fall between the RPOP and the end of a claim, and pushes of idle configured URLs. */
  ghost predicate Proper(urls: set<string>, s: Sys, st: Step) {
    match st
    case Release(_, url, _) => !PoppedUrl(s, url)
    case Supply(url, _) => url in urls && !Listed(s.pool.available, url) && !PoppedUrl(s, url)
    case _ => true
  }

  ghost predicate ProperRun(urls: set<string>, s: Sys, run: seq<Step>)
    requires IsRun(s, run)
    decreases |run|
  {
    run != [] ==> Proper(urls, s, run[0]) && ProperRun(urls, Next(s, run[0]), run[1..])
  }

  lemma ListAfter(s: Sys, st: Step, url: string)
    requires Enabled(s, st) && DistinctUrls(s.pool.available)
    ensures var s' := Next(s, st);
      Listed(s'.pool.available, url) <==>
        match st
        case Clear => false
        case Supply(u, _) => u == url || Listed(s.pool.available, url)
        case Pop(_) => Listed(s.pool.available, url) && url != Oldest(s.pool).url
        case Abort(c) => s.popped[c].url == url || Listed(s.pool.available, url)
        case Release(_, u, _) => (u == url && url in s.pool.busy) || Listed(s.pool.available, url)
        case _ => Listed(s.pool.available, url)
    ensures DistinctUrls(Next(s, st).pool.available) <==>
        match st
        case Supply(u, _) => !Listed(s.pool.available, u)
        case Abort(c) => !Listed(s.pool.available, s.popped[c].url)
        case _ => true
  {
    EmptyList();
    hide Listed, DistinctUrls;
    match st
    case Supply(u, stamp) => ListedPush(Entry(u, stamp), s.pool.available);
    case Pop(_) => if s.pool.available != [] { ListedPop(s.pool.available); }
    case Abort(c) => ListedPush(s.popped[c], s.pool.available);
    case Release(_, u, now) => ListedPush(Entry(u, now), s.pool.available);
    case _ =>
  }

  lemma PoppedAfter(s: Sys, st: Step, url: string)
    requires Enabled(s, st)
    requires forall c, d :: c in s.popped && d in s.popped && c != d ==> s.popped[c].url != s.popped[d].url
    requires s.popped.Keys <= s.tickets
    ensures PoppedUrl(Next(s, st), url) <==>
        match st
        case Pop(_) => PoppedUrl(s, url) || (s.pool.available != [] && Oldest(s.pool).url == url)
        case Mark(c, _) => PoppedUrl(s, url) && s.popped[c].url != url
        case Abort(c) => PoppedUrl(s, url) && s.popped[c].url != url
        case _ => PoppedUrl(s, url)
  {
    var s' := Next(s, st);
    if PoppedUrl(s, url) {
      var c :| c in s.popped && s.popped[c].url == url;
      if st.Mark? || st.Abort? {
        assert st.c != c ==> c in s'.popped && s'.popped[c].url == url;
      } else {
        assert c in s'.popped && s'.popped[c].url == url;
      }
    } else if st.Pop? && s.pool.available != [] {
      assert st.c in s'.popped;
    }
  }

  /** What a step must not do: list a URL that some claim has popped, or that is listed or unknown. */
  ghost predicate Undoubling(urls: set<string>, s: Sys, st: Step) {
    match st
    case Release(_, url, _) => !(Readmits(s.pool, url) && PoppedUrl(s, url))
    case Supply(url, _) => url in urls && !Listed(s.pool.available, url) && !PoppedUrl(s, url)
    case _ => true
  }

  lemma PoppedStaysUnlisted(urls: set<string>, s: Sys, st: Step, c: nat)
    requires Unduplicated(urls, s) && Enabled(s, st) && Undoubling(urls, s, st) && c in Next(s, st).popped
    ensures Next(s, st).popped[c].url in urls && !Listed(Next(s, st).pool.available, Next(s, st).popped[c].url)
  {
    hide Listed, DistinctUrls;
    var url := Next(s, st).popped[c].url;
    ListAfter(s, st, url);
    if st.Pop? && s.pool.available != [] {
      LastIsListed(s.pool.available);
    } else if st.Release? || st.Supply? {
      assert PoppedUrl(s, url);
    }
  }

  lemma LastIsListed(list: seq<Entry>)
    requires list != []
    ensures Listed(list, list[|list| - 1].url)
  {
  }

  /** One step keeps every URL in at most one place exactly unless it re-lists one that is in use as just said. */
  lemma UnduplicatedExactlyUnless(urls: set<string>, s: Sys, st: Step)
    requires Unduplicated(urls, s) && Enabled(s, st)
    ensures Unduplicated(urls, Next(s, st)) <==> Undoubling(urls, s, st)
  {
    hide Listed, DistinctUrls, Undoubling;
    var s' := Next(s, st);
    ListAfter(s, st, "");
    if Undoubling(urls, s, st) {
      forall c | c in s'.popped ensures s'.popped[c].url in urls && !Listed(s'.pool.available, s'.popped[c].url) {
        PoppedStaysUnlisted(urls, s, st, c);
      }
      UndoublingListed(urls, s, st);
      UndoublingPopped(urls, s, st);
    } else {
      DoublingDoubles(urls, s, st);
    }
  }

  lemma UndoublingListed(urls: set<string>, s: Sys, st: Step)
    requires Unduplicated(urls, s) && Enabled(s, st) && Undoubling(urls, s, st)
    ensures DistinctUrls(Next(s, st).pool.available) && Next(s, st).pool.busy.Keys <= urls
    ensures forall url :: Listed(Next(s, st).pool.available, url) ==> url in urls
  {
    hide Listed, DistinctUrls;
    ListAfter(s, st, "");
    forall url | Listed(Next(s, st).pool.available, url) ensures url in urls {
      ListAfter(s, st, url);
    }
  }

  lemma UndoublingPopped(urls: set<string>, s: Sys, st: Step)
    requires Unduplicated(urls, s) && Enabled(s, st)
    ensures var popped := Next(s, st).popped;
      && popped.Keys <= Next(s, st).tickets
      && forall c, d :: c in popped && d in popped && c != d ==> popped[c].url != popped[d].url
  {
    hide Listed, DistinctUrls;
    if st.Pop? && s.pool.available != [] {
      LastIsListed(s.pool.available);
    }
  }

  lemma DoublingDoubles(urls: set<string>, s: Sys, st: Step)
    requires Unduplicated(urls, s) && Enabled(s, st) && !Undoubling(urls, s, st)
    ensures !Unduplicated(urls, Next(s, st))
  {
    hide Listed, DistinctUrls;
    var s' := Next(s, st);
    ListAfter(s, st, st.url);
    if PoppedUrl(s, st.url) {
      var c :| c in s.popped && s.popped[c].url == st.url;
      assert c in s'.popped && s'.popped[c].url == st.url;
    }
  }

  lemma StepSound(urls: set<string>, s: Sys, st: Step)
    requires Sound(urls, s) && Enabled(s, st) && Proper(urls, s, st)
    ensures Sound(urls, Next(s, st))
  {
    hide Listed, DistinctUrls;
    var s' := Next(s, st);
    assert Undoubling(urls, s, st);
    UnduplicatedExactlyUnless(urls, s, st);
    forall url ensures url in s'.stray <==> url in s'.pool.busy && (Listed(s'.pool.available, url) || PoppedUrl(s', url)) {
      StrayAfter(urls, s, st, url);
    }
  }

  lemma StrayAfter(urls: set<string>, s: Sys, st: Step, url: string)
    requires Sound(urls, s) && Enabled(s, st) && Proper(urls, s, st)
    ensures var s' := Next(s, st);
      url in s'.stray <==> url in s'.pool.busy && (Listed(s'.pool.available, url) || PoppedUrl(s', url))
  {
    ListAfter(s, st, url);
    PoppedAfter(s, st, url);
    PoppedIsUnlisted(urls, s, url);
    if s.pool.available != [] {
      LastIsListed(s.pool.available);
    }
    hide Listed, DistinctUrls;
    if (st.Mark? || st.MarkUnanswered? || st.Abort?) && s.popped[st.c].url == url {
      assert PoppedUrl(s, url);
    }
    hide PoppedUrl, Unduplicated;
  }

  lemma PoppedIsUnlisted(urls: set<string>, s: Sys, url: string)
    requires Unduplicated(urls, s)
    ensures PoppedUrl(s, url) ==> url in urls && !Listed(s.pool.available, url)
  {
  }

  /**
   From a fresh pool, over every interleaving in which no release falls between
   the RPOP and the end of a claim: every URL stays in at most one place, and
   nothing free or popped is also busy exactly as long as there is no stray
   marker, that is one left by a claim whose SETEX lost its reply (or older than
   the initialisation) and neither taken over, released nor expired since.
   */
  lemma {:induction false} ConservedExactlyWhenNoStrays(urls: set<string>, s: Sys, run: seq<Step>)
    requires Sound(urls, s) && IsRun(s, run) && ProperRun(urls, s, run)
    ensures Sound(urls, After(s, run))
    ensures Conserved(urls, After(s, run)) <==> After(s, run).stray == {}
    decreases |run|
  {
    hide Sound, Conserved, Next, Proper;
    if run == [] {
      ConservedMeansNoStrays(urls, s);
    } else {
      StepSound(urls, s, run[0]);
      ConservedExactlyWhenNoStrays(urls, Next(s, run[0]), run[1..]);
    }
  }

  /** Every reply arrives, and pushes are of idle configured URLs without a marker. */
  ghost predicate Keeps(urls: set<string>, s: Sys, st: Step) {
    match st
    case MarkUnanswered(_, _) => false
    case Supply(url, _) => url in urls && !Listed(s.pool.available, url) && !PoppedUrl(s, url) && url !in s.pool.busy
    case _ => true
  }

  lemma PoppedNotBusy(urls: set<string>, s: Sys, st: Step)
    requires Conserved(urls, s) && Keeps(urls, s, st)
    ensures Undoubling(urls, s, st)
  {
  }

  lemma BusyAfter(urls: set<string>, s: Sys, st: Step, url: string)
    requires Conserved(urls, s) && Enabled(s, st) && Keeps(urls, s, st)
    ensures var s' := Next(s, st); Listed(s'.pool.available, url) || PoppedUrl(s', url) ==> url !in s'.pool.busy
  {
    ListAfter(s, st, url);
    PoppedAfter(s, st, url);
    if st.Mark? { assert PoppedUrl(s, s.popped[st.c].url); PoppedIsUnlisted(urls, s, s.popped[st.c].url); }
    if st.Abort? { assert PoppedUrl(s, s.popped[st.c].url); }
    if s.pool.available != [] {
      LastIsListed(s.pool.available);
    }
    hide Listed, DistinctUrls, PoppedUrl, Unduplicated;
  }

  /** One step keeps the pool conserved, whoever releases what, exactly unless it loses a SETEX reply or pushes a URL in use. */
  lemma ConservedExactlyUnless(urls: set<string>, s: Sys, st: Step)
    requires Conserved(urls, s) && Enabled(s, st)
    ensures Conserved(urls, Next(s, st)) <==> Keeps(urls, s, st)
  {
    hide Listed, DistinctUrls;
    var s' := Next(s, st);
    UnduplicatedExactlyUnless(urls, s, st);
    if Keeps(urls, s, st) {
      PoppedNotBusy(urls, s, st);
      forall url | Listed(s'.pool.available, url) || PoppedUrl(s', url) ensures url !in s'.pool.busy {
        BusyAfter(urls, s, st, url);
      }
    } else if st.MarkUnanswered? {
      assert PoppedUrl(s', s.popped[st.c].url);
    } else {
      ListAfter(s, st, st.url);
    }
  }

  ghost predicate KeepsRun(urls: set<string>, s: Sys, run: seq<Step>)
    requires IsRun(s, run)
    decreases |run|
  {
    run != [] ==> Keeps(urls, s, run[0]) && KeepsRun(urls, Next(s, run[0]), run[1..])
  }

  /** While every SETEX is answered, no release by anyone, nor any expiry, duplicates or invents a URL or frees a busy one. */
  lemma {:induction false} RunConserves(urls: set<string>, s: Sys, run: seq<Step>)
    requires Conserved(urls, s) && IsRun(s, run) && KeepsRun(urls, s, run)
    ensures Conserved(urls, After(s, run))
    decreases |run|
  {
    hide Conserved, Keeps, Next;
    if run != [] {
      ConservedExactlyUnless(urls, s, run[0]);
      RunConserves(urls, Next(s, run[0]), run[1..]);
    }
  }

  /**
   Initialising a pool that is in use: it stays conserved exactly if the given
   URLs are distinct, configured, and none of them is busy or popped.
   */
  lemma InitialisationConservesExactlyWhen(all: set<string>, s: Sys, urls: seq<string>, stamps: seq<int>)
    requires |urls| == |stamps| && Conserved(all, s)
    ensures IsRun(s, Initialisation(urls, stamps))
    ensures Conserved(all, After(s, Initialisation(urls, stamps)))
            <==> Distinct(urls) && forall u :: u in urls ==> u in all && u !in s.pool.busy && !PoppedUrl(s, u)
  {
    hide Listed, DistinctUrls;
    InitialisationInSteps(s, urls, stamps);
    ListedFresh(urls, stamps);
    var s' := After(s, Initialisation(urls, stamps));
    hide After, Initialisation;
    forall u ensures PoppedUrl(s', u) <==> PoppedUrl(s, u) {
      SamePopped(s, s', u);
    }
    assert forall u :: u in urls <==> Listed(s'.pool.available, u);
    forall c | c in s'.popped && Listed(s'.pool.available, s'.popped[c].url) ensures PoppedUrl(s, s'.popped[c].url) && s'.popped[c].url in urls {
    }
    forall u | u in urls && PoppedUrl(s, u) ensures exists c :: c in s'.popped && Listed(s'.pool.available, s'.popped[c].url) {
      var c :| c in s.popped && s.popped[c].url == u;
      assert c in s'.popped && Listed(s'.pool.available, s'.popped[c].url);
    }
  }

  lemma SamePopped(s: Sys, s': Sys, url: string)
    requires s.popped == s'.popped
    ensures PoppedUrl(s, url) <==> PoppedUrl(s', url)
  {
  }

  /** With the configured URLs themselves: exactly if nothing is busy and nothing is being claimed. */
  lemma InitialisationIsCleanExactlyWhen(s: Sys, urls: seq<string>, stamps: seq<int>)
    requires |urls| == |stamps| && Distinct(urls) && Conserved(Elements(urls), s)
    ensures IsRun(s, Initialisation(urls, stamps))
    ensures Conserved(Elements(urls), After(s, Initialisation(urls, stamps))) <==> s.pool.busy == map[] && s.popped == map[]
  {
    hide Listed, DistinctUrls, Initialisation, After, IsRun;
    InitialisationConservesExactlyWhen(Elements(urls), s, urls, stamps);
    if url :| url in s.pool.busy {
      assert url in Elements(urls);
    }
    if c :| c in s.popped {
      assert s.popped[c].url in Elements(urls) && PoppedUrl(s, s.popped[c].url);
    }
  }

  ghost function AvailableUrls(s: Sys): set<string> { set i | 0 <= i < |s.pool.available| :: s.pool.available[i].url }
  ghost function PoppedUrls(s: Sys): set<string> { set c | c in s.popped :: s.popped[c].url }
  ghost function HeldBack(s: Sys): set<string> { s.pool.busy.Keys - s.stray }
  ghost function LostUrls(urls: set<string>, s: Sys): set<string> {
    urls - AvailableUrls(s) - PoppedUrls(s) - s.pool.busy.Keys
  }

  lemma PartMembers(s: Sys, url: string)
    ensures url in AvailableUrls(s) <==> Listed(s.pool.available, url)
    ensures url in PoppedUrls(s) <==> PoppedUrl(s, url)
  {
  }

  lemma PartsDisjoint(urls: set<string>, s: Sys)
    requires Sound(urls, s)
    ensures AvailableUrls(s) !! PoppedUrls(s) !! HeldBack(s)
    ensures AvailableUrls(s) + PoppedUrls(s) + HeldBack(s) <= urls
    ensures AvailableUrls(s) + PoppedUrls(s) + HeldBack(s) == AvailableUrls(s) + PoppedUrls(s) + s.pool.busy.Keys
  {
    hide Listed, PoppedUrl, DistinctUrls, AvailableUrls, PoppedUrls;
    forall url ensures url in AvailableUrls(s) <==> Listed(s.pool.available, url) {
      PartMembers(s, url);
    }
    forall url ensures (url in PoppedUrls(s) <==> PoppedUrl(s, url)) && (PoppedUrl(s, url) ==> url in urls && !Listed(s.pool.available, url)) {
      PartMembers(s, url);
      PoppedIsUnlisted(urls, s, url);
    }
  }

  lemma PartSizes(urls: set<string>, s: Sys)
    requires Unduplicated(urls, s)
    ensures |AvailableUrls(s)| == |s.pool.available| && |PoppedUrls(s)| == |s.popped|
  {
    CountAvailable(s.pool.available);
    CountImage(s.popped.Keys, s.popped);
    assert PoppedUrls(s) == set c | c in s.popped.Keys :: s.popped[c].url;
  }

  lemma RestOf(urls: set<string>, a: set<string>, p: set<string>, b: set<string>)
    requires a !! p !! b && a + p + b <= urls
    ensures a !! p !! b !! (urls - a - p - b)
    ensures a + p + b + (urls - a - p - b) == urls
    ensures |urls| == |a| + |p| + |b| + |urls - a - p - b|
  {
    var l := urls - a - p - b;
    assert urls == (a + p + b) + l && (a + p + b) !! l;
    assert |urls| == |a + p + b| + |l|;
    assert |a + p + b| == |a + p| + |b|;
  }

  /** The four parts are disjoint and together they are exactly the configured URLs; stray markers aside, every marker counts. */
  lemma FourWaySplit(urls: set<string>, s: Sys)
    requires Sound(urls, s)
    ensures AvailableUrls(s) !! PoppedUrls(s) !! HeldBack(s) !! LostUrls(urls, s)
    ensures AvailableUrls(s) + PoppedUrls(s) + HeldBack(s) + LostUrls(urls, s) == urls
    ensures |urls| == |s.pool.available| + |s.popped| + |HeldBack(s)| + |LostUrls(urls, s)|
  {
    hide AvailableUrls, PoppedUrls, HeldBack, Sound;
    PartsDisjoint(urls, s);
    SoundIsUnduplicated(urls, s);
    PartSizes(urls, s);
    assert LostUrls(urls, s) == urls - AvailableUrls(s) - PoppedUrls(s) - HeldBack(s);
    RestOf(urls, AvailableUrls(s), PoppedUrls(s), HeldBack(s));
  }

  lemma StaysWithoutStrays(urls: set<string>, s: Sys, st: Step)
    requires Conserved(urls, s) && Enabled(s, st) && Keeps(urls, s, st) && s.stray == {}
    ensures Next(s, st).stray == {}
  {
    hide Listed, PoppedUrl, Unduplicated;
  }

  lemma ConservedIsSound(urls: set<string>, s: Sys)
    requires Conserved(urls, s) && s.stray == {}
    ensures Sound(urls, s)
  {
    hide Listed, PoppedUrl, Unduplicated;
  }

  lemma {:induction false} RunKeepsSound(urls: set<string>, s: Sys, run: seq<Step>)
    requires Conserved(urls, s) && s.stray == {} && IsRun(s, run) && KeepsRun(urls, s, run)
    ensures Conserved(urls, After(s, run)) && After(s, run).stray == {} && Sound(urls, After(s, run))
    decreases |run|
  {
    hide Conserved, Sound, Keeps, Next;
    if run == [] {
      ConservedIsSound(urls, s);
    } else {
      ConservedExactlyUnless(urls, s, run[0]);
      StaysWithoutStrays(urls, s, run[0]);
      RunKeepsSound(urls, Next(s, run[0]), run[1..]);
    }
  }

  /**
   From a fresh pool, whoever releases what and whenever, while every SETEX is
   answered: the configured URLs are the available, the popped, the marked and the
   lost ones, each URL in exactly one of the four.
   */
  lemma RunSplitsUrls(urls: seq<string>, stamps: seq<int>, run: seq<Step>)
    requires |urls| == |stamps| && Distinct(urls)
    requires IsRun(Fresh(urls, stamps), run) && KeepsRun(Elements(urls), Fresh(urls, stamps), run)
    ensures var all, s := Elements(urls), After(Fresh(urls, stamps), run);
      && AvailableUrls(s) !! PoppedUrls(s) !! s.pool.busy.Keys !! LostUrls(all, s)
      && AvailableUrls(s) + PoppedUrls(s) + s.pool.busy.Keys + LostUrls(all, s) == all
      && |urls| == |s.pool.available| + |s.popped| + |s.pool.busy| + |LostUrls(all, s)|
  {
    var all, s := Elements(urls), After(Fresh(urls, stamps), run);
    FreshConserved(urls, stamps);
    RunKeepsSound(all, Fresh(urls, stamps), run);
    FourWaySplit(all, s);
    DistinctSize(urls);
    assert HeldBack(s) == s.pool.busy.Keys;
    assert |s.pool.busy| == |s.pool.busy.Keys|;
    hide AvailableUrls, PoppedUrls, LostUrls, HeldBack, Elements, Distinct, KeepsRun, IsRun, After, Sound, Conserved;
  }

  lemma SoundIsUnduplicated(urls: set<string>, s: Sys)
    requires Sound(urls, s)
    ensures Unduplicated(urls, s)
  {
  }

  lemma {:induction false} CountAvailable(list: seq<Entry>)
    requires forall i, j :: 0 <= i < j < |list| ==> list[i].url != list[j].url
    ensures |set i | 0 <= i < |list| :: list[i].url| == |list|
  {
    var all := set i | 0 <= i < |list| :: list[i].url;
    if list == [] {
      assert all == {};
    } else {
      var tail := list[1..];
      var rest := set i | 0 <= i < |tail| :: tail[i].url;
      CountAvailable(tail);
      forall u | u in all ensures u in rest + {list[0].url} {
        var i :| 0 <= i < |list| && list[i].url == u;
        if i > 0 { assert tail[i - 1].url == u; }
      }
      forall u | u in rest ensures u in all && u != list[0].url {
        var i :| 0 <= i < |tail| && tail[i].url == u;
        assert list[i + 1].url == u;
      }
      assert list[0].url in all;
      assert all == rest + {list[0].url};
    }
  }

  lemma {:induction false} CountImage(claims: set<nat>, popped: map<nat, Entry>)
    requires claims <= popped.Keys
    requires forall c, d :: c in claims && d in claims && c != d ==> popped[c].url != popped[d].url
    ensures |set c | c in claims :: popped[c].url| == |claims|
    decreases |claims|
  {
    var all := set c | c in claims :: popped[c].url;
    if claims == {} {
      assert all == {};
    } else {
      var d :| d in claims;
      var less := claims - {d};
      var rest := set c | c in less :: popped[c].url;
      CountImage(less, popped);
      assert popped[d].url !in rest;
      assert all == rest + {popped[d].url};
      assert |claims| == |less| + 1;
    }
  }

  lemma UnlistedAfter(s: Sys, st: Step, url: string)
    requires Enabled(s, st) && !Listed(s.pool.available, url) && !PoppedUrl(s, url) && url !in s.pool.busy
    ensures Listed(Next(s, st).pool.available, url) <==> st.Supply? && st.url == url
  {
    EmptyList();
    assert forall c :: c in s.popped ==> s.popped[c].url != url;
    hide Listed, DistinctUrls;
    match st
    case Supply(u, stamp) => ListedPush(Entry(u, stamp), s.pool.available);
    case Pop(_) => if s.pool.available != [] { ListedPop(s.pool.available); }
    case Abort(c) => ListedPush(s.popped[c], s.pool.available);
    case Release(_, u, now) => ListedPush(Entry(u, now), s.pool.available);
    case _ =>
  }

  /** A lost URL comes back exactly through a push of an initialisation. */
  lemma LostExactlyUntilSupplied(urls: set<string>, s: Sys, st: Step, url: string)
    requires Enabled(s, st) && url in LostUrls(urls, s)
    ensures url in LostUrls(urls, Next(s, st)) <==> !(st.Supply? && st.url == url)
  {
    PartMembers(s, url);
    PartMembers(Next(s, st), url);
    LostPopped(s, st, url);
    UnlistedAfter(s, st, url);
    assert forall c :: c in s.popped ==> s.popped[c].url != url;
    hide Listed, DistinctUrls, AvailableUrls, PoppedUrls, PoppedUrl;
  }

  lemma LostPopped(s: Sys, st: Step, url: string)
    requires Enabled(s, st) && !PoppedUrl(s, url) && !Listed(s.pool.available, url)
    ensures !PoppedUrl(Next(s, st), url)
  {
    if s.pool.available != [] { LastIsListed(s.pool.available); }
    hide Listed;
    assert forall c :: c in s.popped ==> s.popped[c].url != url;
  }

  predicate NeverSupplied(run: seq<Step>, url: string)
    decreases |run|
  {
    run != [] ==> !(run[0].Supply? && run[0].url == url) && NeverSupplied(run[1..], url)
  }

  lemma {:induction false} LostStaysLost(urls: set<string>, s: Sys, run: seq<Step>, url: string)
    requires IsRun(s, run) && url in LostUrls(urls, s) && NeverSupplied(run, url)
    ensures url in LostUrls(urls, After(s, run))
    decreases |run|
  {
    hide LostUrls, Next;
    if run != [] {
      LostExactlyUntilSupplied(urls, s, run[0], url);
      LostStaysLost(urls, Next(s, run[0]), run[1..], url);
    }
  }

  /** An expiry, or the "best effort" branch of a release that raised, loses a URL exactly if it was busy and neither free nor popped. */
  lemma UnmarkingLosesExactlyWhen(urls: set<string>, s: Sys, c: nat, url: string)
    requires s.pool.busy.Keys <= urls
    ensures var loses := url in s.pool.busy && !Listed(s.pool.available, url) && !PoppedUrl(s, url);
      && LostUrls(urls, Next(s, Expire(url))) == LostUrls(urls, s) + (if loses then {url} else {})
      && LostUrls(urls, Next(s, FailedRelease(c, url))) == LostUrls(urls, s) + (if loses then {url} else {})
  {
    PartMembers(s, url);
    assert AvailableUrls(Next(s, Expire(url))) == AvailableUrls(s);
    assert PoppedUrls(Next(s, Expire(url))) == PoppedUrls(s);
    assert AvailableUrls(Next(s, FailedRelease(c, url))) == AvailableUrls(s);
    assert PoppedUrls(Next(s, FailedRelease(c, url))) == PoppedUrls(s);
    hide AvailableUrls, PoppedUrls, Listed, PoppedUrl;
  }

  // ----- what a release reports and repeats -----

  /** The status says what the script found: a listed URL, or else whether its marker was there and it went back. */
  lemma StatusTells(p: Pool, url: string, now: int)
    ensures var status, p' := StatusOfRelease(p, url), ReleasePool(p, url, now);
      && (status == AlreadyInPool <==> exists i :: 0 <= i < |p.available| && p.available[i].url == url)
      && (status == Released <==> p'.available == [Entry(url, now)] + p.available)
      && (status != Released <==> p'.available == p.available)
      && (status == NotBusy <==> url !in p.busy && p'.available == p.available && status != AlreadyInPool)
      && p'.busy == p.busy - {url}
  {
    assert |[Entry(url, now)] + p.available| == 1 + |p.available|;
  }

  /** A second release of the same URL changes nothing, whatever the state and the clock. */
  lemma ReleaseTwice(p: Pool, url: string, now: int, later: int)
    ensures ReleasePool(ReleasePool(p, url, now), url, later) == ReleasePool(p, url, now)
    ensures StatusOfRelease(ReleasePool(p, url, now), url) != Released
  {
    var p' := ReleasePool(p, url, now);
    if Readmits(p, url) {
      assert p'.available[0].url == url;
    }
    assert p'.busy - {url} == p'.busy;
  }

  // ----- whose marker it is -----

  /** The step is a SETEX for this URL by a claim of this evaluation. */
  predicate Marks(s: Sys, st: Step, url: string, eval: string) {
    match st
    case Mark(c, claimer) => c in s.popped && s.popped[c].url == url && claimer == eval
    case MarkUnanswered(c, claimer) => c in s.popped && s.popped[c].url == url && claimer == eval
    case _ => false
  }

  ghost predicate Touches(s: Sys, st: Step, url: string) {
    (exists eval :: Marks(s, st, url, eval))
    || ((st.Release? || st.FailedRelease? || st.Expire?) && st.url == url)
  }

  ghost predicate Untouched(s: Sys, run: seq<Step>, url: string)
    requires IsRun(s, run)
    decreases |run|
  {
    run != [] ==> !Touches(s, run[0], url) && Untouched(Next(s, run[0]), run[1..], url)
  }

  /** The last thing that happens to the marker is that a claim of this evaluation sets it. */
  ghost predicate MarkedLast(s: Sys, run: seq<Step>, url: string, eval: string)
    requires IsRun(s, run)
    decreases |run|
  {
    run != [] && ((Marks(s, run[0], url, eval) && Untouched(Next(s, run[0]), run[1..], url))
                  || MarkedLast(Next(s, run[0]), run[1..], url, eval))
  }

  predicate Names(s: Sys, url: string, eval: string) {
    url in s.pool.busy && s.pool.busy[url] == eval
  }

  lemma StepNames(s: Sys, st: Step, url: string, eval: string)
    requires Enabled(s, st)
    ensures Names(Next(s, st), url, eval) <==> Marks(s, st, url, eval) || (Names(s, url, eval) && !Touches(s, st, url))
  {
    hide Listed;
    match st {
      case Mark(c, claimer) => assert Marks(s, st, s.popped[c].url, claimer);
      case MarkUnanswered(c, claimer) => assert Marks(s, st, s.popped[c].url, claimer);
      case _ =>
    }
  }

  /** Over every run a marker names an evaluation exactly if one of its claims set it last, or it was there before and nothing touched it. */
  lemma {:induction false} MarkerNamesLastClaim(s: Sys, run: seq<Step>, url: string, eval: string)
    requires IsRun(s, run)
    ensures Names(After(s, run), url, eval) <==> MarkedLast(s, run, url, eval) || (Names(s, url, eval) && Untouched(s, run, url))
    decreases |run|
  {
    hide Next, Names, Marks, Touches;
    if run != [] {
      StepNames(s, run[0], url, eval);
      MarkerNamesLastClaim(Next(s, run[0]), run[1..], url, eval);
    }
  }

  // ----- first in, first out -----

  function StepIn(s: Sys, st: Step): seq<Entry>
    requires Enabled(s, st)
  {
    match st
    case Supply(url, stamp) => [Entry(url, stamp)]
    case Abort(c) => [s.popped[c]]
    case Release(_, url, now) => if Readmits(s.pool, url) then [Entry(url, now)] else []
    case _ => []
  }

  /** A pop takes the oldest entry, the start of an initialisation all of them. */
  function StepOut(s: Sys, st: Step): seq<Entry> {
    if st.Clear? then Reverse(s.pool.available)
    else if st.Pop? && s.pool.available != [] then [Oldest(s.pool)]
    else []
  }

  function Pushed(s: Sys, run: seq<Step>): seq<Entry>
    requires IsRun(s, run)
    decreases |run|
  {
    if run == [] then [] else StepIn(s, run[0]) + Pushed(Next(s, run[0]), run[1..])
  }

  function Taken(s: Sys, run: seq<Step>): seq<Entry>
    requires IsRun(s, run)
    decreases |run|
  {
    if run == [] then [] else StepOut(s, run[0]) + Taken(Next(s, run[0]), run[1..])
  }

  lemma {:induction false} ReverseEnds(list: seq<Entry>, e: Entry)
    ensures Reverse([e] + list) == Reverse(list) + [e]
    ensures list != [] ==> Reverse(list) == [list[|list| - 1]] + Reverse(list[..|list| - 1])
  {
    assert ([e] + list)[1..] == list;
    if list != [] {
      var front, last := list[..|list| - 1], [list[|list| - 1]];
      assert list == front + last;
      ReverseAppend(front, last);
      assert Reverse(last) == last by { assert last[1..] == []; }
    }
  }

  lemma FifoStep(s: Sys, st: Step)
    requires Enabled(s, st)
    ensures Reverse(s.pool.available) + StepIn(s, st) == StepOut(s, st) + Reverse(Next(s, st).pool.available)
  {
    match st {
      case Pop(_) => if s.pool.available != [] { ReverseEnds(s.pool.available, Oldest(s.pool)); }
      case Supply(url, stamp) => ReverseEnds(s.pool.available, Entry(url, stamp));
      case Abort(c) => ReverseEnds(s.pool.available, s.popped[c]);
      case Release(_, url, now) => if Readmits(s.pool, url) { ReverseEnds(s.pool.available, Entry(url, now)); }
      case _ =>
    }
  }

  /** The list is a queue: what entered, in order, is what left followed by what is still inside. */
  lemma {:induction false} FirstInFirstOut(s: Sys, run: seq<Step>)
    requires IsRun(s, run)
    ensures Reverse(s.pool.available) + Pushed(s, run)
         == Taken(s, run) + Reverse(After(s, run).pool.available)
    decreases |run|
  {
    hide Reverse, StepIn, StepOut, Next;
    if run != [] {
      var st, s', rest := run[0], Next(s, run[0]), run[1..];
      var last := Reverse(After(s, run).pool.available);
      FifoStep(s, st);
      FirstInFirstOut(s', rest);
      calc {
        Reverse(s.pool.available) + (StepIn(s, st) + Pushed(s', rest));
        (Reverse(s.pool.available) + StepIn(s, st)) + Pushed(s', rest);
        StepOut(s, st) + (Reverse(s'.pool.available) + Pushed(s', rest));
        StepOut(s, st) + (Taken(s', rest) + last);
        (StepOut(s, st) + Taken(s', rest)) + last;
      }
    }
  }

  // ----- mutual exclusion -----

  predicate Holds(s: Sys, c: nat, url: string) {
    (c in s.popped && s.popped[c].url == url) || (c in s.held && s.held[c] == url)
  }

  ghost predicate Exclusive(s: Sys) {
    forall c, d, url :: Holds(s, c, url) && Holds(s, d, url) ==> c == d
  }

  ghost predicate Guarded(s: Sys) {
    && Exclusive(s)
    && DistinctUrls(s.pool.available)
    && (forall c, url :: Holds(s, c, url) ==> !Listed(s.pool.available, url))
    && s.popped.Keys !! s.held.Keys
    && s.popped.Keys + s.held.Keys <= s.tickets
  }

  ghost predicate Idle(s: Sys, url: string) {
    forall c :: !Holds(s, c, url)
  }

  /** A live marker stands beside a claim, other than one that `c` itself holds. */
  ghost predicate InUseByAnother(s: Sys, c: nat, url: string) {
    url in s.pool.busy && exists d :: Holds(s, d, url) && (d != c || d in s.popped)
  }

  ghost predicate Harmless(s: Sys, st: Step) {
    && (st.Release? ==> !InUseByAnother(s, st.c, st.url))
    && (st.Supply? ==> !Listed(s.pool.available, st.url) && Idle(s, st.url))
  }

  lemma HolderBefore(s: Sys, st: Step, d: nat, url: string)
    requires Enabled(s, st) && Holds(Next(s, st), d, url)
    ensures Holds(s, d, url) || (st == Pop(d) && s.pool.available != [] && url == Oldest(s.pool).url)
    ensures st.Abort? ==> d != st.c || d in s.held
    ensures st.Release? && st.url == url ==> d != st.c || d in s.popped
  {
    hide Listed;
  }

  /** Who has which executor after a step: a pop adds a claim, an abort or a release by the claim ends it, all else leaves it. */
  lemma HoldersExactly(s: Sys, st: Step, d: nat, url: string)
    requires Enabled(s, st) && s.popped.Keys !! s.held.Keys && s.popped.Keys + s.held.Keys <= s.tickets
    ensures Holds(Next(s, st), d, url) <==>
      match st
      case Pop(c) => Holds(s, d, url) || (d == c && s.pool.available != [] && url == s.pool.available[|s.pool.available| - 1].url)
      case Abort(c) => Holds(s, d, url) && d != c
      case Release(c, u, _) => Holds(s, d, url) && (d != c || u != url || d in s.popped)
      case FailedRelease(c, u) => Holds(s, d, url) && (d != c || u != url || d in s.popped)
      case _ => Holds(s, d, url)
  {
    hide Listed;
  }

  lemma HolderUnlisted(s: Sys, st: Step, d: nat, url: string)
    requires Guarded(s) && Enabled(s, st) && Harmless(s, st) && Holds(Next(s, st), d, url)
    ensures !Listed(Next(s, st).pool.available, url)
  {
    hide Listed, DistinctUrls, Next;
    HolderBefore(s, st, d, url);
    ListAfter(s, st, url);
    if st.Abort? { AbortHeld(s, st.c); }
  }

  lemma StepGuards(s: Sys, st: Step)
    requires Guarded(s) && Enabled(s, st) && Harmless(s, st)
    ensures Guarded(Next(s, st))
  {
    hide Listed, DistinctUrls, Holds;
    var s' := Next(s, st);
    ListAfter(s, st, "");
    if st.Abort? { AbortHeld(s, st.c); }
    forall d, url | Holds(s', d, url) ensures !Listed(s'.pool.available, url) {
      HolderUnlisted(s, st, d, url);
    }
    if s.pool.available != [] { LastIsListed(s.pool.available); }
    forall c, d, url | Holds(s', c, url) && Holds(s', d, url) ensures c == d {
      HolderBefore(s, st, c, url);
      HolderBefore(s, st, d, url);
    }
  }

  lemma AbortHeld(s: Sys, c: nat)
    requires c in s.popped
    ensures Holds(s, c, s.popped[c].url)
  {
  }

  /** `last` names the only claim that may be using an executor. */
  ghost predicate LastIsHolder(s: Sys) {
    forall c, url :: Holds(s, c, url) ==> url in s.last && s.last[url] == c
  }

  lemma StepKeepsLast(s: Sys, st: Step)
    requires Guarded(s) && LastIsHolder(s) && Enabled(s, st)
    ensures LastIsHolder(Next(s, st))
  {
    hide Listed, DistinctUrls, Holds;
    if s.pool.available != [] { LastIsListed(s.pool.available); }
    forall d, url | Holds(Next(s, st), d, url)
      ensures url in Next(s, st).last && Next(s, st).last[url] == d
    {
      HolderBefore(s, st, d, url);
    }
  }

  /**
   A claim releases what it was given, before the next claim of that URL, and
   only idle configured URLs are initialised.
   */
  ghost predicate Timely(urls: set<string>, s: Sys, st: Step) {
    && (st.Release? ==> st.url in s.last && s.last[st.url] == st.c && st.c !in s.popped)
    && (st.Supply? ==> st.url in urls && !Listed(s.pool.available, st.url) && Idle(s, st.url))
  }

  ghost predicate TimelyRun(urls: set<string>, s: Sys, run: seq<Step>)
    requires IsRun(s, run)
    decreases |run|
  {
    run != [] ==> Timely(urls, s, run[0]) && TimelyRun(urls, Next(s, run[0]), run[1..])
  }

  lemma TimelyIsProper(urls: set<string>, s: Sys, st: Step)
    requires LastIsHolder(s) && Timely(urls, s, st)
    ensures Proper(urls, s, st) && Harmless(s, st)
  {
    hide Listed;
    assert forall c :: c in s.popped ==> Holds(s, c, s.popped[c].url);
  }

  lemma {:induction false} TimelyRunGuards(urls: set<string>, s: Sys, run: seq<Step>)
    requires Sound(urls, s) && Guarded(s) && LastIsHolder(s)
    requires IsRun(s, run) && TimelyRun(urls, s, run)
    ensures Sound(urls, After(s, run)) && Guarded(After(s, run))
    decreases |run|
  {
    hide Sound, Guarded, LastIsHolder, Timely, Next;
    if run != [] {
      TimelyIsProper(urls, s, run[0]);
      StepSound(urls, s, run[0]);
      StepGuards(s, run[0]);
      StepKeepsLast(s, run[0]);
      TimelyRunGuards(urls, Next(s, run[0]), run[1..]);
    }
  }

  /**
   No two claims ever hold one executor, even after marker expiries, failed
   releases, lost replies and further initialisations, and every URL stays in
   at most one place.
   */
  lemma {:induction false} MutualExclusion(urls: seq<string>, stamps: seq<int>, run: seq<Step>)
    requires |urls| == |stamps| && Distinct(urls)
    requires IsRun(Fresh(urls, stamps), run) && TimelyRun(Elements(urls), Fresh(urls, stamps), run)
    ensures Exclusive(After(Fresh(urls, stamps), run)) && Sound(Elements(urls), After(Fresh(urls, stamps), run))
  {
    hide Sound, After, IsRun, TimelyRun, FreshList;
    FreshConserved(urls, stamps);
    ListedFresh(urls, stamps);
    TimelyRunGuards(Elements(urls), Fresh(urls, stamps), run);
  }

  // ----- exactly when a release or an initialisation is safe -----

  /** Only further claims: no release, abort, initialisation or expiry. */
  predicate OnlyClaims(run: seq<Step>) {
    forall i :: 0 <= i < |run| ==> run[i].Pop? || run[i].Mark?
  }

  lemma {:induction false} ClaimsGuard(s: Sys, run: seq<Step>)
    requires Guarded(s) && IsRun(s, run) && OnlyClaims(run)
    ensures Guarded(After(s, run))
    decreases |run|
  {
    hide Guarded, Next;
    if run != [] {
      StepGuards(s, run[0]);
      ClaimsGuard(Next(s, run[0]), run[1..]);
    }
  }

  function PopsFrom(t: nat, n: nat): seq<Step>
    decreases n
  {
    if n == 0 then [] else [Pop(t)] + PopsFrom(t + 1, n - 1)
  }

  lemma {:induction false} PopsAreClaims(s: Sys, t: nat, n: nat)
    requires forall c :: c in s.tickets ==> c < t
    ensures OnlyClaims(PopsFrom(t, n)) && IsRun(s, PopsFrom(t, n))
    decreases n
  {
    if n > 0 {
      PopsAreClaims(Next(s, Pop(t)), t + 1, n - 1);
      var run := PopsFrom(t, n);
      assert run[1..] == PopsFrom(t + 1, n - 1);
      forall i | 0 <= i < |run| ensures run[i].Pop? || run[i].Mark? {
        if i > 0 { assert run[i] == run[1..][i - 1]; }
      }
    }
  }

  lemma PopKeepsHolder(s: Sys, t: nat, d: nat, url: string)
    requires t !in s.tickets && d != t && Holds(s, d, url)
    ensures Holds(Next(s, Pop(t)), d, url)
  {
  }

  lemma PopTakes(s: Sys, t: nat)
    requires t !in s.tickets && s.pool.available != []
    ensures var s', n := Next(s, Pop(t)), |s.pool.available| - 1;
      s'.pool.available == s.pool.available[..n] && s'.tickets == s.tickets + {t} && Holds(s', t, s.pool.available[n].url)
  {
  }

  lemma PopFirst(s: Sys, t: nat, n: nat)
    requires n > 0 && forall c :: c in s.tickets ==> c < t
    ensures var s' := Next(s, Pop(t));
      IsRun(s, PopsFrom(t, n)) && IsRun(s', PopsFrom(t + 1, n - 1)) && After(s, PopsFrom(t, n)) == After(s', PopsFrom(t + 1, n - 1))
  {
    PopsAreClaims(s, t, n);
    assert PopsFrom(t, n)[0] == Pop(t) && PopsFrom(t, n)[1..] == PopsFrom(t + 1, n - 1);
    hide Next, PopsFrom;
  }

  lemma NoPops(s: Sys, t: nat)
    ensures IsRun(s, PopsFrom(t, 0)) && After(s, PopsFrom(t, 0)) == s
  {
  }

  lemma TwoHolders(s: Sys, c: nat, d: nat, url: string)
    requires Holds(s, c, url) && Holds(s, d, url) && c != d
    ensures !Exclusive(s)
  {
    hide Holds;
  }

  /** If an executor in use is listed, enough claims in a row give it a second holder. */
  lemma {:induction false} ClaimsReachListed(s: Sys, d: nat, i: nat, t: nat)
    requires i < |s.pool.available| && Holds(s, d, s.pool.available[i].url) && d < t
    requires forall c :: c in s.tickets ==> c < t
    ensures var run := PopsFrom(t, |s.pool.available| - i); IsRun(s, run) && !Exclusive(After(s, run))
    decreases |s.pool.available|
  {
    hide Next, Exclusive, Holds, PopsFrom;
    var n, url, s' := |s.pool.available|, s.pool.available[i].url, Next(s, Pop(t));
    PopFirst(s, t, n - i);
    PopTakes(s, t);
    PopKeepsHolder(s, t, d, url);
    if i == n - 1 {
      NoPops(s', t + 1);
      TwoHolders(s', d, t, url);
    } else {
      ClaimsReachListed(s', d, i, t + 1);
    }
  }

  /** If a URL is listed twice, enough claims in a row give it two holders. */
  lemma {:induction false} ClaimsReachTwice(s: Sys, i: nat, j: nat, t: nat)
    requires i < j < |s.pool.available| && s.pool.available[i].url == s.pool.available[j].url
    requires forall c :: c in s.tickets ==> c < t
    ensures var run := PopsFrom(t, |s.pool.available| - i); IsRun(s, run) && !Exclusive(After(s, run))
    decreases |s.pool.available|
  {
    hide Next, Exclusive, Holds, PopsFrom;
    var n, s' := |s.pool.available|, Next(s, Pop(t));
    PopFirst(s, t, n - i);
    PopTakes(s, t);
    if j == n - 1 {
      ClaimsReachListed(s', t, i, t + 1);
    } else {
      ClaimsReachTwice(s', i, j, t + 1);
    }
  }

  /** Whatever is claimed next, in whatever order, executors stay exclusive. */
  ghost predicate SafeToClaim(s: Sys) {
    forall run | OnlyClaims(run) && IsRun(s, run) :: Exclusive(After(s, run))
  }

  lemma GuardedIsSafe(s: Sys)
    requires Guarded(s)
    ensures SafeToClaim(s)
  {
    forall run | OnlyClaims(run) && IsRun(s, run) ensures Exclusive(After(s, run)) {
      ClaimsGuard(s, run);
    }
  }

  lemma ListedInUseIsUnsafe(s: Sys, d: nat, url: string)
    requires Holds(s, d, url) && Listed(s.pool.available, url) && d in s.tickets
    ensures !SafeToClaim(s)
  {
    var i :| 0 <= i < |s.pool.available| && s.pool.available[i].url == url;
    var t := FreshTicket(s.tickets);
    ClaimsReachListed(s, d, i, t);
    PopsAreClaims(s, t, |s.pool.available| - i);
  }

  lemma ListedTwiceIsUnsafe(s: Sys)
    requires !DistinctUrls(s.pool.available)
    ensures !SafeToClaim(s)
  {
    var i, j :| 0 <= i < j < |s.pool.available| && s.pool.available[i].url == s.pool.available[j].url;
    var t := FreshTicket(s.tickets);
    ClaimsReachTwice(s, i, j, t);
    PopsAreClaims(s, t, |s.pool.available| - i);
  }

  /**
   Keyed by URL and not by claim, a release is safe exactly when no live marker
   stands beside a claim other than the releasing holder: otherwise claims alone
   lead to two holders.
   */
  lemma {:induction false} ReleaseSafeExactlyWhen(s: Sys, c: nat, url: string, now: int)
    requires Guarded(s)
    ensures SafeToClaim(Next(s, Release(c, url, now))) <==> !InUseByAnother(s, c, url)
  {
    hide Listed, DistinctUrls, SafeToClaim;
    var s' := Next(s, Release(c, url, now));
    if InUseByAnother(s, c, url) {
      var d :| Holds(s, d, url) && (d != c || d in s.popped);
      ListAfter(s, Release(c, url, now), url);
      ListedInUseIsUnsafe(s', d, url);
    } else {
      StepGuards(s, Release(c, url, now));
      GuardedIsSafe(s');
    }
  }

  /** Initialising a pool in use is safe exactly when the URLs are distinct and no claim, marked or not, still has one of them. */
  lemma {:induction false} InitialisationSafeExactlyWhen(s: Sys, urls: seq<string>, stamps: seq<int>)
    requires |urls| == |stamps| && Guarded(s)
    ensures IsRun(s, Initialisation(urls, stamps))
    ensures SafeToClaim(After(s, Initialisation(urls, stamps)))
            <==> Distinct(urls) && forall u :: u in urls ==> Idle(s, u)
  {
    hide Listed, DistinctUrls, SafeToClaim;
    InitialisationInSteps(s, urls, stamps);
    ListedFresh(urls, stamps);
    var s' := After(s, Initialisation(urls, stamps));
    hide After, Initialisation;
    assert forall c, url :: Holds(s', c, url) <==> Holds(s, c, url);
    if !Distinct(urls) {
      ListedTwiceIsUnsafe(s');
    } else if u :| u in urls && !Idle(s, u) {
      var c :| Holds(s, c, u);
      ListedInUseIsUnsafe(s', c, u);
    } else {
      assert Guarded(s');
      GuardedIsSafe(s');
    }
  }
}
