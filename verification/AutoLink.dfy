/**
 The auto-linker: it rewrites the matches of a term from left to right, in
 place, shifting the indices of the matches still to come.
 */
module AutoLink {
  import opened Common
  import Strings

  /** Sorted, non-overlapping occurrences of `term` in `text`. */
  predicate Occurrences(text: string, term: string, at: seq<int>) {
    && term != ""
    && (forall i :: 0 <= i < |at| ==> 0 <= at[i] && at[i] + |term| <= |text| && text[at[i]..at[i] + |term|] == term)
    && (forall i, j :: 0 <= i < j < |at| ==> at[i] + |term| <= at[j])
  }

  predicate Spread(text: string, size: nat, at: seq<int>) {
    && (forall i :: 0 <= i < |at| ==> 0 <= at[i] && at[i] + size <= |text|)
    && (forall i, j :: 0 <= i < j < |at| ==> at[i] + size <= at[j])
  }

  /** Where the `k`th occurrence ends. */
  function EndOf(text: string, size: nat, at: seq<int>, k: nat): (e: nat)
    requires Spread(text, size, at) && k <= |at|
    ensures e <= |text| && (k < |at| ==> e <= at[k])
  {
    if k == 0 then 0 else at[k - 1] + size
  }

  /** The text between the `k`th occurrence and the one before it. */
  function PieceBefore(text: string, size: nat, at: seq<int>, k: nat): (r: string)
    requires Spread(text, size, at) && k < |at|
    ensures |r| == at[k] - EndOf(text, size, at, k)
  {
    text[EndOf(text, size, at, k)..at[k]]
  }

  /** The text up to the end of the `k`th occurrence with the first `k` replaced; all positions are the original ones. */
  function Done(text: string, size: nat, at: seq<int>, k: nat, link: string): string
    requires Spread(text, size, at) && k <= |at|
  {
    if k == 0 then "" else
      Done(text, size, at, k - 1, link) + PieceBefore(text, size, at, k - 1) + link
  }

  /** The first `k` occurrences replaced at once. */
  function Substituted(text: string, size: nat, at: seq<int>, k: nat, link: string): string
    requires Spread(text, size, at) && k <= |at|
  {
    Done(text, size, at, k, link) + text[EndOf(text, size, at, k)..]
  }

  /** How far `n` replacements, each longer by `d`, move what follows. */
  function Shift(n: nat, d: int): int {
    n * d
  }

  lemma OneMoreShift(n: nat, d: int)
    ensures Shift(0, d) == 0 && Shift(n + 1, d) == Shift(n, d) + d
  {
  }

  /** The loop's bound shrinks with every change, so about half the budget is used. */
  function Applied(matches: nat, budget: int): (k: nat)
    ensures k <= matches
  {
    if budget <= 0 then 0 else Min(matches, (budget + 1) / 2)
  }

  /** `content` with the `size` characters from `p` on replaced. */
  function Cut(content: string, p: int, size: nat, link: string): string
    requires 0 <= p && p + size <= |content|
  {
    content[..p] + link + content[p + size..]
  }

  /** `positions` are the indices at which the loop cuts. */
  method ApplyMatches(text: string, term: string, link: string, matches: array<int>, maxChanges: int, fileChanges: int)
    returns (content: string, changes: int, ghost positions: seq<int>)
    requires Occurrences(text, term, matches[..])
    modifies matches
    ensures Spread(text, |term|, old(matches[..]))
    ensures var at := old(matches[..]);
      var k := Applied(|at|, maxChanges - fileChanges);
      && content == Substituted(text, |term|, at, k, link)
      && changes == fileChanges + k
      && |positions| == k && forall j :: 0 <= j < k ==> positions[j] == at[j] + Shift(j, |link| - |term|)
  {
    hide Cut, Substituted, EndOf, Occurrences, Shift, Spread, Applied;
    ghost var at := matches[..];
    OccurrencesSpread(text, term, at);
    var adjustment := |link| - |term|;
    OneMoreShift(0, adjustment);
    content, changes, positions := text, fileChanges, [];
    NothingApplied(text, |term|, at, link);
    var i := 0;
    while i < Min(matches.Length, maxChanges - changes)
      invariant 0 <= i <= matches.Length && changes == fileChanges + i
      invariant i > 0 ==> 2 * (i - 1) < maxChanges - fileChanges
      invariant content == Substituted(text, |term|, at, i, link)
      invariant forall j :: i <= j < matches.Length ==> matches[j] == at[j] + Shift(i, adjustment)
      invariant |positions| == i && forall j :: 0 <= j < i ==> positions[j] == at[j] + Shift(j, adjustment)
    {
      var p := matches[i];
      ReplaceNext(text, |term|, at, i, link);
      positions := positions + [p];
      content := Cut(content, p, |term|, link);
      changes := changes + 1;
      ShiftRest(matches, i + 1, adjustment);
      OneMoreShift(i, adjustment);
      i := i + 1;
    }
    LoopCount(i, |at|, maxChanges - fileChanges);
  }

  lemma OccurrencesSpread(text: string, term: string, at: seq<int>)
    requires Occurrences(text, term, at)
    ensures Spread(text, |term|, at)
  {
  }

  lemma LoopCount(i: nat, matches: nat, budget: int)
    requires i <= matches && (i > 0 ==> 2 * (i - 1) < budget) && i >= Min(matches, budget - i)
    ensures i == Applied(matches, budget)
  {
  }

  /** `matches[j].index += adjustment` for the matches still to come */
  method ShiftRest(matches: array<int>, from: nat, adjustment: int)
    modifies matches
    ensures forall j :: 0 <= j < matches.Length ==>
      matches[j] == old(matches[j]) + if j >= from then adjustment else 0
  {
    var j := from;
    while j < matches.Length
      invariant from <= j
      invariant forall k :: 0 <= k < matches.Length ==>
        matches[k] == old(matches[k]) + if from <= k < j then adjustment else 0
    {
      matches[j] := matches[j] + adjustment;
      j := j + 1;
    }
  }

  lemma NothingApplied(text: string, size: nat, at: seq<int>, link: string)
    requires Spread(text, size, at)
    ensures Substituted(text, size, at, 0, link) == text
  {
  }

  lemma {:induction false} DoneLength(text: string, size: nat, at: seq<int>, k: nat, link: string)
    requires Spread(text, size, at) && k <= |at|
    ensures |Done(text, size, at, k, link)| == EndOf(text, size, at, k) + Shift(k, |link| - size)
  {
    hide Shift, Spread, PieceBefore;
    if k == 0 {
      OneMoreShift(0, |link| - size);
    } else {
      DoneLength(text, size, at, k - 1, link);
      OneMoreShift(k - 1, |link| - size);
    }
  }

  lemma CutAndPaste(done: string, text: string, e: nat, a: nat, size: nat, link: string)
    requires e <= a && a + size <= |text|
    ensures var content := done + text[e..];
      var p := |done| + (a - e);
      content[..p] + link + content[p + size..] == done + text[e..a] + link + text[a + size..]
  {
    var content := done + text[e..];
    var p := |done| + (a - e);
    assert content[..p] == done + text[e..a];
    assert content[p + size..] == text[a + size..];
  }

  lemma InText(text: string, size: nat, at: seq<int>, i: nat)
    requires Spread(text, size, at) && i < |at|
    ensures 0 <= at[i] && at[i] + size <= |text|
  {
  }

  lemma NextDone(text: string, size: nat, at: seq<int>, i: nat, link: string)
    requires Spread(text, size, at) && i < |at| && 0 <= at[i] && at[i] + size <= |text|
    ensures Substituted(text, size, at, i + 1, link)
         == Done(text, size, at, i, link) + text[EndOf(text, size, at, i)..at[i]] + link + text[at[i] + size..]
  {
    hide Spread;
  }

  /** One step of the loop: cutting at the shifted index replaces the next original occurrence. */
  lemma ReplaceNext(text: string, size: nat, at: seq<int>, i: nat, link: string)
    requires Spread(text, size, at) && i < |at|
    ensures var content := Substituted(text, size, at, i, link);
      var p := at[i] + Shift(i, |link| - size);
      && 0 <= p && p + size <= |content|
      && Cut(content, p, size, link) == Substituted(text, size, at, i + 1, link)
  {
    InText(text, size, at, i);
    NextDone(text, size, at, i, link);
    hide Shift, Spread, Done, EndOf;
    DoneLength(text, size, at, i, link);
    CutAndPaste(Done(text, size, at, i, link), text, EndOf(text, size, at, i), at[i], size, link);
  }

  // ----- what substitution means -----

  /** The pieces of text before each of the first `k` occurrences. */
  function Between(text: string, size: nat, at: seq<int>, k: nat): (r: seq<string>)
    requires Spread(text, size, at) && k <= |at|
    ensures |r| == k
  {
    if k == 0 then [] else Between(text, size, at, k - 1) + [PieceBefore(text, size, at, k - 1)]
  }

  /** What lies around the first `k` occurrences. */
  function Gaps(text: string, size: nat, at: seq<int>, k: nat): (r: seq<string>)
    requires Spread(text, size, at) && k <= |at|
    ensures |r| == k + 1
  {
    Between(text, size, at, k) + [text[EndOf(text, size, at, k)..]]
  }

  /** The pieces with `x` between each two of them. */
  function Weave(pieces: seq<string>, x: string): string
    requires pieces != []
  {
    if |pieces| == 1 then pieces[0] else Weave(pieces[..|pieces| - 1], x) + x + pieces[|pieces| - 1]
  }

  lemma {:induction false} DoneWeaves(text: string, size: nat, at: seq<int>, k: nat, x: string, last: string)
    requires Spread(text, size, at) && k <= |at|
    ensures Done(text, size, at, k, x) + last == Weave(Between(text, size, at, k) + [last], x)
    decreases k
  {
    hide Spread, PieceBefore, EndOf, Weave;
    if k == 0 {
      WeaveOne(last, x);
      assert [] + [last] == [last] && "" + last == last;
    } else {
      var piece := PieceBefore(text, size, at, k - 1);
      DoneWeaves(text, size, at, k - 1, x, piece);
      WeaveEnd(Between(text, size, at, k), last, x);
    }
  }

  lemma WeaveOne(piece: string, x: string)
    ensures Weave([piece], x) == piece
  {
  }

  lemma WeaveEnd(pieces: seq<string>, last: string, x: string)
    requires pieces != []
    ensures Weave(pieces + [last], x) == Weave(pieces, x) + x + last
  {
    assert (pieces + [last])[..|pieces|] == pieces;
  }

  lemma SliceChain(text: string, a: nat, b: nat, c: nat)
    requires a <= b <= c <= |text|
    ensures text[..a] + text[a..b] + text[b..c] == text[..c]
  {
  }

  lemma TermAt(text: string, term: string, at: seq<int>, i: nat)
    requires Occurrences(text, term, at) && Spread(text, |term|, at) && i < |at|
    ensures text[at[i]..at[i] + |term|] == term
  {
  }

  lemma {:induction false} DoneRebuilds(text: string, term: string, at: seq<int>, k: nat)
    requires Occurrences(text, term, at) && Spread(text, |term|, at) && k <= |at|
    ensures Done(text, |term|, at, k, term) == text[..EndOf(text, |term|, at, k)]
    decreases k
  {
    if k > 0 {
      hide Occurrences;
      DoneRebuilds(text, term, at, k - 1);
      TermAt(text, term, at, k - 1);
      SliceChain(text, EndOf(text, |term|, at, k - 1), at[k - 1], at[k - 1] + |term|);
    }
  }

  /**
   The text is its gaps woven with the term, the result the same gaps woven with
   the link: nothing but the chosen occurrences changes.
   */
  lemma OnlyOccurrencesChange(text: string, term: string, at: seq<int>, k: nat, link: string)
    requires Occurrences(text, term, at) && Spread(text, |term|, at) && k <= |at|
    ensures text == Weave(Gaps(text, |term|, at, k), term)
    ensures Substituted(text, |term|, at, k, link) == Weave(Gaps(text, |term|, at, k), link)
  {
    var rest := text[EndOf(text, |term|, at, k)..];
    DoneRebuilds(text, term, at, k);
    DoneWeaves(text, |term|, at, k, term, rest);
    DoneWeaves(text, |term|, at, k, link, rest);
  }

  /** The whole budget available to a term is used exactly when the term has few enough matches. */
  lemma BudgetUsedExactlyWhen(matches: nat, budget: nat)
    ensures Applied(matches, budget) == Min(matches, budget) <==> matches <= (budget + 1) / 2 || budget <= 1
    ensures Applied(matches, budget) <= budget
    ensures matches > 0 && budget > 0 ==> Applied(matches, budget) > 0
  {
  }

  // ----- a whole file -----

  datatype Term = Term(word: string, target: string)

  function Link(t: Term): string {
    "[[" + t.target + "]]"
  }

  predicate Includes(text: string, part: string) {
    exists i :: 0 <= i <= |text| && Strings.At(text, i, part)
  }

  predicate AlreadyLinked(text: string, t: Term) {
    Includes(text, "[[" + t.word + "]]") || Includes(text, Link(t))
  }

  /** A matcher finds sorted, non-overlapping occurrences, whatever else it leaves out. */
  ghost predicate Finds(find: (string, string) -> seq<int>, terms: seq<Term>) {
    forall text, t :: t in terms ==> Occurrences(text, t.word, find(text, t.word))
  }

  datatype Progress = Progress(content: string, changes: int)

  function LinkTerm(p: Progress, t: Term, find: (string, string) -> seq<int>, maxChanges: int): Progress
    requires Occurrences(p.content, t.word, find(p.content, t.word))
  {
    var at := find(p.content, t.word);
    var k := Applied(|at|, maxChanges - p.changes);
    Progress(Substituted(p.content, |t.word|, at, k, Link(t)), p.changes + k)
  }

  /** The terms in order, each on the text the earlier ones left, until the budget is used up. */
  function LinkTerms(p: Progress, terms: seq<Term>, find: (string, string) -> seq<int>, maxChanges: int): Progress
    requires Finds(find, terms)
    decreases |terms|
  {
    if terms == [] then p
    else if AlreadyLinked(p.content, terms[0]) then LinkTerms(p, terms[1..], find, maxChanges)
    else
      var p' := LinkTerm(p, terms[0], find, maxChanges);
      if p'.changes >= maxChanges then p' else LinkTerms(p', terms[1..], find, maxChanges)
  }

  // ----- the turns of the terms -----

  ghost predicate Stands(text: string, part: string) {
    exists i: nat :: Strings.At(text, i, part)
  }

  /**
   What one term does to a file with `at` as its matches: nothing if either
   bracketed form stands there or the budget is used up; otherwise its first
   matches, as many as the budget admits, and nothing else, become links.
   */
  ghost predicate Turn(p: Progress, q: Progress, t: Term, at: seq<int>, maxChanges: int) {
    if Stands(p.content, "[[" + t.word + "]]") || Stands(p.content, "[[" + t.target + "]]") || p.changes >= maxChanges then q == p
    else
      var k := Min(|at|, (maxChanges - p.changes + 1) / 2);
      && Spread(p.content, |t.word|, at) && q.changes == p.changes + k
      && p.content == Weave(Gaps(p.content, |t.word|, at, k), t.word)
      && q.content == Weave(Gaps(p.content, |t.word|, at, k), "[[" + t.target + "]]")
  }

  lemma LinkedStands(text: string, t: Term)
    ensures AlreadyLinked(text, t) <==> Stands(text, "[[" + t.word + "]]") || Stands(text, "[[" + t.target + "]]")
  {
    SameStands(text, "[[" + t.word + "]]");
    SameStands(text, "[[" + t.target + "]]");
    hide Includes, Stands;
  }

  lemma SameStands(text: string, part: string)
    ensures Includes(text, part) <==> Stands(text, part)
  {
    if i: nat :| Strings.At(text, i, part) {
      assert 0 <= i <= |text|;
    }
  }

  lemma LinkTermIsTurn(p: Progress, t: Term, find: (string, string) -> seq<int>, maxChanges: int)
    requires Occurrences(p.content, t.word, find(p.content, t.word)) && !AlreadyLinked(p.content, t)
    ensures Turn(p, LinkTerm(p, t, find, maxChanges), t, find(p.content, t.word), maxChanges)
  {
    var at := find(p.content, t.word);
    var k := Applied(|at|, maxChanges - p.changes);
    LinkedStands(p.content, t);
    OccurrencesSpread(p.content, t.word, at);
    OnlyOccurrencesChange(p.content, t.word, at, k, Link(t));
    NothingApplied(p.content, |t.word|, at, Link(t));
    hide AlreadyLinked, Stands, Weave, Gaps, Substituted, Occurrences, Spread;
  }

  lemma NoTurn(p: Progress, t: Term, at: seq<int>, maxChanges: int)
    requires AlreadyLinked(p.content, t) || p.changes >= maxChanges
    ensures Turn(p, p, t, at, maxChanges)
  {
    LinkedStands(p.content, t);
    hide AlreadyLinked, Stands, Weave, Gaps, Spread;
  }

  /** The states of the file before the first, between two and after the last term. */
  ghost predicate Turns(states: seq<Progress>, terms: seq<Term>, find: (string, string) -> seq<int>, maxChanges: int) {
    |states| == |terms| + 1
    && forall n :: 0 <= n < |terms| ==> Turn(states[n], states[n + 1], terms[n], find(states[n].content, terms[n].word), maxChanges)
  }

  lemma TurnsCons(p: Progress, states: seq<Progress>, t: Term, rest: seq<Term>, find: (string, string) -> seq<int>, maxChanges: int)
    requires Turns(states, rest, find, maxChanges)
    requires Turn(p, states[0], t, find(p.content, t.word), maxChanges)
    ensures Turns([p] + states, [t] + rest, find, maxChanges)
  {
    hide Turn;
    var all, terms := [p] + states, [t] + rest;
    forall n | 0 <= n < |terms|
      ensures Turn(all[n], all[n + 1], terms[n], find(all[n].content, terms[n].word), maxChanges)
    {
      if n > 0 {
        assert all[n] == states[n - 1] && all[n + 1] == states[n - 1 + 1] && terms[n] == rest[n - 1];
      }
    }
  }

  /** The loop over the terms, its early end included, lets each take its turn. */
  lemma {:induction false} TermsTakeTurns(p: Progress, terms: seq<Term>, find: (string, string) -> seq<int>, maxChanges: int)
    returns (states: seq<Progress>)
    requires Finds(find, terms)
    ensures Turns(states, terms, find, maxChanges) && states[0] == p
    ensures states[|terms|] == if p.changes >= maxChanges then p else LinkTerms(p, terms, find, maxChanges)
    decreases |terms|
  {
    hide Turn, AlreadyLinked, LinkTerm, Turns;
    if terms == [] {
      states := [p];
      NoTurns(p, find, maxChanges);
    } else {
      var t := terms[0];
      var q := if p.changes >= maxChanges || AlreadyLinked(p.content, t) then p else LinkTerm(p, t, find, maxChanges);
      if q == p && (p.changes >= maxChanges || AlreadyLinked(p.content, t)) {
        NoTurn(p, t, find(p.content, t.word), maxChanges);
      } else {
        LinkTermIsTurn(p, t, find, maxChanges);
      }
      var rest := TermsTakeTurns(q, terms[1..], find, maxChanges);
      TurnsSize(rest, terms[1..], find, maxChanges);
      TurnsCons(p, rest, t, terms[1..], find, maxChanges);
      states := [p] + rest;
      assert [t] + terms[1..] == terms;
    }
  }

  lemma NoTurns(p: Progress, find: (string, string) -> seq<int>, maxChanges: int)
    ensures Turns([p], [], find, maxChanges)
  {
  }

  lemma TurnsSize(states: seq<Progress>, terms: seq<Term>, find: (string, string) -> seq<int>, maxChanges: int)
    requires Turns(states, terms, find, maxChanges)
    ensures |states| == |terms| + 1
  {
  }

  lemma WeaveStands(pieces: seq<string>, x: string)
    requires |pieces| > 1
    ensures Stands(Weave(pieces, x), x)
  {
    var n := |pieces| - 1;
    var before := Weave(pieces[..n], x);
    var text := before + x + pieces[n];
    assert text[|before|..|before| + |x|] == x;
    assert Strings.At(text, |before|, x);
  }

  /** A turn that changes anything leaves the link in the file. */
  lemma ChangeLeavesLink(p: Progress, q: Progress, t: Term, at: seq<int>, maxChanges: int)
    requires Turn(p, q, t, at, maxChanges) && q.changes > p.changes
    ensures Stands(q.content, "[[" + t.target + "]]")
  {
    var k := Min(|at|, (maxChanges - p.changes + 1) / 2);
    WeaveStands(Gaps(p.content, |t.word|, at, k), "[[" + t.target + "]]");
  }

  /**
   A file and one term: left alone if either bracketed form stands in it, or
   without a match or budget; otherwise at least one link is written.
   */
  lemma OneTermFile(text: string, t: Term, find: (string, string) -> seq<int>, maxChanges: int)
    requires Finds(find, [t])
    ensures var q := LinkTerms(Progress(text, 0), [t], find, maxChanges);
      if Stands(text, "[[" + t.word + "]]") || Stands(text, "[[" + t.target + "]]") || find(text, t.word) == [] || maxChanges <= 0
      then q == Progress(text, 0)
      else q.changes == Min(|find(text, t.word)|, (maxChanges + 1) / 2) >= 1 && Stands(q.content, "[[" + t.target + "]]")
  {
    var p, at := Progress(text, 0), find(text, t.word);
    assert [t][1..] == [];
    LinkedStands(text, t);
    OccurrencesSpread(text, t.word, at);
    if !AlreadyLinked(text, t) {
      LinkTermIsTurn(p, t, find, maxChanges);
      var q := LinkTerm(p, t, find, maxChanges);
      if q.changes > 0 {
        ChangeLeavesLink(p, q, t, at, maxChanges);
      } else {
        NothingApplied(text, |t.word|, at, Link(t));
      }
    }
    hide AlreadyLinked, Stands, Turn, Weave, Substituted;
  }

  method LinkFile(text: string, terms: seq<Term>, find: (string, string) -> seq<int>, maxChanges: int)
    returns (content: string, changes: int, ghost states: seq<Progress>)
    requires Finds(find, terms)
    ensures Progress(content, changes) == LinkTerms(Progress(text, 0), terms, find, maxChanges)
    ensures Turns(states, terms, find, maxChanges) && states[0] == Progress(text, 0) && states[|terms|] == Progress(content, changes)
  {
    hide Turns;
    states := AllTurns(text, terms, find, maxChanges);
    content, changes := text, 0;
    for n := 0 to |terms|
      invariant LinkTerms(Progress(content, changes), terms[n..], find, maxChanges)
             == LinkTerms(Progress(text, 0), terms, find, maxChanges)
    {
      var t := terms[n];
      assert terms[n..][0] == t && terms[n..][1..] == terms[n + 1..];
      if AlreadyLinked(content, t) {
        continue;
      }
      content, changes := LinkOneTerm(content, changes, t, find, maxChanges);
      if changes >= maxChanges {
        return;
      }
    }
  }

  /** Without a budget nothing is changed, so the turns end where the loop does. */
  lemma AllTurns(text: string, terms: seq<Term>, find: (string, string) -> seq<int>, maxChanges: int) returns (states: seq<Progress>)
    requires Finds(find, terms)
    ensures Turns(states, terms, find, maxChanges) && |states| == |terms| + 1 && states[0] == Progress(text, 0)
    ensures states[|terms|] == LinkTerms(Progress(text, 0), terms, find, maxChanges)
  {
    states := TermsTakeTurns(Progress(text, 0), terms, find, maxChanges);
    if maxChanges <= 0 { NoBudget(Progress(text, 0), terms, find, maxChanges); }
  }

  lemma {:induction false} NoBudget(p: Progress, terms: seq<Term>, find: (string, string) -> seq<int>, maxChanges: int)
    requires Finds(find, terms) && p.changes >= maxChanges
    ensures LinkTerms(p, terms, find, maxChanges) == p
    decreases |terms|
  {
    if terms != [] {
      var at := find(p.content, terms[0].word);
      OccurrencesSpread(p.content, terms[0].word, at);
      NothingApplied(p.content, |terms[0].word|, at, Link(terms[0]));
      NoBudget(p, terms[1..], find, maxChanges);
      hide AlreadyLinked, Substituted;
    }
  }

  method LinkOneTerm(text: string, before: int, t: Term, find: (string, string) -> seq<int>, maxChanges: int)
    returns (content: string, changes: int)
    requires Occurrences(text, t.word, find(text, t.word))
    ensures Progress(content, changes) == LinkTerm(Progress(text, before), t, find, maxChanges)
  {
    hide Occurrences, Spread, Substituted, Applied, Shift;
    var at := find(text, t.word);
    var matches := new int[|at|](i requires 0 <= i < |at| => at[i]);
    assert matches[..] == at;
    ghost var positions;
    content, changes, positions := ApplyMatches(text, t.word, Link(t), matches, maxChanges, before);
  }

  /** A file never gets more changes than allowed, and none means the text is untouched. */
  lemma {:induction false} FileStaysWithinBudget(p: Progress, terms: seq<Term>, find: (string, string) -> seq<int>, maxChanges: int)
    requires Finds(find, terms) && p.changes <= maxChanges
    ensures var p' := LinkTerms(p, terms, find, maxChanges);
      p.changes <= p'.changes <= maxChanges && (p'.changes == p.changes ==> p'.content == p.content)
    decreases |terms|
  {
    if terms != [] {
      if AlreadyLinked(p.content, terms[0]) {
        FileStaysWithinBudget(p, terms[1..], find, maxChanges);
      } else {
        var at := find(p.content, terms[0].word);
        var k := Applied(|at|, maxChanges - p.changes);
        BudgetUsedExactlyWhen(|at|, maxChanges - p.changes);
        if k == 0 {
          NothingApplied(p.content, |terms[0].word|, at, Link(terms[0]));
        }
        var p' := LinkTerm(p, terms[0], find, maxChanges);
        if p'.changes < maxChanges {
          FileStaysWithinBudget(p', terms[1..], find, maxChanges);
        }
      }
    }
  }
}
