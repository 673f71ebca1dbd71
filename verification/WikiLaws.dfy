/**
 What counts as a link in a text, what is shown around it, what becomes of a
 title, and which reference each link leaves in the index.
 */
module WikiLaws {
  import opened Common
  import opened Strings
  import opened Wiki

  // ----- the form of a link -----

  predicate Free(s: string, a: char, b: char) {
    forall k :: 0 <= k < |s| ==> s[k] != a && s[k] != b
  }

  /** `[[target]]`, or `[[target|display]]`. */
  function Brackets(target: string, display: Option<string>): string {
    if display.Some? then "[[" + target + "|" + display.value + "]]" else "[[" + target + "]]"
  }

  /** Neither part is empty, neither holds a closing bracket, and the target no bar. */
  predicate WellFormed(target: string, display: Option<string>) {
    target != "" && Free(target, ']', '|') && (display.Some? ==> display.value != "" && Free(display.value, ']', ']'))
  }

  /** One link in a text, from `start` up to `end`. */
  datatype Span = Span(start: nat, end: nat, target: string, display: Option<string>)

  predicate LinkAt(s: string, x: Span) {
    x.start <= x.end <= |s| && WellFormed(x.target, x.display) && s[x.start..x.end] == Brackets(x.target, x.display)
  }

  lemma SliceOf(s: string, a: nat, b: nat, i: nat, j: nat)
    requires a <= b <= |s| && i <= j <= b - a
    ensures s[a..b][i..j] == s[a + i..a + j]
  {
    forall k | 0 <= k < j - i ensures s[a..b][i..j][k] == s[a + i..a + j][k] {
      assert s[a..b][i + k] == s[a + (i + k)];
    }
  }

  lemma BareBrackets(target: string)
    ensures var whole, e := Brackets(target, None), 2 + |target|;
      |whole| == e + 2 && whole[..2] == "[[" && whole[2..e] == target && whole[e] == ']' && whole[e..] == "]]"
  {
  }

  lemma PipedBrackets(target: string, display: string)
    ensures var whole, e, f := Brackets(target, Some(display)), 2 + |target|, 3 + |target| + |display|;
      |whole| == f + 2 && whole[..2] == "[[" && whole[2..e] == target && whole[e] == '|'
      && whole[e + 1..f] == display && (f < |whole| ==> whole[f] == ']') && whole[f..] == "]]"
  {
    var whole, e, f := Brackets(target, Some(display)), 2 + |target|, 3 + |target| + |display|;
    assert whole[e + 1..f] == display;
  }

  lemma SpanOf(s: string, i: nat, part: string, stop: char, other: char)
    requires i + |part| < |s| && s[i..i + |part|] == part && Free(part, stop, other)
    requires s[i + |part|] == stop || s[i + |part|] == other
    ensures SpanLength(s, i, stop, other) == |part|
  {
    forall k | i <= k < i + |part| ensures s[k] != stop && s[k] != other {
      assert s[k] == part[k - i];
    }
    SpanStops(s, i, |part|, stop, other);
  }

  lemma BareForm(s: string, x: Span)
    requires LinkAt(s, x) && x.display == None
    ensures var i, e := x.start, x.start + 2 + |x.target|;
      x.end == e + 2 && At(s, i, "[[") && s[i + 2..e] == x.target && s[e] == ']' && At(s, e, "]]")
  {
    BareBrackets(x.target);
    var i, n := x.start, |x.target|;
    SliceOf(s, i, x.end, 0, 2);
    SliceOf(s, i, x.end, 2, 2 + n);
    SliceOf(s, i, x.end, 2 + n, 4 + n);
    hide Brackets;
    assert s[i + 2 + n] == s[i..x.end][2 + n];
  }

  lemma BareLinkMatches(s: string, x: Span)
    requires LinkAt(s, x) && x.display == None
    ensures MatchAt(s, x.start) == Some(Match(x.target, None, x.end))
  {
    hide SpanLength, Brackets;
    BareForm(s, x);
    SpanOf(s, x.start + 2, x.target, ']', '|');
  }

  lemma PipedForm(s: string, x: Span)
    requires LinkAt(s, x) && x.display.Some?
    ensures var i, e, f := x.start, x.start + 2 + |x.target|, x.start + 3 + |x.target| + |x.display.value|;
      && x.end == f + 2 && At(s, i, "[[") && s[i + 2..e] == x.target && s[e] == '|'
      && s[e + 1..f] == x.display.value && s[f] == ']' && At(s, f, "]]")
  {
    PipedBrackets(x.target, x.display.value);
    var i, e, f := x.start, 2 + |x.target|, 3 + |x.target| + |x.display.value|;
    SliceOf(s, i, x.end, 0, 2);
    SliceOf(s, i, x.end, 2, e);
    SliceOf(s, i, x.end, e + 1, f);
    SliceOf(s, i, x.end, f, f + 2);
    hide Brackets;
    assert s[i + e] == s[i..x.end][e] && s[i + f] == s[i..x.end][f];
  }

  lemma PipedLinkMatches(s: string, x: Span)
    requires LinkAt(s, x) && x.display.Some?
    ensures MatchAt(s, x.start) == Some(Match(x.target, x.display, x.end))
  {
    hide SpanLength, Brackets, At;
    PipedForm(s, x);
    SpanOf(s, x.start + 2, x.target, ']', '|');
    SpanOf(s, x.start + 3 + |x.target|, x.display.value, ']', ']');
  }

  lemma PartsJoin(s: string, a: nat, b: nat, c: nat)
    requires a <= b <= c <= |s|
    ensures s[a..b] + s[b..c] == s[a..c]
  {
  }

  lemma BareJoins(s: string, i: nat, e: nat)
    requires i + 2 <= e && e + 2 <= |s| && At(s, i, "[[") && At(s, e, "]]")
    ensures s[i..e + 2] == Brackets(s[i + 2..e], None)
  {
    PartsJoin(s, i, i + 2, e);
    PartsJoin(s, i, e, e + 2);
  }

  lemma PipedJoins(s: string, i: nat, e: nat, f: nat)
    requires i + 2 <= e < f && f + 2 <= |s| && At(s, i, "[[") && s[e] == '|' && At(s, f, "]]")
    ensures s[i..f + 2] == Brackets(s[i + 2..e], Some(s[e + 1..f]))
  {
    FivePartsJoin(s, i, i + 2, e, e + 1, f, f + 2);
    OneCharacter(s, e);
    FormsBrackets(s[i..i + 2], s[i + 2..e], s[e..e + 1], s[e + 1..f], s[f..f + 2]);
    hide Brackets;
  }

  lemma OneCharacter(s: string, i: nat)
    requires i < |s|
    ensures s[i..i + 1] == [s[i]]
  {
  }

  lemma FormsBrackets(open: string, target: string, bar: string, display: string, close: string)
    requires open == "[[" && bar == ['|'] && close == "]]"
    ensures open + target + bar + display + close == Brackets(target, Some(display))
  {
    assert bar == "|";
  }

  lemma FivePartsJoin(s: string, a: nat, b: nat, c: nat, d: nat, e: nat, f: nat)
    requires a <= b <= c <= d <= e <= f <= |s|
    ensures s[a..b] + s[b..c] + s[c..d] + s[d..e] + s[e..f] == s[a..f]
  {
    PartsJoin(s, a, b, c);
    PartsJoin(s, a, c, d);
    PartsJoin(s, a, d, e);
    PartsJoin(s, a, e, f);
  }

  lemma SliceFree(s: string, a: nat, b: nat, c: char, d: char)
    requires a <= b <= |s| && forall k :: a <= k < b ==> s[k] != c && s[k] != d
    ensures Free(s[a..b], c, d)
  {
  }

  lemma MatchIsLink(s: string, i: nat)
    requires i <= |s| && MatchAt(s, i).Some?
    ensures var m := MatchAt(s, i).value; LinkAt(s, Span(i, m.end, m.target, m.text))
  {
    hide SpanLength, Brackets, At, Free;
    var e := i + 2 + SpanLength(s, i + 2, ']', '|');
    SliceFree(s, i + 2, e, ']', '|');
    if s[e] == '|' {
      var f := e + 1 + SpanLength(s, e + 1, ']', ']');
      SliceFree(s, e + 1, f, ']', ']');
      AtFits(s, f, "]]");
      PipedJoins(s, i, e, f);
    } else {
      AtFits(s, e, "]]");
      BareJoins(s, i, e);
    }
  }

  lemma AtFits(s: string, i: nat, part: string)
    ensures At(s, i, part) ==> i + |part| <= |s|
  {
  }

  /** The expression matches at a position exactly if a link stands there, and then this link. */
  lemma MatchesExactlyLinks(s: string, i: nat)
    requires i <= |s|
    ensures MatchAt(s, i).Some? ==> var m := MatchAt(s, i).value; LinkAt(s, Span(i, m.end, m.target, m.text))
    ensures forall x :: LinkAt(s, x) && x.start == i ==> MatchAt(s, i) == Some(Match(x.target, x.display, x.end))
  {
    if MatchAt(s, i).Some? { MatchIsLink(s, i); }
    forall x | LinkAt(s, x) && x.start == i ensures MatchAt(s, i) == Some(Match(x.target, x.display, x.end)) {
      if x.display.Some? { PipedLinkMatches(s, x); } else { BareLinkMatches(s, x); }
    }
    hide MatchAt, LinkAt;
  }

  // ----- the links of a text -----

  /** A link leads to its trimmed target, and shows its trimmed display text, or the target where that is blank. */
  predicate Reads(link: Link, x: Span) {
    link.to == Trim(x.target) && link.text == if x.display == None || Trim(x.display.value) == "" then Trim(x.target) else Trim(x.display.value)
  }

  predicate Covered(spans: seq<Span>, i: nat) {
    exists k :: 0 <= k < |spans| && spans[k].start <= i < spans[k].end
  }

  /** The spans are links of the text from `from` on, and read as `links`. */
  predicate AreLinks(s: string, from: nat, spans: seq<Span>, links: seq<Link>) {
    |links| == |spans|
    && forall k :: 0 <= k < |spans| ==> LinkAt(s, spans[k]) && from <= spans[k].start && Reads(links[k], spans[k])
  }

  /** They stand one after the other. */
  predicate Apart(spans: seq<Span>) {
    forall k, l :: 0 <= k < l < |spans| ==> spans[k].end <= spans[l].start
  }

  /** No link begins outside them. */
  ghost predicate Complete(s: string, from: nat, spans: seq<Span>) {
    forall x :: LinkAt(s, x) && from <= x.start ==> Covered(spans, x.start)
  }

  ghost predicate Found(s: string, from: nat, spans: seq<Span>, links: seq<Link>) {
    AreLinks(s, from, spans, links) && Apart(spans) && Complete(s, from, spans)
  }

  lemma LinksNext(s: string, x: Span, spans: seq<Span>, links: seq<Link>, link: Link)
    requires AreLinks(s, x.end, spans, links) && LinkAt(s, x) && Reads(link, x)
    ensures AreLinks(s, x.start, [x] + spans, [link] + links)
  {
    assert x.start <= x.end;
    hide LinkAt, Reads;
    var more, all := [x] + spans, [link] + links;
    forall k | 0 <= k < |more| ensures LinkAt(s, more[k]) && x.start <= more[k].start && Reads(all[k], more[k]) {
      if k > 0 {
        assert more[k] == spans[k - 1];
        assert all[k] == links[k - 1];
      }
    }
  }

  lemma LaterThan(s: string, from: nat, spans: seq<Span>, links: seq<Link>)
    requires AreLinks(s, from, spans, links)
    ensures forall k :: 0 <= k < |spans| ==> from <= spans[k].start
  {
    hide LinkAt, Reads;
  }

  lemma ApartNext(x: Span, spans: seq<Span>)
    requires Apart(spans) && forall k :: 0 <= k < |spans| ==> x.end <= spans[k].start
    ensures Apart([x] + spans)
  {
    var more := [x] + spans;
    forall k, l | 0 <= k < l < |more| ensures more[k].end <= more[l].start {
      assert more[l] == spans[l - 1];
      if k > 0 { assert more[k] == spans[k - 1]; }
    }
  }

  lemma CompleteNext(s: string, x: Span, spans: seq<Span>)
    requires Complete(s, x.end, spans)
    ensures Complete(s, x.start, [x] + spans)
  {
    hide LinkAt;
    var more := [x] + spans;
    forall y | LinkAt(s, y) && x.start <= y.start ensures Covered(more, y.start) {
      if y.start < x.end {
        assert more[0].start <= y.start < more[0].end;
      } else {
        assert Covered(spans, y.start);
        var k :| 0 <= k < |spans| && spans[k].start <= y.start < spans[k].end;
        assert more[k + 1].start <= y.start < more[k + 1].end;
      }
    }
  }

  lemma FoundSkip(s: string, from: nat, spans: seq<Span>, links: seq<Link>)
    requires Found(s, from + 1, spans, links) && forall x :: LinkAt(s, x) ==> x.start != from
    ensures Found(s, from, spans, links)
  {
    hide LinkAt, Reads, Covered;
  }

  lemma FoundEnd(s: string)
    ensures Found(s, |s|, [], [])
  {
    forall x | LinkAt(s, x) ensures x.start < |s| {
      assert |s[x.start..x.end]| >= 2;
    }
  }

  lemma MatchReads(m: Match, i: nat)
    ensures Reads(LinkOf(m), Span(i, m.end, m.target, m.text))
  {
    hide Trim;
  }

  lemma {:induction false} LinksFromAreFound(s: string, i: nat) returns (spans: seq<Span>)
    requires i <= |s|
    ensures Found(s, i, spans, LinksFrom(s, i))
    decreases |s| - i
  {
    hide MatchAt, LinkOf, AreLinks, Apart, Complete, Reads, LinkAt;
    if i == |s| {
      spans := [];
      FoundEnd(s);
    } else {
      MatchesExactlyLinks(s, i);
      if MatchAt(s, i).Some? {
        var m := MatchAt(s, i).value;
        var rest := LinksFromAreFound(s, m.end);
        MatchReads(m, i);
        LinksNext(s, Span(i, m.end, m.target, m.text), rest, LinksFrom(s, m.end), LinkOf(m));
        LaterThan(s, m.end, rest, LinksFrom(s, m.end));
        ApartNext(Span(i, m.end, m.target, m.text), rest);
        CompleteNext(s, Span(i, m.end, m.target, m.text), rest);
        spans := [Span(i, m.end, m.target, m.text)] + rest;
      } else {
        spans := LinksFromAreFound(s, i + 1);
        FoundSkip(s, i, spans, LinksFrom(s, i + 1));
      }
    }
  }

  /**
   For any text: the extracted links are the bracketed links in it, from left to
   right and without overlap, and every link that begins outside these is one of them.
   */
  lemma LinksAreTheBrackets(content: string)
    ensures exists spans :: Found(content, 0, spans, ExtractWikiLinks(content))
  {
    hide Found, LinksFrom;
    var spans := LinksFromAreFound(content, 0);
    assert Found(content, 0, spans, ExtractWikiLinks(content));
  }

  /** A text that is one link has just that link. */
  lemma OneLink(target: string, display: Option<string>)
    requires WellFormed(target, display)
    ensures ExtractWikiLinks(Brackets(target, display))
         == [Link(Trim(target), if display == None || Trim(display.value) == "" then Trim(target) else Trim(display.value))]
  {
    hide MatchAt, Trim;
    var s := Brackets(target, display);
    var x := Span(0, |s|, target, display);
    assert s[0..|s|] == s && LinkAt(s, x);
    MatchesExactlyLinks(s, 0);
    NoLinksAtEnd(s);
    var m := Match(target, display, |s|);
    assert MatchAt(s, 0) == Some(m) && |s| > 0;
    hide Brackets, LinkAt;
    assert LinksFrom(s, 0) == [LinkOf(m)] + [];
    hide LinksFrom;
    MatchReads(m, 0);
    var link := LinkOf(m);
    assert link == Link(link.to, link.text);
  }

  // ----- the context -----

  lemma AroundSlice(before: string, part: string, after: string, a: nat, b: nat)
    requires a <= |before| && b <= |after|
    ensures (before + part + after)[a..|before| + |part| + b] == before[a..] + part + after[..b]
  {
  }

  lemma Regroup(x: string, a: string, part: string, b: string, y: string)
    ensures x + (a + part + b) + y == (x + a) + part + (b + y)
  {
  }

  /** The text around the first occurrence, up to a hundred characters on each side, with dots where it is cut. */
  lemma ContextIsAround(before: string, linkText: string, after: string)
    requires forall i: nat :: i < |before| ==> !At(before + linkText + after, i, linkText)
    ensures ContextOf(before + linkText + after, linkText)
         == (if |before| > 100 then "..." + before[|before| - 100..] else before) + linkText
            + (if |after| > 100 then after[..100] + "..." else after)
  {
    var content := before + linkText + after;
    assert content[|before|..|before| + |linkText|] == linkText;
    assert At(content, |before|, linkText);
    hide FindFrom, At;
    FirstIsThere(content, linkText, |before|);
    var a, b := if |before| > 100 then |before| - 100 else 0, if |after| > 100 then 100 else |after|;
    var x, y := if |before| > 100 then "..." else "", if |after| > 100 then "..." else "";
    AroundSlice(before, linkText, after, a, b);
    Regroup(x, before[a..], linkText, after[..b], y);
    assert x + before[a..] == if |before| > 100 then "..." + before[|before| - 100..] else before;
    assert after[..b] + y == if |after| > 100 then after[..100] + "..." else after;
    assert ContextOf(content, linkText) == x + content[a..|before| + |linkText| + b] + y;
  }

  lemma FirstIsThere(content: string, part: string, i: nat)
    requires At(content, i, part) && forall j: nat :: j < i ==> !At(content, j, part)
    ensures FindFrom(content, part, 0) == Some(i)
  {
  }

  /** A text that does not occur has no context. */
  lemma NoContext(content: string, linkText: string)
    requires forall i: nat :: !At(content, i, linkText)
    ensures ContextOf(content, linkText) == ""
  {
    hide At;
  }

  // ----- titles -----

  predicate Word(s: string) {
    s != "" && forall k :: 0 <= k < |s| ==> IsAlnum(s[k])
  }

  predicate Junk(s: string) {
    forall k :: 0 <= k < |s| ==> !IsAlnum(s[k])
  }

  /** Words with something between each two of them. */
  function Mixed(words: seq<string>, gaps: seq<string>): string
    requires |gaps| == |words|
  {
    if words == [] then "" else
      var n := |words| - 1;
      Mixed(words[..n], gaps[..n]) + gaps[n] + words[n]
  }

  function Dashes(words: seq<string>): string {
    if words == [] then "" else
      var n := |words| - 1;
      Dashes(words[..n]) + (if n == 0 then "" else "-") + words[n]
  }

  lemma {:induction false} DashedWord(s: string, word: string)
    requires forall k :: 0 <= k < |word| ==> IsAlnum(word[k])
    ensures Dashed(s + word) == Dashed(s) + word
    decreases |word|
  {
    if word == "" {
      assert s + word == s && Dashed(s) + word == Dashed(s);
    } else {
      var n := |word| - 1;
      DashedWord(s, word[..n]);
      assert (s + word)[..|s| + n] == s + word[..n];
      assert word == word[..n] + [word[n]];
    }
  }

  /** A run of other characters after a word, or at the start, is one dash. */
  lemma {:induction false} DashedJunk(s: string, junk: string)
    requires junk != "" && Junk(junk) && (s == "" || IsAlnum(s[|s| - 1]))
    ensures Dashed(s + junk) == Dashed(s) + "-"
    decreases |junk|
  {
    var n := |junk| - 1;
    assert (s + junk)[..|s| + n] == s + junk[..n];
    if n == 0 {
      assert s + junk[..0] == s;
    } else {
      DashedJunk(s, junk[..n]);
    }
  }

  predicate Separated(words: seq<string>, gaps: seq<string>) {
    && |gaps| == |words|
    && (forall i :: 0 <= i < |words| ==> Word(words[i]) && Junk(gaps[i]))
    && (forall i :: 0 < i < |words| ==> gaps[i] != "")
  }

  lemma SeparatedFront(words: seq<string>, gaps: seq<string>)
    requires |gaps| == |words| && Separated(words, gaps) && words != []
    ensures var n := |words| - 1; Separated(words[..n], gaps[..n]) && Word(words[n]) && Junk(gaps[n]) && (n > 0 ==> gaps[n] != "")
  {
  }

  lemma MixedEnds(words: seq<string>, gaps: seq<string>)
    requires |gaps| == |words| && Separated(words, gaps) && words != []
    ensures Mixed(words, gaps) != "" && IsAlnum(Mixed(words, gaps)[|Mixed(words, gaps)| - 1])
  {
    SeparatedFront(words, gaps);
  }

  lemma DashedNext(before: string, gap: string, word: string)
    requires Junk(gap) && Word(word) && (before == "" || (gap != "" && IsAlnum(before[|before| - 1])))
    ensures Dashed(before + gap + word) == Dashed(before) + (if gap == "" then "" else "-") + word
  {
    DashedWord(before + gap, word);
    if gap != "" {
      DashedJunk(before, gap);
    } else {
      assert before + gap == before && Dashed(before) + "" == Dashed(before);
    }
    hide Dashed;
  }

  lemma {:induction false} DashedMixed(words: seq<string>, gaps: seq<string>)
    requires |gaps| == |words| && Separated(words, gaps)
    ensures Dashed(Mixed(words, gaps)) == (if words != [] && gaps[0] != "" then "-" else "") + Dashes(words)
    decreases |words|
  {
    hide Dashed, Separated;
    NothingDashed();
    if words != [] {
      var n := |words| - 1;
      SeparatedFront(words, gaps);
      DashedMixed(words[..n], gaps[..n]);
      var before, lead := Mixed(words[..n], gaps[..n]), if gaps[0] != "" then "-" else "";
      if n > 0 { MixedEnds(words[..n], gaps[..n]); }
      DashedNext(before, gaps[n], words[n]);
      hide Mixed;
      if n == 0 {
        assert Dashes(words[..0]) == "" && Dashed(before) == "";
        assert Dashes(words) == words[0];
      } else {
        assert (lead + Dashes(words[..n])) + "-" + words[n] == lead + (Dashes(words[..n]) + "-" + words[n]);
      }
    }
  }

  lemma NothingDashed()
    ensures Dashed("") == ""
  {
  }

  lemma {:induction false} DashesEnds(words: seq<string>)
    requires words != [] && forall i :: 0 <= i < |words| ==> Word(words[i])
    ensures Dashes(words) != "" && Dashes(words)[0] != '-' && Dashes(words)[|Dashes(words)| - 1] != '-'
    decreases |words|
  {
    var n := |words| - 1;
    assert Word(words[n]);
    assert IsAlnum(words[n][0]) && IsAlnum(words[n][|words[n]| - 1]);
    if n > 0 {
      DashesEnds(words[..n]);
    }
  }

  /** A lower-cased title becomes its words, the runs of letters and digits, with one dash between each two. */
  lemma SlugJoinsWords(words: seq<string>, gaps: seq<string>, tail: string)
    requires Separated(words, gaps) && Junk(tail)
    ensures SlugOf(Mixed(words, gaps) + tail) == Dashes(words)
  {
    var s := Mixed(words, gaps);
    DashedMixed(words, gaps);
    if words == [] {
      TailOnly(tail);
      assert s + tail == tail;
    } else {
      assert forall i :: 0 <= i < |words| ==> Word(words[i]);
      DashesEnds(words);
      MixedEnds(words, gaps);
      if tail != "" {
        DashedJunk(s, tail);
      } else {
        assert s + tail == s;
      }
      DropBoth(Dashes(words), if gaps[0] != "" then "-" else "", if tail != "" then "-" else "");
      assert (if gaps[0] != "" then "-" else "") + Dashes(words) + "" == (if gaps[0] != "" then "-" else "") + Dashes(words);
      hide Dashed, DropLeading, DropTrailing, Mixed, Dashes;
    }
  }

  lemma TailOnly(tail: string)
    requires Junk(tail)
    ensures SlugOf(tail) == ""
  {
    if tail != "" {
      assert "" + tail == tail;
      DashedJunk("", tail);
      assert "" + "-" == "-" && "-"[1..] == "";
    }
  }

  lemma DropLead(core: string, a: string)
    requires core != "" && core[0] != '-' && (a == "" || a == "-")
    ensures DropLeading(a + core) == core
  {
    if a == "-" {
      assert (a + core)[1..] == core;
    } else {
      assert a + core == core;
    }
  }

  lemma DropTrail(core: string, b: string)
    requires core != "" && core[|core| - 1] != '-' && (b == "" || b == "-")
    ensures DropTrailing(core + b) == core
  {
    if b == "-" {
      assert (core + b)[..|core|] == core;
    } else {
      assert core + b == core;
    }
  }

  lemma DropBoth(core: string, a: string, b: string)
    requires core != "" && core[0] != '-' && core[|core| - 1] != '-' && (a == "" || a == "-") && (b == "" || b == "-")
    ensures DropTrailing(DropLeading(a + core + b)) == core
  {
    assert a + core + b == a + (core + b);
    DropLead(core + b, a);
    DropTrail(core, b);
    hide DropLeading, DropTrailing;
  }

  // ----- the references in the index -----

  /** The `link`th link of the `doc`th document. */
  datatype Place = Place(doc: nat, link: nat)

  predicate Earlier(x: Place, y: Place) {
    x.doc < y.doc || (x.doc == y.doc && x.link < y.link)
  }

  predicate IsPlace(docs: seq<Doc>, x: Place) {
    x.doc < |docs| && x.link < |ExtractWikiLinks(docs[x.doc].content)|
  }

  predicate Leads(lower: string -> string, docs: seq<Doc>, slug: string, x: Place) {
    IsPlace(docs, x) && TitleToSlug(lower, ExtractWikiLinks(docs[x.doc].content)[x.link].to) == slug
  }

  /** The reference names the document by slug and title, and shows the context of the link's text in it. */
  predicate Refers(docs: seq<Doc>, x: Place, ref: Reference)
    requires IsPlace(docs, x)
  {
    var doc := docs[x.doc];
    ref.fromSlug == doc.slug && ref.fromTitle == doc.title && ref.context == ContextOf(doc.content, ExtractWikiLinks(doc.content)[x.link].text)
  }

  /** `refs` come from all links before `end` that lead to the slug, in order of document and link. */
  ghost predicate ComeFrom(lower: string -> string, docs: seq<Doc>, slug: string, end: Place, places: seq<Place>, refs: seq<Reference>) {
    && |places| == |refs|
    && (forall a, b :: 0 <= a < b < |places| ==> Earlier(places[a], places[b]))
    && (forall x :: x in places <==> Leads(lower, docs, slug, x) && Earlier(x, end))
    && (forall a :: 0 <= a < |places| ==> IsPlace(docs, places[a]) && Refers(docs, places[a], refs[a]))
  }

  lemma NextPlace(lower: string -> string, docs: seq<Doc>, slug: string, n: nat, m: nat, places: seq<Place>, refs: seq<Reference>, ref: Reference)
    requires IsPlace(docs, Place(n, m)) && ComeFrom(lower, docs, slug, Place(n, m), places, refs) && Refers(docs, Place(n, m), ref)
    ensures if Leads(lower, docs, slug, Place(n, m))
            then ComeFrom(lower, docs, slug, Place(n, m + 1), places + [Place(n, m)], refs + [ref])
            else ComeFrom(lower, docs, slug, Place(n, m + 1), places, refs)
  {
    hide TitleToSlug, ExtractWikiLinks, ContextOf;
    var here := Place(n, m);
    forall x ensures x in places + [here] <==> x in places || x == here {
    }
    forall x ensures Earlier(x, Place(n, m + 1)) <==> Earlier(x, here) || x == here {
    }
    forall a | 0 <= a < |places| ensures Earlier(places[a], here) {
      assert places[a] in places;
    }
    hide Leads, Refers, IsPlace;
  }

  lemma NextDocument(lower: string -> string, docs: seq<Doc>, slug: string, n: nat, places: seq<Place>, refs: seq<Reference>)
    requires n < |docs| && ComeFrom(lower, docs, slug, Place(n, |ExtractWikiLinks(docs[n].content)|), places, refs)
    ensures ComeFrom(lower, docs, slug, Place(n + 1, 0), places, refs)
  {
    hide TitleToSlug, ExtractWikiLinks, ContextOf;
    forall x ensures Leads(lower, docs, slug, x) && Earlier(x, Place(n + 1, 0))
      <==> Leads(lower, docs, slug, x) && Earlier(x, Place(n, |ExtractWikiLinks(docs[n].content)|)) {
    }
    hide Leads, Refers, IsPlace, Earlier;
  }

  lemma NoPlaces(lower: string -> string, docs: seq<Doc>, slug: string)
    ensures ComeFrom(lower, docs, slug, Place(0, 0), [], [])
  {
  }

  lemma ToNext(entries: seq<Entry>, e: Entry, slug: string)
    ensures To(entries + [e], slug) == if e.target == slug then To(entries, slug) + [e.ref] else To(entries, slug)
  {
    assert (entries + [e])[..|entries|] == entries;
  }

  lemma {:induction false} PlacesBefore(lower: string -> string, docs: seq<Doc>, slug: string, n: nat, m: nat) returns (places: seq<Place>)
    requires n < |docs| && m <= |ExtractWikiLinks(docs[n].content)|
    ensures var entries := AllEntries(lower, docs[..n]) + EntriesOf(lower, docs[n], ExtractWikiLinks(docs[n].content)[..m]);
      ComeFrom(lower, docs, slug, Place(n, m), places, To(entries, slug))
    decreases n, m + 1
  {
    hide TitleToSlug, ExtractWikiLinks, ContextOf, ComeFrom, To, AllEntries, EntriesOf;
    var before := AllEntries(lower, docs[..n]);
    var links := ExtractWikiLinks(docs[n].content);
    if m > 0 {
      places := PlacesBefore(lower, docs, slug, n, m - 1);
      OneMoreLink(lower, docs[n], links, m - 1, before);
      var ref := Reference(docs[n].slug, docs[n].title, ContextOf(docs[n].content, links[m - 1].text));
      var entries := before + EntriesOf(lower, docs[n], links[..m - 1]);
      ToNext(entries, Entry(TitleToSlug(lower, links[m - 1].to), ref), slug);
      NextPlace(lower, docs, slug, n, m - 1, places, To(entries, slug), ref);
      places := if Leads(lower, docs, slug, Place(n, m - 1)) then places + [Place(n, m - 1)] else places;
    } else {
      places := PlacesOfFront(lower, docs, slug, n);
      NoEntriesYet(lower, docs[n], before);
      assert links[..0] == [];
    }
  }

  lemma {:induction false} PlacesOfFront(lower: string -> string, docs: seq<Doc>, slug: string, n: nat) returns (places: seq<Place>)
    requires n <= |docs|
    ensures ComeFrom(lower, docs, slug, Place(n, 0), places, To(AllEntries(lower, docs[..n]), slug))
    decreases n, 0
  {
    hide TitleToSlug, ExtractWikiLinks, ContextOf, ComeFrom, EntriesOf;
    if n == 0 {
      places := [];
      NoPlaces(lower, docs, slug);
    } else {
      var links := ExtractWikiLinks(docs[n - 1].content);
      places := PlacesBefore(lower, docs, slug, n - 1, |links|);
      assert links[..|links|] == links && docs[..n][..n - 1] == docs[..n - 1];
      NextDocument(lower, docs, slug, n - 1, places, To(AllEntries(lower, docs[..n]), slug));
    }
  }

  /** The backlinks of a slug: one reference per link to it, in order, each naming its document and showing its context. */
  lemma BacklinksAreTheLinks(lower: string -> string, docs: seq<Doc>, backlinks: map<string, seq<Reference>>, slug: string)
    requires Represents(backlinks, AllEntries(lower, docs))
    ensures exists places :: ComeFrom(lower, docs, slug, Place(|docs|, 0), places, Lookup(backlinks, slug))
  {
    hide ComeFrom, AllEntries;
    assert docs[..|docs|] == docs;
    var places := PlacesOfFront(lower, docs, slug, |docs|);
    assert Lookup(backlinks, slug) == To(AllEntries(lower, docs), slug);
  }

  // ----- which pages can have backlinks at all -----

  /** `[[slug]]`, or a blank in brackets for the empty slug, is a link to the slug. */
  lemma SlugCanBeLinked(lower: string -> string, slug: string)
    requires KeepsSlugs(lower) && IsSlug(slug)
    ensures LinksTo(lower, Doc("index", "Index", "[[" + (if slug == "" then " " else slug) + "]]"), slug)
  {
    hide ExtractWikiLinks, TitleToSlug, KeepsSlugs, IsSlug, Trim;
    var target := if slug == "" then " " else slug;
    SlugIsTrimmed(slug);
    SlugsAreTheFixedPoints(lower, slug);
    OneLink(target, None);
    assert ExtractWikiLinks("[[" + target + "]]")[0].to == slug;
  }

  lemma SlugIsBare(slug: string)
    requires IsSlug(slug)
    ensures slug != "" ==> Bare(slug)
    ensures forall k :: 0 <= k < |slug| ==> slug[k] != ']' && slug[k] != '|'
  {
  }

  lemma SlugIsTrimmed(slug: string)
    requires IsSlug(slug)
    ensures Trim(if slug == "" then " " else slug) == slug
    ensures forall k :: 0 <= k < |slug| ==> slug[k] != ']' && slug[k] != '|'
  {
    hide Trim, Bare, IsSlug;
    SlugIsBare(slug);
    BlankTrims();
    if slug != "" {
      TrimBare(slug);
    }
  }

  /**
   A page can have backlinks at all exactly if its slug is one that titles convert
   to: pages in a directory, or with an upper-case letter in their name, never do.
   */
  lemma BacklinksPossibleExactlyWhen(lower: string -> string, slug: string)
    requires KeepsSlugs(lower)
    ensures (exists docs :: To(AllEntries(lower, docs), slug) != []) <==> IsSlug(slug)
  {
    hide AllEntries, IsSlug, LinksTo;
    if docs :| To(AllEntries(lower, docs), slug) != [] {
      TargetsAreSlugs(lower, docs, slug);
    }
    if IsSlug(slug) {
      SlugCanBeLinked(lower, slug);
      var doc := Doc("index", "Index", "[[" + (if slug == "" then " " else slug) + "]]");
      EntriesExactlyWhen(lower, [doc], slug);
      assert LinksTo(lower, [doc][0], slug);
    }
  }
}
