/**
 The wiki cross-reference index: outgoing links per document and backlinks per
 target slug, filled in one pass over the documents.
 */
module Wiki {
  import opened Common
  import opened Strings

  datatype Doc = Doc(slug: string, title: string, content: string)

  /** A link as extracted from a text: the page it names and its display text. */
  datatype Link = Link(to: string, text: string)

  datatype Reference = Reference(fromSlug: string, fromTitle: string, context: string)

  // ----- slugs -----

  predicate IsAlnum(c: char) {
    'a' <= c <= 'z' || '0' <= c <= '9'
  }

  /** Every run of other characters becomes one dash. */
  function Dashed(s: string): string {
    if s == "" then "" else
      var front, c := s[..|s| - 1], s[|s| - 1];
      if IsAlnum(c) then Dashed(front) + [c]
      else if front != "" && !IsAlnum(front[|front| - 1]) then Dashed(front)
      else Dashed(front) + "-"
  }

  function DropLeading(s: string): string {
    if s != "" && s[0] == '-' then DropLeading(s[1..]) else s
  }

  function DropTrailing(s: string): string {
    if s != "" && s[|s| - 1] == '-' then DropTrailing(s[..|s| - 1]) else s
  }

  function SlugOf(lowered: string): string {
    DropTrailing(DropLeading(Dashed(lowered)))
  }

  predicate SlugChars(s: string) {
    forall i :: 0 <= i < |s| ==> IsAlnum(s[i]) || s[i] == '-'
  }

  /** No two dashes in a row. */
  predicate SingleDashes(s: string) {
    SlugChars(s) && forall i :: 0 <= i < |s| - 1 ==> IsAlnum(s[i]) || IsAlnum(s[i + 1])
  }

  predicate IsSlug(s: string) {
    SingleDashes(s) && (s != "" ==> s[0] != '-' && s[|s| - 1] != '-')
  }

  lemma {:induction false} DashedSingle(s: string)
    ensures SingleDashes(Dashed(s))
    ensures s != "" ==> Dashed(s) != "" && (IsAlnum(s[|s| - 1]) <==> IsAlnum(Dashed(s)[|Dashed(s)| - 1]))
  {
    if s != "" {
      DashedSingle(s[..|s| - 1]);
    }
  }

  lemma {:induction false} DroppedSingle(s: string)
    requires SingleDashes(s)
    ensures SingleDashes(DropLeading(s)) && (DropLeading(s) != "" ==> DropLeading(s)[0] != '-')
    ensures SingleDashes(DropTrailing(s)) && DropTrailing(s) <= s
    ensures DropTrailing(s) != "" ==> DropTrailing(s)[|DropTrailing(s)| - 1] != '-'
  {
    if s != "" {
      assert SingleDashes(s[1..]) by {
        forall i | 0 <= i < |s| - 2 ensures IsAlnum(s[1..][i]) || IsAlnum(s[1..][i + 1]) {
          assert IsAlnum(s[i + 1]) || IsAlnum(s[i + 1 + 1]);
        }
      }
      DroppedSingle(s[1..]);
      DroppedSingle(s[..|s| - 1]);
    }
  }

  lemma SlugOfIsSlug(s: string)
    ensures IsSlug(SlugOf(s))
  {
    DashedSingle(s);
    DroppedSingle(Dashed(s));
    DroppedSingle(DropLeading(Dashed(s)));
  }

  lemma {:induction false} DashedKeeps(s: string)
    requires SingleDashes(s)
    ensures Dashed(s) == s
  {
    if s != "" {
      var front, c := s[..|s| - 1], s[|s| - 1];
      DashedKeeps(front);
      assert front + [c] == s;
      if !IsAlnum(c) && front != "" {
        assert IsAlnum(s[|s| - 2]);
      }
    }
  }

  /** Lower-casing as far as it matters: slugs are in lower case already. */
  ghost predicate KeepsSlugs(lower: string -> string) {
    forall s :: SlugChars(s) ==> lower(s) == s
  }

  function TitleToSlug(lower: string -> string, title: string): string {
    SlugOf(lower(title))
  }

  /** The result has no leading, trailing or doubled dash, and exactly such strings stay as they are. */
  lemma SlugsAreTheFixedPoints(lower: string -> string, title: string)
    requires KeepsSlugs(lower)
    ensures IsSlug(TitleToSlug(lower, title))
    ensures TitleToSlug(lower, title) == title <==> IsSlug(title)
    ensures TitleToSlug(lower, TitleToSlug(lower, title)) == TitleToSlug(lower, title)
  {
    SlugOfIsSlug(lower(title));
    var slug := TitleToSlug(lower, title);
    DashedKeeps(slug);
    assert lower(slug) == slug;
    if IsSlug(title) {
      DashedKeeps(title);
    }
  }

  // ----- links in a text -----

  /** How many characters from `i` on are none of the two. */
  function SpanLength(s: string, i: nat, stop: char, other: char): (n: nat)
    requires i <= |s|
    ensures i + n <= |s| && (i + n < |s| ==> s[i + n] == stop || s[i + n] == other)
    ensures forall k :: i <= k < i + n ==> s[k] != stop && s[k] != other
    decreases |s| - i
  {
    if i == |s| || s[i] == stop || s[i] == other then 0 else 1 + SpanLength(s, i + 1, stop, other)
  }

  datatype Match = Match(target: string, text: Option<string>, end: nat)

  /**
   `\[\[([^\]|]+)(?:\|([^\]]+))?\]\]` at position `i`. Both groups stop at a
   character they cannot contain, so there is nothing to backtrack to.
   */
  function MatchAt(s: string, i: nat): (m: Option<Match>)
    requires i <= |s|
    ensures m.Some? ==> i + 5 <= m.value.end <= |s|
  {
    if !At(s, i, "[[") then None else
      var target := SpanLength(s, i + 2, ']', '|');
      var e := i + 2 + target;
      if target == 0 || e == |s| then None
      else if s[e] == '|' then
        var text := SpanLength(s, e + 1, ']', ']');
        if text > 0 && At(s, e + 1 + text, "]]")
        then Some(Match(s[i + 2..e], Some(s[e + 1..e + 1 + text]), e + 1 + text + 2))
        else None
      else if At(s, e, "]]") then Some(Match(s[i + 2..e], None, e + 2))
      else None
  }

  /** An empty display text falls back to the target. */
  function LinkOf(m: Match): Link {
    var target := Trim(m.target);
    var text := if m.text.Some? then Trim(m.text.value) else "";
    Link(target, if text != "" then text else target)
  }

  function LinksFrom(s: string, i: nat): seq<Link>
    requires i <= |s|
    decreases |s| - i
  {
    if i == |s| then [] else
      var m := MatchAt(s, i);
      if m.Some? then [LinkOf(m.value)] + LinksFrom(s, m.value.end) else LinksFrom(s, i + 1)
  }

  function ExtractWikiLinks(content: string): seq<Link> {
    LinksFrom(content, 0)
  }

  lemma LinksStep(s: string, i: nat, links: seq<Link>)
    requires i < |s|
    ensures links + LinksFrom(s, i) == var m := MatchAt(s, i);
      if m.Some? then links + [LinkOf(m.value)] + LinksFrom(s, m.value.end) else links + LinksFrom(s, i + 1)
  {
    hide MatchAt, LinkOf;
    var m := MatchAt(s, i);
    if m.Some? {
      assert links + ([LinkOf(m.value)] + LinksFrom(s, m.value.end)) == links + [LinkOf(m.value)] + LinksFrom(s, m.value.end);
    }
  }

  /** The global regular expression, match by match. */
  method ScanWikiLinks(content: string) returns (links: seq<Link>)
    ensures links == ExtractWikiLinks(content)
  {
    hide MatchAt, LinkOf, LinksFrom;
    links := [];
    var i := 0;
    NoLinksAtEnd(content);
    while i < |content|
      invariant i <= |content|
      invariant links + LinksFrom(content, i) == ExtractWikiLinks(content)
    {
      LinksStep(content, i, links);
      var m := MatchAt(content, i);
      if m.Some? {
        links := links + [LinkOf(m.value)];
        i := m.value.end;
      } else {
        i := i + 1;
      }
    }
  }

  lemma NoLinksAtEnd(s: string)
    ensures LinksFrom(s, |s|) == []
  {
  }

  // ----- the context of a link -----

  const CONTEXT_LENGTH: nat := 100

  function ContextOf(content: string, linkText: string): string {
    var at := FindFrom(content, linkText, 0);
    if at == None then "" else
      var start := if at.value > CONTEXT_LENGTH then at.value - CONTEXT_LENGTH else 0;
      var full := at.value + |linkText| + CONTEXT_LENGTH;
      var end := if full < |content| then full else |content|;
      (if start > 0 then "..." else "") + content[start..end] + (if end < |content| then "..." else "")
  }

  // ----- the index -----

  /** One link of one document, under the slug it points to. */
  datatype Entry = Entry(target: string, ref: Reference)

  function EntriesOf(lower: string -> string, doc: Doc, links: seq<Link>): (r: seq<Entry>)
    ensures |r| == |links|
  {
    if links == [] then [] else
      var n := |links| - 1;
      EntriesOf(lower, doc, links[..n])
      + [Entry(TitleToSlug(lower, links[n].to), Reference(doc.slug, doc.title, ContextOf(doc.content, links[n].text)))]
  }

  /** All links of all documents, in document order. */
  function AllEntries(lower: string -> string, docs: seq<Doc>): seq<Entry> {
    if docs == [] then [] else
      var n := |docs| - 1;
      AllEntries(lower, docs[..n]) + EntriesOf(lower, docs[n], ExtractWikiLinks(docs[n].content))
  }

  /** The references of the entries with a given target, in order. */
  function To(entries: seq<Entry>, slug: string): seq<Reference> {
    if entries == [] then [] else
      var e := entries[|entries| - 1];
      var before := To(entries[..|entries| - 1], slug);
      if e.target == slug then before + [e.ref] else before
  }

  function Lookup<T>(index: map<string, seq<T>>, slug: string): seq<T> {
    if slug in index then index[slug] else []
  }

  ghost predicate Represents(backlinks: map<string, seq<Reference>>, entries: seq<Entry>) {
    forall slug :: Lookup(backlinks, slug) == To(entries, slug) && (slug in backlinks <==> To(entries, slug) != [])
  }

  function LinksOf(docs: seq<Doc>): map<string, seq<Link>> {
    if docs == [] then map[] else
      var n := |docs| - 1;
      LinksOf(docs[..n])[docs[n].slug := ExtractWikiLinks(docs[n].content)]
  }

  class WikiProcessor {
    const lower: string -> string
    var backlinks: map<string, seq<Reference>>
    var wikiLinks: map<string, seq<Link>>

    constructor (lower: string -> string)
      ensures this.lower == lower
    {
      this.lower := lower;
      backlinks, wikiLinks := map[], map[];
    }

    /** With distinct slugs, the backlinks are the outgoing links read backwards. */
    method ProcessDocuments(docs: seq<Doc>)
      modifies this
      ensures Represents(backlinks, AllEntries(lower, docs)) && wikiLinks == LinksOf(docs)
      ensures DistinctSlugs(docs) ==>
        && (forall i :: 0 <= i < |docs| ==> GetOutgoingLinks(docs[i].slug) == ExtractWikiLinks(docs[i].content))
        && (forall slug :: GetBacklinks(slug) == Inverse(lower, wikiLinks, docs, slug))
    {
      hide ExtractWikiLinks, EntriesOf, To;
      backlinks, wikiLinks := map[], map[];
      NothingRecorded();
      for i := 0 to |docs|
        invariant Represents(backlinks, AllEntries(lower, docs[..i]))
        invariant wikiLinks == LinksOf(docs[..i])
      {
        var doc := docs[i];
        var links := ScanWikiLinks(doc.content);
        wikiLinks := wikiLinks[doc.slug := links];
        ghost var before := AllEntries(lower, docs[..i]);
        RecordLinks(doc, links, before);
        assert docs[..i + 1][..i] == docs[..i];
      }
      assert docs[..|docs|] == docs;
      hide AllEntries, LinksOf, Represents, Inverse;
      if DistinctSlugs(docs) {
        forall i | 0 <= i < |docs| ensures GetOutgoingLinks(docs[i].slug) == ExtractWikiLinks(docs[i].content) {
          OutgoingOf(docs, i);
        }
        forall slug ensures GetBacklinks(slug) == Inverse(lower, wikiLinks, docs, slug) {
          BacklinksInvertOutgoing(lower, docs, backlinks, slug);
        }
      }
    }

    method RecordLinks(doc: Doc, links: seq<Link>, ghost before: seq<Entry>)
      requires Represents(backlinks, before)
      modifies this`backlinks
      ensures Represents(backlinks, before + EntriesOf(lower, doc, links))
    {
      hide TitleToSlug, ContextOf, To, EntriesOf, Represents;
      NoEntriesYet(lower, doc, before);
      for j := 0 to |links|
        invariant Represents(backlinks, before + EntriesOf(lower, doc, links[..j]))
      {
        var link := links[j];
        var target := TitleToSlug(lower, link.to);
        ghost var entries := before + EntriesOf(lower, doc, links[..j]);
        ghost var earlier := backlinks;
        if target !in backlinks {
          backlinks := backlinks[target := []];
        }
        var ref := Reference(doc.slug, doc.title, ContextOf(doc.content, link.text));
        backlinks := backlinks[target := backlinks[target] + [ref]];
        OneMoreEntry(earlier, entries, target, ref, backlinks);
        OneMoreLink(lower, doc, links, j, before);
      }
      assert links[..|links|] == links;
    }

    function GetBacklinks(slug: string): seq<Reference>
      reads this
    {
      Lookup(backlinks, slug)
    }

    function GetOutgoingLinks(slug: string): seq<Link>
      reads this
    {
      Lookup(wikiLinks, slug)
    }
  }

  lemma NoEntriesYet(lower: string -> string, doc: Doc, before: seq<Entry>)
    ensures before + EntriesOf(lower, doc, []) == before
  {
  }

  lemma OneMoreLink(lower: string -> string, doc: Doc, links: seq<Link>, j: nat, before: seq<Entry>)
    requires j < |links|
    ensures before + EntriesOf(lower, doc, links[..j + 1])
         == before + EntriesOf(lower, doc, links[..j])
            + [Entry(TitleToSlug(lower, links[j].to), Reference(doc.slug, doc.title, ContextOf(doc.content, links[j].text)))]
  {
    hide TitleToSlug, ContextOf;
    assert links[..j + 1][..j] == links[..j];
  }

  lemma NothingRecorded()
    ensures Represents(map[], [])
  {
  }

  lemma OneMoreEntry(before: map<string, seq<Reference>>, entries: seq<Entry>, target: string, ref: Reference,
                     after: map<string, seq<Reference>>)
    requires Represents(before, entries)
    requires after == before[target := Lookup(before, target) + [ref]]
    ensures Represents(after, entries + [Entry(target, ref)])
  {
    var longer := entries + [Entry(target, ref)];
    assert longer[..|entries|] == entries;
  }

  // ----- the two indexes are inverse -----

  predicate DistinctSlugs(docs: seq<Doc>) {
    forall i, j :: 0 <= i < j < |docs| ==> docs[i].slug != docs[j].slug
  }

  lemma {:induction false} OutgoingOf(docs: seq<Doc>, i: nat)
    requires DistinctSlugs(docs) && i < |docs|
    ensures Lookup(LinksOf(docs), docs[i].slug) == ExtractWikiLinks(docs[i].content)
  {
    if i < |docs| - 1 {
      OutgoingOf(docs[..|docs| - 1], i);
    }
  }

  /** The backlinks of a slug read off the outgoing index: documents in order, links in order. */
  function Inverse(lower: string -> string, wikiLinks: map<string, seq<Link>>, docs: seq<Doc>, slug: string): seq<Reference> {
    if docs == [] then [] else
      var n := |docs| - 1;
      Inverse(lower, wikiLinks, docs[..n], slug) + To(EntriesOf(lower, docs[n], Lookup(wikiLinks, docs[n].slug)), slug)
  }

  lemma {:induction false} ToAppend(a: seq<Entry>, b: seq<Entry>, slug: string)
    ensures To(a + b, slug) == To(a, slug) + To(b, slug)
  {
    if b == [] {
      assert a + b == a;
    } else {
      assert (a + b)[..|a + b| - 1] == a + b[..|b| - 1];
      ToAppend(a, b[..|b| - 1], slug);
    }
  }

  lemma {:induction false} InverseOfPrefix(lower: string -> string, docs: seq<Doc>, n: nat, slug: string)
    requires DistinctSlugs(docs) && n <= |docs|
    ensures To(AllEntries(lower, docs[..n]), slug) == Inverse(lower, LinksOf(docs), docs[..n], slug)
    decreases n
  {
    if n > 0 {
      var k := n - 1;
      assert docs[..n][..k] == docs[..k] && docs[..n][k] == docs[k];
      InverseOfPrefix(lower, docs, k, slug);
      OutgoingOf(docs, k);
      ToAppend(AllEntries(lower, docs[..k]), EntriesOf(lower, docs[k], ExtractWikiLinks(docs[k].content)), slug);
    }
  }

  /** With distinct slugs, `getBacklinks(s)` has exactly one entry per outgoing link whose slug is `s`, in order. */
  lemma BacklinksInvertOutgoing(lower: string -> string, docs: seq<Doc>,
                                backlinks: map<string, seq<Reference>>, slug: string)
    requires DistinctSlugs(docs) && Represents(backlinks, AllEntries(lower, docs))
    ensures Lookup(backlinks, slug) == Inverse(lower, LinksOf(docs), docs, slug)
  {
    assert docs[..|docs|] == docs;
    InverseOfPrefix(lower, docs, |docs|, slug);
  }

  function Total<T>(index: map<string, seq<T>>, keys: seq<string>): nat {
    if keys == [] then 0 else |Lookup(index, keys[0])| + Total(index, keys[1..])
  }

  function SumTo(entries: seq<Entry>, keys: seq<string>): nat {
    if keys == [] then 0 else |To(entries, keys[0])| + SumTo(entries, keys[1..])
  }

  lemma {:induction false} SumOneMore(entries: seq<Entry>, e: Entry, keys: seq<string>)
    requires Distinct(keys)
    ensures SumTo(entries + [e], keys) == SumTo(entries, keys) + if e.target in keys then 1 else 0
    decreases |keys|
  {
    assert (entries + [e])[..|entries|] == entries;
    if keys != [] {
      SumOneMore(entries, e, keys[1..]);
    }
  }

  lemma {:induction false} SumToAll(entries: seq<Entry>, keys: seq<string>)
    requires Distinct(keys) && forall i :: 0 <= i < |entries| ==> entries[i].target in keys
    ensures SumTo(entries, keys) == |entries|
    decreases |entries|
  {
    if entries == [] {
      SumToNone(keys);
    } else {
      var n := |entries| - 1;
      assert entries == entries[..n] + [entries[n]];
      SumToAll(entries[..n], keys);
      SumOneMore(entries[..n], entries[n], keys);
    }
  }

  lemma {:induction false} SumToNone(keys: seq<string>)
    ensures SumTo([], keys) == 0
  {
    if keys != [] { SumToNone(keys[1..]); }
  }

  lemma {:induction false} TotalIsSum(backlinks: map<string, seq<Reference>>, entries: seq<Entry>, keys: seq<string>)
    requires Represents(backlinks, entries)
    ensures Total(backlinks, keys) == SumTo(entries, keys)
  {
    if keys != [] { TotalIsSum(backlinks, entries, keys[1..]); }
  }

  lemma {:induction false} TargetsAreListed(entries: seq<Entry>, i: nat)
    requires i < |entries|
    ensures To(entries, entries[i].target) != []
    decreases |entries|
  {
    if i < |entries| - 1 {
      TargetsAreListed(entries[..|entries| - 1], i);
    }
  }

  function SlugsOf(docs: seq<Doc>): (r: seq<string>)
    ensures |r| == |docs| && forall i :: 0 <= i < |docs| ==> r[i] == docs[i].slug
  {
    if docs == [] then [] else [docs[0].slug] + SlugsOf(docs[1..])
  }

  function LinkCount(docs: seq<Doc>): nat {
    if docs == [] then 0 else |ExtractWikiLinks(docs[0].content)| + LinkCount(docs[1..])
  }

  lemma {:induction false} LinkCountEnd(docs: seq<Doc>)
    requires docs != []
    ensures var n := |docs| - 1; LinkCount(docs) == LinkCount(docs[..n]) + |ExtractWikiLinks(docs[n].content)|
  {
    hide ExtractWikiLinks;
    var n := |docs| - 1;
    if n == 0 {
      assert docs[1..] == [] && docs[..0] == [];
    } else {
      LinkCountEnd(docs[1..]);
      assert docs[1..][..n - 1] == docs[..n][1..];
    }
  }

  lemma {:induction false} EntryTotal(lower: string -> string, docs: seq<Doc>)
    ensures |AllEntries(lower, docs)| == LinkCount(docs)
    decreases |docs|
  {
    hide ExtractWikiLinks, EntriesOf, LinkCount;
    if docs == [] {
      NoLinks();
    } else {
      EntryTotal(lower, docs[..|docs| - 1]);
      LinkCountEnd(docs);
    }
  }

  lemma NoLinks()
    ensures LinkCount([]) == 0
  {
  }

  lemma {:induction false} OutgoingTotal(wikiLinks: map<string, seq<Link>>, docs: seq<Doc>)
    requires forall i :: 0 <= i < |docs| ==> Lookup(wikiLinks, docs[i].slug) == ExtractWikiLinks(docs[i].content)
    ensures Total(wikiLinks, SlugsOf(docs)) == LinkCount(docs)
  {
    hide ExtractWikiLinks, Lookup;
    if docs != [] {
      assert SlugsOf(docs)[0] == docs[0].slug && SlugsOf(docs)[1..] == SlugsOf(docs[1..]);
      OutgoingTotal(wikiLinks, docs[1..]);
    }
  }

  /** Both indexes hold equally many links, however their keys are listed. */
  lemma BothIndexesHaveEqualSize(lower: string -> string, docs: seq<Doc>,
                                 backlinks: map<string, seq<Reference>>, keys: seq<string>)
    requires DistinctSlugs(docs) && Represents(backlinks, AllEntries(lower, docs))
    requires Distinct(keys) && Elements(keys) == backlinks.Keys
    ensures Total(backlinks, keys) == Total(LinksOf(docs), SlugsOf(docs))
  {
    var entries := AllEntries(lower, docs);
    forall i | 0 <= i < |entries| ensures entries[i].target in keys {
      TargetsAreListed(entries, i);
      assert entries[i].target in Elements(keys);
    }
    SumToAll(entries, keys);
    TotalIsSum(backlinks, entries, keys);
    EntryTotal(lower, docs);
    forall i | 0 <= i < |docs| ensures Lookup(LinksOf(docs), docs[i].slug) == ExtractWikiLinks(docs[i].content) {
      OutgoingOf(docs, i);
    }
    OutgoingTotal(LinksOf(docs), docs);
    hide AllEntries, To, ExtractWikiLinks, LinksOf;
  }

  // ----- which pages can have backlinks at all -----

  lemma {:induction false} EntryTargetsAreSlugs(lower: string -> string, doc: Doc, links: seq<Link>, slug: string)
    requires To(EntriesOf(lower, doc, links), slug) != []
    ensures IsSlug(slug)
    decreases |links|
  {
    var n := |links| - 1;
    SlugOfIsSlug(lower(links[n].to));
    assert EntriesOf(lower, doc, links)[..n] == EntriesOf(lower, doc, links[..n]);
    if TitleToSlug(lower, links[n].to) != slug {
      EntryTargetsAreSlugs(lower, doc, links[..n], slug);
    }
  }

  lemma {:induction false} TargetsAreSlugs(lower: string -> string, docs: seq<Doc>, slug: string)
    requires To(AllEntries(lower, docs), slug) != []
    ensures IsSlug(slug)
    decreases |docs|
  {
    var n := |docs| - 1;
    ToAppend(AllEntries(lower, docs[..n]), EntriesOf(lower, docs[n], ExtractWikiLinks(docs[n].content)), slug);
    if To(AllEntries(lower, docs[..n]), slug) != [] {
      TargetsAreSlugs(lower, docs[..n], slug);
    } else {
      EntryTargetsAreSlugs(lower, docs[n], ExtractWikiLinks(docs[n].content), slug);
    }
  }

  lemma {:induction false} EntryExactlyWhen(lower: string -> string, doc: Doc, links: seq<Link>, slug: string)
    ensures To(EntriesOf(lower, doc, links), slug) != []
       <==> exists k :: 0 <= k < |links| && TitleToSlug(lower, links[k].to) == slug
    decreases |links|
  {
    hide TitleToSlug, ContextOf;
    if links != [] {
      var n := |links| - 1;
      EntryExactlyWhen(lower, doc, links[..n], slug);
      assert EntriesOf(lower, doc, links)[..n] == EntriesOf(lower, doc, links[..n]);
      if k :| 0 <= k < |links| && TitleToSlug(lower, links[k].to) == slug {
        if k < n { assert links[..n][k] == links[k]; }
      }
      if k :| 0 <= k < n && TitleToSlug(lower, links[..n][k].to) == slug {
        assert links[k] == links[..n][k];
      }
    }
  }

  /** Some link of the document leads to the slug. */
  predicate LinksTo(lower: string -> string, doc: Doc, slug: string) {
    var links := ExtractWikiLinks(doc.content);
    exists k :: 0 <= k < |links| && TitleToSlug(lower, links[k].to) == slug
  }

  lemma {:induction false} EntriesExactlyWhen(lower: string -> string, docs: seq<Doc>, slug: string)
    ensures To(AllEntries(lower, docs), slug) != [] <==> exists i :: 0 <= i < |docs| && LinksTo(lower, docs[i], slug)
    decreases |docs|
  {
    hide LinksTo, EntriesOf, To;
    if docs == [] {
      assert To([], slug) == [] by { NoEntries(slug); }
    } else {
      var n := |docs| - 1;
      ToAppend(AllEntries(lower, docs[..n]), EntriesOf(lower, docs[n], ExtractWikiLinks(docs[n].content)), slug);
      EntriesExactlyWhen(lower, docs[..n], slug);
      LinksToMeans(lower, docs[n], slug);
      if i :| 0 <= i < |docs| && LinksTo(lower, docs[i], slug) {
        if i < n { assert docs[..n][i] == docs[i]; }
      }
      if i :| 0 <= i < n && LinksTo(lower, docs[..n][i], slug) {
        assert docs[i] == docs[..n][i];
      }
    }
  }

  lemma NoEntries(slug: string)
    ensures To([], slug) == []
  {
  }

  lemma LinksToMeans(lower: string -> string, doc: Doc, slug: string)
    ensures To(EntriesOf(lower, doc, ExtractWikiLinks(doc.content)), slug) != [] <==> LinksTo(lower, doc, slug)
  {
    EntryExactlyWhen(lower, doc, ExtractWikiLinks(doc.content), slug);
  }

  /** A slug has backlinks exactly when the title of some document's link converts to it. */
  lemma BacklinksExactlyWhen(lower: string -> string, docs: seq<Doc>, backlinks: map<string, seq<Reference>>, slug: string)
    requires Represents(backlinks, AllEntries(lower, docs))
    ensures Lookup(backlinks, slug) != [] <==> exists i :: 0 <= i < |docs| && LinksTo(lower, docs[i], slug)
  {
    hide LinksTo, AllEntries;
    EntriesExactlyWhen(lower, docs, slug);
  }

  lemma SpanStops(s: string, i: nat, n: nat, stop: char, other: char)
    requires i + n < |s| && (s[i + n] == stop || s[i + n] == other)
    requires forall k :: i <= k < i + n ==> s[k] != stop && s[k] != other
    ensures SpanLength(s, i, stop, other) == n
  {
  }
}
