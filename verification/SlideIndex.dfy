/**
 The slide store: one markdown file per slide and an index listing the slides in
 display order. New slides get an id that is not yet in the index.
 */
module SlideIndex {
  import Decimal
  import Wiki
  import Editor = SlideEditor

  datatype Meta = Meta(id: string, file: string, title: string, duration: int, tags: seq<string>, description: string)

  datatype Page = Page(id: string, file: string, slide: Editor.Slide)

  function MetaOf(p: Page): Meta {
    Meta(p.id, p.file, p.slide.title, p.slide.duration, p.slide.tags, p.slide.description)
  }

  function PathOf(id: string): string {
    id + ".md"
  }

  // ----- ids -----

  /** `replace(/^-|-$/g, '')` */
  function StripOne(s: string): string {
    var t := if s != "" && s[0] == '-' then s[1..] else s;
    if t != "" && t[|t| - 1] == '-' then t[..|t| - 1] else t
  }

  lemma OneLeadingDash(d: string)
    requires Wiki.SingleDashes(d)
    ensures Wiki.DropLeading(d) == if d != "" && d[0] == '-' then d[1..] else d
  {
    if |d| > 1 && d[0] == '-' {
      assert d[1..][0] == d[0 + 1];
    }
  }

  lemma OneTrailingDash(d: string)
    requires Wiki.SingleDashes(d)
    ensures Wiki.DropTrailing(d) == if d != "" && d[|d| - 1] == '-' then d[..|d| - 1] else d
  {
    if |d| > 1 && d[|d| - 1] == '-' {
      var i := |d| - 2;
      assert Wiki.IsAlnum(d[i]);
      assert d[..|d| - 1][i] == d[i];
    }
  }

  /** Stripping one dash at each end is enough: the id is the slug the wiki would build. */
  lemma IdIsSlug(lowered: string)
    ensures StripOne(Wiki.Dashed(lowered)) == Wiki.SlugOf(lowered)
  {
    hide Wiki.Dashed, Wiki.DropLeading, Wiki.DropTrailing, Wiki.SingleDashes;
    var d := Wiki.Dashed(lowered);
    Wiki.DashedSingle(lowered);
    Wiki.DroppedSingle(d);
    OneLeadingDash(d);
    OneTrailingDash(Wiki.DropLeading(d));
  }

  /** The id tried after `k` collisions. */
  function Candidate(id: string, k: nat): string {
    if k == 0 then id else id + "-" + Decimal.Digits(k)
  }

  lemma CandidatesDiffer(id: string, j: nat, k: nat)
    requires j < k
    ensures Candidate(id, j) != Candidate(id, k)
  {
    if j > 0 && Candidate(id, j) == Candidate(id, k) {
      assert Candidate(id, j)[|id| + 1..] == Decimal.Digits(j);
      assert Candidate(id, k)[|id| + 1..] == Decimal.Digits(k);
      Decimal.DigitsInjective(j, k);
      assert false;
    }
  }

  predicate InIndex(slides: seq<Meta>, id: string) {
    exists i :: 0 <= i < |slides| && slides[i].id == id
  }

  ghost function Ids(slides: seq<Meta>): set<string> {
    set i | 0 <= i < |slides| :: slides[i].id
  }

  lemma {:induction false} FewIds(slides: seq<Meta>)
    ensures |Ids(slides)| <= |slides|
  {
    if slides != [] {
      var n := |slides| - 1;
      FewIds(slides[..n]);
      assert Ids(slides) == Ids(slides[..n]) + {slides[n].id};
    }
  }

  ghost function Tried(id: string, n: nat): set<string> {
    set k: nat | k < n :: Candidate(id, k)
  }

  lemma {:induction false} TriedSize(id: string, n: nat)
    ensures |Tried(id, n)| == n
  {
    hide Candidate;
    if n > 0 {
      TriedSize(id, n - 1);
      forall k: nat | k < n - 1 ensures Candidate(id, k) != Candidate(id, n - 1) {
        CandidatesDiffer(id, k, n - 1);
      }
      assert Tried(id, n) == Tried(id, n - 1) + {Candidate(id, n - 1)};
    }
  }

  /** Pigeonhole: colliding `n` times in a row takes `n` slides. */
  lemma CollisionsAreFew(slides: seq<Meta>, id: string, n: nat)
    requires forall k: nat :: k < n ==> InIndex(slides, Candidate(id, k))
    ensures n <= |slides|
  {
    hide Candidate;
    TriedSize(id, n);
    FewIds(slides);
    assert Tried(id, n) <= Ids(slides);
    SubsetSize(Tried(id, n), Ids(slides));
  }

  lemma {:induction false} SubsetSize(a: set<string>, b: set<string>)
    requires a <= b
    ensures |a| <= |b|
  {
    assert b == a + (b - a);
  }

  /** The first candidate not in the index, found after at most as many collisions as there are slides. */
  method UniqueId(slides: seq<Meta>, id: string) returns (unique: string, ghost collisions: nat)
    ensures unique == Candidate(id, collisions) && collisions <= |slides|
    ensures unique == if collisions == 0 then id else id + "-" + Decimal.Show(collisions)
    ensures !InIndex(slides, unique)
    ensures forall k: nat :: k < collisions ==> InIndex(slides, Candidate(id, k))
  {
    unique, collisions := id, 0;
    var counter := 1;
    while InIndex(slides, unique)
      invariant counter == collisions + 1 && unique == Candidate(id, collisions)
      invariant forall k: nat :: k < collisions ==> InIndex(slides, Candidate(id, k))
      invariant collisions <= |slides|
      decreases |slides| - collisions
    {
      CollisionsAreFew(slides, id, collisions + 1);
      unique := id + "-" + Decimal.Digits(counter);
      counter := counter + 1;
      collisions := collisions + 1;
    }
    CollisionsAreFew(slides, id, collisions);
  }

  // ----- the index -----

  predicate DistinctIds(slides: seq<Meta>) {
    forall i, j :: 0 <= i < j < |slides| ==> slides[i].id != slides[j].id
  }

  function IndexOf(slides: seq<Meta>, id: string): (k: nat)
    ensures k <= |slides| && (k < |slides| <==> InIndex(slides, id))
    ensures k < |slides| ==> slides[k].id == id
    ensures forall i :: 0 <= i < k ==> slides[i].id != id
  {
    if slides == [] || slides[0].id == id then 0 else
      var k := IndexOf(slides[1..], id);
      assert forall i :: 1 <= i < |slides| ==> slides[i] == slides[1..][i - 1];
      1 + k
  }

  function Put(slides: seq<Meta>, m: Meta): seq<Meta> {
    var k := IndexOf(slides, m.id);
    if k < |slides| then slides[k := m] else slides + [m]
  }

  function Without(slides: seq<Meta>, id: string): seq<Meta> {
    if slides == [] then [] else
      var n := |slides| - 1;
      if slides[n].id == id then Without(slides[..n], id) else Without(slides[..n], id) + [slides[n]]
  }

  lemma PutKeepsDistinct(slides: seq<Meta>, m: Meta)
    requires DistinctIds(slides)
    ensures DistinctIds(Put(slides, m)) && Ids(Put(slides, m)) == Ids(slides) + {m.id}
    ensures forall i :: 0 <= i < |slides| && slides[i].id != m.id ==> Put(slides, m)[i] == slides[i]
  {
    var put := Put(slides, m);
    forall id | id in Ids(slides) + {m.id} ensures id in Ids(put) {
      if id in Ids(slides) {
        var i :| 0 <= i < |slides| && slides[i].id == id;
        assert put[i].id == id;
      } else {
        assert put[|slides|].id == id;
      }
    }
  }

  /** What an entry says is what the slide holds. */
  predicate Describes(m: Meta, p: Page) {
    && m.id == p.id && m.file == p.file && m.title == p.slide.title && m.duration == p.slide.duration
    && m.tags == p.slide.tags && m.description == p.slide.description
  }

  /** The entry stands where the first one with its id stood, or at the end if there was none; all others are as before. */
  ghost predicate Placed(before: seq<Meta>, after: seq<Meta>, m: Meta) {
    exists k: nat :: k <= |before| && IsFirst(before, m.id, k)
      && |after| == (if k < |before| then |before| else k + 1) && after[k] == m
      && forall i :: 0 <= i < |before| && i != k ==> after[i] == before[i]
  }

  predicate IsFirst(slides: seq<Meta>, id: string, k: nat)
    requires k <= |slides|
  {
    (forall i :: 0 <= i < k ==> slides[i].id != id) && (k < |slides| ==> slides[k].id == id)
  }

  lemma PutPlaces(slides: seq<Meta>, m: Meta)
    ensures Placed(slides, Put(slides, m), m)
  {
    var k := IndexOf(slides, m.id);
    assert IsFirst(slides, m.id, k);
  }

  lemma WithoutSnoc(slides: seq<Meta>, m: Meta, id: string)
    ensures Without(slides + [m], id) == Without(slides, id) + if m.id == id then [] else [m]
  {
    assert (slides + [m])[..|slides|] == slides;
    assert Without(slides, id) + [] == Without(slides, id);
  }

  /** Removing by id takes out the entries with that id and leaves the others in their order. */
  lemma {:induction false} WithoutFilters(a: seq<Meta>, m: Meta, b: seq<Meta>, id: string)
    ensures Without(a + [m] + b, id) == Without(a, id) + (if m.id == id then [] else [m]) + Without(b, id)
    decreases |b|
  {
    WithoutSnoc(a, m, id);
    assert Without([], id) == [];
    hide Without;
    if b == [] {
      assert a + [m] + b == a + [m];
    } else {
      var n := |b| - 1;
      assert b == b[..n] + [b[n]] && a + [m] + b == (a + [m] + b[..n]) + [b[n]];
      WithoutFilters(a, m, b[..n], id);
      WithoutSnoc(b[..n], b[n], id);
      WithoutSnoc(a + [m] + b[..n], b[n], id);
    }
  }

  lemma IdsEnd(slides: seq<Meta>, m: Meta)
    ensures Ids(slides + [m]) == Ids(slides) + {m.id}
    ensures DistinctIds(slides + [m]) <==> DistinctIds(slides) && m.id !in Ids(slides)
  {
    var longer := slides + [m];
    assert longer[|slides|] == m && forall i :: 0 <= i < |slides| ==> longer[i] == slides[i];
    if DistinctIds(longer) {
      forall i, j | 0 <= i < j < |slides| ensures slides[i].id != slides[j].id {
        assert longer[i].id != longer[j].id;
      }
    }
  }

  lemma {:induction false} WithoutKeepsDistinct(slides: seq<Meta>, id: string)
    requires DistinctIds(slides)
    ensures DistinctIds(Without(slides, id)) && Ids(Without(slides, id)) == Ids(slides) - {id}
  {
    if slides == [] {
      assert Ids(slides) == {};
    } else {
      hide DistinctIds, Ids;
      var n := |slides| - 1;
      assert slides == slides[..n] + [slides[n]];
      IdsEnd(slides[..n], slides[n]);
      WithoutKeepsDistinct(slides[..n], id);
      IdsEnd(Without(slides[..n], id), slides[n]);
    }
  }

  /** The index and the files list the same slides, each once. */
  ghost predicate InStep(slides: seq<Meta>, files: map<string, string>) {
    DistinctIds(slides) && files.Keys == set id | id in Ids(slides) :: PathOf(id)
  }

  lemma PathsDiffer(a: string, b: string)
    requires PathOf(a) == PathOf(b)
    ensures a == b
  {
    assert PathOf(a)[..|a|] == a && PathOf(b)[..|b|] == b;
  }

  lemma InStepAfterPut(slides: seq<Meta>, files: map<string, string>, m: Meta, text: string)
    requires InStep(slides, files)
    ensures InStep(Put(slides, m), files[PathOf(m.id) := text])
  {
    PutKeepsDistinct(slides, m);
  }

  lemma InStepAfterDelete(slides: seq<Meta>, files: map<string, string>, id: string)
    requires InStep(slides, files)
    ensures InStep(Without(slides, id), files - {PathOf(id)})
  {
    WithoutKeepsDistinct(slides, id);
    var left := set i | i in Ids(slides) - {id} :: PathOf(i);
    forall p | p in files.Keys - {PathOf(id)} ensures p in left {
      var i :| i in Ids(slides) && PathOf(i) == p;
      assert i != id;
    }
    forall i | i in Ids(slides) - {id} ensures PathOf(i) != PathOf(id) {
      if PathOf(i) == PathOf(id) { PathsDiffer(i, id); }
    }
  }

  class SlideStore {
    var slides: seq<Meta>
    var files: map<string, string>

    constructor ()
      ensures slides == [] && files == map[] && InStep(slides, files)
    {
      slides, files := [], map[];
    }

    method SaveSlide(page: Page)
      modifies this
      ensures files == old(files)[page.id + ".md" := Editor.SaveText(page.slide)]
      ensures slides == Put(old(slides), MetaOf(page))
      ensures exists m :: Describes(m, page) && Placed(old(slides), slides, m)
      ensures old(InStep(slides, files)) ==> InStep(slides, files)
    {
      files := files[PathOf(page.id) := Editor.SaveText(page.slide)];
      UpdateSlidesIndex(MetaOf(page));
      assert Describes(MetaOf(page), page);
      if old(InStep(slides, files)) {
        InStepAfterPut(old(slides), old(files), MetaOf(page), Editor.SaveText(page.slide));
      }
    }

    method UpdateSlidesIndex(m: Meta)
      modifies this`slides
      ensures slides == Put(old(slides), m) && Placed(old(slides), slides, m)
    {
      PutPlaces(slides, m);
      for k := 0 to |slides|
        invariant slides == old(slides)
        invariant forall i :: 0 <= i < k ==> slides[i].id != m.id
      {
        if slides[k].id == m.id {
          slides := slides[k := m];
          return;
        }
      }
      slides := slides + [m];
    }

    /** A missing file raises before the index is touched. */
    method DeleteSlide(id: string) returns (ok: bool)
      modifies this
      ensures ok == (PathOf(id) in old(files))
      ensures files == old(files) - {PathOf(id)}
      ensures slides == if ok then Without(old(slides), id) else old(slides)
      ensures old(InStep(slides, files)) ==> InStep(slides, files)
    {
      if PathOf(id) !in files {
        return false;
      }
      files := files - {PathOf(id)};
      var kept := [];
      for k := 0 to |slides|
        invariant slides == old(slides) && kept == Without(slides[..k], id)
      {
        assert slides[..k + 1][..k] == slides[..k];
        if slides[k].id != id {
          kept := kept + [slides[k]];
        }
      }
      assert slides[..|slides|] == slides;
      slides := kept;
      if old(InStep(slides, files)) {
        InStepAfterDelete(old(slides), old(files), id);
      }
      ok := true;
    }

    /**
     A new slide is appended under a fresh id and every earlier index entry is
     left alone; while index and files are in step, so is every earlier file.
     */
    method CreateSlide(lowered: string, title: string, tags: seq<string>) returns (page: Page)
      modifies this
      ensures slides == old(slides) + [MetaOf(page)] && !InIndex(old(slides), page.id) && Describes(MetaOf(page), page)
      ensures page.file == page.id + ".md"
      ensures page.slide == Editor.Slide(title, 2, tags, "", "# " + title + "\n\nAdd your content here...")
      ensures files == old(files)[page.id + ".md" := Editor.SaveText(page.slide)]
      ensures exists k: nat :: k <= |old(slides)| && page.id == Candidate(Wiki.SlugOf(lowered), k)
      ensures old(InStep(slides, files)) ==> InStep(slides, files) && PathOf(page.id) !in old(files)
    {
      IdIsSlug(lowered);
      var id, k := UniqueId(slides, StripOne(Wiki.Dashed(lowered)));
      page := Page(id, PathOf(id), Editor.Slide(title, 2, tags, "", "# " + title + "\n\nAdd your content here..."));
      if InStep(slides, files) && PathOf(id) in files {
        var i :| i in Ids(slides) && PathOf(i) == PathOf(id);
        PathsDiffer(i, id);
        assert false;
      }
      SaveSlide(page);
    }
  }
}
