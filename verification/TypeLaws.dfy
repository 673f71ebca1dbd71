/**
 Which parts of a schema the two visitors reach, what they take from each, and
 how the generator reads file names and nested arrays.
 */
module TypeLaws {
  import opened Common
  import opened Strings
  import opened TypeGenerator

  // ----- the dependency visitor -----

  /**
   The visitor of dependencies gets from `y` to `z`: into dictionaries and into the
   lists that stand in them, but not past a reference.
   */
  ghost predicate Meets(y: Yaml, z: Yaml)
    decreases y, 1
  {
    y == z || (y.Node? && !Has(y, "$ref") && MeetsIn(y.entries, z))
  }

  ghost predicate MeetsIn(entries: seq<Entry>, z: Yaml)
    decreases entries, 0
  {
    exists i :: 0 <= i < |entries| && MeetsOne(entries[i], z)
  }

  ghost predicate MeetsOne(e: Entry, z: Yaml)
    decreases e, 0
  {
    match e.value
    case Node(_) => Meets(e.value, z)
    case Items(list) => exists j :: 0 <= j < |list| && Meets(list[j], z)
    case _ => false
  }

  /** A reference into another file, as `parse_ref` reads it. */
  predicate IsReferenceTo(z: Yaml, d: Dep) {
    Get(z, "$ref").Some? && Get(z, "$ref").value.Str?
    && var ref := ParseRef(Get(z, "$ref").value.text);
       ref.moduleName == Some(d.moduleName) && ref.typeName == d.typeName && d.moduleName != ""
  }

  lemma RefDepIs(z: Yaml, d: Dep)
    ensures d in RefDep(z) <==> IsReferenceTo(z, d)
  {
    hide ParseRef, Get;
  }

  lemma MeetsHead(e: Entry, rest: seq<Entry>, z: Yaml)
    ensures MeetsIn([e] + rest, z) <==> MeetsOne(e, z) || MeetsIn(rest, z)
  {
    hide MeetsOne;
    var all := [e] + rest;
    assert all[0] == e && forall i :: 0 <= i < |rest| ==> all[i + 1] == rest[i];
    if i :| 0 <= i < |rest| && MeetsOne(rest[i], z) {
      assert MeetsOne(all[i + 1], z);
    }
    if i :| 0 < i < |all| && MeetsOne(all[i], z) {
      assert MeetsOne(rest[i - 1], z);
    }
  }

  ghost predicate Depends(y: Yaml, d: Dep) {
    exists z :: Meets(y, z) && IsReferenceTo(z, d)
  }

  ghost predicate DependsIn(entries: seq<Entry>, d: Dep) {
    exists z :: MeetsIn(entries, z) && IsReferenceTo(z, d)
  }

  ghost predicate DependsInList(list: seq<Yaml>, d: Dep) {
    exists j :: 0 <= j < |list| && Depends(list[j], d)
  }

  lemma NoReferenceInLeaf(y: Yaml, d: Dep)
    requires !y.Node?
    ensures !Depends(y, d)
  {
  }

  lemma DependsHead(e: Entry, rest: seq<Entry>, d: Dep)
    ensures DependsIn([e] + rest, d) <==>
      || (match e.value case Node(_) => Depends(e.value, d) case Items(list) => DependsInList(list, d) case _ => false)
      || DependsIn(rest, d)
  {
    hide Meets, MeetsIn, IsReferenceTo;
    forall z ensures MeetsIn([e] + rest, z) <==> MeetsOne(e, z) || MeetsIn(rest, z) {
      MeetsHead(e, rest, z);
    }
  }

  lemma {:induction false} ListDepsExactly(list: seq<Yaml>, d: Dep)
    ensures d in ListDeps(list) <==> DependsInList(list, d)
    decreases list, 0
  {
    hide Depends, VisitDeps;
    if list != [] {
      VisitDepsExactly(list[0], d);
      ListDepsExactly(list[1..], d);
      assert forall j :: 0 <= j < |list| - 1 ==> list[1..][j] == list[j + 1];
      if DependsInList(list[1..], d) {
        var j :| 0 <= j < |list| - 1 && Depends(list[1..][j], d);
        assert Depends(list[j + 1], d);
      }
    }
  }

  lemma {:induction false} EntryDepsExactly(entries: seq<Entry>, d: Dep)
    ensures d in EntryDeps(entries) <==> DependsIn(entries, d)
    decreases entries, 0
  {
    hide Depends, VisitDeps, DependsInList, ListDeps, DependsIn;
    if entries == [] {
      assert !DependsIn([], d) by { NothingIn(d); }
    } else {
      var e := entries[0];
      match e.value {
        case Node(_) => VisitDepsExactly(e.value, d);
        case Items(list) => ListDepsExactly(list, d);
        case _ =>
      }
      EntryDepsExactly(entries[1..], d);
      DependsHead(e, entries[1..], d);
      assert [e] + entries[1..] == entries;
    }
  }

  lemma NothingIn(d: Dep)
    ensures !DependsIn([], d)
  {
  }

  lemma ThroughNode(y: Yaml, d: Dep)
    requires y.Node?
    ensures Depends(y, d) <==> IsReferenceTo(y, d) || (!Has(y, "$ref") && DependsIn(y.entries, d))
  {
    hide IsReferenceTo, Get, MeetsIn;
    if IsReferenceTo(y, d) { assert Meets(y, y); }
    if !Has(y, "$ref") && DependsIn(y.entries, d) {
      var z :| MeetsIn(y.entries, z) && IsReferenceTo(z, d);
      assert Meets(y, z);
    }
  }

  /** The dependencies found are exactly the references into other files among the parts that the visitor gets to. */
  lemma {:induction false} VisitDepsExactly(y: Yaml, d: Dep)
    ensures d in VisitDeps(y) <==> Depends(y, d)
    decreases y, 1
  {
    hide Depends, DependsIn, EntryDeps, RefDep, IsReferenceTo;
    if !y.Node? {
      NoReferenceInLeaf(y, d);
    } else {
      ThroughNode(y, d);
      RefDepIs(y, d);
      if !Has(y, "$ref") {
        EntryDepsExactly(y.entries, d);
        NotItself(y, d);
      }
    }
  }

  lemma NotItself(y: Yaml, d: Dep)
    requires !Has(y, "$ref")
    ensures !IsReferenceTo(y, d)
  {
  }

  // ----- when it raises -----

  predicate AtMostOne(s: string, c: char) {
    forall i, j :: 0 <= i < |s| && 0 <= j < |s| && s[i] == c && s[j] == c ==> i == j
  }

  lemma AtMostOneStep(head: char, rest: string, c: char)
    ensures AtMostOne([head] + rest, c) <==> if head == c then c !in rest else AtMostOne(rest, c)
  {
    var s := [head] + rest;
    assert s[0] == head;
    assert forall i :: 0 <= i < |rest| ==> s[i + 1] == rest[i];
    assert forall i :: 0 < i < |s| ==> s[i] == rest[i - 1];
    if AtMostOne(s, c) {
      forall i | 0 <= i < |rest| && rest[i] == c ensures head != c {
        assert s[i + 1] == c;
      }
      forall i, j | 0 <= i < |rest| && 0 <= j < |rest| && rest[i] == c && rest[j] == c ensures i == j {
        assert s[i + 1] == c && s[j + 1] == c;
      }
    }
  }

  lemma {:induction false} SplitSizes(s: string, c: char)
    ensures |SplitOn(s, c)| == 1 <==> c !in s
    ensures |SplitOn(s, c)| <= 2 <==> AtMostOne(s, c)
  {
    if s != "" {
      SplitSizes(s[1..], c);
      AtMostOneStep(s[0], s[1..], c);
      assert s == [s[0]] + s[1..];
      hide AtMostOne;
    }
  }

  /** The reference is a string, with at most one `#` if it starts with `./`. */
  predicate Readable(z: Yaml) {
    Get(z, "$ref").Some? && Get(z, "$ref").value.Str?
    && var ref := Get(z, "$ref").value.text;
       At(ref, 0, "./") ==> AtMostOne(ref, '#')
  }

  lemma RefParsesIs(z: Yaml)
    ensures RefParses(z) <==> Readable(z)
  {
    if Get(z, "$ref").Some? && Get(z, "$ref").value.Str? {
      var ref := Get(z, "$ref").value.text;
      SplitSizes(ref, '#');
      assert |ref| >= 2 ==> ref[..2] == ref[0..2];
      hide SplitOn, Get;
    }
  }

  /** Every reference that the visitor gets to can be read. */
  ghost predicate AllParse(y: Yaml) {
    forall z :: Meets(y, z) && Has(z, "$ref") ==> Readable(z)
  }

  ghost predicate AllParseIn(entries: seq<Entry>) {
    forall z :: MeetsIn(entries, z) && Has(z, "$ref") ==> Readable(z)
  }

  ghost predicate AllParseInList(list: seq<Yaml>) {
    forall j :: 0 <= j < |list| ==> AllParse(list[j])
  }

  lemma AllParseHead(e: Entry, rest: seq<Entry>)
    ensures AllParseIn([e] + rest) <==>
      && (match e.value case Node(_) => AllParse(e.value) case Items(list) => AllParseInList(list) case _ => true)
      && AllParseIn(rest)
  {
    hide Meets, MeetsIn, Readable;
    forall z ensures MeetsIn([e] + rest, z) <==> MeetsOne(e, z) || MeetsIn(rest, z) {
      MeetsHead(e, rest, z);
    }
  }

  lemma {:induction false} ListVisitableExactly(list: seq<Yaml>)
    ensures VisitableList(list) <==> AllParseInList(list)
    decreases list, 0
  {
    hide AllParse, Visitable;
    if list != [] {
      VisitableExactly(list[0]);
      ListVisitableExactly(list[1..]);
      if AllParseInList(list) {
        forall j | 0 <= j < |list| - 1 ensures AllParse(list[1..][j]) { assert list[1..][j] == list[j + 1]; }
      }
      if AllParse(list[0]) && AllParseInList(list[1..]) {
        forall j | 0 <= j < |list| ensures AllParse(list[j]) {
          if j > 0 { assert list[j] == list[1..][j - 1]; }
        }
      }
    }
  }

  lemma {:induction false} EntriesVisitableExactly(entries: seq<Entry>)
    ensures VisitableEntries(entries) <==> AllParseIn(entries)
    decreases entries, 0
  {
    hide AllParse, Visitable, AllParseInList, VisitableList, AllParseIn;
    if entries == [] {
      NothingToParse();
    } else {
      var e := entries[0];
      match e.value {
        case Node(_) => VisitableExactly(e.value);
        case Items(list) => ListVisitableExactly(list);
        case _ =>
      }
      EntriesVisitableExactly(entries[1..]);
      AllParseHead(e, entries[1..]);
      assert [e] + entries[1..] == entries;
    }
  }

  lemma NothingToParse()
    ensures AllParseIn([])
  {
  }

  lemma ParseThroughNode(y: Yaml)
    requires y.Node?
    ensures AllParse(y) <==> (Has(y, "$ref") ==> Readable(y)) && (!Has(y, "$ref") ==> AllParseIn(y.entries))
  {
    hide Readable, Get, MeetsIn;
    if AllParse(y) {
      assert Meets(y, y);
      forall z | !Has(y, "$ref") && MeetsIn(y.entries, z) && Has(z, "$ref") ensures Readable(z) {
        assert Meets(y, z);
      }
    }
  }

  /** The visitor succeeds exactly if every reference it gets to can be read. */
  lemma {:induction false} VisitableExactly(y: Yaml)
    ensures Visitable(y) <==> AllParse(y)
    decreases y, 1
  {
    hide AllParse, AllParseIn, VisitableEntries, RefParses, Readable;
    RefParsesIs(y);
    if y.Node? {
      ParseThroughNode(y);
      if !Has(y, "$ref") { EntriesVisitableExactly(y.entries); }
    } else {
      LeafParses(y);
    }
  }

  lemma LeafParses(y: Yaml)
    requires !y.Node?
    ensures AllParse(y)
  {
  }

  // ----- the import visitor -----

  /** The visitor of imports gets from `y` to `z`: into properties, items, additional properties and all lists. */
  ghost predicate Enters(y: Yaml, z: Yaml)
    decreases y, 1
  {
    y == z || (y.Node? && EntersIn(y.entries, z))
  }

  ghost predicate EntersIn(entries: seq<Entry>, z: Yaml)
    decreases entries, 0
  {
    exists i :: 0 <= i < |entries| && EntersOne(entries[i], z)
  }

  ghost predicate EntersOne(e: Entry, z: Yaml)
    decreases e, 0
  {
    if e.key == "properties" && e.value.Node? then exists j :: 0 <= j < |e.value.entries| && Enters(e.value.entries[j].value, z)
    else if e.key == "items" || e.key == "additionalProperties" then Enters(e.value, z)
    else e.value.Items? && exists j :: 0 <= j < |e.value.list| && Enters(e.value.list[j], z)
  }

  /** What a part of a schema asks for by itself. */
  predicate Asks(z: Yaml, i: Import) {
    z.Node? &&
    match i
    case DateTimeImport => Get(z, "format") == Some(Str("date-time"))
    case EnumImport => Get(z, "enum").Some?
    case PydanticImport => Get(z, "type") == Some(Str("object")) && Get(z, "enum") == None
    case TypingImport => Get(z, "type") == Some(Str("array")) || Get(z, "type") == Some(Str("object")) || Get(z, "properties").Some?
  }

  ghost predicate Wants(y: Yaml, i: Import) {
    exists z :: Enters(y, z) && Asks(z, i)
  }

  ghost predicate WantsIn(entries: seq<Entry>, i: Import) {
    exists k :: 0 <= k < |entries| && WantsOne(entries[k], i)
  }

  ghost predicate WantsOne(e: Entry, i: Import) {
    exists z :: EntersOne(e, z) && Asks(z, i)
  }

  lemma {:induction false} PropertiesWant(properties: seq<Entry>, i: Import)
    ensures i in PropertyImports(properties) <==> exists j :: 0 <= j < |properties| && Wants(properties[j].value, i)
    decreases properties, 0
  {
    hide Wants, VisitImports;
    if properties != [] {
      var rest := properties[1..];
      VisitImportsExactly(properties[0].value, i);
      PropertiesWant(rest, i);
      assert forall j :: 0 <= j < |rest| ==> rest[j] == properties[j + 1];
      if j :| 0 <= j < |rest| && Wants(rest[j].value, i) {
        assert Wants(properties[j + 1].value, i);
      }
      if j :| 0 < j < |properties| && Wants(properties[j].value, i) {
        assert Wants(rest[j - 1].value, i);
      }
    }
  }

  lemma {:induction false} ListWants(list: seq<Yaml>, i: Import)
    ensures i in ListImports(list) <==> exists j :: 0 <= j < |list| && Wants(list[j], i)
    decreases list, 0
  {
    hide Wants, VisitImports;
    if list != [] {
      var rest := list[1..];
      VisitImportsExactly(list[0], i);
      ListWants(rest, i);
      assert forall j :: 0 <= j < |rest| ==> rest[j] == list[j + 1];
      if j :| 0 <= j < |rest| && Wants(rest[j], i) {
        assert Wants(list[j + 1], i);
      }
      if j :| 0 < j < |list| && Wants(list[j], i) {
        assert Wants(rest[j - 1], i);
      }
    }
  }

  /** What one entry adds, the test for optional properties aside. */
  function EntryAdds(e: Entry): set<Import> {
    if e.key == "properties" && e.value.Node? then PropertyImports(e.value.entries)
    else if e.key == "items" || e.key == "additionalProperties" then VisitImports(e.value)
    else if e.value.Items? then ListImports(e.value.list)
    else {}
  }

  lemma WantsOneParts(e: Entry, i: Import)
    ensures WantsOne(e, i) <==>
      if e.key == "properties" && e.value.Node? then exists j :: 0 <= j < |e.value.entries| && Wants(e.value.entries[j].value, i)
      else if e.key == "items" || e.key == "additionalProperties" then Wants(e.value, i)
      else e.value.Items? && exists j :: 0 <= j < |e.value.list| && Wants(e.value.list[j], i)
  {
    hide Enters, Asks;
  }

  lemma {:induction false} EntryAddsExactly(e: Entry, i: Import)
    ensures i in EntryAdds(e) <==> WantsOne(e, i)
    decreases e, 0
  {
    hide WantsOne, Wants, VisitImports, PropertyImports, ListImports;
    WantsOneParts(e, i);
    if e.key == "properties" && e.value.Node? {
      PropertiesWant(e.value.entries, i);
    } else if e.key == "items" || e.key == "additionalProperties" {
      VisitImportsExactly(e.value, i);
    } else if e.value.Items? {
      ListWants(e.value.list, i);
    }
  }

  lemma {:induction false} EntriesWant(entries: seq<Entry>, required: Option<Yaml>, i: Import)
    ensures i in EntryImports(entries, required) ==> WantsIn(entries, i) || (i == TypingImport && exists k :: 0 <= k < |entries| && entries[k].key == "properties")
    ensures WantsIn(entries, i) ==> i in EntryImports(entries, required)
    decreases entries, 1
  {
    hide WantsOne, EntryAdds;
    if entries != [] {
      var e, rest := entries[0], entries[1..];
      EntryAddsExactly(e, i);
      EntriesWant(rest, required, i);
      assert EntryImports(entries, required) ==
        (if e.key == "properties" && e.value.Node? && HasOptional(e.value.entries, required) then {TypingImport} else {})
        + EntryAdds(e) + EntryImports(rest, required) by { EntryImportsHead(entries, required); }
      hide EntryImports, HasOptional;
      assert forall j :: 0 <= j < |rest| ==> rest[j] == entries[j + 1];
      if WantsIn(rest, i) {
        var k :| 0 <= k < |rest| && WantsOne(rest[k], i);
        assert WantsOne(entries[k + 1], i);
      }
      if k :| 0 <= k < |rest| && rest[k].key == "properties" {
        assert entries[k + 1].key == "properties";
      }
      if k :| 0 < k < |entries| && WantsOne(entries[k], i) {
        assert WantsOne(rest[k - 1], i);
      }
    }
  }

  lemma EntryImportsHead(entries: seq<Entry>, required: Option<Yaml>)
    requires entries != []
    ensures var e := entries[0];
      EntryImports(entries, required) ==
        (if e.key == "properties" && e.value.Node? && HasOptional(e.value.entries, required) then {TypingImport} else {})
        + EntryAdds(e) + EntryImports(entries[1..], required)
  {
    hide HasOptional, VisitImports, PropertyImports, ListImports;
  }

  lemma {:induction false} KeyIsFound(entries: seq<Entry>, k: nat)
    requires k < |entries|
    ensures Lookup(entries, entries[k].key).Some?
  {
    if k > 0 { KeyIsFound(entries[1..], k - 1); }
  }

  lemma OwnImportsAsk(y: Yaml, i: Import)
    requires y.Node?
    ensures i in OwnImports(y) <==> Asks(y, i)
  {
    hide Get;
  }

  lemma EntersThrough(entries: seq<Entry>, z: Yaml, i: Import)
    requires EntersIn(entries, z) && Asks(z, i)
    ensures WantsIn(entries, i)
  {
    hide Asks, EntersOne;
    var k :| 0 <= k < |entries| && EntersOne(entries[k], z);
    assert WantsOne(entries[k], i);
  }

  lemma WantsThroughNode(y: Yaml, i: Import)
    requires y.Node?
    ensures Wants(y, i) <==> Asks(y, i) || WantsIn(y.entries, i)
  {
    hide Asks, EntersOne;
    if Asks(y, i) { assert Enters(y, y); }
    if WantsIn(y.entries, i) {
      var k :| 0 <= k < |y.entries| && WantsOne(y.entries[k], i);
      var z :| EntersOne(y.entries[k], z) && Asks(z, i);
      assert EntersIn(y.entries, z) && Enters(y, z);
    }
    if z :| Enters(y, z) && Asks(z, i) {
      if z != y {
        assert EntersIn(y.entries, z);
        EntersThrough(y.entries, z, i);
      }
    }
  }

  /** The imports found are exactly those that some part the visitor gets to asks for; the test for optional properties adds none. */
  lemma {:induction false} VisitImportsExactly(y: Yaml, i: Import)
    ensures i in VisitImports(y) <==> Wants(y, i)
    decreases y, 1
  {
    hide Wants, WantsIn, EntryImports, OwnImports, Asks;
    if y.Node? {
      WantsThroughNode(y, i);
      OwnImportsAsk(y, i);
      EntriesWant(y.entries, Get(y, "required"), i);
      if i == TypingImport {
        if k :| 0 <= k < |y.entries| && y.entries[k].key == "properties" {
          KeyIsFound(y.entries, k);
          PropertiesAsk(y);
        }
      }
    } else {
      LeafWants(y, i);
    }
  }

  lemma PropertiesAsk(y: Yaml)
    requires Get(y, "properties").Some?
    ensures Asks(y, TypingImport)
  {
    hide Lookup;
  }

  lemma LeafWants(y: Yaml, i: Import)
    requires !y.Node?
    ensures !Wants(y, i)
  {
  }

  // ----- names -----

  /** Dashes become underscores, one by one. */
  lemma {:induction false} UnderscoredEach(s: string)
    ensures |Underscored(s)| == |s|
    ensures forall i :: 0 <= i < |s| ==> Underscored(s)[i] == if s[i] == '-' then '_' else s[i]
  {
    if s != "" { UnderscoredEach(s[1..]); }
  }

  /** The type name is what follows the last slash. */
  lemma LastPartFollowsSlash(front: string, name: string)
    requires '/' !in name
    ensures LastPart(name) == name && LastPart(front + "/" + name) == name
  {
    SplitAlone(name, '/');
    SplitEnds(front, name, '/');
    assert ['/'] == "/";
  }

  lemma {:induction false} SplitEnds(front: string, last: string, c: char)
    requires c !in last
    ensures var parts := SplitOn(front + [c] + last, c); |parts| > 1 && parts[|parts| - 1] == last
  {
    SplitAlone(last, c);
    var s := front + [c] + last;
    if front == "" {
      assert s[1..] == last && s[0] == c;
    } else {
      SplitEnds(front[1..], last, c);
      assert s[1..] == front[1..] + [c] + last;
    }
  }

  /** Each occurrence of the suffix goes, wherever it stands. */
  lemma {:induction false} SuffixesGo(a: string, b: string)
    requires forall i: nat :: i < |a| ==> !At(a + ".yaml" + b, i, ".yaml")
    ensures DropSuffixes(a + ".yaml" + b) == a + DropSuffixes(b)
    decreases |a|
  {
    var s := a + ".yaml" + b;
    if a == "" {
      assert s[..5] == ".yaml" && s[5..] == b;
    } else {
      assert !At(s, 0, ".yaml") && s[0..5] == s[..5];
      assert s[1..] == a[1..] + ".yaml" + b;
      forall i: nat | i < |a| - 1 ensures !At(s[1..], i, ".yaml") {
        assert !At(s, i + 1, ".yaml");
        if i + 5 <= |s| - 1 { assert s[1..][i..i + 5] == s[i + 1..i + 6]; }
      }
      SuffixesGo(a[1..], b);
      assert [a[0]] + (a[1..] + DropSuffixes(b)) == a + DropSuffixes(b);
    }
  }

  lemma {:induction false} NoSuffix(s: string)
    requires forall i: nat :: !At(s, i, ".yaml")
    ensures DropSuffixes(s) == s
    decreases |s|
  {
    if s != "" {
      assert !At(s, 0, ".yaml") && (|s| >= 5 ==> s[0..5] == s[..5]);
      forall i: nat ensures !At(s[1..], i, ".yaml") {
        assert !At(s, i + 1, ".yaml");
        if i + 5 <= |s| - 1 { assert s[1..][i..i + 5] == s[i + 1..i + 6]; }
      }
      NoSuffix(s[1..]);
    }
  }

  // ----- field types -----

  /** A definition inside `n` arrays. */
  function Nested(core: Yaml, n: nat): Yaml {
    if n == 0 then core else Node([Entry("type", Str("array")), Entry("items", Nested(core, n - 1))])
  }

  function Lists(t: PyType, n: nat): PyType {
    if n == 0 then t else ListOf(Lists(t, n - 1))
  }

  /** Each array becomes a list, and what stands inside them all keeps its type. */
  lemma {:induction false} ArraysNest(core: Yaml, n: nat)
    ensures FieldType(Nested(core, n)) == Lists(FieldType(core), n)
    ensures RefsOf(FieldType(Nested(core, n))) == RefsOf(FieldType(core))
  {
    if n > 0 {
      ArraysNest(core, n - 1);
      var a, b := Entry("type", Str("array")), Entry("items", Nested(core, n - 1));
      LookupTwo(a, b, "$ref");
      LookupTwo(a, b, "format");
      LookupTwo(a, b, "type");
      LookupTwo(a, b, "items");
      hide Lookup, BaseType;
    }
  }

  lemma LookupTwo(a: Entry, b: Entry, key: string)
    ensures Lookup([a, b], key) == if a.key == key then Some(a.value) else if b.key == key then Some(b.value) else None
  {
    assert [a, b][1..] == [b] && [b][1..] == [] && Lookup([], key) == None;
    assert Lookup([b], key) == if b.key == key then Some(b.value) else None;
  }

  /** The types of plain definitions, of dates and of references. */
  lemma PlainTypes(name: string, ref: string)
    ensures FieldType(Node([Entry("type", Str(name))]))
         == if name == "string" then Builtin("str") else if name == "integer" then Builtin("int")
            else if name == "number" then Builtin("float") else if name == "boolean" then Builtin("bool")
            else if name == "array" then ListOf(AnyType) else if name == "object" then DictType else AnyType
    ensures FieldType(Node([Entry("type", Str(name)), Entry("format", Str("date-time"))])) == DateTimeType
    ensures FieldType(Node([Entry("type", Str(name)), Entry("$ref", Str(ref))])) == Referred(ref)
  {
    LookupOne(Entry("type", Str(name)), "$ref");
    LookupOne(Entry("type", Str(name)), "format");
    LookupOne(Entry("type", Str(name)), "type");
    LookupOne(Entry("type", Str(name)), "items");
    LookupTwo(Entry("type", Str(name)), Entry("format", Str("date-time")), "$ref");
    LookupTwo(Entry("type", Str(name)), Entry("format", Str("date-time")), "format");
    LookupTwo(Entry("type", Str(name)), Entry("$ref", Str(ref)), "$ref");
    hide Lookup;
  }

  lemma LookupOne(a: Entry, key: string)
    ensures Lookup([a], key) == if a.key == key then Some(a.value) else None
  {
    assert [a][1..] == [] && Lookup([], key) == None;
  }

  /** A type is optional exactly if the property is not required or nullable, and a value is demanded exactly if there is no other to take. */
  lemma FieldDemands(e: Entry, required: bool)
    ensures var f, nullable, given := FieldOf(e, required), Get(e.value, "nullable") == Some(Flag(true)), Get(e.value, "default");
      && f.name == e.key
      && f.pyType == (if required && !nullable then FieldType(e.value) else OptionalOf(FieldType(e.value)))
      && (f.default.Required? <==> required && !nullable && given == None)
      && (f.default.NoneValue? <==> nullable || (given == None && !required) || given == Some(Null))
      && (f.default.Factory? <==> !nullable && given.Some? && (given.value.Node? || given.value.Items?))
      && (f.default.Stamp? <==> !nullable && given.Some? && given.value.Timestamp?)
      && (f.default.NonFinite? <==> !nullable && given.Some? && given.value.Number? && given.value.text in {"inf", "-inf", "nan"})
  {
    hide FieldType, Lookup;
  }
}
