/**
 The generator of Python modules from YAML schemas: which imports it emits, and
 which names the classes it emits use.
 */
module TypeGenerator {
  import opened Common
  import opened Strings

  /** What the safe loader makes of a file; numbers as Python writes them. */
  datatype Yaml =
    | Null
    | Str(text: string)
    | Flag(on: bool)
    | Number(text: string)
    | Timestamp(text: string)        // an unquoted date or time
    | Items(list: seq<Yaml>)
    | Node(entries: seq<Entry>)

  datatype Entry = Entry(key: string, value: Yaml)

  // ----- dictionaries -----

  function Lookup(entries: seq<Entry>, key: string): Option<Yaml> {
    if entries == [] then None else if entries[0].key == key then Some(entries[0].value) else Lookup(entries[1..], key)
  }

  function Get(y: Yaml, key: string): Option<Yaml> {
    if y.Node? then Lookup(y.entries, key) else None
  }

  predicate Has(y: Yaml, key: string) {
    Get(y, key).Some?
  }

  predicate TypeIs(y: Yaml, name: string) {
    Get(y, "type") == Some(Str(name))
  }

  predicate IsDateTime(y: Yaml) {
    Get(y, "format") == Some(Str("date-time"))
  }

  lemma {:induction false} LookupFinds(entries: seq<Entry>, key: string)
    ensures Lookup(entries, key).Some? ==> exists i :: 0 <= i < |entries| && entries[i] == Entry(key, Lookup(entries, key).value)
  {
    if entries != [] {
      if entries[0].key == key {
        assert entries[0] == Entry(key, Lookup(entries, key).value);
      } else {
        LookupFinds(entries[1..], key);
        if Lookup(entries, key).Some? {
          var i :| 0 <= i < |entries| - 1 && entries[1..][i] == Entry(key, Lookup(entries, key).value);
          assert entries[i + 1] == Entry(key, Lookup(entries, key).value);
        }
      }
    }
  }

  // ----- references -----

  /** A reference to a type, with the module it lives in when that is another file. */
  datatype Ref = Ref(moduleName: Option<string>, typeName: string)

  function LastPart(s: string): string {
    var parts := SplitOn(s, '/');
    parts[|parts| - 1]
  }

  /** Deletes every occurrence of ".yaml", from left to right. */
  function DropSuffixes(s: string): string {
    if |s| >= 5 && s[..5] == ".yaml" then DropSuffixes(s[5..])
    else if s == "" then "" else [s[0]] + DropSuffixes(s[1..])
  }

  function Underscored(s: string): string {
    if s == "" then "" else [if s[0] == '-' then '_' else s[0]] + Underscored(s[1..])
  }

  /** Unpacking the parts of a file reference raises if there is more than one `#`. */
  predicate Parses(ref: string) {
    |ref| >= 2 && ref[..2] == "./" ==> |SplitOn(ref, '#')| <= 2
  }

  /** `parse_ref`, for references that parse. */
  function ParseRef(ref: string): Ref {
    var parts := SplitOn(ref, '#');
    if |ref| >= 2 && ref[..2] == "./" && |parts| == 2 && |parts[0]| >= 2 then
      Ref(Some(Underscored(DropSuffixes(parts[0][2..]))), LastPart(parts[1]))
    else Ref(None, LastPart(ref))
  }

  datatype Dep = Dep(moduleName: string, typeName: string)

  /** An empty module name does not count as another file. */
  function DepOf(ref: Ref): set<Dep> {
    if ref.moduleName.Some? && ref.moduleName.value != "" then {Dep(ref.moduleName.value, ref.typeName)} else {}
  }

  /** A reference that is no string, or does not parse, raises. */
  predicate RefParses(y: Yaml) {
    Get(y, "$ref").Some? && Get(y, "$ref").value.Str? && Parses(Get(y, "$ref").value.text)
  }

  function RefDep(y: Yaml): set<Dep> {
    if Get(y, "$ref").Some? && Get(y, "$ref").value.Str? then DepOf(ParseRef(Get(y, "$ref").value.text)) else {}
  }

  // ----- the classes that references mean -----

  /** A reference with something before its `#`. */
  predicate OtherFile(ref: string) {
    ref != "" && ref[0] != '#'
  }

  /** A path seen from the directory `types` that holds the schema files. */
  function Normal(path: string): string {
    if At(path, 0, "./") then Normal(path[2..])
    else if At(path, 0, "../types/") then Normal(path[9..])
    else path
  }

  /** The module that `main` generates for a schema file, if it is one it reads. */
  function GeneratedModule(path: string): Option<string> {
    var name := Normal(path);
    if '/' !in name && |name| > 5 && name[|name| - 5..] == ".yaml" then Some(Underscored(name[..|name| - 5])) else None
  }

  /** The generated class that a reference to another file means, if the emitted type name names it at all. */
  function Meant(ref: string): Option<Dep> {
    var parts := SplitOn(ref, '#');
    if |parts| == 2 && GeneratedModule(parts[0]).Some? && ParseRef(ref).typeName == LastPart(parts[1])
    then Some(Dep(GeneratedModule(parts[0]).value, LastPart(parts[1]))) else None
  }

  /** `parse_ref` finds the class that the reference means. */
  predicate Plain(ref: string) {
    Meant(ref).Some? && DepOf(ParseRef(ref)) == {Meant(ref).value}
  }

  // ----- cross-file dependencies -----

  function VisitDeps(y: Yaml): set<Dep>
    decreases y, 0
  {
    if !y.Node? then {}
    else if Has(y, "$ref") then RefDep(y)
    else EntryDeps(y.entries)
  }

  function EntryDeps(entries: seq<Entry>): set<Dep>
    decreases entries, 0
  {
    if entries == [] then {} else
      (match entries[0].value
       case Node(_) => VisitDeps(entries[0].value)
       case Items(list) => ListDeps(list)
       case _ => {}) + EntryDeps(entries[1..])
  }

  function ListDeps(list: seq<Yaml>): set<Dep>
    decreases list, 0
  {
    if list == [] then {} else VisitDeps(list[0]) + ListDeps(list[1..])
  }

  /** The dependency visitor raises nothing. */
  predicate Visitable(y: Yaml)
    decreases y, 0
  {
    y.Node? ==> if Has(y, "$ref") then RefParses(y) else VisitableEntries(y.entries)
  }

  predicate VisitableEntries(entries: seq<Entry>)
    decreases entries, 0
  {
    entries != [] ==>
      (match entries[0].value
       case Node(_) => Visitable(entries[0].value)
       case Items(list) => VisitableList(list)
       case _ => true) && VisitableEntries(entries[1..])
  }

  predicate VisitableList(list: seq<Yaml>)
    decreases list, 0
  {
    list != [] ==> Visitable(list[0]) && VisitableList(list[1..])
  }

  // ----- standard imports -----

  datatype Import = DateTimeImport | EnumImport | PydanticImport | TypingImport

  predicate Lists(y: Option<Yaml>, name: string) {
    y.Some? && y.value.Items? && Str(name) in y.value.list
  }

  /** Some property is not required. */
  predicate HasOptional(properties: seq<Entry>, required: Option<Yaml>) {
    exists i :: 0 <= i < |properties| && !Lists(required, properties[i].key)
  }

  function OwnImports(y: Yaml): set<Import> {
    (if IsDateTime(y) then {DateTimeImport} else {})
    + (if Has(y, "enum") then {EnumImport} else {})
    + (if TypeIs(y, "object") && !Has(y, "enum") then {PydanticImport} else {})
    + (if TypeIs(y, "array") || TypeIs(y, "object") || Has(y, "properties") then {TypingImport} else {})
  }

  function VisitImports(y: Yaml): set<Import>
    decreases y, 0
  {
    if !y.Node? then {} else OwnImports(y) + EntryImports(y.entries, Get(y, "required"))
  }

  function EntryImports(entries: seq<Entry>, required: Option<Yaml>): set<Import>
    decreases entries, 0
  {
    if entries == [] then {} else
      var e := entries[0];
      (if e.key == "properties" && e.value.Node? then
         (if HasOptional(e.value.entries, required) then {TypingImport} else {}) + PropertyImports(e.value.entries)
       else if e.key == "items" || e.key == "additionalProperties" then VisitImports(e.value)
       else if e.value.Items? then ListImports(e.value.list)
       else {}) + EntryImports(entries[1..], required)
  }

  function PropertyImports(properties: seq<Entry>): set<Import>
    decreases properties, 0
  {
    if properties == [] then {} else VisitImports(properties[0].value) + PropertyImports(properties[1..])
  }

  function ListImports(list: seq<Yaml>): set<Import>
    decreases list, 0
  {
    if list == [] then {} else VisitImports(list[0]) + ListImports(list[1..])
  }

  // ----- the visitors as they run: recursion that adds to a set -----

  class SchemaVisitor {
    var deps: set<Dep>
    var imports: set<Import>

    constructor ()
      ensures deps == {} && imports == {}
    {
      deps, imports := {}, {};
    }

    /** `ok` is false if it raises. */
    method VisitForDeps(y: Yaml) returns (ok: bool)
      modifies this`deps
      ensures ok <==> Visitable(y)
      ensures ok ==> deps == old(deps) + VisitDeps(y)
      decreases y, 1
    {
      if !y.Node? {
        return true;
      }
      if Has(y, "$ref") {
        ok := RefParses(y);
        if ok {
          deps := deps + RefDep(y);
        }
        return;
      }
      for i := 0 to |y.entries|
        invariant VisitableEntries(y.entries) <==> VisitableEntries(y.entries[i..])
        invariant deps + EntryDeps(y.entries[i..]) == old(deps) + EntryDeps(y.entries)
      {
        var value := y.entries[i].value;
        assert y.entries[i..][0] == y.entries[i] && y.entries[i..][1..] == y.entries[i + 1..];
        ok := true;
        if value.Node? {
          ok := VisitForDeps(value);
        } else if value.Items? {
          ok := VisitListForDeps(value.list);
        }
        if !ok {
          return;
        }
      }
      ok := true;
    }

    method VisitListForDeps(list: seq<Yaml>) returns (ok: bool)
      modifies this`deps
      ensures ok <==> VisitableList(list)
      ensures ok ==> deps == old(deps) + ListDeps(list)
      decreases list, 0
    {
      for i := 0 to |list|
        invariant VisitableList(list) <==> VisitableList(list[i..])
        invariant deps + ListDeps(list[i..]) == old(deps) + ListDeps(list)
      {
        assert list[i..][0] == list[i] && list[i..][1..] == list[i + 1..];
        ok := VisitForDeps(list[i]);
        if !ok {
          return;
        }
      }
      ok := true;
    }

    method VisitForImports(y: Yaml)
      modifies this`imports
      ensures imports == old(imports) + VisitImports(y)
      decreases y, 1
    {
      if !y.Node? {
        return;
      }
      imports := imports + OwnImports(y);
      var required := Get(y, "required");
      for i := 0 to |y.entries|
        invariant imports + EntryImports(y.entries[i..], required)
               == old(imports) + OwnImports(y) + EntryImports(y.entries, required)
      {
        var e := y.entries[i];
        assert y.entries[i..][0] == e && y.entries[i..][1..] == y.entries[i + 1..];
        if e.key == "properties" && e.value.Node? {
          if HasOptional(e.value.entries, required) {
            imports := imports + {TypingImport};
          }
          VisitProperties(e.value.entries);
        } else if e.key == "items" || e.key == "additionalProperties" {
          VisitForImports(e.value);
        } else if e.value.Items? {
          VisitListForImports(e.value.list);
        }
      }
    }

    method VisitProperties(properties: seq<Entry>)
      modifies this`imports
      ensures imports == old(imports) + PropertyImports(properties)
      decreases properties, 0
    {
      for i := 0 to |properties|
        invariant imports + PropertyImports(properties[i..]) == old(imports) + PropertyImports(properties)
      {
        assert properties[i..][0] == properties[i] && properties[i..][1..] == properties[i + 1..];
        VisitForImports(properties[i].value);
      }
    }

    method VisitListForImports(list: seq<Yaml>)
      modifies this`imports
      ensures imports == old(imports) + ListImports(list)
      decreases list, 0
    {
      for i := 0 to |list|
        invariant imports + ListImports(list[i..]) == old(imports) + ListImports(list)
      {
        assert list[i..][0] == list[i] && list[i..][1..] == list[i + 1..];
        VisitForImports(list[i]);
      }
    }
  }

  // ----- emitted code -----

  datatype PyType =
    | Builtin(name: string)          // str, int, float, bool
    | AnyType
    | DictType                       // Dict[str, Any]
    | ListOf(item: PyType)
    | OptionalOf(inner: PyType)
    | DateTimeType
    | Referred(ref: string)

  /** What stands to the right of the equals sign of a field. */
  datatype Default =
    | Required
    | NoneValue(described: bool)
    | Factory
    | Literal(described: bool)
    | Stamp(described: bool)                      // repr of a date or time
    | NonFinite(word: string, described: bool)    // inf or nan

  datatype Field = Field(name: string, pyType: PyType, default: Default)

  function BaseType(y: Yaml): PyType {
    match Get(y, "type")
    case Some(Str(name)) =>
      if name == "string" then Builtin("str")
      else if name == "integer" then Builtin("int")
      else if name == "number" then Builtin("float")
      else if name == "boolean" then Builtin("bool")
      else if name == "array" then ListOf(AnyType)
      else if name == "object" then DictType
      else AnyType
    case _ => AnyType
  }

  function FieldType(y: Yaml): PyType
    decreases y
  {
    if Has(y, "$ref") then
      Referred(if Get(y, "$ref").value.Str? then Get(y, "$ref").value.text else "")
    else if IsDateTime(y) then DateTimeType
    else if TypeIs(y, "array") && Has(y, "items") then
      assert Get(y, "items").value < y by { LookupSmaller(y.entries, "items"); }
      ListOf(FieldType(Get(y, "items").value))
    else BaseType(y)
  }

  lemma {:induction false} LookupSmaller(entries: seq<Entry>, key: string)
    requires Lookup(entries, key).Some?
    ensures Lookup(entries, key).value < Node(entries)
  {
    LookupFinds(entries, key);
  }

  predicate IsNullable(y: Yaml) {
    Get(y, "nullable") == Some(Flag(true))
  }

  function DefaultOf(y: Yaml, required: bool): Default {
    var described := Has(y, "description");
    if required && !Has(y, "default") && !IsNullable(y) then Required
    else
      match Get(y, "default")
      case None => NoneValue(described)
      case Some(d) =>
        if d.Null? || IsNullable(y) then NoneValue(described)
        else if d.Node? || d.Items? then Factory
        else if d.Timestamp? then Stamp(described)
        else if d.Number? && d.text in {"inf", "-inf"} then NonFinite("inf", described)
        else if d.Number? && d.text == "nan" then NonFinite("nan", described)
        else Literal(described)
  }

  function FieldOf(e: Entry, required: bool): Field {
    var t := FieldType(e.value);
    Field(e.key, if !required || IsNullable(e.value) then OptionalOf(t) else t, DefaultOf(e.value, required))
  }

  function FieldsOf(properties: seq<Entry>, required: Option<Yaml>): seq<Field> {
    seq(|properties|, i requires 0 <= i < |properties| => FieldOf(properties[i], Lists(required, properties[i].key)))
  }

  /** The fields of the class generated for an object schema. */
  function ModelFields(m: Yaml): seq<Field> {
    if Get(m, "properties").Some? && Get(m, "properties").value.Node?
    then FieldsOf(Get(m, "properties").value.entries, Get(m, "required"))
    else []
  }

  // ----- names -----

  datatype Name =
    | Typing(name: string)
    | Pydantic(name: string)
    | DateTimeName
    | EnumName
    | External(dep: Dep)             // a class of another generated module
    | Nowhere(ref: string)           // a reference to another file that means no such class
    | Undefined(word: string)

  /** A reference into another file uses the class it means, whatever the generator makes of it. */
  function RefNames(ref: string): set<Name> {
    if !OtherFile(ref) then {}
    else if Meant(ref).Some? then {External(Meant(ref).value)}
    else {Nowhere(ref)}
  }

  /** The names a type mentions that its module must import. */
  function TypeNames(t: PyType): set<Name> {
    match t
    case Builtin(_) => {}
    case AnyType => {Typing("Any")}
    case DictType => {Typing("Dict"), Typing("Any")}
    case ListOf(item) => {Typing("List")} + TypeNames(item)
    case OptionalOf(inner) => {Typing("Optional")} + TypeNames(inner)
    case DateTimeType => {DateTimeName}
    case Referred(ref) => RefNames(ref)
  }

  function DefaultNames(d: Default): set<Name> {
    match d
    case Required => {Pydantic("Field")}
    case Factory => {Pydantic("Field")}
    case NoneValue(described) => if described then {Pydantic("Field")} else {}
    case Literal(described) => if described then {Pydantic("Field")} else {}
    case Stamp(described) => {DateTimeName} + if described then {Pydantic("Field")} else {}
    case NonFinite(word, described) => {Undefined(word)} + if described then {Pydantic("Field")} else {}
  }

  function ModelNames(m: Yaml): set<Name> {
    {Pydantic("BaseModel")}
    + set f, n | f in ModelFields(m) && n in TypeNames(f.pyType) + DefaultNames(f.default) :: n
  }

  function ImportedBy(i: Import): set<Name> {
    match i
    case DateTimeImport => {DateTimeName}
    case EnumImport => {EnumName}
    case PydanticImport => {Pydantic("BaseModel"), Pydantic("Field")}
    case TypingImport => {Typing("Optional"), Typing("Dict"), Typing("Any"), Typing("List")}
  }

  function NamesOf(imports: set<Import>): set<Name> {
    set i, n | i in imports && n in ImportedBy(i) :: n
  }

  function Externals(deps: set<Dep>): set<Name> {
    set d | d in deps :: External(d)
  }

  /** All names bound by the import block of the module generated for `schemas`. */
  function Imported(schemas: seq<Entry>): set<Name> {
    NamesOf(PropertyImports(schemas)) + Externals(SchemaDeps(schemas))
  }

  function SchemaDeps(schemas: seq<Entry>): set<Dep> {
    if schemas == [] then {} else VisitDeps(schemas[0].value) + SchemaDeps(schemas[1..])
  }

  /** Schemas for which a model class is emitted. */
  predicate EmitsModel(e: Entry) {
    !(|e.key| >= 2 && e.key[..2] == "x-") && e.key != "TerminalStates"
    && !Has(e.value, "enum") && TypeIs(e.value, "object")
  }

  /** The references in a type. */
  function RefsOf(t: PyType): set<string> {
    match t
    case ListOf(item) => RefsOf(item)
    case OptionalOf(inner) => RefsOf(inner)
    case Referred(ref) => {ref}
    case _ => {}
  }

  /** The references into other files in a model's fields. */
  function FieldRefs(m: Yaml): set<string> {
    set f, r | f in ModelFields(m) && r in RefsOf(f.pyType) && OtherFile(r) :: r
  }

  /** No field default spells a number that has no literal. */
  predicate FiniteDefaults(m: Yaml) {
    forall f :: f in ModelFields(m) ==> !f.default.NonFinite?
  }

  predicate HasStamp(m: Yaml) {
    exists f :: f in ModelFields(m) && f.default.Stamp?
  }

  /** The defaults of a model's fields are sound: finite, and dates and times only beside an import of `datetime`. */
  predicate SoundDefaults(schemas: seq<Entry>, m: Yaml) {
    FiniteDefaults(m) && (HasStamp(m) ==> DateTimeImport in PropertyImports(schemas))
  }

  /** The references found in the other schemas of the module. */
  function OtherDeps(schemas: seq<Entry>, k: nat): set<Dep>
    requires k < |schemas|
  {
    SchemaDeps(schemas[..k] + schemas[k + 1..])
  }

  /** Neither the schema nor its property table is itself taken for a reference. */
  predicate RefFree(m: Yaml) {
    !Has(m, "$ref") && (Get(m, "properties").Some? ==> !Has(Get(m, "properties").value, "$ref"))
  }

  // ---------------------------------------------------------------------
  // Every name used is imported
  // ---------------------------------------------------------------------

  lemma {:induction false} EntryDepsCover(entries: seq<Entry>, i: nat)
    requires i < |entries| && entries[i].value.Node?
    ensures VisitDeps(entries[i].value) <= EntryDeps(entries)
  {
    if i > 0 { EntryDepsCover(entries[1..], i - 1); }
  }

  lemma NodeDepsCover(y: Yaml, key: string)
    requires !Has(y, "$ref") && Get(y, key).Some? && Get(y, key).value.Node?
    ensures VisitDeps(Get(y, key).value) <= VisitDeps(y)
  {
    LookupFinds(y.entries, key);
    var i :| 0 <= i < |y.entries| && y.entries[i] == Entry(key, Get(y, key).value);
    EntryDepsCover(y.entries, i);
  }

  lemma {:induction false} EntryImportsCover(entries: seq<Entry>, required: Option<Yaml>, i: nat)
    requires i < |entries|
    ensures entries[i].key == "items" ==> VisitImports(entries[i].value) <= EntryImports(entries, required)
    ensures entries[i].key == "properties" && entries[i].value.Node?
      ==> PropertyImports(entries[i].value.entries) <= EntryImports(entries, required)
  {
    if i > 0 { EntryImportsCover(entries[1..], required, i - 1); }
  }

  lemma NodeImportsCover(y: Yaml, key: string)
    requires Get(y, key).Some?
    ensures key == "items" ==> VisitImports(Get(y, key).value) <= VisitImports(y)
    ensures key == "properties" && Get(y, key).value.Node?
      ==> PropertyImports(Get(y, key).value.entries) <= VisitImports(y)
  {
    LookupFinds(y.entries, key);
    var i :| 0 <= i < |y.entries| && y.entries[i] == Entry(key, Get(y, key).value);
    EntryImportsCover(y.entries, Get(y, "required"), i);
  }

  lemma {:induction false} PropertyImportsCover(properties: seq<Entry>, i: nat)
    requires i < |properties|
    ensures VisitImports(properties[i].value) <= PropertyImports(properties)
  {
    if i > 0 { PropertyImportsCover(properties[1..], i - 1); }
  }

  lemma {:induction false} SchemaDepsCover(schemas: seq<Entry>, i: nat)
    requires i < |schemas|
    ensures VisitDeps(schemas[i].value) <= SchemaDeps(schemas)
  {
    if i > 0 { SchemaDepsCover(schemas[1..], i - 1); }
  }

  /** At any nesting of arrays, a field that uses `datetime` in its type makes the import visitor find it. */
  lemma {:induction false} FieldTypeIsCovered(y: Yaml)
    ensures forall n :: n in TypeNames(FieldType(y)) ==>
      match n
      case Typing(name) => name in {"Optional", "Dict", "Any", "List"}
      case DateTimeName => DateTimeImport in VisitImports(y)
      case External(_) => true
      case Nowhere(_) => true
      case _ => false
    decreases y
  {
    hide OtherFile, Meant;
    if Has(y, "$ref") {
    } else if IsDateTime(y) {
    } else if TypeIs(y, "array") && Has(y, "items") {
      LookupSmaller(y.entries, "items");
      FieldTypeIsCovered(Get(y, "items").value);
      NodeImportsCover(y, "items");
    }
  }

  lemma NoReference()
    ensures DepOf(ParseRef("")) == {}
  {
  }

  /** At any nesting of arrays, what the generator makes of the references in a field's type is found by the dependency visitor. */
  lemma {:induction false} FieldRefsAreVisited(y: Yaml)
    ensures forall r :: r in RefsOf(FieldType(y)) ==> DepOf(ParseRef(r)) <= VisitDeps(y)
    decreases y
  {
    hide ParseRef, DepOf;
    NoReference();
    if Has(y, "$ref") {
    } else if IsDateTime(y) {
    } else if TypeIs(y, "array") && Has(y, "items") {
      var items := Get(y, "items").value;
      LookupSmaller(y.entries, "items");
      FieldRefsAreVisited(items);
      if items.Node? { NodeDepsCover(y, "items"); }
    }
  }

  // ----- names of types, defaults and models -----

  lemma {:induction false} TypeRefs(t: PyType)
    ensures forall d :: External(d) in TypeNames(t) <==> exists r :: r in RefsOf(t) && OtherFile(r) && Meant(r) == Some(d)
    ensures forall r :: Nowhere(r) in TypeNames(t) <==> r in RefsOf(t) && OtherFile(r) && Meant(r) == None
    ensures forall w :: Undefined(w) !in TypeNames(t)
  {
    hide OtherFile, Meant;
    match t
    case ListOf(item) => TypeRefs(item);
    case OptionalOf(inner) => TypeRefs(inner);
    case _ =>
  }

  lemma DefaultRefs(value: Default)
    ensures forall d :: External(d) !in DefaultNames(value)
    ensures forall r :: Nowhere(r) !in DefaultNames(value)
    ensures DateTimeName in DefaultNames(value) <==> value.Stamp?
    ensures (exists w :: Undefined(w) in DefaultNames(value)) <==> value.NonFinite?
    ensures forall n :: n in DefaultNames(value) ==> n == Pydantic("Field") || n.DateTimeName? || n.Undefined?
  {
    if value.NonFinite? { assert Undefined(value.word) in DefaultNames(value); }
  }

  lemma ModelReference(m: Yaml, r: string)
    ensures r in FieldRefs(m) ==> RefNames(r) <= ModelNames(m)
  {
    hide ModelFields, TypeNames, DefaultNames, RefsOf, OtherFile, Meant;
    if r in FieldRefs(m) {
      var f :| f in ModelFields(m) && r in RefsOf(f.pyType) && OtherFile(r);
      TypeRefs(f.pyType);
      assert forall n :: n in RefNames(r) ==> n in TypeNames(f.pyType) + DefaultNames(f.default);
    }
  }

  lemma ModelDefault(m: Yaml, f: Field)
    requires f in ModelFields(m)
    ensures f.default.Stamp? ==> DateTimeName in ModelNames(m)
    ensures f.default.NonFinite? ==> exists w :: Undefined(w) in ModelNames(m)
  {
    hide ModelFields, TypeNames, DefaultNames;
    DefaultRefs(f.default);
    assert forall n :: n in DefaultNames(f.default) ==> n in TypeNames(f.pyType) + DefaultNames(f.default);
  }

  /** Where each name of a model comes from. */
  predicate Accounted(m: Yaml, n: Name) {
    match n
    case Typing(name) => name in {"Optional", "Dict", "Any", "List"}
    case DateTimeName => DateTimeImport in VisitImports(m) || HasStamp(m)
    case External(d) => exists r :: r in FieldRefs(m) && Meant(r) == Some(d)
    case Nowhere(r) => r in FieldRefs(m) && Meant(r) == None
    case Undefined(_) => !FiniteDefaults(m)
    case Pydantic(name) => name in {"BaseModel", "Field"}
    case EnumName => false
  }

  lemma TypeAccounted(m: Yaml, i: nat, n: Name)
    requires i < |ModelFields(m)| && n in TypeNames(ModelFields(m)[i].pyType)
    ensures Accounted(m, n)
  {
    hide OtherFile, Meant, DefaultOf, VisitImports;
    var properties := Get(m, "properties").value;
    var def := properties.entries[i].value;
    FieldTypeIsCovered(def);
    NodeImportsCover(m, "properties");
    PropertyImportsCover(properties.entries, i);
    var f := ModelFields(m)[i];
    assert f in ModelFields(m);
    TypeRefs(f.pyType);
    hide FieldType, RefsOf, TypeNames, ModelFields, FieldsOf;
  }

  lemma OptionalCovered(t: PyType, n: Name)
    ensures n in TypeNames(OptionalOf(t)) ==> n == Typing("Optional") || n in TypeNames(t)
  {
  }

  lemma NameIsAccounted(m: Yaml, n: Name)
    requires n in ModelNames(m)
    ensures Accounted(m, n)
  {
    hide ModelFields, TypeNames, DefaultNames, VisitImports, FieldRefs;
    if n != Pydantic("BaseModel") {
      var f :| f in ModelFields(m) && n in TypeNames(f.pyType) + DefaultNames(f.default);
      var i :| 0 <= i < |ModelFields(m)| && ModelFields(m)[i] == f;
      if n in TypeNames(f.pyType) {
        TypeAccounted(m, i, n);
      } else {
        DefaultRefs(f.default);
      }
    }
  }

  // ----- what is imported -----

  lemma ImportedNames(schemas: seq<Entry>, n: Name)
    ensures n in Imported(schemas) <==>
      match n
      case Typing(name) => name in {"Optional", "Dict", "Any", "List"} && TypingImport in PropertyImports(schemas)
      case Pydantic(name) => name in {"BaseModel", "Field"} && PydanticImport in PropertyImports(schemas)
      case DateTimeName => DateTimeImport in PropertyImports(schemas)
      case EnumName => EnumImport in PropertyImports(schemas)
      case External(d) => d in SchemaDeps(schemas)
      case _ => false
  {
    hide PropertyImports, SchemaDeps;
    var imports := PropertyImports(schemas);
    assert n in NamesOf(imports) <==> exists i :: i in imports && n in ImportedBy(i);
    hide NamesOf;
    match n
    case Typing(_) => assert n in ImportedBy(TypingImport) || forall i :: n !in ImportedBy(i);
    case Pydantic(_) => assert n in ImportedBy(PydanticImport) || forall i :: n !in ImportedBy(i);
    case DateTimeName => assert n in ImportedBy(DateTimeImport);
    case EnumName => assert n in ImportedBy(EnumImport);
    case _ =>
  }

  /** Every reference of the fields into another file means a class that the dependency visitor meets somewhere. */
  predicate RefsAreFound(schemas: seq<Entry>, m: Yaml) {
    forall r :: r in FieldRefs(m) ==> Meant(r).Some? && Meant(r).value in SchemaDeps(schemas)
  }

  /**
   For any module and any emitted model: all its names are imported exactly if
   every reference of its fields into another file means a generated class that
   the dependency visitor meets somewhere, no default is an infinity or no
   number, and a date or time as default comes with `datetime` found.
   */
  lemma WellScopedExactlyWhen(schemas: seq<Entry>, k: nat)
    requires k < |schemas| && EmitsModel(schemas[k])
    ensures var m := schemas[k].value;
      ModelNames(m) <= Imported(schemas) <==> RefsAreFound(schemas, m) && SoundDefaults(schemas, m)
  {
    var m := schemas[k].value;
    PropertyImportsCover(schemas, k);
    assert PydanticImport in OwnImports(m) && TypingImport in OwnImports(m);
    assert PydanticImport in VisitImports(m) && TypingImport in VisitImports(m);
    hide VisitImports, PropertyImports, SchemaDeps, OwnImports, Imported, ModelNames, FieldRefs, OtherFile, Meant, ModelFields;
    if RefsAreFound(schemas, m) && SoundDefaults(schemas, m) {
      forall n | n in ModelNames(m) ensures n in Imported(schemas) {
        NameIsAccounted(m, n);
        ImportedNames(schemas, n);
      }
    }
    if ModelNames(m) <= Imported(schemas) {
      forall r | r in FieldRefs(m) ensures Meant(r).Some? && Meant(r).value in SchemaDeps(schemas) {
        FoundIfImported(schemas, m, r);
      }
      forall f | f in ModelFields(m) ensures !f.default.NonFinite? && (f.default.Stamp? ==> DateTimeImport in PropertyImports(schemas)) {
        ModelDefault(m, f);
        ImportedNames(schemas, DateTimeName);
        if w :| Undefined(w) in ModelNames(m) { ImportedNames(schemas, Undefined(w)); }
      }
    }
  }

  lemma FoundIfImported(schemas: seq<Entry>, m: Yaml, r: string)
    requires r in FieldRefs(m) && ModelNames(m) <= Imported(schemas)
    ensures Meant(r).Some? && Meant(r).value in SchemaDeps(schemas)
  {
    IsOtherFile(m, r);
    ModelReference(m, r);
    hide Imported, ModelNames, FieldRefs, OtherFile, Meant, SchemaDeps, PropertyImports;
    if Meant(r).Some? {
      ImportedNames(schemas, External(Meant(r).value));
    } else {
      ImportedNames(schemas, Nowhere(r));
    }
  }

  lemma IsOtherFile(m: Yaml, r: string)
    requires r in FieldRefs(m)
    ensures OtherFile(r)
  {
  }

  lemma {:induction false} SchemaDepsAppend(a: seq<Entry>, b: seq<Entry>)
    ensures SchemaDeps(a + b) == SchemaDeps(a) + SchemaDeps(b)
  {
    hide VisitDeps;
    if a == [] {
      assert a + b == b;
    } else {
      assert (a + b)[1..] == a[1..] + b;
      SchemaDepsAppend(a[1..], b);
    }
  }

  lemma SchemaDepsSplit(schemas: seq<Entry>, k: nat)
    requires k < |schemas|
    ensures SchemaDeps(schemas) == VisitDeps(schemas[k].value) + OtherDeps(schemas, k)
  {
    hide VisitDeps, SchemaDeps;
    var front, back := schemas[..k], schemas[k + 1..];
    var tail := [schemas[k]] + back;
    Around(schemas, k);
    SchemaDepsAppend(front, tail);
    SchemaDepsAppend([schemas[k]], back);
    SchemaDepsAppend(front, back);
    SchemaDepsOne(schemas[k]);
    Shuffle(SchemaDeps(front), VisitDeps(schemas[k].value), SchemaDeps(back));
  }

  lemma Around(schemas: seq<Entry>, k: nat)
    requires k < |schemas|
    ensures schemas == schemas[..k] + ([schemas[k]] + schemas[k + 1..])
  {
  }

  lemma Shuffle(a: set<Dep>, b: set<Dep>, c: set<Dep>)
    ensures a + (b + c) == b + (a + c)
  {
  }

  lemma SchemaDepsOne(e: Entry)
    ensures SchemaDeps([e]) == VisitDeps(e.value)
  {
    hide VisitDeps;
    assert [e][1..] == [] && SchemaDeps([]) == {};
  }

  /**
   Unless schema or property table look like a reference: exactly if every
   reference of the fields that the generator misreads means a class that is found
   all the same, and the defaults are sound.
   */
  lemma ModelsAreWellScopedExactlyWhen(schemas: seq<Entry>, k: nat)
    requires k < |schemas| && EmitsModel(schemas[k]) && RefFree(schemas[k].value)
    ensures var m := schemas[k].value;
      ModelNames(m) <= Imported(schemas)
      <==> && (forall r :: r in FieldRefs(m) && !Plain(r) ==> Meant(r).Some? && Meant(r).value in SchemaDeps(schemas))
           && SoundDefaults(schemas, m)
  {
    var m := schemas[k].value;
    hide VisitDeps, SchemaDeps, Imported, ModelNames, OtherDeps, FieldRefs, Meant, ParseRef, DepOf, SoundDefaults;
    WellScopedExactlyWhen(schemas, k);
    SchemaDepsSplit(schemas, k);
    forall r | r in FieldRefs(m) && Plain(r) ensures Meant(r).Some? && Meant(r).value in SchemaDeps(schemas) {
      FieldsAreVisited(m, r);
    }
  }

  lemma FieldsAreVisited(m: Yaml, r: string)
    requires RefFree(m) && r in FieldRefs(m)
    ensures DepOf(ParseRef(r)) <= VisitDeps(m)
  {
    hide VisitDeps, FieldType, RefsOf, DefaultOf, ParseRef, DepOf, OtherFile;
    var f :| f in ModelFields(m) && r in RefsOf(f.pyType) && OtherFile(r);
    var properties := Get(m, "properties").value;
    var i :| 0 <= i < |properties.entries| && ModelFields(m)[i] == f;
    FieldRefsAreVisited(properties.entries[i].value);
    NodeDepsCover(m, "properties");
    PropertyDeps(properties, i);
    NotANode(properties.entries[i].value);
    OptionalRefs(FieldType(properties.entries[i].value));
  }

  lemma NotANode(y: Yaml)
    ensures !y.Node? ==> VisitDeps(y) == {}
  {
  }

  lemma PropertyDeps(properties: Yaml, i: nat)
    requires properties.Node? && !Has(properties, "$ref") && i < |properties.entries|
    ensures properties.entries[i].value.Node? ==> VisitDeps(properties.entries[i].value) <= VisitDeps(properties)
  {
    if properties.entries[i].value.Node? { EntryDepsCover(properties.entries, i); }
  }

  lemma OptionalRefs(t: PyType)
    ensures RefsOf(OptionalOf(t)) == RefsOf(t)
  {
  }

  // ----- which references are plain -----

  lemma {:induction false} DropAtEnd(stem: string)
    requires forall i: nat :: !At(stem, i, ".yaml")
    ensures DropSuffixes(stem + ".yaml") == stem
  {
    var s := stem + ".yaml";
    if stem == "" {
      assert s == ".yaml" && s[5..] == "";
    } else {
      assert s[1..] == stem[1..] + ".yaml";
      NoSuffixAtStart(stem);
      forall i: nat ensures !At(stem[1..], i, ".yaml") {
        if i + 5 <= |stem| - 1 { assert stem[1..][i..i + 5] == stem[i + 1..i + 1 + 5]; }
        assert !At(stem, i + 1, ".yaml");
      }
      DropAtEnd(stem[1..]);
      assert [stem[0]] + stem[1..] == stem;
    }
  }

  /** The suffix cannot overlap with itself. */
  lemma NoSuffixAtStart(stem: string)
    requires stem != "" && !At(stem, 0, ".yaml")
    ensures var s := stem + ".yaml"; s[..5] != ".yaml"
  {
    var s := stem + ".yaml";
    if |stem| >= 5 {
      assert s[..5] == stem[0..5];
    } else {
      assert s[|stem|] == '.' && s[..5][|stem|] == s[|stem|];
      assert ".yaml"[|stem|] != '.';
    }
  }

  lemma {:induction false} UnderscoredLength(s: string)
    ensures |Underscored(s)| == |s|
  {
    if s != "" { UnderscoredLength(s[1..]); }
  }

  lemma UsualSplit(file: string, path: string)
    requires '#' !in file && '#' !in path
    ensures SplitOn(file + "#" + path, '#') == [file, path]
  {
    hide SplitOn;
    assert file + "#" + path == file + ['#'] + path;
    SplitFirst(file, path, '#');
    SplitAlone(path, '#');
  }

  lemma ParsedRef(ref: string, name: string, path: string)
    requires |ref| >= 2 && ref[..2] == "./" && SplitOn(ref, '#') == ["./" + name, path]
    ensures ParseRef(ref) == Ref(Some(Underscored(DropSuffixes(name))), LastPart(path))
  {
    hide SplitOn, LastPart, Underscored, DropSuffixes;
    assert ("./" + name)[2..] == name;
  }

  lemma NoSlashNoPrefix(s: string, part: string, i: nat)
    requires '/' !in s && i < |part| && part[i] == '/'
    ensures !At(s, 0, part)
  {
    if |part| <= |s| {
      assert s[0..|part|][i] == s[i];
    }
  }

  lemma UsualModule(stem: string)
    requires stem != "" && '/' !in stem
    ensures GeneratedModule("./" + (stem + ".yaml")) == Some(Underscored(stem))
  {
    hide Underscored, At;
    var name := stem + ".yaml";
    var file := "./" + name;
    assert '/' !in name;
    assert name[|name| - 5..] == ".yaml" && name[..|name| - 5] == stem;
    NoSlashNoPrefix(name, "./", 1);
    NoSlashNoPrefix(name, "../types/", 2);
    assert Normal(name) == name;
    PrefixDropped(name);
  }

  lemma PrefixDropped(name: string)
    ensures Normal("./" + name) == Normal(name)
  {
    assert ("./" + name)[0..2] == "./" && ("./" + name)[2..] == name;
  }

  /** `./stem.yaml#path`, with a stem that is just a file name, is plain and means the last part of its path. */
  lemma UsualReferencesArePlain(stem: string, path: string)
    requires stem != "" && '/' !in stem && '#' !in stem && '#' !in path && forall i: nat :: !At(stem, i, ".yaml")
    ensures var ref := "./" + (stem + ".yaml") + "#" + path;
      OtherFile(ref) && Plain(ref) && Meant(ref) == Some(Dep(Underscored(stem), LastPart(path)))
  {
    var name := stem + ".yaml";
    FileReference(name, path);
    UsualSplit("./" + name, path);
    DropAtEnd(stem);
    UnderscoredLength(stem);
    UsualModule(stem);
    PlainOf("./" + name + "#" + path, name, path, stem);
  }

  lemma FileReference(name: string, path: string)
    ensures var ref := "./" + name + "#" + path; |ref| >= 2 && ref[..2] == "./" && OtherFile(ref)
    ensures '#' !in name ==> '#' !in "./" + name
  {
  }

  lemma PlainOf(ref: string, name: string, path: string, stem: string)
    requires |ref| >= 2 && ref[..2] == "./" && SplitOn(ref, '#') == ["./" + name, path]
    requires DropSuffixes(name) == stem && GeneratedModule("./" + name) == Some(Underscored(stem)) && |Underscored(stem)| > 0
    ensures Plain(ref) && Meant(ref) == Some(Dep(Underscored(stem), LastPart(path)))
  {
    hide SplitOn, LastPart, Underscored, DropSuffixes, ParseRef, GeneratedModule;
    ParsedRef(ref, name, path);
  }

  // ----- schemas and property tables that look like references -----

  /**
   An emitted schema with a `$ref` beside its properties: its names are imported
   exactly if every reference of its fields into another file means that
   reference's class or one found in another schema of the module, and the
   defaults are sound.
   */
  lemma SiblingReferenceHidesFields(schemas: seq<Entry>, k: nat)
    requires k < |schemas| && EmitsModel(schemas[k]) && Has(schemas[k].value, "$ref")
    ensures var m := schemas[k].value;
      ModelNames(m) <= Imported(schemas)
      <==> && (forall r :: r in FieldRefs(m) ==> Meant(r).Some? && Meant(r).value in RefDep(m) + OtherDeps(schemas, k))
           && SoundDefaults(schemas, m)
  {
    WellScopedExactlyWhen(schemas, k);
    SchemaDepsSplit(schemas, k);
    assert VisitDeps(schemas[k].value) == RefDep(schemas[k].value);
    hide Imported, ModelNames, FieldRefs, SchemaDeps, RefDep, OtherDeps, Meant, SoundDefaults;
  }

  /** What generating a field demands of its definition: a dictionary whose references parse. */
  predicate FieldGenerates(y: Yaml)
    decreases y
  {
    y.Node? &&
    if Has(y, "$ref") then RefParses(y)
    else if TypeIs(y, "array") && Has(y, "items") then
      assert Get(y, "items").value < y by { LookupSmaller(y.entries, "items"); }
      FieldGenerates(Get(y, "items").value)
    else true
  }

  lemma {:induction false} VisitableEntry(entries: seq<Entry>, i: nat)
    requires i < |entries| && entries[i].value.Node? && VisitableEntries(entries)
    ensures Visitable(entries[i].value)
  {
    if i > 0 { VisitableEntry(entries[1..], i - 1); }
  }

  /**
   A property named `$ref`, without a `$ref` beside the properties, never gets as
   far as being written: the visitor raises, or the property's own definition does.
   */
  lemma PropertyNamedRefRaises(m: Yaml)
    requires m.Node? && !Has(m, "$ref") && Get(m, "properties").Some? && Has(Get(m, "properties").value, "$ref")
    ensures var properties := Get(m, "properties").value.entries;
      !Visitable(m) || exists i :: 0 <= i < |properties| && !FieldGenerates(properties[i].value)
  {
    var properties := Get(m, "properties").value;
    LookupFinds(m.entries, "properties");
    LookupFinds(properties.entries, "$ref");
    var i :| 0 <= i < |m.entries| && m.entries[i] == Entry("properties", properties);
    var j :| 0 <= j < |properties.entries| && properties.entries[j] == Entry("$ref", Get(properties, "$ref").value);
    if Visitable(m) {
      VisitableEntry(m.entries, i);
      assert !FieldGenerates(properties.entries[j].value);
    }
  }

  // ----- models that are not well scoped -----

  function ObjectSchema(fields: seq<Entry>, required: seq<Yaml>): Yaml {
    Node([Entry("type", Str("object")), Entry("required", Items(required)), Entry("properties", Node(fields))])
  }

  lemma LookupNext(e: Entry, rest: seq<Entry>, key: string)
    ensures Lookup([e] + rest, key) == if e.key == key then Some(e.value) else Lookup(rest, key)
  {
    assert ([e] + rest)[1..] == rest;
  }

  lemma LookupThree(a: Entry, b: Entry, c: Entry, key: string)
    ensures Lookup([a, b, c], key)
         == if a.key == key then Some(a.value) else if b.key == key then Some(b.value)
            else if c.key == key then Some(c.value) else None
  {
    assert [a, b, c] == [a] + [b, c] && [b, c] == [b] + [c] && [c] == [c] + [];
    LookupNext(a, [b, c], key);
    LookupNext(b, [c], key);
    LookupNext(c, [], key);
  }

  lemma ObjectSchemaParts(fields: seq<Entry>, required: seq<Yaml>, key: string)
    ensures Get(ObjectSchema(fields, required), key)
         == if key == "type" then Some(Str("object"))
            else if key == "required" then Some(Items(required))
            else if key == "properties" then Some(Node(fields))
            else None
  {
    LookupThree(Entry("type", Str("object")), Entry("required", Items(required)), Entry("properties", Node(fields)), key);
  }

  lemma OneFieldOnly(m: Yaml, e: Entry, required: Option<Yaml>)
    requires Get(m, "properties") == Some(Node([e])) && Get(m, "required") == required
    ensures ModelFields(m) == [FieldOf(e, Lists(required, e.key))]
    ensures e.key != "$ref" ==> !Has(Get(m, "properties").value, "$ref")
  {
    hide FieldOf;
    assert [e][1..] == [] && [e] == [e] + [];
    LookupNext(e, [], "$ref");
  }

  lemma OneField(field: string, def: Yaml, required: seq<Yaml>)
    ensures var m := ObjectSchema([Entry(field, def)], required);
      && ModelFields(m) == [FieldOf(Entry(field, def), Str(field) in required)]
      && EmitsModel(Entry("Model", m)) && (field != "$ref" ==> RefFree(m))
  {
    var properties := [Entry(field, def)];
    hide FieldOf, ModelFields;
    ObjectSchemaParts(properties, required, "type");
    ObjectSchemaParts(properties, required, "required");
    ObjectSchemaParts(properties, required, "properties");
    ObjectSchemaParts(properties, required, "enum");
    ObjectSchemaParts(properties, required, "$ref");
    hide ObjectSchema, Get;
    OneFieldOnly(ObjectSchema(properties, required), properties[0], Some(Items(required)));
    ModelIsNoHelper();
  }

  lemma ModelIsNoHelper()
    ensures !(|"Model"| >= 2 && "Model"[..2] == "x-") && "Model" != "TerminalStates"
  {
    assert "Model"[..2][0] == 'M' && "x-"[0] == 'x' && "TerminalStates"[0] == 'T';
  }

  /** A required date with a default, `{type: string, format: date, default: 2024-01-01}`. */
  function DateField(text: string): Yaml {
    Node([Entry("type", Str("string")), Entry("format", Str("date")), Entry("default", Timestamp(text))])
  }

  lemma DateFieldParts(text: string, key: string)
    ensures Get(DateField(text), key)
         == if key == "type" then Some(Str("string"))
            else if key == "format" then Some(Str("date"))
            else if key == "default" then Some(Timestamp(text))
            else None
  {
    LookupThree(Entry("type", Str("string")), Entry("format", Str("date")), Entry("default", Timestamp(text)), key);
  }

  lemma DateFieldImports(text: string, field: string)
    ensures DateTimeImport !in PropertyImports([Entry("Model", ObjectSchema([Entry(field, DateField(text))], [Str(field)]))])
  {
    var def := DateField(text);
    var m := ObjectSchema([Entry(field, def)], [Str(field)]);
    DateFieldParts(text, "format");
    ObjectSchemaParts([Entry(field, def)], [Str(field)], "format");
    PlainEntryImports(Entry("type", Str("string")), Entry("format", Str("date")), Entry("default", Timestamp(text)));
    assert DateTimeImport !in VisitImports(def);
    OnePropertyImports(Entry(field, def));
    ObjectImports([Entry(field, def)], [Str(field)]);
    OnePropertyImports(Entry("Model", m));
  }

  lemma OnePropertyImports(e: Entry)
    ensures PropertyImports([e]) == VisitImports(e.value)
  {
    hide VisitImports;
    assert [e][1..] == [] && PropertyImports([]) == {};
  }

  lemma EntryImportsNext(e: Entry, rest: seq<Entry>, required: Option<Yaml>)
    ensures EntryImports([e] + rest, required) == EntryImports([e], required) + EntryImports(rest, required)
  {
    hide VisitImports, ListImports, PropertyImports, HasOptional;
    assert ([e] + rest)[1..] == rest && [e][1..] == [] && EntryImports([], required) == {};
  }

  lemma PlainEntryImports(a: Entry, b: Entry, c: Entry)
    requires forall e :: e in [a, b, c] ==> !e.value.Node? && !e.value.Items? && e.key != "items" && e.key != "additionalProperties"
    ensures forall required :: EntryImports([a, b, c], required) == {}
  {
    forall required ensures EntryImports([a, b, c], required) == {} {
      assert [a, b, c] == [a] + ([b] + [c]);
      EntryImportsNext(a, [b] + [c], required);
      EntryImportsNext(b, [c], required);
      assert [a][1..] == [] && [b][1..] == [] && [c][1..] == [] && EntryImports([], required) == {};
      assert a in [a, b, c] && b in [a, b, c] && c in [a, b, c];
    }
  }

  lemma ObjectImports(fields: seq<Entry>, required: seq<Yaml>)
    requires |required| == 1 && required[0].Str? && DateTimeImport !in PropertyImports(fields)
    ensures DateTimeImport !in VisitImports(ObjectSchema(fields, required))
  {
    hide PropertyImports, HasOptional;
    var m := ObjectSchema(fields, required);
    var a, b, c := Entry("type", Str("object")), Entry("required", Items(required)), Entry("properties", Node(fields));
    ObjectSchemaParts(fields, required, "format");
    assert ListImports(required) == {} by {
      assert required[1..] == [] && ListImports([]) == {};
    }
    var r := Get(m, "required");
    assert [a, b, c] == [a] + ([b] + [c]);
    EntryImportsNext(a, [b] + [c], r);
    EntryImportsNext(b, [c], r);
    assert [a][1..] == [] && [b][1..] == [] && [c][1..] == [] && EntryImports([], r) == {};
    hide ListImports;
    assert DateTimeImport !in EntryImports([a], r);
    assert DateTimeImport !in EntryImports([b], r);
    assert DateTimeImport !in EntryImports([c], r);
  }

  /** A date as default, without any reference: `datetime` is used and not imported. */
  lemma DateDefaultExample(field: string, text: string)
    requires field != "$ref"
    ensures var m := ObjectSchema([Entry(field, DateField(text))], [Str(field)]);
      && EmitsModel(Entry("Model", m)) && RefFree(m) && FieldRefs(m) == {}
      && !(ModelNames(m) <= Imported([Entry("Model", m)]))
  {
    var def := DateField(text);
    var m := ObjectSchema([Entry(field, def)], [Str(field)]);
    OneField(field, def, [Str(field)]);
    DateFieldOf(field, text);
    DateFieldImports(text, field);
    hide DateField, ObjectSchema, ModelFields, FieldOf, PropertyImports, ModelNames, Imported, RefFree, EmitsModel, FieldRefs, HasStamp;
    StampedOnly(m, FieldOf(Entry(field, def), true));
    WellScopedExactlyWhen([Entry("Model", m)], 0);
  }

  lemma DateFieldOf(field: string, text: string)
    ensures var f := FieldOf(Entry(field, DateField(text)), true); f.pyType == Builtin("str") && f.default == Stamp(false)
  {
    DateFieldParts(text, "type");
    DateFieldParts(text, "format");
    DateFieldParts(text, "default");
    DateFieldParts(text, "nullable");
    DateFieldParts(text, "description");
    DateFieldParts(text, "items");
    DateFieldParts(text, "$ref");
    hide DateField, Get;
  }

  lemma StampedOnly(m: Yaml, f: Field)
    requires ModelFields(m) == [f] && f.pyType == Builtin("str") && f.default.Stamp?
    ensures FieldRefs(m) == {} && HasStamp(m)
  {
    hide ModelFields;
    assert f in ModelFields(m) && RefsOf(f.pyType) == {};
  }

  /** A field whose only content is a reference that the generator does not resolve: its type is used and not imported. */
  lemma UnresolvedReferenceExample(field: string, ref: string)
    requires field != "$ref" && OtherFile(ref) && DepOf(ParseRef(ref)) == {}
    ensures var m := ObjectSchema([Entry(field, Node([Entry("$ref", Str(ref))]))], [Str(field)]);
      && EmitsModel(Entry("Model", m)) && RefFree(m) && !(ModelNames(m) <= Imported([Entry("Model", m)]))
  {
    var def := Node([Entry("$ref", Str(ref))]);
    var m := ObjectSchema([Entry(field, def)], [Str(field)]);
    hide ParseRef, DepOf, OtherFile, Meant;
    OneField(field, def, [Str(field)]);
    assert [Entry("$ref", Str(ref))] == [Entry("$ref", Str(ref))] + [];
    LookupNext(Entry("$ref", Str(ref)), [], "$ref");
    ReferenceDeps(field, ref);
    hide ObjectSchema, ModelFields, SchemaDeps;
    var f := FieldOf(Entry(field, def), true);
    OptionalRefs(Referred(ref));
    assert f in ModelFields(m) && ref in RefsOf(f.pyType);
    assert ref in FieldRefs(m);
    WellScopedExactlyWhen([Entry("Model", m)], 0);
  }

  lemma ReferenceDeps(field: string, ref: string)
    requires DepOf(ParseRef(ref)) == {} && field != "$ref"
    ensures SchemaDeps([Entry("Model", ObjectSchema([Entry(field, Node([Entry("$ref", Str(ref))]))], [Str(field)]))]) == {}
  {
    var def := Node([Entry("$ref", Str(ref))]);
    var fields := [Entry(field, def)];
    var m := ObjectSchema(fields, [Str(field)]);
    var a, b, c := Entry("type", Str("object")), Entry("required", Items([Str(field)])), Entry("properties", Node(fields));
    hide ParseRef, DepOf;
    SchemaDepsOne(Entry("Model", m));
    ObjectSchemaParts(fields, [Str(field)], "$ref");
    assert VisitDeps(def) == {} by {
      assert [Entry("$ref", Str(ref))] == [Entry("$ref", Str(ref))] + [];
      LookupNext(Entry("$ref", Str(ref)), [], "$ref");
    }
    assert VisitDeps(Node(fields)) == {} by {
      assert fields == fields + [];
      LookupNext(fields[0], [], "$ref");
      assert fields[1..] == [] && EntryDeps([]) == {};
      hide VisitDeps;
    }
    assert ListDeps([Str(field)]) == {} by {
      assert [Str(field)][1..] == [] && ListDeps([]) == {};
    }
    assert EntryDeps([a, b, c]) == {} by {
      hide VisitDeps, ListDeps;
      assert [a, b, c][1..] == [b, c] && [b, c][1..] == [c] && [c][1..] == [] && EntryDeps([]) == {};
      assert EntryDeps([c]) == {};
      assert EntryDeps([b, c]) == {};
    }
  }

  /** A file given without `./`, such as `evaluation-status.yaml#/components/schemas/EvaluationStatus`, is not resolved. */
  lemma UnprefixedIsUnresolved(ref: string)
    requires OtherFile(ref) && !At(ref, 0, "./")
    ensures DepOf(ParseRef(ref)) == {}
  {
    hide LastPart, SplitOn;
    if |ref| >= 2 { assert ref[..2] == ref[0..2]; }
  }

  /** Neither is a file without a name. */
  lemma NamelessIsUnresolved(path: string)
    requires '#' !in path
    ensures OtherFile("./.yaml#" + path) && DepOf(ParseRef("./.yaml#" + path)) == {}
  {
    var file := "./.yaml";
    var ref := "./.yaml#" + path;
    assert ref == file + ['#'] + path;
    SplitFirst(file, path, '#');
    SplitAlone(path, '#');
    assert SplitOn(ref, '#') == [file, path];
    hide SplitOn, LastPart;
    assert file[2..] == ".yaml" && ref[..2] == "./";
    DropAtEnd("");
    assert "" + ".yaml" == ".yaml" && Underscored("") == "";
  }

  /** One field and a sibling `$ref`: the model is well scoped exactly if the field's reference stays in its file, or the sibling's is of the class it means. */
  lemma SiblingReferenceExample(ref: string, field: string, target: string)
    ensures var m := Node([Entry("type", Str("object")), Entry("$ref", Str(ref)),
                           Entry("properties", Node([Entry(field, Node([Entry("$ref", Str(target))]))]))]);
      && EmitsModel(Entry("Model", m))
      && (ModelNames(m) <= Imported([Entry("Model", m)])
          <==> (OtherFile(target) ==> Meant(target).Some? && Meant(target).value in DepOf(ParseRef(ref))))
  {
    var def := Node([Entry("$ref", Str(target))]);
    var fields := [Entry(field, def)];
    var m := Node([Entry("type", Str("object")), Entry("$ref", Str(ref)), Entry("properties", Node(fields))]);
    var schemas := [Entry("Model", m)];
    hide ParseRef, DepOf, OtherFile, Meant, ModelFields, FieldOf, ModelNames, Imported, FieldRefs, HasStamp, FiniteDefaults;
    SiblingParts(ref, fields);
    OneFieldOnly(m, fields[0], None);
    ModelIsNoHelper();
    hide Get;
    ReferenceField(field, target);
    ReferredOnly(m, FieldOf(fields[0], false), target);
    assert schemas[..0] + schemas[1..] == [];
    SiblingReferenceHidesFields(schemas, 0);
  }

  lemma SiblingParts(ref: string, fields: seq<Entry>)
    ensures var m := Node([Entry("type", Str("object")), Entry("$ref", Str(ref)), Entry("properties", Node(fields))]);
      && Get(m, "type") == Some(Str("object")) && Get(m, "$ref") == Some(Str(ref)) && Get(m, "properties") == Some(Node(fields))
      && Get(m, "enum") == None && Get(m, "required") == None
  {
    var a, b, c := Entry("type", Str("object")), Entry("$ref", Str(ref)), Entry("properties", Node(fields));
    LookupThree(a, b, c, "type");
    LookupThree(a, b, c, "$ref");
    LookupThree(a, b, c, "properties");
    LookupThree(a, b, c, "enum");
    LookupThree(a, b, c, "required");
    hide Lookup;
  }

  lemma ReferenceField(field: string, target: string)
    ensures var f := FieldOf(Entry(field, Node([Entry("$ref", Str(target))])), false);
      f.pyType == OptionalOf(Referred(target)) && f.default == NoneValue(false)
  {
    var entries := [Entry("$ref", Str(target))];
    assert entries == [entries[0]] + [];
    LookupNext(entries[0], [], "$ref");
    LookupNext(entries[0], [], "default");
    LookupNext(entries[0], [], "nullable");
    LookupNext(entries[0], [], "description");
  }

  lemma ReferredOnly(m: Yaml, f: Field, target: string)
    requires ModelFields(m) == [f] && f.pyType == OptionalOf(Referred(target)) && f.default == NoneValue(false)
    ensures FieldRefs(m) == (if OtherFile(target) then {target} else {}) && !HasStamp(m) && FiniteDefaults(m)
  {
    hide ModelFields, OtherFile;
    assert f in ModelFields(m);
    OptionalRefs(Referred(target));
    assert RefsOf(f.pyType) == {target};
  }
}
