/**
 The slide editor: it prints a slide as markdown with a frontmatter block and,
 on save, parses the edited text back into a slide.
 */
module SlideEditor {
  import opened Common
  import opened Decimal
  import opened Strings

  datatype Slide = Slide(title: string, duration: int, tags: seq<string>, description: string, content: string)

  /** What a frontmatter value can become. */
  datatype Value = Text(text: string) | Num(number: int) | List(items: seq<string>)

  datatype Parsed = Parsed(front: map<string, Value>, content: string)

  // ----- characters -----

  predicate IsWord(c: char) {
    'a' <= c <= 'z' || 'A' <= c <= 'Z' || '0' <= c <= '9' || c == '_'
  }

  predicate IsQuote(c: char) {
    c == '"' || c == '\''
  }

  predicate SingleLine(s: string) {
    forall i :: 0 <= i < |s| ==> !IsTerminator(s[i])
  }

  // ----- the printer -----

  function Quoted(s: string): string {
    "\"" + s + "\""
  }

  /** `tags.map(t => "…").join(', ')` */
  function TagList(tags: seq<string>): string {
    if tags == [] then ""
    else if |tags| == 1 then Quoted(tags[0])
    else Quoted(tags[0]) + ", " + TagList(tags[1..])
  }

  function TitleLine(s: Slide): string { "title" + ": " + Quoted(s.title) }
  function DurationLine(s: Slide): string { "duration" + ": " + Show(s.duration) }
  function TagsLine(s: Slide): string { "tags" + ": " + RawTags(s) }
  function DescriptionLine(s: Slide): string {
    if s.description != "" then "description" + ": " + Quoted(s.description) else ""
  }

  function Above(line: string, rest: string): string {
    line + "\n" + rest
  }

  function Print(s: Slide): string {
    Above(FENCE, Above(TitleLine(s), Above(DurationLine(s), Above(TagsLine(s), Above(DescriptionLine(s),
      Above(FENCE, Above("", s.content)))))))
  }

  /** The file `saveSlide` writes: no empty line in place of a missing description. */
  function SaveText(s: Slide): string {
    if s.description != "" then Print(s) else
      Above(FENCE, Above(TitleLine(s), Above(DurationLine(s), Above(TagsLine(s), Above(FENCE, Above("", s.content))))))
  }

  // ----- the parser -----

  const FENCE := "---"

  function FenceFrom(lines: seq<string>, from: nat): (k: nat)
    requires from <= |lines|
    ensures from <= k <= |lines|
    ensures forall i :: from <= i < k ==> lines[i] != FENCE
    ensures k < |lines| ==> lines[k] == FENCE
    decreases |lines| - from
  {
    if from == |lines| || lines[from] == FENCE then from else FenceFrom(lines, from + 1)
  }

  /** Between the first and the second fence. */
  function FrontLines(lines: seq<string>): seq<string> {
    var open := FenceFrom(lines, 0);
    if open == |lines| then [] else lines[open + 1..FenceFrom(lines, open + 1)]
  }

  /** Everything after the second fence, further fences included. */
  function BodyLines(lines: seq<string>): seq<string> {
    var open := FenceFrom(lines, 0);
    if open == |lines| then [] else
      var close := FenceFrom(lines, open + 1);
      if close == |lines| then [] else lines[close + 1..]
  }

  function WordLength(s: string): (n: nat)
    ensures n <= |s|
  {
    if s == "" || !IsWord(s[0]) then 0 else 1 + WordLength(s[1..])
  }

  /**
   The groups of `^(\w+):\s*(.+)$`, the second one trimmed. `\s*` takes all
   leading white space unless nothing were left for `.+`.
   */
  function MatchLine(line: string): Option<(string, string)> {
    var n := WordLength(line);
    if n == 0 || n == |line| || line[n] != ':' then None else
      var rest := line[n + 1..];
      var v := TrimLeft(rest);
      if rest == "" || (if v != "" then !SingleLine(v) else IsTerminator(rest[|rest| - 1])) then None
      else Some((line[..n], Trim(rest)))
  }

  predicate Enclosed(s: string, open: char, close: char) {
    s != "" && s[0] == open && s[|s| - 1] == close
  }

  /** `slice(1, -1)` */
  function Inner(s: string): string {
    if |s| >= 2 then s[1..|s| - 1] else ""
  }

  function StripQuotes(s: string): string {
    var t := if s != "" && IsQuote(s[0]) then s[1..] else s;
    if t != "" && IsQuote(t[|t| - 1]) then t[..|t| - 1] else t
  }

  function CleanItems(parts: seq<string>): (r: seq<string>)
    ensures |r| == |parts|
  {
    if parts == [] then [] else [StripQuotes(Trim(parts[0]))] + CleanItems(parts[1..])
  }

  function ParseValue(raw: string): Value {
    if Enclosed(raw, '[', ']') then List(CleanItems(SplitOn(Inner(raw), ',')))
    else if Enclosed(raw, '"', '"') then Text(Inner(raw))
    else if raw == "" then Num(0)
    else if Read(raw) != None then Num(Read(raw).value)
    else Text(raw)
  }

  function Front(lines: seq<string>): map<string, Value> {
    if lines == [] then map[] else
      var before := Front(lines[..|lines| - 1]);
      var m := MatchLine(lines[|lines| - 1]);
      if m == None then before else before[m.value.0 := ParseValue(m.value.1)]
  }

  function ReadText(text: string): Parsed {
    var lines := SplitOn(text, '\n');
    Parsed(Front(FrontLines(lines)), Trim(JoinWith(BodyLines(lines), '\n')))
  }

  /** The save loop over the lines: two fences open and close the frontmatter. */
  method ScanLines(lines: seq<string>) returns (front: seq<string>, body: seq<string>)
    ensures front == FrontLines(lines) && body == BodyLines(lines)
  {
    hide FenceFrom;
    var inFront, fences := false, 0;
    front, body := [], [];
    ghost var open, close := FenceFrom(lines, 0), |lines|;
    if open < |lines| {
      close := FenceFrom(lines, open + 1);
    }
    for i := 0 to |lines|
      invariant i <= open ==> fences == 0 && !inFront && front == [] && body == []
      invariant open < i <= close ==> fences == 1 && inFront && front == lines[open + 1..i] && body == []
      invariant close < i ==> fences >= 2 && !inFront && front == lines[open + 1..close] && body == lines[close + 1..i]
    {
      var line := lines[i];
      if line == FENCE {
        fences := fences + 1;
        if fences == 2 {
          inFront := false;
          continue;
        } else if fences == 1 {
          inFront := true;
          continue;
        }
      }
      if inFront {
        front := front + [line];
      } else if fences >= 2 {
        body := body + [line];
        assert lines[close + 1..i] + [line] == lines[close + 1..i + 1];
      }
    }
  }

  method ParseFrontmatter(lines: seq<string>) returns (front: map<string, Value>)
    ensures front == Front(lines)
  {
    front := map[];
    for i := 0 to |lines|
      invariant front == Front(lines[..i])
    {
      assert lines[..i + 1][..i] == lines[..i];
      var m := MatchLine(lines[i]);
      if m.Some? {
        front := front[m.value.0 := ParseValue(m.value.1)];
      }
    }
    assert lines[..|lines|] == lines;
  }

  /** JavaScript's `a || b` on an optional value. */
  function Or(v: Option<Value>, other: Value): Value {
    if v == None || v.value == Text("") || v.value == Num(0) then other else v.value
  }

  function Field(front: map<string, Value>, key: string): Option<Value> {
    if key in front then Some(front[key]) else None
  }

  const SECTION_BREAK := "\n---\n"

  /** The trimmed parts that are not blank. */
  function NonBlank(parts: seq<string>): seq<string> {
    if parts == [] then [] else
      var t := Trim(parts[0]);
      (if t != "" then [t] else []) + NonBlank(parts[1..])
  }

  function Sections(markdown: string): seq<string> {
    NonBlank(SplitText(markdown, SECTION_BREAK))
  }

  datatype Saved = Saved(title: Value, duration: Value, tags: seq<string>, description: Value,
                         content: string, sections: seq<string>)

  function HandleSaveOf(text: string, edited: Slide): Saved {
    var p := ReadText(text);
    Saved(Or(Field(p.front, "title"), Text(edited.title)),
          Or(Field(p.front, "duration"), Num(edited.duration)),
          if "tags" in p.front && p.front["tags"].List? then p.front["tags"].items else edited.tags,
          if "description" in p.front then p.front["description"] else Text(edited.description),
          p.content, Sections(p.content))
  }

  method HandleSave(text: string, edited: Slide) returns (saved: Saved)
    ensures saved == HandleSaveOf(text, edited)
  {
    var frontLines, bodyLines := ScanLines(SplitOn(text, '\n'));
    var front := ParseFrontmatter(frontLines);
    var tags := edited.tags;
    if "tags" in front && front["tags"].List? {
      tags := front["tags"].items;
    }
    var description := Text(edited.description);
    if "description" in front {
      description := front["description"];
    }
    var markdown := Trim(JoinWith(bodyLines, '\n'));
    saved := Saved(Or(Field(front, "title"), Text(edited.title)), Or(Field(front, "duration"), Num(edited.duration)),
                   tags, description, markdown, Sections(markdown));
  }

  lemma {:induction false} NonBlankBare(parts: seq<string>)
    ensures forall i :: 0 <= i < |NonBlank(parts)| ==> Bare(NonBlank(parts)[i])
  {
    hide Trim, Bare;
    if parts != [] {
      NonBlankBare(parts[1..]);
      TrimmedBare(parts[0]);
    }
  }

  /**
   The sections are the non-blank ones, trimmed, of the pieces that the section
   breaks cut the content into: joined by breaks the pieces are the content, and
   none holds a break itself.
   */
  lemma SectionsCoverContent(markdown: string)
    ensures exists pieces :: pieces != [] && Sections(markdown) == NonBlank(pieces) && JoinText(pieces, SECTION_BREAK) == markdown
              && forall i, j: nat :: 0 <= i < |pieces| ==> !At(pieces[i], j, SECTION_BREAK)
    ensures forall i :: 0 <= i < |Sections(markdown)| ==> Bare(Sections(markdown)[i])
  {
    hide SplitText, At, NonBlank, JoinText, Bare;
    var pieces := SplitText(markdown, SECTION_BREAK);
    JoinSplitText(markdown, SECTION_BREAK);
    NonBlankBare(pieces);
    forall i, j: nat | 0 <= i < |pieces| ensures !At(pieces[i], j, SECTION_BREAK) {
      PiecesAreFree(markdown, SECTION_BREAK, i, j);
    }
  }

  // ---------------------------------------------------------------------
  // Round trip
  // ---------------------------------------------------------------------

  lemma {:induction false} WordThenColon(key: string, rest: string)
    requires forall i :: 0 <= i < |key| ==> IsWord(key[i])
    ensures WordLength(key + ":" + rest) == |key|
  {
    var s := key + ":" + rest;
    if key != "" {
      assert s[1..] == key[1..] + ":" + rest;
      WordThenColon(key[1..], rest);
    }
  }

  /** A line of the form `key: value`. */
  lemma MatchKeyLine(key: string, core: string)
    requires key != "" && forall i :: 0 <= i < |key| ==> IsWord(key[i])
    requires Bare(core) && SingleLine(core)
    ensures MatchLine(key + ": " + core) == Some((key, core))
  {
    hide WordLength, TrimLeft, TrimRight, Trim, IsWhite;
    var line := key + ": " + core;
    assert line == key + ":" + (" " + core);
    WordThenColon(key, " " + core);
    assert line[|key| + 1..] == " " + core && line[..|key|] == key;
    TrimBare(core);
  }

  lemma {:induction false} TagListEnds(tags: seq<string>)
    requires tags != []
    ensures |TagList(tags)| >= 2
    ensures (forall i :: 0 <= i < |tags| ==> SingleLine(tags[i])) ==> SingleLine(TagList(tags))
    decreases |tags|
  {
    if |tags| > 1 {
      TagListEnds(tags[1..]);
      if forall i :: 0 <= i < |tags| ==> SingleLine(tags[i]) {
        assert SingleLine(tags[0]);
        assert forall i :: 0 <= i < |tags| - 1 ==> tags[1..][i] == tags[i + 1];
      }
    }
  }

  lemma StripQuoted(tag: string)
    ensures StripQuotes(Quoted(tag)) == tag
  {
    var t := Quoted(tag)[1..];
    assert t == tag + "\"" && t[..|t| - 1] == tag;
  }

  lemma CleanCons(part: string, parts: seq<string>)
    ensures CleanItems([part] + parts) == [StripQuotes(Trim(part))] + CleanItems(parts)
  {
    assert ([part] + parts)[1..] == parts;
  }

  lemma CleanQuoted(tag: string)
    ensures StripQuotes(Trim(Quoted(tag))) == tag && StripQuotes(Trim(" " + Quoted(tag))) == tag
  {
    TrimBare(Quoted(tag));
    StripQuoted(tag);
  }

  predicate CommaFree(tags: seq<string>) {
    forall i :: 0 <= i < |tags| ==> ',' !in tags[i]
  }

  lemma {:induction false} TagsComeBack(lead: string, tags: seq<string>)
    requires (lead == "" || lead == " ") && tags != [] && CommaFree(tags)
    ensures CleanItems(SplitOn(lead + TagList(tags), ',')) == tags
    decreases |tags|
  {
    hide Trim, StripQuotes, SplitOn, CleanItems;
    var first := lead + Quoted(tags[0]);
    assert StripQuotes(Trim(first)) == tags[0] by {
      CleanQuoted(tags[0]);
      assert "" + Quoted(tags[0]) == Quoted(tags[0]);
    }
    assert ',' !in first;
    if |tags| == 1 {
      SplitAlone(first, ',');
      CleanCons(first, []);
      assert [first] + [] == [first];
    } else {
      var rest := " " + TagList(tags[1..]);
      assert lead + TagList(tags) == first + [','] + rest;
      SplitFirst(first, rest, ',');
      TagsComeBack(" ", tags[1..]);
      CleanCons(first, SplitOn(rest, ','));
    }
  }

  function Commas(s: string): nat {
    if s == "" then 0 else (if s[0] == ',' then 1 else 0) + Commas(s[1..])
  }

  lemma {:induction false} PieceCount(s: string)
    ensures |SplitOn(s, ',')| == 1 + Commas(s)
  {
    if s != "" { PieceCount(s[1..]); }
  }

  lemma {:induction false} CommasAppend(a: string, b: string)
    ensures Commas(a + b) == Commas(a) + Commas(b)
  {
    if a == "" {
      assert a + b == b;
    } else {
      assert (a + b)[1..] == a[1..] + b;
      CommasAppend(a[1..], b);
    }
  }

  lemma {:induction false} CommasIn(s: string)
    requires ',' in s
    ensures Commas(s) >= 1
  {
    if s[0] != ',' {
      assert ',' in s[1..];
      CommasIn(s[1..]);
    }
  }

  lemma QuotedCommas(s: string)
    ensures Commas(Quoted(s)) == Commas(s)
  {
    CommasAppend("\"" + s, "\"");
    CommasAppend("\"", s);
    assert "\""[1..] == "";
  }

  lemma {:induction false} TagListCommas(tags: seq<string>)
    requires tags != []
    ensures Commas(TagList(tags)) >= |tags| - 1
    ensures !CommaFree(tags) ==> Commas(TagList(tags)) >= |tags|
    decreases |tags|
  {
    QuotedCommas(tags[0]);
    if ',' in tags[0] { CommasIn(tags[0]); }
    if |tags| > 1 {
      TagListCommas(tags[1..]);
      var rest := TagList(tags[1..]);
      assert TagList(tags) == Quoted(tags[0]) + (", " + rest);
      CommasAppend(Quoted(tags[0]), ", " + rest);
      CommasAppend(", ", rest);
      assert ", "[1..] == " " && " "[1..] == "" && Commas(", ") == 1;
      if !CommaFree(tags) && ',' !in tags[0] {
        var i :| 0 <= i < |tags| && ',' in tags[i];
        assert tags[1..][i - 1] == tags[i];
      }
    }
  }

  /** The bracketed list comes back exactly when it is non-empty and no tag holds a comma. */
  lemma TagsComeBackExactlyWhen(tags: seq<string>)
    ensures ParseValue("[" + TagList(tags) + "]") == List(tags) <==> tags != [] && CommaFree(tags)
  {
    var raw := "[" + TagList(tags) + "]";
    assert Inner(raw) == TagList(tags);
    PieceCount(TagList(tags));
    if tags == [] {
    } else if CommaFree(tags) {
      assert "" + TagList(tags) == TagList(tags);
      TagsComeBack("", tags);
    } else {
      TagListCommas(tags);
    }
  }

  /** Every field is on one line. */
  predicate OneLiners(s: Slide) {
    SingleLine(s.title) && SingleLine(s.description) && forall i :: 0 <= i < |s.tags| ==> SingleLine(s.tags[i])
  }

  predicate Printable(s: Slide) {
    OneLiners(s) && s.tags != [] && CommaFree(s.tags)
  }

  function RawTags(s: Slide): string {
    "[" + TagList(s.tags) + "]"
  }

  function ExpectedFront(s: Slide): map<string, Value> {
    var front := map["title" := Text(s.title), "duration" := Num(s.duration), "tags" := ParseValue(RawTags(s))];
    if s.description != "" then front["description" := Text(s.description)] else front
  }

  lemma QuotedValue(s: string)
    requires SingleLine(s)
    ensures Bare(Quoted(s)) && SingleLine(Quoted(s)) && ParseValue(Quoted(s)) == Text(s)
  {
    assert Inner(Quoted(s)) == s;
  }

  lemma NumberValue(n: int)
    ensures Bare(Show(n)) && SingleLine(Show(n)) && ParseValue(Show(n)) == Num(n)
  {
    hide Digits, ParseDigits;
    ReadShow(n);
  }

  lemma FrontSnoc(lines: seq<string>, key: string, core: string)
    requires key != "" && (forall i :: 0 <= i < |key| ==> IsWord(key[i])) && Bare(core) && SingleLine(core)
    ensures Front(lines + [key + ": " + core]) == Front(lines)[key := ParseValue(core)]
  {
    hide MatchLine, ParseValue, Bare, SingleLine;
    MatchKeyLine(key, core);
    assert (lines + [key + ": " + core])[..|lines|] == lines;
  }

  lemma RawTagsFit(s: Slide)
    requires OneLiners(s)
    ensures Bare(RawTags(s)) && SingleLine(RawTags(s))
  {
    if s.tags != [] { TagListEnds(s.tags); }
  }

  lemma FrontNil()
    ensures Front([]) == map[]
  {
  }

  lemma FrontOfThree(s: Slide)
    requires OneLiners(s)
    ensures Front([TitleLine(s), DurationLine(s), TagsLine(s)])
         == map["title" := Text(s.title), "duration" := Num(s.duration), "tags" := ParseValue(RawTags(s))]
  {
    hide MatchLine, ParseValue, Show, Quoted, Bare, SingleLine, RawTags, Front;
    QuotedValue(s.title);
    NumberValue(s.duration);
    RawTagsFit(s);
    FrontSnoc([], "title", Quoted(s.title));
    FrontNil();
    assert [] + [TitleLine(s)] == [TitleLine(s)];
    FrontSnoc([TitleLine(s)], "duration", Show(s.duration));
    assert [TitleLine(s)] + [DurationLine(s)] == [TitleLine(s), DurationLine(s)];
    FrontSnoc([TitleLine(s), DurationLine(s)], "tags", RawTags(s));
    assert [TitleLine(s), DurationLine(s)] + [TagsLine(s)] == [TitleLine(s), DurationLine(s), TagsLine(s)];
  }

  lemma FrontBlank(lines: seq<string>)
    ensures Front(lines + [""]) == Front(lines)
  {
    assert (lines + [""])[..|lines|] == lines;
  }

  lemma FrontOfFour(s: Slide)
    requires OneLiners(s)
    ensures Front([TitleLine(s), DurationLine(s), TagsLine(s)] + [DescriptionLine(s)]) == ExpectedFront(s)
  {
    hide MatchLine, ParseValue, Show, Quoted, Bare, SingleLine, RawTags, Front;
    var three := [TitleLine(s), DurationLine(s), TagsLine(s)];
    FrontOfThree(s);
    if s.description != "" {
      QuotedValue(s.description);
      FrontSnoc(three, "description", Quoted(s.description));
    } else {
      FrontBlank(three);
    }
  }

  predicate PlainLine(line: string) {
    line != FENCE && '\n' !in line
  }

  lemma PlainLines(s: Slide)
    requires OneLiners(s)
    ensures PlainLine(TitleLine(s)) && PlainLine(DurationLine(s)) && PlainLine(TagsLine(s)) && PlainLine(DescriptionLine(s))
  {
    hide Show, TagList, Bare;
    RawTagsFit(s);
    NumberValue(s.duration);
    assert TitleLine(s)[0] == 't' && DurationLine(s)[0] == 'd' && TagsLine(s)[0] == 't';
    if s.description != "" { assert DescriptionLine(s)[0] == 'd'; }
  }

  lemma BlankThenContent(content: string)
    ensures Trim("\n" + content) == Trim(content)
  {
    assert ("\n" + content)[1..] == content;
  }

  /** A text whose frontmatter is `front` and whose body starts with an empty line. */
  lemma LayoutReads(front: seq<string>, content: string, text: string)
    requires FENCE !in front
    requires SplitOn(text, '\n') == [FENCE] + front + [FENCE, ""] + SplitOn(content, '\n')
    ensures ReadText(text) == Parsed(Front(front), Trim(content))
  {
    hide SplitOn, Trim, Front, JoinWith, FenceFrom;
    var lines := SplitOn(text, '\n');
    var n := |front|;
    var body := [""] + SplitOn(content, '\n');
    assert lines == [FENCE] + front + [FENCE] + body;
    FenceAfter(front, body, lines);
    assert FrontLines(lines) == front && BodyLines(lines) == body;
    JoinSplit(content, '\n');
    JoinBlank(SplitOn(content, '\n'));
    BlankThenContent(content);
  }

  lemma JoinBlank(parts: seq<string>)
    requires parts != []
    ensures JoinWith([""] + parts, '\n') == "\n" + JoinWith(parts, '\n')
  {
    assert ([""] + parts)[1..] == parts;
    assert "" + ['\n'] == "\n";
  }

  lemma FenceAfter(front: seq<string>, body: seq<string>, lines: seq<string>)
    requires FENCE !in front && lines == [FENCE] + front + [FENCE] + body
    ensures FenceFrom(lines, 0) == 0 && FenceFrom(lines, 1) == |front| + 1
  {
    assert lines[|front| + 1] == FENCE;
    assert forall i :: 1 <= i <= |front| ==> lines[i] == front[i - 1];
  }

  lemma AboveSplits(line: string, rest: string)
    requires '\n' !in line
    ensures SplitOn(Above(line, rest), '\n') == [line] + SplitOn(rest, '\n')
  {
    SplitFirst(line, rest, '\n');
    assert Above(line, rest) == line + ['\n'] + rest;
  }

  lemma HeadSplits(s: Slide, tail: string)
    requires OneLiners(s)
    ensures SplitOn(Above(FENCE, Above(TitleLine(s), Above(DurationLine(s), Above(TagsLine(s), tail)))), '\n')
         == [FENCE, TitleLine(s), DurationLine(s), TagsLine(s)] + SplitOn(tail, '\n')
  {
    hide SplitOn, TitleLine, DurationLine, TagsLine, Above, OneLiners;
    PlainLines(s);
    AboveSplits(TagsLine(s), tail);
    AboveSplits(DurationLine(s), Above(TagsLine(s), tail));
    AboveSplits(TitleLine(s), Above(DurationLine(s), Above(TagsLine(s), tail)));
    AboveSplits(FENCE, Above(TitleLine(s), Above(DurationLine(s), Above(TagsLine(s), tail))));
    Prepended(FENCE, TitleLine(s), DurationLine(s), TagsLine(s), SplitOn(tail, '\n'));
  }

  lemma Prepended(a: string, b: string, c: string, d: string, rest: seq<string>)
    ensures [a] + ([b] + ([c] + ([d] + rest))) == [a, b, c, d] + rest
  {
  }

  lemma TailSplits(content: string)
    ensures SplitOn(Above(FENCE, Above("", content)), '\n') == [FENCE, ""] + SplitOn(content, '\n')
  {
    AboveSplits("", content);
    AboveSplits(FENCE, Above("", content));
  }

  lemma PrintReads(s: Slide)
    requires OneLiners(s)
    ensures ReadText(Print(s)) == Parsed(ExpectedFront(s), Trim(s.content))
  {
    hide SplitOn, ReadText, Front, Trim, OneLiners, ExpectedFront, TitleLine, DurationLine, TagsLine, DescriptionLine, Above;
    var three := [TitleLine(s), DurationLine(s), TagsLine(s)];
    var tail := Above(FENCE, Above("", s.content));
    PlainLines(s);
    HeadSplits(s, Above(DescriptionLine(s), tail));
    AboveSplits(DescriptionLine(s), tail);
    TailSplits(s.content);
    assert SplitOn(Print(s), '\n') == [FENCE] + (three + [DescriptionLine(s)]) + [FENCE, ""] + SplitOn(s.content, '\n');
    FrontOfFour(s);
    LayoutReads(three + [DescriptionLine(s)], s.content, Print(s));
  }

  lemma SaveTextReads(s: Slide)
    requires OneLiners(s) && s.description == ""
    ensures ReadText(SaveText(s)) == Parsed(ExpectedFront(s), Trim(s.content))
  {
    hide SplitOn, ReadText, Front, Trim, OneLiners, TitleLine, DurationLine, TagsLine, DescriptionLine, Above;
    var three := [TitleLine(s), DurationLine(s), TagsLine(s)];
    PlainLines(s);
    HeadSplits(s, Above(FENCE, Above("", s.content)));
    TailSplits(s.content);
    assert SplitOn(SaveText(s), '\n') == [FENCE] + three + [FENCE, ""] + SplitOn(s.content, '\n');
    FrontOfThree(s);
    LayoutReads(three, s.content, SaveText(s));
  }

  /** The editor's text and the saved file, though different, read the same. */
  lemma BothPrintersReadTheSame(s: Slide)
    requires OneLiners(s)
    ensures ReadText(SaveText(s)) == ReadText(Print(s))
  {
    if s.description == "" {
      PrintReads(s);
      SaveTextReads(s);
    }
  }

  // ----- and only then -----

  predicate LineBound(v: Value) {
    match v
    case Text(t) => SingleLine(t)
    case Num(_) => true
    case List(items) => forall i :: 0 <= i < |items| ==> SingleLine(items[i])
  }

  lemma {:induction false} PiecesSingleLine(s: string, c: char)
    requires SingleLine(s)
    ensures forall i :: 0 <= i < |SplitOn(s, c)| ==> SingleLine(SplitOn(s, c)[i])
  {
    if s != "" {
      PiecesSingleLine(s[1..], c);
      var rest := SplitOn(s[1..], c);
      assert SingleLine(rest[0]);
    }
  }

  lemma TrimSingleLine(s: string)
    requires SingleLine(s)
    ensures SingleLine(Trim(s))
  {
    assert SingleLine(TrimLeft(s));
  }

  lemma StripSingleLine(s: string)
    requires SingleLine(s)
    ensures SingleLine(StripQuotes(s))
  {
  }

  lemma {:induction false} CleanLineBound(parts: seq<string>)
    requires forall i :: 0 <= i < |parts| ==> SingleLine(parts[i])
    ensures forall i :: 0 <= i < |CleanItems(parts)| ==> SingleLine(CleanItems(parts)[i])
  {
    hide SingleLine, Trim, StripQuotes;
    if parts != [] {
      TrimSingleLine(parts[0]);
      StripSingleLine(Trim(parts[0]));
      CleanLineBound(parts[1..]);
    }
  }

  lemma ValuesLineBound(raw: string)
    requires SingleLine(raw)
    ensures LineBound(ParseValue(raw))
  {
    hide Trim, StripQuotes, SplitOn, Read;
    if Enclosed(raw, '[', ']') {
      var parts := SplitOn(Inner(raw), ',');
      PiecesSingleLine(Inner(raw), ',');
      CleanLineBound(parts);
    }
  }

  lemma MatchSingleLine(line: string)
    ensures MatchLine(line).Some? ==> SingleLine(MatchLine(line).value.1)
  {
    if MatchLine(line).Some? {
      var rest := line[WordLength(line) + 1..];
      assert MatchLine(line).value.1 == TrimRight(TrimLeft(rest));
    }
  }

  lemma {:induction false} FrontLineBound(lines: seq<string>, key: string)
    requires key in Front(lines)
    ensures LineBound(Front(lines)[key])
    decreases |lines|
  {
    var last := MatchLine(lines[|lines| - 1]);
    if last.Some? && last.value.0 == key {
      MatchSingleLine(lines[|lines| - 1]);
      ValuesLineBound(last.value.1);
    } else {
      FrontLineBound(lines[..|lines| - 1], key);
    }
  }

  predicate ComesBack(s: Slide) {
    var front := ReadText(Print(s)).front;
    && Field(front, "title") == Some(Text(s.title))
    && Field(front, "duration") == Some(Num(s.duration))
    && Field(front, "tags") == Some(List(s.tags))
    && Field(front, "description") == (if s.description != "" then Some(Text(s.description)) else None)
    && ReadText(Print(s)).content == Trim(s.content)
  }

  /** No value of any frontmatter spans lines, so nothing else can come back. */
  lemma OnlySingleLinesComeBack(s: Slide)
    requires ComesBack(s)
    ensures OneLiners(s)
  {
    var lines := FrontLines(SplitOn(Print(s), '\n'));
    FrontLineBound(lines, "title");
    FrontLineBound(lines, "tags");
    if s.description != "" { FrontLineBound(lines, "description"); }
  }

  /**
   Printing and parsing gives back title, duration, tags, description and the
   trimmed content, fences in the content included, exactly for single-line
   fields and a non-empty list of comma-free tags.
   */
  lemma RoundTripExactlyWhen(s: Slide)
    ensures ComesBack(s) <==> Printable(s)
  {
    hide ReadText, ParseValue, Trim, Print, CommaFree;
    if ComesBack(s) { OnlySingleLinesComeBack(s); }
    if OneLiners(s) {
      PrintReads(s);
      TagsComeBackExactlyWhen(s.tags);
    }
  }

  /** Saving an unedited slide keeps it, and saving it again changes nothing more. */
  lemma SavingIsStable(s: Slide)
    requires Printable(s)
    ensures var kept := s.(content := Trim(s.content));
      && HandleSaveOf(Print(s), s) == Saved(Text(s.title), Num(s.duration), s.tags, Text(s.description), kept.content, Sections(kept.content))
      && HandleSaveOf(Print(kept), kept) == HandleSaveOf(Print(s), s)
  {
    hide ReadText, ParseValue, Trim, Print, CommaFree, Sections;
    var kept := s.(content := Trim(s.content));
    TrimTwice(s.content);
    TagsComeBackExactlyWhen(s.tags);
    PrintReads(s);
    PrintReads(kept);
    assert ExpectedFront(kept) == ExpectedFront(s);
  }
}
