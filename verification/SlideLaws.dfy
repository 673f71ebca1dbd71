/**
 What the slide editor saves, said of the edited text itself: which lines are
 frontmatter, what a line says, what its value becomes, and which slide results.
 */
module SlideLaws {
  import opened Common
  import opened Decimal
  import opened Strings
  import opened SlideEditor

  // ----- frontmatter and body -----

  lemma {:induction false} FenceAt(lines: seq<string>, from: nat, k: nat)
    requires from <= k < |lines| && lines[k] == "---" && forall i :: from <= i < k ==> lines[i] != "---"
    ensures FenceFrom(lines, from) == k
  {
  }

  lemma FenceNowhere(lines: seq<string>, from: nat)
    requires from <= |lines| && forall i :: from <= i < |lines| ==> lines[i] != "---"
    ensures FenceFrom(lines, from) == |lines|
  {
  }

  /** The frontmatter stands between the first two fences; what comes after the second is the body, fences included. */
  lemma FencesDivide(before: seq<string>, front: seq<string>, body: seq<string>)
    requires "---" !in before && "---" !in front
    ensures var lines := before + ["---"] + front + ["---"] + body; FrontLines(lines) == front && BodyLines(lines) == body
  {
    var lines := before + ["---"] + front + ["---"] + body;
    var open, close := |before|, |before| + 1 + |front|;
    assert lines[open] == "---" && lines[close] == "---";
    assert forall i :: 0 <= i < open ==> lines[i] == before[i];
    assert forall i :: open < i < close ==> lines[i] == front[i - open - 1];
    hide FenceFrom;
    FenceAt(lines, 0, open);
    FenceAt(lines, open + 1, close);
    assert lines[open + 1..close] == front && lines[close + 1..] == body;
  }

  /** A frontmatter that is never closed takes all the rest, and one that is never opened is empty. */
  lemma UnclosedFence(before: seq<string>, front: seq<string>)
    requires "---" !in before && "---" !in front
    ensures FrontLines(before + ["---"] + front) == front && BodyLines(before + ["---"] + front) == []
    ensures FrontLines(before) == [] && BodyLines(before) == []
  {
    var lines := before + ["---"] + front;
    var open := |before|;
    assert lines[open] == "---" && forall i :: 0 <= i < open ==> lines[i] == before[i];
    assert forall i :: open < i < |lines| ==> lines[i] == front[i - open - 1];
    hide FenceFrom;
    FenceAt(lines, 0, open);
    FenceNowhere(lines, open + 1);
    FenceNowhere(before, 0);
    assert lines[open + 1..|lines|] == front;
  }

  // ----- what a line says -----

  predicate Word(s: string) {
    s != "" && forall i :: 0 <= i < |s| ==> IsWord(s[i])
  }

  /** A key, a colon, white space, and some text on the same line, which counts trimmed. */
  predicate Reads(line: string, key: string, gap: string, text: string, value: string) {
    Word(key) && line == key + ":" + gap + text && White(gap) && text != "" && SingleLine(text) && value == Trim(text)
  }

  ghost predicate Says(line: string, key: string, value: string) {
    exists gap, text :: Reads(line, key, gap, text, value)
  }

  lemma {:induction false} WordLengthIs(s: string, n: nat)
    requires n <= |s| && (forall i :: 0 <= i < n ==> IsWord(s[i])) && (n < |s| ==> !IsWord(s[n]))
    ensures WordLength(s) == n
    decreases n
  {
    if n > 0 {
      WordLengthIs(s[1..], n - 1);
    }
  }

  lemma {:induction false} WordLengthHolds(s: string)
    ensures forall i :: 0 <= i < WordLength(s) ==> IsWord(s[i])
  {
    if s != "" && IsWord(s[0]) {
      WordLengthHolds(s[1..]);
      forall i | 0 <= i < WordLength(s) ensures IsWord(s[i]) {
        if i > 0 { assert s[i] == s[1..][i - 1]; }
      }
    }
  }

  lemma LineParts(line: string, key: string, rest: string)
    requires Word(key) && line == key + ":" + rest
    ensures WordLength(line) == |key| && line[..|key|] == key && line[|key|] == ':' && line[|key| + 1..] == rest
  {
    assert forall i :: 0 <= i < |key| ==> line[i] == key[i];
    WordLengthIs(line, |key|);
  }

  lemma TrimAfterGap(gap: string, text: string)
    requires White(gap) && text != "" && SingleLine(text)
    ensures var rest := gap + text;
      && rest != "" && Trim(rest) == Trim(text)
      && (if TrimLeft(rest) != "" then SingleLine(TrimLeft(rest)) else !IsTerminator(rest[|rest| - 1]))
  {
    hide IsTerminator;
    TrimLeftPast(gap, text);
    assert (gap + text)[|gap| + |text| - 1] == text[|text| - 1];
  }

  lemma SaidIsMatched(line: string, key: string, gap: string, text: string, value: string)
    requires Reads(line, key, gap, text, value)
    ensures MatchLine(line) == Some((key, value))
  {
    hide WordLength, TrimLeft, Trim, White, SingleLine, IsTerminator;
    assert line == key + ":" + (gap + text);
    LineParts(line, key, gap + text);
    TrimAfterGap(gap, text);
  }

  lemma MatchedIsSaid(line: string)
    requires MatchLine(line).Some?
    ensures Says(line, MatchLine(line).value.0, MatchLine(line).value.1)
  {
    hide WordLength, TrimLeft, TrimRight, IsTerminator, IsWhite, IsWord, White, SingleLine, Trim;
    WordLengthHolds(line);
    var n := WordLength(line);
    var key, rest := line[..n], line[n + 1..];
    var split := if TrimLeft(rest) != "" then |rest| - |TrimLeft(rest)| else |rest| - 1;
    ColonSplit(line, n, split);
    TextOf(rest, split);
    assert Reads(line, key, rest[..split], rest[split..], Trim(rest));
  }

  lemma ColonSplit(line: string, n: nat, split: nat)
    requires n < |line| && line[n] == ':' && split <= |line| - n - 1
    ensures var rest := line[n + 1..]; line == line[..n] + ":" + rest[..split] + rest[split..]
  {
  }

  lemma TextOf(rest: string, split: nat)
    requires rest != "" && split == if TrimLeft(rest) != "" then |rest| - |TrimLeft(rest)| else |rest| - 1
    requires if TrimLeft(rest) != "" then SingleLine(TrimLeft(rest)) else !IsTerminator(rest[|rest| - 1])
    ensures White(rest[..split]) && rest[split..] != "" && SingleLine(rest[split..]) && Trim(rest[split..]) == Trim(rest)
  {
    hide IsWhite, IsTerminator, TrimRight, TrimLeft, White;
    TrimLeftCuts(rest);
    if TrimLeft(rest) == "" {
      assert rest[..|rest|] == rest;
      WhiteFront(rest, split);
    }
    assert rest == rest[..split] + rest[split..];
    TrimLeftPast(rest[..split], rest[split..]);
  }

  lemma WhiteFront(s: string, n: nat)
    requires n <= |s| && White(s)
    ensures White(s[..n])
  {
    hide IsWhite;
  }

  /** The expression matches a line exactly if the line says something, and then gives what it says. */
  lemma MatchesExactlySayings(line: string, key: string, value: string)
    ensures MatchLine(line) == Some((key, value)) <==> Says(line, key, value)
  {
    hide MatchLine, Reads;
    if Says(line, key, value) {
      var gap, text :| Reads(line, key, gap, text, value);
      SaidIsMatched(line, key, gap, text, value);
    }
    if MatchLine(line).Some? { MatchedIsSaid(line); }
  }

  // ----- what a value becomes -----

  predicate AllDigits(s: string) {
    s != "" && forall i :: 0 <= i < |s| ==> IsDigit(s[i])
  }

  predicate IsNumeral(s: string) {
    AllDigits(s) || (s != "" && s[0] == '-' && AllDigits(s[1..]))
  }

  lemma {:induction false} ParsesDigits(s: string)
    ensures ParseDigits(s).Some? <==> AllDigits(s)
    decreases |s|
  {
    if s != "" {
      var front, last := s[..|s| - 1], s[|s| - 1];
      assert s == front + [last];
      AllSnoc(front, last);
      if |s| > 1 {
        ParsesDigits(front);
        assert ParseDigits(s).Some? <==> IsDigit(last) && ParseDigits(front).Some?;
      } else {
        assert front == "";
        assert ParseDigits(s).Some? <==> IsDigit(last);
      }
    }
  }

  lemma AllSnoc(front: string, last: char)
    ensures var s := front + [last];
      (forall i :: 0 <= i < |s| ==> IsDigit(s[i])) <==> IsDigit(last) && forall i :: 0 <= i < |front| ==> IsDigit(front[i])
  {
    hide IsDigit;
    var s := front + [last];
    assert s[|front|] == last;
    if forall i :: 0 <= i < |s| ==> IsDigit(s[i]) {
      forall i | 0 <= i < |front| ensures IsDigit(front[i]) { assert s[i] == front[i]; }
    }
  }

  lemma ReadsNumerals(s: string)
    ensures Read(s).Some? <==> IsNumeral(s)
  {
    hide ParseDigits;
    ParsesDigits(s);
    if s != "" && s[0] == '-' {
      ParsesDigits(s[1..]);
      assert !IsDigit(s[0]);
    }
  }

  /** `r` is `s` without the quote at its start and the one at its end, where there are any. */
  predicate Unquoted(s: string, r: string) {
    var i := if s != "" && (s[0] == '"' || s[0] == '\'') then 1 else 0;
    var j := if |s| > i && (s[|s| - 1] == '"' || s[|s| - 1] == '\'') then |s| - 1 else |s|;
    r == s[i..j]
  }

  lemma StripsQuotes(s: string)
    ensures Unquoted(s, StripQuotes(s))
  {
    if s != "" && IsQuote(s[0]) {
      var t := s[1..];
      assert t != "" ==> t[|t| - 1] == s[|s| - 1];
    }
  }

  lemma {:induction false} SplitsJoined(parts: seq<string>, c: char)
    requires parts != [] && forall i :: 0 <= i < |parts| ==> c !in parts[i]
    ensures SplitOn(JoinWith(parts, c), c) == parts
    decreases |parts|
  {
    hide SplitOn;
    if |parts| == 1 {
      SplitAlone(parts[0], c);
    } else {
      SplitsJoined(parts[1..], c);
      SplitFirst(parts[0], JoinWith(parts[1..], c), c);
    }
  }

  lemma {:induction false} CleansEach(parts: seq<string>)
    ensures forall i :: 0 <= i < |parts| ==> CleanItems(parts)[i] == StripQuotes(Trim(parts[i]))
  {
    hide Trim, StripQuotes;
    if parts != [] {
      CleansEach(parts[1..]);
      forall i | 0 <= i < |parts| ensures CleanItems(parts)[i] == StripQuotes(Trim(parts[i])) {
        if i > 0 { assert parts[i] == parts[1..][i - 1] && CleanItems(parts)[i] == CleanItems(parts[1..])[i - 1]; }
      }
    }
  }

  /** A bracketed value is the list of the parts between its commas, each trimmed and then without its quotes. */
  lemma BracketedValue(parts: seq<string>)
    requires parts != [] && forall i :: 0 <= i < |parts| ==> ',' !in parts[i]
    ensures var v := ParseValue("[" + JoinWith(parts, ',') + "]");
      v.List? && |v.items| == |parts| && forall i :: 0 <= i < |parts| ==> Unquoted(Trim(parts[i]), v.items[i])
  {
    hide Trim, StripQuotes, CleanItems, SplitOn, JoinWith, Unquoted;
    var raw := "[" + JoinWith(parts, ',') + "]";
    assert Inner(raw) == JoinWith(parts, ',');
    SplitsJoined(parts, ',');
    CleansEach(parts);
    assert Enclosed(raw, '[', ']') && ParseValue(raw) == List(CleanItems(parts));
    hide ParseValue;
    var items := ParseValue(raw).items;
    forall i | 0 <= i < |parts| ensures Unquoted(Trim(parts[i]), items[i]) {
      StripsQuotes(Trim(parts[i]));
      assert items[i] == StripQuotes(Trim(parts[i]));
    }
  }

  /** A value in double quotes is the text between them, any other one itself, unless it is blank or a number. */
  lemma OtherValues(text: string, n: int)
    ensures ParseValue("\"" + text + "\"") == Text(text) && ParseValue("\"") == Text("") && ParseValue("") == Num(0)
    ensures ParseValue(Show(n)) == Num(n)
    ensures !Enclosed(text, '[', ']') && !Enclosed(text, '"', '"') && text != "" && !IsNumeral(text) ==> ParseValue(text) == Text(text)
  {
    hide Digits, ParseDigits, Read, Show;
    assert Inner("\"" + text + "\"") == text;
    ReadsNumerals(text);
    NumberValue(n);
  }

  // ----- what is saved -----

  /** The last line that says anything about the key says this. */
  ghost predicate LastSays(lines: seq<string>, key: string, value: string) {
    exists i :: 0 <= i < |lines| && Says(lines[i], key, value) && forall j, v :: i < j < |lines| ==> !Says(lines[j], key, v)
  }

  ghost predicate NeverSays(lines: seq<string>, key: string) {
    forall i, v :: 0 <= i < |lines| ==> !Says(lines[i], key, v)
  }

  lemma {:induction false} FrontHolds(lines: seq<string>, key: string)
    ensures forall v :: LastSays(lines, key, v) ==> Field(Front(lines), key) == Some(ParseValue(v))
    ensures NeverSays(lines, key) ==> Field(Front(lines), key) == None
    decreases |lines|
  {
    hide MatchLine, ParseValue, Says;
    if lines != [] {
      var n := |lines| - 1;
      FrontHolds(lines[..n], key);
      forall v ensures MatchLine(lines[n]) == Some((key, v)) <==> Says(lines[n], key, v) {
        MatchesExactlySayings(lines[n], key, v);
      }
      forall v | LastSays(lines, key, v) ensures Field(Front(lines), key) == Some(ParseValue(v)) {
        var i :| 0 <= i < |lines| && Says(lines[i], key, v) && forall j, w :: i < j < |lines| ==> !Says(lines[j], key, w);
        if i < n {
          assert lines[..n][i] == lines[i] && forall j, w :: i < j < n ==> !Says(lines[..n][j], key, w);
          assert LastSays(lines[..n], key, v);
        }
      }
      if NeverSays(lines, key) {
        assert forall i, v :: 0 <= i < n ==> !Says(lines[..n][i], key, v);
      }
    }
  }

  /** One of the two is always the case. */
  lemma {:induction false} SaysOrNot(lines: seq<string>, key: string)
    ensures NeverSays(lines, key) || exists v :: LastSays(lines, key, v)
    decreases |lines|
  {
    hide Says;
    if lines != [] {
      var n := |lines| - 1;
      if v :| Says(lines[n], key, v) {
        assert LastSays(lines, key, v);
      } else {
        SaysOrNot(lines[..n], key);
        if v :| LastSays(lines[..n], key, v) {
          var i :| 0 <= i < n && Says(lines[..n][i], key, v) && forall j, w :: i < j < n ==> !Says(lines[..n][j], key, w);
          assert lines[i] == lines[..n][i];
          forall j, w | i < j < |lines| ensures !Says(lines[j], key, w) {
            if j < n { assert lines[j] == lines[..n][j]; }
          }
          assert LastSays(lines, key, v);
        } else {
          forall i, v | 0 <= i < |lines| ensures !Says(lines[i], key, v) {
            if i < n { assert lines[i] == lines[..n][i]; }
          }
        }
      }
    }
  }

  /** Empty text and zero count as no value. */
  predicate Falsy(v: Value) {
    v == Text("") || v == Num(0)
  }

  /**
   For every text and every slide under edit: the last line on a key decides,
   except that an empty title, a zero duration and tags that are no list leave the
   slide's own; without a line the slide's own stays.
   */
  lemma LastLineIsSaved(text: string, edited: Slide)
    ensures var lines, saved := FrontLines(SplitOn(text, '\n')), HandleSaveOf(text, edited);
      && (forall v :: LastSays(lines, "title", v) ==>
            saved.title == if Falsy(ParseValue(v)) then Text(edited.title) else ParseValue(v))
      && (NeverSays(lines, "title") ==> saved.title == Text(edited.title))
      && (forall v :: LastSays(lines, "duration", v) ==>
            saved.duration == if Falsy(ParseValue(v)) then Num(edited.duration) else ParseValue(v))
      && (NeverSays(lines, "duration") ==> saved.duration == Num(edited.duration))
      && (forall v :: LastSays(lines, "tags", v) ==>
            saved.tags == if ParseValue(v).List? then ParseValue(v).items else edited.tags)
      && (NeverSays(lines, "tags") ==> saved.tags == edited.tags)
      && (forall v :: LastSays(lines, "description", v) ==> saved.description == ParseValue(v))
      && (NeverSays(lines, "description") ==> saved.description == Text(edited.description))
  {
    hide FrontLines, BodyLines, SplitOn, Front, ParseValue, LastSays, NeverSays, Trim, JoinWith, Sections;
    var lines := FrontLines(SplitOn(text, '\n'));
    FrontHolds(lines, "title");
    FrontHolds(lines, "duration");
    FrontHolds(lines, "tags");
    FrontHolds(lines, "description");
  }

  /** The content is what follows the second fence, trimmed. */
  lemma BodyIsSaved(text: string, before: seq<string>, front: seq<string>, body: seq<string>, edited: Slide)
    requires "---" !in before && "---" !in front && SplitOn(text, '\n') == before + ["---"] + front + ["---"] + body
    ensures HandleSaveOf(text, edited).content == Trim(JoinWith(body, '\n'))
    ensures HandleSaveOf(text, edited).sections == Sections(Trim(JoinWith(body, '\n')))
  {
    hide Front, Sections, FrontLines, BodyLines;
    FencesDivide(before, front, body);
  }

  /** Whatever slide was under edit, a printed slide is saved as printed, where it has a title, a duration and a description. */
  lemma EditIsSaved(s: Slide, e: Slide)
    requires Printable(s)
    ensures HandleSaveOf(Print(s), e)
         == Saved(Text(if s.title != "" then s.title else e.title), Num(if s.duration != 0 then s.duration else e.duration), s.tags,
                  Text(if s.description != "" then s.description else e.description), Trim(s.content), Sections(Trim(s.content)))
  {
    hide ReadText, ParseValue, Trim, Print, CommaFree, Sections;
    TagsComeBackExactlyWhen(s.tags);
    PrintReads(s);
  }

  // ----- sections -----

  function Section(piece: string): seq<string> {
    if Trim(piece) == "" then [] else [Trim(piece)]
  }

  /** A text without a break is one section, if it is not blank. */
  lemma OneSection(piece: string)
    requires forall i: nat :: !At(piece, i, "\n---\n")
    ensures Sections(piece) == Section(piece)
  {
    hide Trim, At, FindFrom;
    assert FindFrom(piece, SECTION_BREAK, 0) == None;
    assert SplitText(piece, SECTION_BREAK) == [piece];
    NonBlankCons(piece, []);
    assert [piece] + [] == [piece] && NonBlank([]) == [];
  }

  /** The first break ends the first section. */
  lemma FirstSection(piece: string, rest: string)
    requires forall i: nat :: i < |piece| ==> !At(piece + "\n---\n" + rest, i, "\n---\n")
    ensures Sections(piece + "\n---\n" + rest) == Section(piece) + Sections(rest)
  {
    hide Trim, NonBlank, FindFrom;
    var s := piece + "\n---\n" + rest;
    assert s[|piece|..|piece| + 5] == "\n---\n";
    assert At(s, |piece|, SECTION_BREAK);
    hide At;
    assert FindFrom(s, SECTION_BREAK, 0) == Some(|piece|);
    assert s[..|piece|] == piece && s[|piece| + 5..] == rest;
    NonBlankCons(piece, SplitText(rest, SECTION_BREAK));
  }

  lemma NonBlankCons(piece: string, rest: seq<string>)
    ensures NonBlank([piece] + rest) == Section(piece) + NonBlank(rest)
  {
    hide Trim;
    assert ([piece] + rest)[1..] == rest;
  }
}
