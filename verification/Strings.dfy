/** Text as JavaScript and Python handle it: white space, trimming, splitting and joining. */
module Strings {
  import opened Common

  /** What `.` does not match. */
  predicate IsTerminator(c: char) {
    c == '\n' || c == '\r' || c == '\U{2028}' || c == '\U{2029}'
  }

  /** What `\s` matches and `trim` removes. */
  predicate IsWhite(c: char) {
    || IsTerminator(c) || c == ' ' || c == '\t' || c == '\U{0B}' || c == '\U{0C}'
    || c == '\U{A0}' || c == '\U{1680}' || '\U{2000}' <= c <= '\U{200A}'
    || c == '\U{202F}' || c == '\U{205F}' || c == '\U{3000}' || c == '\U{FEFF}'
  }

  function TrimLeft(s: string): (r: string)
    ensures |r| <= |s| && r == s[|s| - |r|..]
  {
    if s != "" && IsWhite(s[0]) then TrimLeft(s[1..]) else s
  }

  function TrimRight(s: string): (r: string)
    ensures |r| <= |s| && r == s[..|r|]
  {
    if s != "" && IsWhite(s[|s| - 1]) then TrimRight(s[..|s| - 1]) else s
  }

  function Trim(s: string): string {
    TrimRight(TrimLeft(s))
  }

  // ----- splitting and joining -----

  function SplitOn(s: string, c: char): (r: seq<string>)
    ensures r != []
  {
    if s == "" then [""] else
      var rest := SplitOn(s[1..], c);
      if s[0] == c then [""] + rest else [[s[0]] + rest[0]] + rest[1..]
  }

  function JoinWith(parts: seq<string>, c: char): string {
    if parts == [] then ""
    else if |parts| == 1 then parts[0]
    else parts[0] + [c] + JoinWith(parts[1..], c)
  }

  predicate At(s: string, i: nat, part: string) {
    i + |part| <= |s| && s[i..i + |part|] == part
  }

  /** The first occurrence from `i` on. */
  function FindFrom(s: string, part: string, i: nat): (k: Option<nat>)
    ensures k.Some? ==> i <= k.value && At(s, k.value, part) && forall j :: i <= j < k.value ==> !At(s, j, part)
    ensures k == None ==> forall j :: i <= j ==> !At(s, j, part)
    decreases |s| - i
  {
    if i + |part| > |s| then None
    else if At(s, i, part) then Some(i)
    else FindFrom(s, part, i + 1)
  }

  /** Split at each occurrence of a separator, from left to right. */
  function SplitText(s: string, separator: string): (r: seq<string>)
    requires separator != ""
    ensures r != []
    decreases |s|
  {
    var k := FindFrom(s, separator, 0);
    if k == None then [s] else [s[..k.value]] + SplitText(s[k.value + |separator|..], separator)
  }

  function JoinText(parts: seq<string>, separator: string): string
    requires parts != []
  {
    if |parts| == 1 then parts[0] else parts[0] + separator + JoinText(parts[1..], separator)
  }

  lemma {:induction false} JoinSplitText(s: string, separator: string)
    requires separator != ""
    ensures JoinText(SplitText(s, separator), separator) == s
    decreases |s|
  {
    hide FindFrom;
    var k := FindFrom(s, separator, 0);
    if k.Some? {
      var rest := s[k.value + |separator|..];
      JoinSplitText(rest, separator);
      assert SplitText(s, separator)[1..] == SplitText(rest, separator);
      assert s == s[..k.value] + s[k.value..k.value + |separator|] + rest;
    }
  }

  lemma {:induction false} PiecesAreFree(s: string, separator: string, i: nat, j: nat)
    requires separator != "" && i < |SplitText(s, separator)|
    ensures !At(SplitText(s, separator)[i], j, separator)
    decreases |s|
  {
    hide FindFrom;
    var k := FindFrom(s, separator, 0);
    if k.Some? {
      var rest := s[k.value + |separator|..];
      if i > 0 {
        PiecesAreFree(rest, separator, i - 1, j);
        assert SplitText(s, separator)[i] == SplitText(rest, separator)[i - 1];
      } else {
        FrontIsFree(s, separator, k.value, j);
      }
    }
  }

  lemma FrontIsFree(s: string, separator: string, k: nat, j: nat)
    requires separator != "" && k <= |s| && forall i :: 0 <= i < k ==> !At(s, i, separator)
    ensures !At(s[..k], j, separator)
  {
    if j + |separator| <= k {
      assert s[..k][j..j + |separator|] == s[j..j + |separator|];
      assert !At(s, j, separator);
    }
  }

  lemma {:induction false} SplitFirst(a: string, rest: string, c: char)
    requires c !in a
    ensures SplitOn(a + [c] + rest, c) == [a] + SplitOn(rest, c)
  {
    var s := a + [c] + rest;
    if a == "" {
      assert s == [c] + rest && s[1..] == rest;
    } else {
      assert s[1..] == a[1..] + [c] + rest;
      SplitFirst(a[1..], rest, c);
      assert [a[0]] + a[1..] == a;
    }
  }

  lemma {:induction false} JoinSplit(s: string, c: char)
    ensures JoinWith(SplitOn(s, c), c) == s
  {
    if s != "" {
      JoinSplit(s[1..], c);
      var rest := SplitOn(s[1..], c);
      if s[0] == c {
        assert ([""] + rest)[1..] == rest;
        assert s == [c] + s[1..];
      } else {
        assert s == [s[0]] + s[1..];
        if |rest| > 1 { assert ([[s[0]] + rest[0]] + rest[1..])[1..] == rest[1..]; }
      }
    }
  }

  lemma {:induction false} SplitAlone(s: string, c: char)
    requires c !in s
    ensures SplitOn(s, c) == [s]
  {
    if s != "" {
      SplitAlone(s[1..], c);
      assert [s[0]] + s[1..] == s;
    }
  }

  predicate Bare(s: string) {
    s != "" && !IsWhite(s[0]) && !IsWhite(s[|s| - 1])
  }

  lemma TrimBare(s: string)
    requires Bare(s)
    ensures Trim(s) == s && Trim(" " + s) == s && TrimLeft(" " + s) == s
  {
    assert (" " + s)[1..] == s;
  }

  lemma BlankTrims()
    ensures Trim(" ") == ""
  {
    assert " "[1..] == "" && TrimLeft("") == "" && TrimRight("") == "";
  }

  lemma {:induction false} TrimLeftStarts(s: string)
    ensures TrimLeft(s) != "" ==> !IsWhite(TrimLeft(s)[0])
  {
    hide IsWhite;
    if s != "" && IsWhite(s[0]) { TrimLeftStarts(s[1..]); }
  }

  lemma {:induction false} TrimRightEnds(s: string)
    ensures TrimRight(s) != "" ==> TrimRight(s)[0] == s[0] && !IsWhite(TrimRight(s)[|TrimRight(s)| - 1])
  {
    hide IsWhite;
    if s != "" && IsWhite(s[|s| - 1]) { TrimRightEnds(s[..|s| - 1]); }
  }

  lemma TrimmedBare(s: string)
    ensures Trim(s) == "" || Bare(Trim(s))
  {
    hide IsWhite, TrimLeft, TrimRight;
    TrimLeftStarts(s);
    TrimRightEnds(TrimLeft(s));
  }

  lemma TrimTwice(s: string)
    ensures Trim(Trim(s)) == Trim(s)
  {
    assert Trim("") == "";
    hide Trim, Bare;
    TrimmedBare(s);
    if Trim(s) != "" { TrimBare(Trim(s)); }
  }

  predicate White(s: string) {
    forall k :: 0 <= k < |s| ==> IsWhite(s[k])
  }

  lemma WhiteMore(c: char, s: string)
    ensures IsWhite(c) && White(s) ==> White([c] + s) && White(s + [c])
  {
    hide IsWhite;
  }

  lemma {:induction false} TrimLeftCuts(s: string)
    ensures White(s[..|s| - |TrimLeft(s)|])
  {
    hide IsWhite, White;
    if s != "" && IsWhite(s[0]) {
      TrimLeftCuts(s[1..]);
      var n := |s| - |TrimLeft(s)|;
      WhiteMore(s[0], s[1..][..n - 1]);
      assert s[..n] == [s[0]] + s[1..][..n - 1];
    } else {
      assert s[..0] == "";
      NothingWhite();
    }
  }

  lemma NothingWhite()
    ensures White("")
  {
  }

  lemma {:induction false} TrimRightCuts(s: string)
    ensures White(s[|TrimRight(s)|..])
  {
    hide IsWhite, White;
    if s != "" && IsWhite(s[|s| - 1]) {
      var front, n := s[..|s| - 1], |TrimRight(s)|;
      TrimRightCuts(front);
      WhiteMore(s[|s| - 1], front[n..]);
      assert s[n..] == front[n..] + [s[|s| - 1]];
    } else {
      assert s[|s|..] == "";
      NothingWhite();
    }
  }

  /** Trimming takes white space off both ends, all of it and nothing else. */
  lemma TrimCuts(s: string)
    ensures exists a, b :: s == a + Trim(s) + b && White(a) && White(b)
    ensures Trim(s) == "" || (!IsWhite(Trim(s)[0]) && !IsWhite(Trim(s)[|Trim(s)| - 1]))
  {
    hide IsWhite, TrimLeft, TrimRight, White;
    TrimmedBare(s);
    TrimLeftCuts(s);
    TrimRightCuts(TrimLeft(s));
    var left := TrimLeft(s);
    var a, b := s[..|s| - |left|], left[|Trim(s)|..];
    assert s == a + left && left == Trim(s) + b;
    assert s == a + Trim(s) + b && White(a) && White(b);
  }

  lemma {:induction false} TrimLeftPast(a: string, s: string)
    requires White(a)
    ensures TrimLeft(a + s) == TrimLeft(s)
  {
    hide IsWhite;
    if a == "" {
      assert a + s == s;
    } else {
      assert (a + s)[1..] == a[1..] + s;
      TrimLeftPast(a[1..], s);
    }
  }

  lemma {:induction false} TrimLeftWhite(s: string)
    requires White(s)
    ensures TrimLeft(s) == ""
  {
    hide IsWhite;
    if s != "" { TrimLeftWhite(s[1..]); }
  }
}
