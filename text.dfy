/**
  String helpers with the meaning of the ECMAScript built-ins the client calls:
  `trim`, `toLowerCase`/`toUpperCase` (restricted to ASCII letters),
  `startsWith`, `split` on one character and `join`.
  A string is a sequence of characters; UTF-16 surrogate pairs are not modelled.
*/
module Text {

  /** The WhiteSpace and LineTerminator code points of ECMAScript (sections 12.2
      and 12.3 of ECMA-262): what `String.prototype.trim` removes and what `\s`
      matches in a regular expression. */
  predicate IsJsSpace(c: char) {
    || c == '\t' || c == '\n' || c == '\U{000B}' || c == '\U{000C}' || c == '\r'
    || c == ' ' || c == '\U{00A0}' || c == '\U{1680}' || ('\U{2000}' <= c <= '\U{200A}')
    || c == '\U{2028}' || c == '\U{2029}' || c == '\U{202F}' || c == '\U{205F}'
    || c == '\U{3000}' || c == '\U{FEFF}'
  }

  /** Every character is white space (the empty string included). */
  predicate IsBlank(s: string) {
    forall i :: 0 <= i < |s| ==> IsJsSpace(s[i])
  }

  /** Leading white space removed. */
  function TrimStart(s: string): (r: string)
    ensures |r| <= |s| && r == s[|s| - |r|..]
    ensures forall i :: 0 <= i < |s| - |r| ==> IsJsSpace(s[i])
    ensures r == [] || !IsJsSpace(r[0])
  {
    if |s| > 0 && IsJsSpace(s[0]) then TrimStart(s[1..]) else s
  }

  /** Trailing white space removed. */
  function TrimEnd(s: string): (r: string)
    ensures |r| <= |s| && r == s[..|r|]
    ensures forall i :: |r| <= i < |s| ==> IsJsSpace(s[i])
    ensures r == [] || !IsJsSpace(r[|r| - 1])
  {
    if |s| > 0 && IsJsSpace(s[|s| - 1]) then TrimEnd(s[..|s| - 1]) else s
  }

  /** `String.prototype.trim`. */
  function Trim(s: string): string {
    TrimEnd(TrimStart(s))
  }

  /** The trimmed string is the part of `s` between two white-space margins. */
  lemma TrimIsInner(s: string)
    ensures var a := |s| - |TrimStart(s)|; var b := a + |Trim(s)|;
      && b <= |s| && Trim(s) == s[a..b]
      && (forall i :: 0 <= i < a ==> IsJsSpace(s[i]))
      && (forall i :: b <= i < |s| ==> IsJsSpace(s[i]))
  {
    var t := TrimStart(s);
    var r := TrimEnd(t);
    var a := |s| - |t|;
    assert r == t[..|r|];
    assert t == s[a..];
    forall i | a + |r| <= i < |s| ensures IsJsSpace(s[i]) {
      assert s[i] == t[i - a];
    }
  }

  /** Neither end of a trimmed string is white space. */
  lemma TrimEnds(s: string)
    ensures Trim(s) == [] || (!IsJsSpace(Trim(s)[0]) && !IsJsSpace(Trim(s)[|Trim(s)| - 1]))
  {
    var t := TrimStart(s);
    var r := TrimEnd(t);
    if r != [] {
      assert t[0] == r[0];
    }
  }

  /** Trimming twice is the same as trimming once. */
  lemma TrimIdempotent(s: string)
    ensures Trim(Trim(s)) == Trim(s)
  {
    var t := Trim(s);
    TrimEnds(s);
    assert TrimStart(t) == t;
    assert TrimEnd(t) == t;
  }

  /** `s.trim()` is empty exactly when `s` is blank. */
  lemma TrimEmptyIffBlank(s: string)
    ensures Trim(s) == [] <==> IsBlank(s)
  {
    var t := TrimStart(s);
    TrimIsInner(s);
    if Trim(s) != [] {
      assert s[|s| - |t|] == Trim(s)[0];
    }
  }

  /** `toLowerCase` on one character, ASCII letters only. */
  function ToLowerChar(c: char): char {
    if 'A' <= c <= 'Z' then (c as int + 32) as char else c
  }

  /** `toUpperCase` on one character, ASCII letters only. */
  function ToUpperChar(c: char): char {
    if 'a' <= c <= 'z' then (c as int - 32) as char else c
  }

  function ToLower(s: string): (r: string)
    ensures |r| == |s|
    ensures forall i :: 0 <= i < |s| ==> r[i] == ToLowerChar(s[i])
  {
    seq(|s|, i requires 0 <= i < |s| => ToLowerChar(s[i]))
  }

  /** `toUpperCase` on a string. */
  function ToUpper(s: string): (r: string)
    ensures |r| == |s|
    ensures forall i :: 0 <= i < |s| ==> r[i] == ToUpperChar(s[i])
  {
    seq(|s|, i requires 0 <= i < |s| => ToUpperChar(s[i]))
  }

  /** `s.startsWith(prefix)`. */
  predicate StartsWith(s: string, prefix: string) {
    |prefix| <= |s| && s[..|prefix|] == prefix
  }

  /** `s.split(sep)` for a one-character separator: the pieces between the
      separators, always at least one (`"".split(",")` is `[""]`). */
  function Split(s: string, sep: char): (r: seq<string>)
    ensures |r| >= 1
    ensures forall k :: 0 <= k < |r| ==> sep !in r[k]
    decreases |s|
  {
    if |s| == 0 then [""]
    else if s[0] == sep then [""] + Split(s[1..], sep)
    else
      var rest := Split(s[1..], sep);
      [[s[0]] + rest[0]] + rest[1..]
  }

  /** `parts.join(sep)`. */
  function Join(parts: seq<string>, sep: char): string {
    if |parts| == 0 then ""
    else if |parts| == 1 then parts[0]
    else parts[0] + [sep] + Join(parts[1..], sep)
  }

  /** Splitting a separator-free prefix glues it to the first piece. */
  lemma {:induction false} SplitFreePrefix(a: string, t: string, sep: char)
    requires sep !in a
    ensures Split(a + t, sep) == [a + Split(t, sep)[0]] + Split(t, sep)[1..]
    decreases |a|
  {
    if |a| > 0 {
      assert (a + t)[1..] == a[1..] + t;
      assert sep !in a[1..];
      SplitFreePrefix(a[1..], t, sep);
      assert [a[0]] + (a[1..] + Split(t, sep)[0]) == a + Split(t, sep)[0];
    } else {
      assert a + t == t;
      assert Split(t, sep) == [Split(t, sep)[0]] + Split(t, sep)[1..];
      assert a + Split(t, sep)[0] == Split(t, sep)[0];
    }
  }

  /** Splitting what was joined gives back the parts, provided there is at
      least one part and no part holds the separator. */
  lemma {:induction false} SplitJoin(parts: seq<string>, sep: char)
    requires |parts| >= 1
    requires forall k :: 0 <= k < |parts| ==> sep !in parts[k]
    ensures Split(Join(parts, sep), sep) == parts
  {
    if |parts| == 1 {
      SplitFreePrefix(parts[0], "", sep);
      assert parts[0] + "" == parts[0];
    } else {
      var rest := Join(parts[1..], sep);
      SplitJoin(parts[1..], sep);
      assert parts[0] + [sep] + rest == parts[0] + ([sep] + rest);
      SplitFreePrefix(parts[0], [sep] + rest, sep);
      assert ([sep] + rest)[1..] == rest;
      assert Split([sep] + rest, sep) == [""] + parts[1..];
      assert parts[0] + "" == parts[0];
    }
  }

  /** Joining the pieces of a split gives back the string. */
  lemma {:induction false} JoinSplit(s: string, sep: char)
    ensures Join(Split(s, sep), sep) == s
    decreases |s|
  {
    if |s| > 0 {
      JoinSplit(s[1..], sep);
      var rest := Split(s[1..], sep);
      if s[0] == sep {
        assert Join([""] + rest, sep) == "" + [sep] + Join(rest, sep);
        assert s == [s[0]] + s[1..];
      } else {
        var r := [[s[0]] + rest[0]] + rest[1..];
        if |rest| == 1 {
          assert Join(rest, sep) == rest[0];
        } else {
          assert Join(rest, sep) == rest[0] + [sep] + Join(rest[1..], sep);
          assert r[1..] == rest[1..];
        }
        assert s == [s[0]] + s[1..];
      }
    }
  }

  /** A joined string is empty only if every part is empty and there is at most one. */
  lemma {:induction false} JoinNonEmpty(parts: seq<string>, sep: char)
    requires |parts| >= 1 && parts[0] != ""
    ensures Join(parts, sep) != ""
  {
    if |parts| > 1 {
      assert Join(parts, sep)[0] == parts[0][0];
    }
  }

  /** The index of the first `c` in `s`, or -1. */
  function IndexOf(s: string, c: char): (r: int)
    ensures -1 <= r < |s|
    ensures r == -1 <==> c !in s
    ensures r >= 0 ==> s[r] == c && c !in s[..r]
  {
    if |s| == 0 then -1
    else if s[0] == c then 0
    else
      var r := IndexOf(s[1..], c);
      assert s == [s[0]] + s[1..];
      if r == -1 then -1
      else
        assert s[..r + 1] == [s[0]] + s[1..][..r];
        r + 1
  }

  /** The first `c` is where `c` occurs first. */
  lemma {:induction false} IndexOfAt(s: string, c: char, i: int)
    requires 0 <= i < |s| && s[i] == c && c !in s[..i]
    ensures IndexOf(s, c) == i
  {
    if i > 0 {
      assert s[0] == s[..i][0];
      assert s[1..][..i - 1] == s[..i][1..];
      IndexOfAt(s[1..], c, i - 1);
    }
  }

  /** A string without the separator splits into itself alone. */
  lemma SplitWithoutSeparator(s: string, sep: char)
    requires sep !in s
    ensures Split(s, sep) == [s]
  {
    SplitFreePrefix(s, "", sep);
    assert s + "" == s;
  }

  /** The first piece of a split is the text before the first separator, and
      there is a second piece exactly when there is a separator. */
  lemma SplitAtFirstSeparator(s: string, sep: char, i: int)
    requires 0 <= i < |s| && s[i] == sep && sep !in s[..i]
    ensures |Split(s, sep)| >= 2 && Split(s, sep)[0] == s[..i]
  {
    var t := s[i..];
    assert s == s[..i] + t;
    SplitFreePrefix(s[..i], t, sep);
    assert t[0] == sep;
    assert Split(t, sep) == [""] + Split(t[1..], sep);
    assert s[..i] + "" == s[..i];
  }
}
