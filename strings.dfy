/** Character-level helpers used by the symbol normalizers and the list-field parser. */
module Strings {

  /** The class `[a-zA-Z0-9]` of a regular expression. */
  predicate IsAsciiAlnum(c: char) {
    'a' <= c <= 'z' || 'A' <= c <= 'Z' || '0' <= c <= '9'
  }

  predicate AllAlnum(s: string) {
    forall k :: 0 <= k < |s| ==> IsAsciiAlnum(s[k])
  }

  /** `re.sub(r'[^a-zA-Z0-9]', '', s)`: delete every character outside the class. */
  function KeepAlnum(s: string): (r: string)
    ensures AllAlnum(r)
    ensures |r| <= |s|
  {
    if s == [] then [] else (if IsAsciiAlnum(s[0]) then [s[0]] else []) + KeepAlnum(s[1..])
  }

  lemma {:induction false} KeepAlnumConcat(a: string, b: string)
    ensures KeepAlnum(a + b) == KeepAlnum(a) + KeepAlnum(b)
  {
    if a == [] {
      assert a + b == b;
    } else {
      assert (a + b)[1..] == a[1..] + b;
      KeepAlnumConcat(a[1..], b);
    }
  }

  /** Deleting is the identity exactly on strings that hold nothing to delete. */
  lemma {:induction false} KeepAlnumFixpoint(s: string)
    ensures KeepAlnum(s) == s <==> AllAlnum(s)
  {
    if s != [] {
      KeepAlnumFixpoint(s[1..]);
      if !IsAsciiAlnum(s[0]) {
        assert |KeepAlnum(s)| < |s| by { assert |KeepAlnum(s[1..])| <= |s[1..]|; }
      }
    }
  }

  /** `str.upper()` on characters of the class above: only a-z change. */
  function UpperChar(c: char): (r: char)
    ensures 'a' <= c <= 'z' ==> r as int == c as int - 32
    ensures !('a' <= c <= 'z') ==> r == c
  {
    if 'a' <= c <= 'z' then (c as int - 32) as char else c
  }

  function AsciiUpper(s: string): (r: string)
    ensures |r| == |s|
    ensures forall k :: 0 <= k < |s| ==> r[k] == UpperChar(s[k])
  {
    seq(|s|, k requires 0 <= k < |s| => UpperChar(s[k]))
  }

  /** `sub in s` for strings: `sub` occurs as a contiguous slice. */
  predicate Contains(s: string, sub: string) {
    exists k | 0 <= k <= |s| :: OccursAt(s, sub, k)
  }

  predicate OccursAt(s: string, sub: string, k: int) {
    0 <= k <= |s| - |sub| && s[k..k + |sub|] == sub
  }

  /** A two-letter pattern made of class characters survives the deletion of the
      other characters, so it is still present after upper-casing when it was
      already upper-case. */
  lemma ContainsSurvivesCleaning(s: string, sub: string)
    requires |sub| == 2 && AllAlnum(sub) && AsciiUpper(sub) == sub
    requires Contains(s, sub)
    ensures Contains(AsciiUpper(KeepAlnum(s)), sub)
  {
    var k :| 0 <= k <= |s| && OccursAt(s, sub, k);
    var n := CleaningKeepsSlice(s, sub, k);
    UpperKeepsSlice(KeepAlnum(s), sub, n);
  }

  /** Cleaning keeps an occurrence of an all-class pattern, at a known offset. */
  lemma CleaningKeepsSlice(s: string, sub: string, k: int) returns (n: int)
    requires AllAlnum(sub) && OccursAt(s, sub, k)
    ensures OccursAt(KeepAlnum(s), sub, n)
  {
    var pre, post := s[..k], s[k + |sub|..];
    assert s == pre + sub + post;
    KeepAlnumConcat(pre + sub, post);
    KeepAlnumConcat(pre, sub);
    KeepAlnumFixpoint(sub);
    var c := KeepAlnum(s);
    n := |KeepAlnum(pre)|;
    assert c == KeepAlnum(pre) + sub + KeepAlnum(post);
    assert c[n..n + |sub|] == sub;
  }

  /** Upper-casing keeps an occurrence of an upper-case pattern. */
  lemma UpperKeepsSlice(c: string, sub: string, n: int)
    requires AsciiUpper(sub) == sub && OccursAt(c, sub, n)
    ensures Contains(AsciiUpper(c), sub)
  {
    var u := AsciiUpper(c);
    forall i | 0 <= i < |sub| ensures u[n + i] == sub[i] {
      assert c[n + i] == sub[i];
      assert AsciiUpper(sub)[i] == UpperChar(sub[i]);
    }
    assert u[n..n + |sub|] == sub;
    assert OccursAt(u, sub, n);
  }

  /** A string without the separator is a single piece. */
  lemma {:induction false} SplitNoSep(s: string, sep: char)
    requires sep !in s
    ensures Split(s, sep) == [s]
    decreases |s|
  {
    if s != [] {
      SplitNoSep(s[1..], sep);
      assert [s[0]] + s[1..] == s;
    }
  }

  /** The first separator ends the first piece. */
  lemma {:induction false} SplitAtSep(a: string, sep: char, b: string)
    requires sep !in a
    ensures Split(a + [sep] + b, sep) == [a] + Split(b, sep)
    decreases |a|
  {
    var s := a + [sep] + b;
    if a == [] {
      assert s[1..] == b;
    } else {
      assert s[1..] == a[1..] + [sep] + b;
      SplitAtSep(a[1..], sep, b);
      assert [a[0]] + a[1..] == a;
    }
  }

  /** Stripping a string whose ends are outside `cs` changes nothing. */
  lemma StripNothing(s: string, cs: set<char>)
    requires s != [] && s[0] !in cs && s[|s| - 1] !in cs
    ensures Strip(s, cs) == s
  {
  }

  /** Stripping one enclosing pair of characters of `cs`. */
  lemma StripEnclosed(open: char, m: string, close: char, cs: set<char>)
    requires open in cs && close in cs
    requires m != [] && m[0] !in cs && m[|m| - 1] !in cs
    ensures Strip([open] + m + [close], cs) == m
  {
    var s := [open] + m + [close];
    assert s[1..] == m + [close];
    assert StripLeft(s, cs) == m + [close];
    assert (m + [close])[..|m|] == m;
  }

  /** The characters `str.isspace()` accepts, which `str.strip()` removes. */
  const Whitespace: set<char> := {
    '\t', '\n', '\U{B}', '\U{C}', '\r', '\U{1C}', '\U{1D}', '\U{1E}', '\U{1F}', ' ',
    '\U{85}', '\U{A0}', '\U{1680}', '\U{2000}', '\U{2001}', '\U{2002}', '\U{2003}', '\U{2004}',
    '\U{2005}', '\U{2006}', '\U{2007}', '\U{2008}', '\U{2009}', '\U{200A}', '\U{2028}', '\U{2029}',
    '\U{202F}', '\U{205F}', '\U{3000}'
  }

  /** Drop leading characters that belong to `cs`. */
  function StripLeft(s: string, cs: set<char>): (r: string)
    ensures |r| <= |s| && r == s[|s| - |r|..]
    ensures forall k :: 0 <= k < |s| - |r| ==> s[k] in cs
    ensures r != [] ==> r[0] !in cs
  {
    if s != [] && s[0] in cs then StripLeft(s[1..], cs) else s
  }

  /** Drop trailing characters that belong to `cs`. */
  function StripRight(s: string, cs: set<char>): (r: string)
    ensures |r| <= |s| && r == s[..|r|]
    ensures forall k :: |r| <= k < |s| ==> s[k] in cs
    ensures r != [] ==> r[|r| - 1] !in cs
  {
    if s != [] && s[|s| - 1] in cs then StripRight(s[..|s| - 1], cs) else s
  }

  /** `s.strip(cs)`: the longest middle slice that neither starts nor ends with a
      character of `cs`; everything cut away on either side belongs to `cs`. */
  function Strip(s: string, cs: set<char>): (r: string)
    ensures |r| <= |s|
    ensures r != [] ==> r[0] !in cs && r[|r| - 1] !in cs
  {
    StripRight(StripLeft(s, cs), cs)
  }

  /** Where the slice `Strip` keeps begins. */
  function StripStart(s: string, cs: set<char>): nat {
    |s| - |StripLeft(s, cs)|
  }

  /** What `Strip` keeps is a slice of `s`, and what it cuts away belongs to `cs`. */
  lemma StripIsSlice(s: string, cs: set<char>)
    ensures StrippedAt(s, cs, StripStart(s, cs), Strip(s, cs))
  {
    var l := StripLeft(s, cs);
    assert StrippedAt(s, cs, |s| - |l|, StripRight(l, cs));
  }

  /** `r` is the slice of `s` starting at `a`, and what lies outside it belongs to `cs`. */
  predicate StrippedAt(s: string, cs: set<char>, a: int, r: string) {
    && 0 <= a <= |s| - |r| && r == s[a..a + |r|]
    && (forall k :: 0 <= k < a ==> s[k] in cs)
    && (forall k :: a + |r| <= k < |s| ==> s[k] in cs)
  }

  /** A string strips to nothing exactly when all of it belongs to `cs`. */
  lemma StripEmpty(s: string, cs: set<char>)
    ensures Strip(s, cs) == [] <==> forall k :: 0 <= k < |s| ==> s[k] in cs
  {
    if forall k :: 0 <= k < |s| ==> s[k] in cs {
      StripLeftAll(s, cs);
    }
  }

  lemma {:induction false} StripLeftAll(s: string, cs: set<char>)
    requires forall k :: 0 <= k < |s| ==> s[k] in cs
    ensures StripLeft(s, cs) == []
    decreases |s|
  {
    if s != [] {
      StripLeftAll(s[1..], cs);
    }
  }

  /** `s.split(sep)`: the pieces between separators, empty pieces included. */
  function Split(s: string, sep: char): (r: seq<string>)
    ensures |r| >= 1
    decreases |s|
  {
    if s == [] then [[]]
    else
      var rest := Split(s[1..], sep);
      if s[0] == sep then [[]] + rest else [[s[0]] + rest[0]] + rest[1..]
  }

  /** `sep.join(pieces)`, the inverse of `Split`. */
  function Join(pieces: seq<string>, sep: char): string
    requires |pieces| >= 1
    decreases |pieces|
  {
    if |pieces| == 1 then pieces[0] else pieces[0] + [sep] + Join(pieces[1..], sep)
  }

  /** Splitting loses nothing: joining the pieces gives the input back, and no
      piece holds a separator. */
  lemma {:induction false} SplitJoin(s: string, sep: char)
    ensures Join(Split(s, sep), sep) == s
    ensures forall k :: 0 <= k < |Split(s, sep)| ==> sep !in Split(s, sep)[k]
    decreases |s|
  {
    if s != [] {
      var rest := Split(s[1..], sep);
      SplitJoin(s[1..], sep);
      if s[0] == sep {
        assert Split(s, sep)[1..] == rest;
      } else {
        var r := Split(s, sep);
        if |rest| == 1 {
          assert r == [[s[0]] + rest[0]];
        } else {
          assert r[1..] == rest[1..];
          assert Join(r, sep) == [s[0]] + rest[0] + [sep] + Join(rest[1..], sep);
        }
        assert s == [s[0]] + s[1..];
        forall k | 0 <= k < |r| ensures sep !in r[k] {
          if k > 0 { assert r[k] == rest[k]; }
        }
      }
    }
  }
}
