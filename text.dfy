/**
 The handful of Python string operations the settings file and the key
 handling use, with the facts about them the rest of the model relies on:
 str.split on single characters (and re.split on a character class),
 str.split("//"), "sep".join, str.strip, str.lower, str.isalpha and
 re.sub over a character class.
 */
module Text {

  /** Python's str.isspace for one character. */
  predicate IsSpace(c: char) {
    c in {' ', '\t', '\n', '\r', '\U{B}', '\U{C}', '\U{1C}', '\U{1D}', '\U{1E}', '\U{1F}',
          '\U{85}', '\U{A0}', '\U{1680}', '\U{2000}', '\U{2001}', '\U{2002}', '\U{2003}',
          '\U{2004}', '\U{2005}', '\U{2006}', '\U{2007}', '\U{2008}', '\U{2009}', '\U{200A}',
          '\U{2028}', '\U{2029}', '\U{202F}', '\U{205F}', '\U{3000}'}
  }

  predicate AllSpace(s: string) {
    forall i :: 0 <= i < |s| ==> IsSpace(s[i])
  }

  /** No whitespace at either end: what str.strip leaves. */
  predicate Trimmed(s: string) {
    s == [] || (!IsSpace(s[0]) && !IsSpace(s[|s| - 1]))
  }

  function TrimLeft(s: string): string {
    if s != [] && IsSpace(s[0]) then TrimLeft(s[1..]) else s
  }

  function TrimRight(s: string): string {
    if s != [] && IsSpace(s[|s| - 1]) then TrimRight(s[..|s| - 1]) else s
  }

  /** str.strip(): drop the whitespace at both ends. */
  function Strip(s: string): string {
    TrimRight(TrimLeft(s))
  }

  lemma {:induction false} TrimLeftStart(s: string)
    ensures TrimLeft(s) == [] || !IsSpace(TrimLeft(s)[0])
  {
    if s != [] && IsSpace(s[0]) {
      TrimLeftStart(s[1..]);
    }
  }

  /** TrimRight keeps a prefix and leaves no whitespace at its end. */
  lemma {:induction false} TrimRightPrefix(s: string)
    ensures |TrimRight(s)| <= |s| && TrimRight(s) == s[..|TrimRight(s)|]
    ensures TrimRight(s) == [] || !IsSpace(TrimRight(s)[|TrimRight(s)| - 1])
  {
    if s != [] && IsSpace(s[|s| - 1]) {
      TrimRightPrefix(s[..|s| - 1]);
    }
  }

  /** What strip returns has no whitespace at either end. */
  lemma StripTrims(s: string)
    ensures Trimmed(Strip(s))
  {
    TrimLeftStart(s);
    TrimRightPrefix(TrimLeft(s));
  }

  lemma {:induction false} TrimLeftSpaces(a: string, v: string)
    requires AllSpace(a) && (v == [] || !IsSpace(v[0]))
    ensures TrimLeft(a + v) == v
  {
    if a != [] {
      assert (a + v)[1..] == a[1..] + v;
      TrimLeftSpaces(a[1..], v);
    }
  }

  lemma {:induction false} TrimRightSpaces(v: string, b: string)
    requires AllSpace(b) && (v == [] || !IsSpace(v[|v| - 1]))
    ensures TrimRight(v + b) == v
  {
    if b != [] {
      assert (v + b)[..|v + b| - 1] == v + b[..|b| - 1];
      TrimRightSpaces(v, b[..|b| - 1]);
    }
  }

  /** Padding a trimmed string with whitespace on both sides is undone by
      strip. */
  lemma StripPadded(a: string, v: string, b: string)
    requires AllSpace(a) && AllSpace(b) && Trimmed(v)
    ensures Strip(a + v + b) == v
  {
    if v == [] {
      assert a + v + b == a + b;
      assert AllSpace(a + b);
      TrimLeftSpaces(a + b, []);
      assert a + b + [] == a + b;
    } else {
      assert a + v + b == a + (v + b);
      TrimLeftSpaces(a, v + b);
      TrimRightSpaces(v, b);
    }
  }

  /** A trimmed string is left alone by strip. */
  lemma StripTrimmed(v: string)
    requires Trimmed(v)
    ensures Strip(v) == v
  {
    assert [] + v + [] == v;
    StripPadded([], v, []);
  }

  /** s.split(c) for a single separator character, and re.split over a
      character class: cut at every character of `seps`. */
  function Split(s: string, seps: set<char>): (parts: seq<string>)
    ensures |parts| >= 1
  {
    if s == [] then [[]]
    else
      var rest := Split(s[1..], seps);
      if s[0] in seps then [[]] + rest else [[s[0]] + rest[0]] + rest[1..]
  }

  predicate Free(s: string, seps: set<char>) {
    forall i :: 0 <= i < |s| ==> s[i] !in seps
  }

  /** Splitting at a separator splits the two sides independently. */
  lemma {:induction false} SplitAt(a: string, c: char, b: string, seps: set<char>)
    requires c in seps
    ensures Split(a + [c] + b, seps) == Split(a, seps) + Split(b, seps)
  {
    if a == [] {
      assert a + [c] + b == [c] + b;
      assert ([c] + b)[1..] == b;
    } else {
      assert (a + [c] + b)[1..] == a[1..] + [c] + b;
      SplitAt(a[1..], c, b, seps);
    }
  }

  /** A separator-free prefix joins the first piece. */
  lemma {:induction false} SplitPrefix(p: string, t: string, seps: set<char>)
    requires Free(p, seps)
    ensures Split(p + t, seps) == [p + Split(t, seps)[0]] + Split(t, seps)[1..]
  {
    if p != [] {
      assert (p + t)[0] == p[0] && p[0] !in seps;
      assert (p + t)[1..] == p[1..] + t;
      SplitPrefix(p[1..], t, seps);
      var r := Split(p[1..] + t, seps);
      assert Split(p + t, seps) == [[p[0]] + r[0]] + r[1..];
      assert [p[0]] + (p[1..] + Split(t, seps)[0]) == p + Split(t, seps)[0];
    } else {
      assert p + t == t;
      assert p + Split(t, seps)[0] == Split(t, seps)[0];
    }
  }

  lemma SplitFree(p: string, seps: set<char>)
    requires Free(p, seps)
    ensures Split(p, seps) == [p]
  {
    SplitPrefix(p, [], seps);
    assert p + [] == p;
  }

  /** sep.join(parts). */
  function Join(parts: seq<string>, sep: string): string {
    if parts == [] then []
    else if |parts| == 1 then parts[0]
    else parts[0] + sep + Join(parts[1..], sep)
  }

  lemma {:induction false} JoinAppend(a: seq<string>, b: seq<string>, sep: string)
    requires a != [] && b != []
    ensures Join(a + b, sep) == Join(a, sep) + sep + Join(b, sep)
  {
    if |a| == 1 {
      assert (a + b)[1..] == b;
    } else {
      assert (a + b)[1..] == a[1..] + b;
      JoinAppend(a[1..], b, sep);
    }
  }

  /** Joining separator-free parts and splitting again gives the parts. */
  lemma {:induction false} SplitJoin(parts: seq<string>, c: char)
    requires parts != []
    requires forall k :: 0 <= k < |parts| ==> Free(parts[k], {c})
    ensures Split(Join(parts, [c]), {c}) == parts
  {
    if |parts| == 1 {
      SplitFree(parts[0], {c});
    } else {
      SplitAt(parts[0], c, Join(parts[1..], [c]), {c});
      SplitFree(parts[0], {c});
      SplitJoin(parts[1..], c);
      assert parts[0] + [c] + Join(parts[1..], [c]) == Join(parts, [c]);
    }
  }

  /** filter(lambda l: l != "", parts). */
  function NonEmpty(parts: seq<string>): seq<string> {
    if parts == [] then []
    else if parts[0] == [] then NonEmpty(parts[1..])
    else [parts[0]] + NonEmpty(parts[1..])
  }

  lemma {:induction false} NonEmptyAppend(a: seq<string>, b: seq<string>)
    ensures NonEmpty(a + b) == NonEmpty(a) + NonEmpty(b)
  {
    if a != [] {
      assert (a + b)[0] == a[0] && (a + b)[1..] == a[1..] + b;
      NonEmptyAppend(a[1..], b);
    } else {
      assert a + b == b;
    }
  }

  lemma {:induction false} NonEmptyKeeps(parts: seq<string>)
    requires forall k :: 0 <= k < |parts| ==> parts[k] != []
    ensures NonEmpty(parts) == parts
  {
    if parts != [] {
      NonEmptyKeeps(parts[1..]);
    }
  }

  /** What NonEmpty keeps is not empty. */
  lemma {:induction false} NonEmptyDrops(parts: seq<string>)
    ensures forall k :: 0 <= k < |NonEmpty(parts)| ==> NonEmpty(parts)[k] != []
  {
    if parts != [] {
      NonEmptyDrops(parts[1..]);
    }
  }

  /** A "//" starts at position i. */
  predicate SlashAt(s: string, i: int)
    requires 0 <= i < |s| - 1
  {
    s[i] == '/' && s[i + 1] == '/'
  }

  predicate NoDoubleSlash(s: string) {
    forall i :: 0 <= i < |s| - 1 ==> !SlashAt(s, i)
  }

  /** Two pieces without "//" joined where no '/' meets another '/'. */
  lemma NoDoubleSlashAppend(a: string, b: string)
    requires NoDoubleSlash(a) && NoDoubleSlash(b)
    requires a == [] || b == [] || a[|a| - 1] != '/' || b[0] != '/'
    ensures NoDoubleSlash(a + b)
  {
    var s := a + b;
    forall i | 0 <= i < |s| - 1
      ensures !SlashAt(s, i)
    {
      if i + 1 < |a| {
        assert s[i] == a[i] && s[i + 1] == a[i + 1] && !SlashAt(a, i);
      } else if i >= |a| {
        assert s[i] == b[i - |a|] && s[i + 1] == b[i + 1 - |a|] && !SlashAt(b, i - |a|);
      }
    }
  }

  lemma FreeAppend(a: string, b: string, seps: set<char>)
    requires Free(a, seps) && Free(b, seps)
    ensures Free(a + b, seps)
  {
    forall i | 0 <= i < |a + b|
      ensures (a + b)[i] !in seps
    {
      if i >= |a| {
        assert (a + b)[i] == b[i - |a|];
      }
    }
  }

  /** Separator-free parts joined by a separator-free string. */
  lemma {:induction false} JoinFree(parts: seq<string>, sep: string, seps: set<char>)
    requires Free(sep, seps)
    requires forall k :: 0 <= k < |parts| ==> Free(parts[k], seps)
    ensures Free(Join(parts, sep), seps)
  {
    if |parts| > 1 {
      JoinFree(parts[1..], sep, seps);
      FreeAppend(parts[0], sep, seps);
      FreeAppend(parts[0] + sep, Join(parts[1..], sep), seps);
    }
  }

  /** s.split("//"): cut at each "//", scanning from the left. */
  function SplitSlashes(s: string): (parts: seq<string>)
    ensures |parts| >= 1
  {
    if s == [] then [[]]
    else if |s| >= 2 && s[0] == '/' && s[1] == '/' then [[]] + SplitSlashes(s[2..])
    else
      var rest := SplitSlashes(s[1..]);
      [[s[0]] + rest[0]] + rest[1..]
  }

  /** A piece without "//" that does not end in '/' is cut off exactly at
      the "//" that follows it. */
  lemma {:induction false} SplitSlashesAt(a: string, b: string)
    requires NoDoubleSlash(a) && (a == [] || a[|a| - 1] != '/')
    ensures SplitSlashes(a + "//" + b) == [a] + SplitSlashes(b)
  {
    if a == [] {
      assert a + "//" + b == "//" + b;
      assert ("//" + b)[2..] == b;
    } else {
      var s := a + "//" + b;
      assert s[1..] == a[1..] + "//" + b;
      assert |a| >= 2 ==> s[1] == a[1] && !SlashAt(a, 0);
      assert |a| == 1 ==> a[0] != '/';
      assert NoDoubleSlash(a[1..]) by {
        forall i | 0 <= i < |a| - 2
          ensures !SlashAt(a[1..], i)
        {
          assert !SlashAt(a, i + 1);
        }
      }
      SplitSlashesAt(a[1..], b);
      assert [a[0]] + a[1..] == a;
    }
  }

  lemma {:induction false} SplitSlashesFree(a: string)
    requires NoDoubleSlash(a)
    ensures SplitSlashes(a) == [a]
  {
    if a != [] {
      assert |a| >= 2 ==> !SlashAt(a, 0);
      assert NoDoubleSlash(a[1..]) by {
        forall i | 0 <= i < |a| - 2
          ensures !SlashAt(a[1..], i)
        {
          assert !SlashAt(a, i + 1);
        }
      }
      SplitSlashesFree(a[1..]);
      assert [a[0]] + a[1..] == a;
    }
  }

  /** re.sub over a character class with an empty replacement. */
  function Remove(s: string, chars: set<char>): string {
    if s == [] then []
    else if s[0] in chars then Remove(s[1..], chars)
    else [s[0]] + Remove(s[1..], chars)
  }

  lemma {:induction false} RemoveAppend(a: string, b: string, chars: set<char>)
    ensures Remove(a + b, chars) == Remove(a, chars) + Remove(b, chars)
  {
    if a != [] {
      assert (a + b)[0] == a[0] && (a + b)[1..] == a[1..] + b;
      RemoveAppend(a[1..], b, chars);
    } else {
      assert a + b == b;
    }
  }

  lemma {:induction false} RemoveFree(a: string, chars: set<char>)
    requires Free(a, chars)
    ensures Remove(a, chars) == a
  {
    if a != [] {
      RemoveFree(a[1..], chars);
      assert [a[0]] + a[1..] == a;
    }
  }

  lemma {:induction false} RemoveClears(s: string, chars: set<char>)
    ensures Free(Remove(s, chars), chars)
  {
    if s != [] {
      RemoveClears(s[1..], chars);
    }
  }

  /** Every character Remove keeps comes from its input. */
  lemma {:induction false} RemoveKeeps(s: string, chars: set<char>, c: char)
    requires c in Remove(s, chars)
    ensures c in s && c !in chars
  {
    if s != [] && s[0] in chars {
      RemoveKeeps(s[1..], chars, c);
    } else if s != [] && c != s[0] {
      RemoveKeeps(s[1..], chars, c);
    }
  }

  /** str.lower() on one character; only ASCII letters are mapped. */
  function LowerChar(c: char): char {
    if 'A' <= c <= 'Z' then (c as int + 32) as char else c
  }

  function Lower(s: string): (r: string)
    ensures |r| == |s|
    ensures forall i :: 0 <= i < |s| ==> r[i] == LowerChar(s[i])
  {
    seq(|s|, i requires 0 <= i < |s| => LowerChar(s[i]))
  }

  /** str.isalpha() on one character; only ASCII letters are recognised. */
  predicate IsLetter(c: char) {
    ('a' <= c <= 'z') || ('A' <= c <= 'Z')
  }

  /** str.isalpha(): not empty, and letters only. */
  predicate IsAlpha(s: string) {
    |s| > 0 && forall i :: 0 <= i < |s| ==> IsLetter(s[i])
  }
}
