/**
 Reading back what writeFile wrote. For settings whose names, keys, values
 and comments stay clear of the characters the file format uses ('[', ']',
 '=', line breaks and "//"), readFile's parse of writeFile's text stores
 every value again and leaves every comment in the cleaned form writeFile
 gave it: the stripped, junk-free comment behind a single space.
 */
module SettingsRoundTrip {
  import opened Text
  import opened Validation
  import opened Wrappers
  import opened SettingsFile

  // ---------------------------------------------------------------------
  // The shape of the written text

  /** The lines from section i on, with a blank line between sections. */
  function LinesFrom(S: seq<Section>, i: nat): seq<string>
    requires i < |S|
    decreases |S| - i
  {
    if i + 1 < |S| then SectionLines(S[i]) + [[]] + LinesFrom(S, i + 1) else SectionLines(S[i])
  }

  /** Section i's text, followed by the blank line when a section follows. */
  function Block(S: seq<Section>, i: nat): string
    requires i < |S|
  {
    Join(SectionLines(S[i]), "\n") + (if i + 1 < |S| then "\n\n" else [])
  }

  /** The text from section i on. */
  function Tail(S: seq<Section>, i: nat): string
    requires i < |S|
    decreases |S| - i
  {
    if i + 1 < |S| then Block(S, i) + Tail(S, i + 1) else Block(S, i)
  }

  lemma {:induction false} BuiltThenRest(S: seq<Section>, n: nat)
    requires n < |S|
    ensures Built(S, n) + LinesFrom(S, n) + [[]] == Built(S, |S|)
    decreases |S| - n
  {
    var B, A := Built(S, n), SectionLines(S[n]);
    assert Built(S, n + 1) == B + A + [[]];
    if n + 1 < |S| {
      var L := LinesFrom(S, n + 1);
      BuiltThenRest(S, n + 1);
      assert LinesFrom(S, n) == A + [[]] + L;
      Regroup(B, A, L);
    }
  }

  lemma Regroup(B: seq<string>, A: seq<string>, L: seq<string>)
    ensures B + (A + [[]] + L) + [[]] == B + A + [[]] + L + [[]]
  {
  }

  lemma FileLinesFromFirst(S: seq<Section>)
    requires |S| > 0
    ensures FileLines(S) == LinesFrom(S, 0)
  {
    BuiltThenRest(S, 0);
    DropLast(Built(S, 0), LinesFrom(S, 0));
  }

  lemma DropLast(B: seq<string>, L: seq<string>)
    requires B == []
    ensures (B + L + [[]])[..|B + L + [[]]| - 1] == L
  {
    assert B + L + [[]] == L + [[]];
  }

  lemma {:induction false} JoinLinesFrom(S: seq<Section>, i: nat)
    requires i < |S|
    ensures Join(LinesFrom(S, i), "\n") == Tail(S, i)
    decreases |S| - i
  {
    if i + 1 < |S| {
      var A := SectionLines(S[i]);
      JoinLinesFrom(S, i + 1);
      JoinAppend(A + [[]], LinesFrom(S, i + 1), "\n");
      JoinAppend(A, [[]], "\n");
      assert Join([[]], "\n") == [];
      BlankLine(Join(A, "\n"), Tail(S, i + 1));
    }
  }

  lemma BlankLine(x: string, t: string)
    ensures x + "\n" + [] + "\n" + t == x + "\n\n" + t
  {
  }

  /** The rendered file is the blocks of all sections, one after another. */
  lemma RenderIsTail(S: seq<Section>)
    requires |S| > 0
    ensures Render(S) == Tail(S, 0)
  {
    FileLinesFromFirst(S);
    JoinLinesFrom(S, 0);
  }

  // ---------------------------------------------------------------------
  // Splitting the text at the brackets

  const Brackets: set<char> := {'[', ']'}

  /** What follows section i's header up to the next header: its entry
      lines, each after a line break, and the blank line before the next
      section. */
  function Body(S: seq<Section>, i: nat): string
    requires i < |S|
  {
    var E := EntryLines(S[i]);
    (if E == [] then [] else "\n" + Join(E, "\n")) + (if i + 1 < |S| then "\n\n" else [])
  }

  lemma HeadRegroup(name: string, x: string, y: string)
    ensures "[" + name + "]" + x + y == "[" + name + "]" + (x + y)
  {
  }

  lemma BlockShape(S: seq<Section>, i: nat)
    requires i < |S|
    ensures Block(S, i) == "[" + S[i].name + "]" + Body(S, i)
  {
    var E := EntryLines(S[i]);
    var x := if E == [] then [] else "\n" + Join(E, "\n");
    var h := Header(S[i]);
    assert Join([h] + E, "\n") == h + x by {
      if E != [] {
        assert ([h] + E)[1..] == E;
        assert h + "\n" + Join(E, "\n") == h + x;
      }
    }
    HeadRegroup(S[i].name, x, if i + 1 < |S| then "\n\n" else []);
  }

  /** A section's entry lines hold no bracket. */
  predicate EntriesFree(s: Section, seps: set<char>) {
    forall j :: 0 <= j < |s.settings| ==> Free(EntryLine(s.settings[j]), seps)
  }

  lemma BodyFree(S: seq<Section>, i: nat)
    requires i < |S| && EntriesFree(S[i], Brackets)
    ensures Free(Body(S, i), Brackets)
  {
    var E := EntryLines(S[i]);
    JoinFree(E, "\n", Brackets);
    if E != [] {
      FreeAppend("\n", Join(E, "\n"), Brackets);
    }
    var x := if E == [] then [] else "\n" + Join(E, "\n");
    FreeAppend(x, if i + 1 < |S| then "\n\n" else [], Brackets);
  }

  /** One section's text cut at the brackets, ahead of the rest. */
  lemma SplitSection(name: string, body: string, rest: string)
    requires Free(name, Brackets) && Free(body, Brackets)
    ensures Split("[" + name + "]" + body + rest, Brackets) ==
      [[], name, body + Split(rest, Brackets)[0]] + Split(rest, Brackets)[1..]
  {
    var X := name + [']'] + (body + rest);
    var r := Split(rest, Brackets);
    assert "[" + name + "]" + body + rest == [] + ['['] + X;
    SplitAt([], '[', X, Brackets);
    assert Split([], Brackets) == [[]];
    SplitAt(name, ']', body + rest, Brackets);
    SplitFree(name, Brackets);
    SplitPrefix(body, rest, Brackets);
    Three([], name, body + r[0], r[1..]);
  }

  lemma Three(a: string, b: string, c: string, t: seq<string>)
    ensures [a] + ([b] + ([c] + t)) == [a, b, c] + t
  {
  }

  /** Pieces of a cut text: an empty piece, then each name followed by its
      body. */
  predicate Pieces(c: seq<string>, names: seq<string>, bodies: seq<string>) {
    |names| == |bodies| && |c| == 2 * |names| + 1 && c[0] == [] &&
    forall k :: 0 <= k < |names| ==> c[2 * k + 1] == names[k] && c[2 * k + 2] == bodies[k]
  }

  lemma PiecesStep(c: seq<string>, c': seq<string>, names: seq<string>, bodies: seq<string>)
    requires |names| == |bodies| > 0 && Pieces(c', names[1..], bodies[1..])
    requires c == [[], names[0], bodies[0]] + c'[1..]
    ensures Pieces(c, names, bodies)
  {
    forall k | 1 <= k < |names|
      ensures c[2 * k + 1] == names[k] && c[2 * k + 2] == bodies[k]
    {
      var k' := k - 1;
      assert c[2 * k + 1] == c'[2 * k' + 1] == names[1..][k'];
      assert c[2 * k + 2] == c'[2 * k' + 2] == bodies[1..][k'];
    }
  }

  function Names(S: seq<Section>): seq<string> {
    seq(|S|, k requires 0 <= k < |S| => S[k].name)
  }

  function Bodies(S: seq<Section>): seq<string> {
    seq(|S|, k requires 0 <= k < |S| => Body(S, k))
  }

  /** The text after section i's block. */
  function Rest(S: seq<Section>, i: nat): string
    requires i < |S|
  {
    if i + 1 < |S| then Tail(S, i + 1) else []
  }

  /** Section i's block cut at the brackets, ahead of the rest. */
  lemma TailCut(S: seq<Section>, i: nat)
    requires i < |S| && Free(S[i].name, Brackets) && EntriesFree(S[i], Brackets)
    ensures Split(Tail(S, i), Brackets) ==
      [[], S[i].name, Body(S, i) + Split(Rest(S, i), Brackets)[0]] + Split(Rest(S, i), Brackets)[1..]
  {
    BodyFree(S, i);
    BlockShape(S, i);
    assert Tail(S, i) == "[" + S[i].name + "]" + Body(S, i) + Rest(S, i);
    SplitSection(S[i].name, Body(S, i), Rest(S, i));
  }

  /** The text from section i on, cut at the brackets. */
  lemma {:induction false} SplitTail(S: seq<Section>, i: nat)
    requires i < |S|
    requires forall k :: i <= k < |S| ==> Free(S[k].name, Brackets) && EntriesFree(S[k], Brackets)
    ensures Pieces(Split(Tail(S, i), Brackets), Names(S)[i..], Bodies(S)[i..])
    decreases |S| - i
  {
    TailCut(S, i);
    var c, c' := Split(Tail(S, i), Brackets), Split(Rest(S, i), Brackets);
    var names, bodies := Names(S)[i..], Bodies(S)[i..];
    assert names[0] == S[i].name && bodies[0] == Body(S, i);
    if i + 1 < |S| {
      SplitTail(S, i + 1);
      assert names[1..] == Names(S)[i + 1..] && bodies[1..] == Bodies(S)[i + 1..];
      assert bodies[0] + c'[0] == bodies[0];
      PiecesStep(c, c', names, bodies);
    } else {
      assert c' == [[]];
      assert bodies[0] + c'[0] == bodies[0];
      assert c == [[], names[0], bodies[0]];
    }
  }

  // ---------------------------------------------------------------------
  // Headers, bodies and lines

  /** A section with settings has a body that starts with a line break. */
  lemma BodyStarts(S: seq<Section>, i: nat)
    requires i < |S| && |S[i].settings| > 0
    ensures |Body(S, i)| > 0 && Body(S, i)[0] == '\n'
  {
  }

  /** The pieces at the odd places are the names; the non-empty pieces at
      the even places are the bodies, when no body is empty. */
  lemma HeadersAndBodies(c: seq<string>, names: seq<string>, bodies: seq<string>)
    requires Pieces(c, names, bodies)
    requires forall k :: 0 <= k < |bodies| ==> bodies[k] != []
    ensures Odds(c) == names
    ensures NonEmpty(Evens(c)) == bodies
  {
    OddsAt(c);
    EvensAt(c);
    var ev := Evens(c);
    assert ev == [[]] + ev[1..];
    assert ev[1..] == bodies by {
      forall k | 0 <= k < |bodies|
        ensures ev[1..][k] == bodies[k]
      {
        assert ev[1..][k] == c[2 * k + 2];
      }
    }
    NonEmptyAppend([[]], ev[1..]);
    BlankDropped();
    NonEmptyKeeps(bodies);
    assert [] + bodies == bodies;
  }

  /** The blank line after a section adds two empty pieces. */
  lemma SplitBlankLine(J: string)
    ensures Split(J + "\n\n", {'\n'}) == Split(J, {'\n'}) + [[], []]
  {
    assert J + "\n\n" == J + ['\n'] + "\n";
    SplitAt(J, '\n', "\n", {'\n'});
    assert "\n" == [] + ['\n'] + [];
    SplitAt([], '\n', [], {'\n'});
    assert Split([], {'\n'}) == [[]];
  }

  lemma TwoBlanksDropped()
    ensures NonEmpty([[], []]) == []
  {
    var blanks: seq<string> := [[], []];
    assert blanks[1..] == [[]];
    BlankDropped();
  }

  /** Lines after a leading line break and before an optional blank line
      are found again by cutting at the line breaks and dropping the empty
      pieces. */
  lemma SplitBody(E: seq<string>, tail: string)
    requires E != [] && (tail == [] || tail == "\n\n")
    requires forall k :: 0 <= k < |E| ==> E[k] != [] && Free(E[k], {'\n'})
    ensures NonEmpty(Split("\n" + Join(E, "\n") + tail, {'\n'})) == E
  {
    var J := Join(E, "\n");
    assert "\n" + J + tail == [] + ['\n'] + (J + tail);
    SplitAt([], '\n', J + tail, {'\n'});
    assert Split([], {'\n'}) == [[]];
    SplitJoin(E, '\n');
    var after: seq<string> := if tail == [] then [] else [[], []];
    assert Split(J + tail, {'\n'}) == E + after by {
      if tail == [] {
        assert J + tail == J;
      } else {
        SplitBlankLine(J);
      }
    }
    assert [[]] + (E + after) == [[]] + E + after;
    NonEmptyAppend([[]] + E, after);
    NonEmptyAppend([[]], E);
    BlankDropped();
    TwoBlanksDropped();
    NonEmptyKeeps(E);
  }

  /** A body cut at the line breaks, without the empty lines, gives back
      the entry lines. */
  lemma BodyLinesAreEntries(S: seq<Section>, i: nat)
    requires i < |S| && |S[i].settings| > 0 && EntriesFree(S[i], {'\n'})
    ensures BodyLines(Body(S, i)) == EntryLines(S[i])
  {
    var E := EntryLines(S[i]);
    forall k | 0 <= k < |E|
      ensures E[k] != [] && Free(E[k], {'\n'})
    {
      assert |E[k]| >= |" = "|;
    }
    SplitBody(E, if i + 1 < |S| then "\n\n" else []);
  }

  lemma BlankDropped()
    ensures NonEmpty([[]]) == []
  {
    var blank: seq<string> := [[]];
    assert blank[1..] == [];
  }

  // ---------------------------------------------------------------------
  // One entry line

  /** The characters the file format gives a meaning to. */
  const FormatChars: set<char> := {'[', ']', '\n', '='}

  /** A key or value text that comes back unchanged: no format character,
      no "//", no surrounding whitespace. */
  predicate Plain(s: string) {
    Free(s, FormatChars) && NoDoubleSlash(s) && Trimmed(s)
  }

  /** The comment as writeFile writes it after " // ". */
  function Cleaned(c: string): string {
    Remove(Strip(c), Junk)
  }

  /** A comment whose written form holds no bracket and no "//". */
  predicate CommentSafe(c: string) {
    Free(Cleaned(c), Brackets) && NoDoubleSlash(Cleaned(c))
  }

  /** The comment readFile stores for a written comment: what followed the
      "//", which keeps the space writeFile put before the comment. */
  function ReadBack(c: string): string {
    if Strip(c) == [] then [] else " " + Cleaned(c)
  }

  lemma CommentTextShape(c: string)
    ensures CommentText(c) == if Strip(c) == [] then [] else " // " + Cleaned(c)
  {
    if Strip(c) != [] {
      RemoveAppend(" // ", Strip(c), Junk);
      RemoveFree(" // ", Junk);
    }
  }

  lemma HeadSlashFree(k: string, v: string)
    requires NoDoubleSlash(k) && NoDoubleSlash(v)
    ensures NoDoubleSlash(k + " = " + v)
    ensures NoDoubleSlash(k + " = " + v + " ")
  {
    assert !SlashAt(" = ", 0) && !SlashAt(" = ", 1);
    NoDoubleSlashAppend(k, " = ");
    NoDoubleSlashAppend(k + " = ", v);
    NoDoubleSlashAppend(k + " = " + v, " ");
  }

  lemma SlashRegroup(h: string, x: string)
    ensures h + (" // " + x) == (h + " ") + "//" + (" " + x)
  {
    assert " // " == " " + "//" + " ";
  }

  /** Cutting a written line at "//". */
  lemma SlashCut(k: string, v: string, x: string, commented: bool)
    requires NoDoubleSlash(k) && NoDoubleSlash(v) && NoDoubleSlash(x)
    ensures SplitSlashes(k + " = " + v + (if commented then " // " + x else [])) ==
      if commented then [k + " = " + v + " ", " " + x] else [k + " = " + v]
  {
    var head := k + " = " + v;
    HeadSlashFree(k, v);
    if commented {
      assert NoDoubleSlash(" " + x) by {
        assert NoDoubleSlash(" ");
        NoDoubleSlashAppend(" ", x);
      }
      SlashRegroup(head, x);
      SplitSlashesAt(head + " ", " " + x);
      SplitSlashesFree(" " + x);
    } else {
      assert head + [] == head;
      SplitSlashesFree(head);
    }
  }

  lemma EqualsRegroup(k: string, v: string, sp: string)
    ensures k + " = " + v + sp == (k + " ") + ['='] + (" " + v + sp)
  {
    assert " = " == " " + ['='] + " ";
  }

  /** Cutting the part before the "//" at '=' and stripping both sides. */
  lemma EqualsCut(k: string, v: string, sp: string)
    requires Plain(k) && Plain(v) && (sp == [] || sp == " ")
    ensures |Split(k + " = " + v + sp, {'='})| == 2
    ensures Strip(Split(k + " = " + v + sp, {'='})[0]) == k
    ensures Strip(Split(k + " = " + v + sp, {'='})[1]) == v
  {
    var left, right := k + " ", " " + v + sp;
    assert Split(k + " = " + v + sp, {'='}) == [left, right] by {
      EqualsRegroup(k, v, sp);
      SplitAt(left, '=', right, {'='});
      assert Free(left, {'='}) by {
        assert Free(k, {'='});
        FreeAppend(k, " ", {'='});
      }
      assert Free(right, {'='}) by {
        assert Free(v, {'='});
        FreeAppend(" ", v, {'='});
        FreeAppend(" " + v, sp, {'='});
      }
      SplitFree(left, {'='});
      SplitFree(right, {'='});
    }
    assert Strip(left) == k by {
      assert [] + k + " " == left;
      StripPadded([], k, " ");
    }
    assert Strip(right) == v by {
      StripPadded(" ", v, sp);
    }
  }

  /** A written entry line splits back into its key, the comment as read
      back, and its value text. */
  lemma SplitEntryLine(st: Setting)
    requires Plain(st.key) && Plain(ValueText(st.value)) && CommentSafe(st.comment)
    ensures SplitLine(EntryLine(st)) == LineParts(st.key, ReadBack(st.comment), Some(ValueText(st.value)))
  {
    var k, v, x := st.key, ValueText(st.value), Cleaned(st.comment);
    var commented := Strip(st.comment) != [];
    CommentTextShape(st.comment);
    assert EntryLine(st) == k + " = " + v + (if commented then " // " + x else []);
    SlashCut(k, v, x, commented);
    if commented {
      EqualsCut(k, v, " ");
    } else {
      assert k + " = " + v == k + " = " + v + [];
      EqualsCut(k, v, []);
    }
  }

  // ---------------------------------------------------------------------
  // Reading the lines back

  /** A setting as readFile leaves it after reading its written line. */
  function ReadBackSetting(st: Setting): Setting {
    st.(comment := ReadBack(st.comment))
  }

  function ReadBackSection(s: Section): Section {
    s.(settings := seq(|s.settings|, j requires 0 <= j < |s.settings| => ReadBackSetting(s.settings[j])))
  }

  function ReadBackAll(S: seq<Section>): seq<Section> {
    seq(|S|, i requires 0 <= i < |S| => ReadBackSection(S[i]))
  }

  /** A setting whose line reads back: key and value text are plain, the
      comment is safe, booleans are exactly the NaB settings, and the value
      passes its validator. */
  predicate SettingRoundTrips(st: Setting, ch: Checks) {
    Plain(st.key) && Plain(ValueText(st.value)) && CommentSafe(st.comment) &&
    (st.value.Flag? <==> st.code == NaB) && Valid(st.code, ValueText(st.value), ch)
  }

  /** A section whose text reads back: a bracket-free name, at least one
      setting, distinct keys. */
  predicate SectionRoundTrips(s: Section, ch: Checks) {
    Free(s.name, Brackets) && |s.settings| > 0 &&
    (forall j, l :: 0 <= j < l < |s.settings| ==> s.settings[j].key != s.settings[l].key) &&
    forall j :: 0 <= j < |s.settings| ==> SettingRoundTrips(s.settings[j], ch)
  }

  predicate RoundTrips(S: seq<Section>, ch: Checks) {
    |S| > 0 &&
    (forall i, k :: 0 <= i < k < |S| ==> S[i].name != S[k].name) &&
    forall i :: 0 <= i < |S| ==> SectionRoundTrips(S[i], ch)
  }

  /** The same sections and keys, in the same order, with the same sources
      and codes: what reading a file never changes. */
  predicate SameShape(T: seq<Section>, S: seq<Section>) {
    |T| == |S| &&
    forall i :: 0 <= i < |S| ==>
      T[i].name == S[i].name && |T[i].settings| == |S[i].settings| &&
      forall j :: 0 <= j < |S[i].settings| ==>
        T[i].settings[j].key == S[i].settings[j].key &&
        T[i].settings[j].source == S[i].settings[j].source &&
        T[i].settings[j].code == S[i].settings[j].code
  }

  /** A written entry line holds no bracket and no line break. */
  lemma EntryLineFree(st: Setting, ch: Checks)
    requires SettingRoundTrips(st, ch)
    ensures Free(EntryLine(st), Brackets) && Free(EntryLine(st), {'\n'})
  {
    var k, v, x := st.key, ValueText(st.value), Cleaned(st.comment);
    CommentTextShape(st.comment);
    RemoveClears(Strip(st.comment), Junk);
    var t := if Strip(st.comment) == [] then [] else " // " + x;
    assert EntryLine(st) == k + " = " + v + t;
    forall seps: set<char> | seps == Brackets || seps == {'\n'}
      ensures Free(EntryLine(st), seps)
    {
      assert Free(k, seps) && Free(v, seps) && Free(" = ", seps);
      FreeAppend(k, " = ", seps);
      FreeAppend(k + " = ", v, seps);
      assert Free(t, seps) by {
        if t != [] {
          assert Free(x, seps) && Free(" // ", seps);
          FreeAppend(" // ", x, seps);
        }
      }
      FreeAppend(k + " = " + v, t, seps);
    }
  }

  lemma SectionFree(s: Section, ch: Checks)
    requires SectionRoundTrips(s, ch)
    ensures EntriesFree(s, Brackets) && EntriesFree(s, {'\n'})
  {
    forall j | 0 <= j < |s.settings|
      ensures Free(EntryLine(s.settings[j]), Brackets) && Free(EntryLine(s.settings[j]), {'\n'})
    {
      EntryLineFree(s.settings[j], ch);
    }
  }

  /** The written value text is stored as the value it came from. */
  lemma StoredText(st: Setting, ch: Checks)
    requires SettingRoundTrips(st, ch)
    ensures Stored(st.code, ValueText(st.value)) == st.value
  {
  }

  /** Reading section i's j-th written line stores that setting's value
      and its read-back comment, whatever the earlier lines stored. */
  lemma ReadEntryLine(T: seq<Section>, S: seq<Section>, i: nat, j: nat, ch: Checks)
    requires RoundTrips(S, ch) && SameShape(T, S)
    requires i < |S| && j < |S[i].settings|
    ensures ReadLine(T, S[i].name, EntryLine(S[i].settings[j]), ch) ==
      Parsed(Put(T, i, j, ReadBackSetting(S[i].settings[j])), None)
  {
    var st := S[i].settings[j];
    SplitEntryLine(st);
    FindSectionFirst(T, S[i].name);
    FindKeyFirst(T[i].settings, st.key);
    var f := FindSection(T, S[i].name);
    assert f == Some(i) by {
      assert T[i].name == S[i].name;
    }
    var g := FindKey(T[i].settings, st.key);
    assert g == Some(j) by {
      assert T[i].settings[j].key == st.key;
    }
    StoredText(st, ch);
  }

  /** Section i with the settings before n read back. */
  function ReadBackUpTo(T: seq<Section>, S: seq<Section>, i: nat, n: nat): seq<Section>
    requires SameShape(T, S) && i < |S|
  {
    T[i := T[i].(settings := seq(|T[i].settings|, j requires 0 <= j < |T[i].settings| =>
      if j < n then ReadBackSetting(S[i].settings[j]) else T[i].settings[j]))]
  }

  lemma ReadBackUpToNone(T: seq<Section>, S: seq<Section>, i: nat)
    requires SameShape(T, S) && i < |S|
    ensures ReadBackUpTo(T, S, i, 0) == T
  {
    assert ReadBackUpTo(T, S, i, 0)[i].settings == T[i].settings;
  }

  lemma ReadBackUpToShape(T: seq<Section>, S: seq<Section>, i: nat, n: nat)
    requires SameShape(T, S) && i < |S|
    ensures SameShape(ReadBackUpTo(T, S, i, n), S)
  {
  }

  lemma ReadBackUpToStep(T: seq<Section>, S: seq<Section>, i: nat, n: nat)
    requires SameShape(T, S) && i < |S| && n < |S[i].settings|
    ensures Put(ReadBackUpTo(T, S, i, n), i, n, ReadBackSetting(S[i].settings[n])) == ReadBackUpTo(T, S, i, n + 1)
  {
    var a := Put(ReadBackUpTo(T, S, i, n), i, n, ReadBackSetting(S[i].settings[n]));
    var b := ReadBackUpTo(T, S, i, n + 1);
    assert a[i].settings == b[i].settings;
  }

  /** Reading line k from state k, without error, gives state k + 1. */
  predicate LineReadsTo(states: seq<seq<Section>>, name: string, lines: seq<string>, k: nat, ch: Checks)
    requires k < |lines| && k + 1 < |states|
  {
    ReadLine(states[k], name, lines[k], ch) == Parsed(states[k + 1], None)
  }

  /** Lines read one after another, each leaving the state the next starts
      from. */
  lemma {:induction false} ReadLinesFold(T: seq<Section>, name: string, lines: seq<string>,
                                         states: seq<seq<Section>>, n: nat, ch: Checks)
    requires n <= |lines| && |states| == |lines| + 1 && states[0] == T
    requires forall k :: 0 <= k < n ==> LineReadsTo(states, name, lines, k, ch)
    ensures ReadLines(T, name, lines[..n], ch) == Parsed(states[n], None)
  {
    if n == 0 {
      assert lines[..0] == [];
    } else {
      ReadLinesFold(T, name, lines, states, n - 1, ch);
      assert lines[..n][..n - 1] == lines[..n - 1];
      assert LineReadsTo(states, name, lines, n - 1, ch);
    }
  }

  lemma ReadLineStep(T: seq<Section>, S: seq<Section>, i: nat, n: nat, ch: Checks)
    requires RoundTrips(S, ch) && SameShape(T, S)
    requires i < |S| && n < |S[i].settings|
    ensures ReadLine(ReadBackUpTo(T, S, i, n), S[i].name, EntryLine(S[i].settings[n]), ch) ==
      Parsed(ReadBackUpTo(T, S, i, n + 1), None)
  {
    ReadBackUpToShape(T, S, i, n);
    ReadEntryLine(ReadBackUpTo(T, S, i, n), S, i, n, ch);
    ReadBackUpToStep(T, S, i, n);
  }

  /** The start table T with its first n sections replaced by the read-back
      sections of S. */
  function ReadBackFirst(T: seq<Section>, S: seq<Section>, n: nat): seq<Section>
    requires SameShape(T, S)
  {
    seq(|S|, k requires 0 <= k < |S| => if k < n then ReadBackSection(S[k]) else T[k])
  }

  lemma ReadBackFirstShape(T: seq<Section>, S: seq<Section>, n: nat)
    requires SameShape(T, S)
    ensures SameShape(ReadBackFirst(T, S, n), S)
  {
  }

  lemma ReadBackFirstStep(T: seq<Section>, S: seq<Section>, n: nat)
    requires SameShape(T, S) && n < |S|
    ensures ReadBackUpTo(ReadBackFirst(T, S, n), S, n, |S[n].settings|) == ReadBackFirst(T, S, n + 1)
  {
    ReadBackFirstShape(T, S, n);
    var a := ReadBackUpTo(ReadBackFirst(T, S, n), S, n, |S[n].settings|);
    var b := ReadBackFirst(T, S, n + 1);
    assert a[n].settings == b[n].settings;
  }

  /** Reading section k's body from state k, without error, gives state
      k + 1. */
  predicate ReadsTo(states: seq<seq<Section>>, keys: seq<string>, values: seq<string>, k: nat, ch: Checks)
    requires k < |keys| && k < |values| && k + 1 < |states|
  {
    ReadLines(states[k], keys[k], BodyLines(values[k]), ch) == Parsed(states[k + 1], None)
  }

  /** Sections read one after another, each leaving the state the next
      starts from. */
  lemma {:induction false} ReadSectionsFold(S: seq<Section>, keys: seq<string>, values: seq<string>,
                                            states: seq<seq<Section>>, n: nat, ch: Checks)
    requires n <= |keys| == |values| && |states| == |keys| + 1 && states[0] == S
    requires forall k :: 0 <= k < n ==> ReadsTo(states, keys, values, k, ch)
    ensures ReadSections(S, keys, values, n, ch) == Parsed(states[n], None)
  {
    if n > 0 {
      ReadSectionsFold(S, keys, values, states, n - 1, ch);
      var p := ReadSections(S, keys, values, n - 1, ch);
      assert p == Parsed(states[n - 1], None);
      assert ReadsTo(states, keys, values, n - 1, ch);
      assert ReadSections(S, keys, values, n, ch) == ReadLines(p.sections, keys[n - 1], BodyLines(values[n - 1]), ch);
    }
  }

  /** All written lines of section i read back, whatever the earlier
      sections hold. */
  lemma ReadSectionAll(T: seq<Section>, S: seq<Section>, i: nat, ch: Checks)
    requires RoundTrips(S, ch) && SameShape(T, S) && i < |S|
    ensures ReadLines(T, S[i].name, EntryLines(S[i]), ch) == Parsed(ReadBackUpTo(T, S, i, |S[i].settings|), None)
  {
    var E := EntryLines(S[i]);
    var states := seq(|E| + 1, j requires 0 <= j <= |E| => ReadBackUpTo(T, S, i, j));
    forall j | 0 <= j < |E|
      ensures LineReadsTo(states, S[i].name, E, j, ch)
    {
      ReadLineStep(T, S, i, j, ch);
    }
    ReadBackUpToNone(T, S, i);
    ReadLinesFold(T, S[i].name, E, states, |E|, ch);
    assert E[..|E|] == E;
  }

  /** Section k's lines read back after the sections before it. */
  lemma ReadSectionStep(T: seq<Section>, S: seq<Section>, k: nat, ch: Checks)
    requires RoundTrips(S, ch) && SameShape(T, S) && k < |S|
    ensures ReadLines(ReadBackFirst(T, S, k), S[k].name, EntryLines(S[k]), ch) == Parsed(ReadBackFirst(T, S, k + 1), None)
  {
    ReadBackFirstShape(T, S, k);
    ReadSectionAll(ReadBackFirst(T, S, k), S, k, ch);
    ReadBackFirstStep(T, S, k);
  }

  /** Section k's body, as the parse finds it, read back. */
  lemma ReadsToAt(T: seq<Section>, S: seq<Section>, states: seq<seq<Section>>, k: nat, ch: Checks)
    requires RoundTrips(S, ch) && SameShape(T, S) && k < |S| && |states| == |S| + 1
    requires states[k] == ReadBackFirst(T, S, k) && states[k + 1] == ReadBackFirst(T, S, k + 1)
    ensures ReadsTo(states, Names(S), Bodies(S), k, ch)
  {
    SectionFree(S[k], ch);
    BodyLinesAreEntries(S, k);
    assert Names(S)[k] == S[k].name && Bodies(S)[k] == Body(S, k);
    ReadSectionStep(T, S, k, ch);
  }

  /** The rendered text is cut into the section names and bodies, whatever
      table it is read into. */
  lemma ParseRendered(T: seq<Section>, S: seq<Section>, ch: Checks)
    requires RoundTrips(S, ch)
    ensures Parse(T, Render(S), ch) == ReadSections(T, Names(S), Bodies(S), |S|, ch)
  {
    RenderIsTail(S);
    forall k | 0 <= k < |S|
      ensures Free(S[k].name, Brackets) && EntriesFree(S[k], Brackets)
    {
      SectionFree(S[k], ch);
    }
    SplitTail(S, 0);
    assert Names(S)[0..] == Names(S) && Bodies(S)[0..] == Bodies(S);
    forall k | 0 <= k < |S|
      ensures Bodies(S)[k] != []
    {
      BodyStarts(S, k);
    }
    HeadersAndBodies(Split(Render(S), Brackets), Names(S), Bodies(S));
  }

  /** All bodies read back, section after section, into any table with the
      same sections and keys: every setting ends up holding what was
      written, whatever it held before. */
  lemma ReadAllBodies(T: seq<Section>, S: seq<Section>, ch: Checks)
    requires RoundTrips(S, ch) && SameShape(T, S)
    ensures ReadSections(T, Names(S), Bodies(S), |S|, ch) == Parsed(ReadBackAll(S), None)
  {
    var states := seq(|S| + 1, n requires 0 <= n <= |S| => ReadBackFirst(T, S, n));
    forall k | 0 <= k < |S|
      ensures ReadsTo(states, Names(S), Bodies(S), k, ch)
    {
      ReadsToAt(T, S, states, k, ch);
    }
    assert states[0] == T;
    ReadSectionsFold(T, Names(S), Bodies(S), states, |S|, ch);
    assert states[|S|] == ReadBackAll(S);
  }

  /** readFile's parse of the text writeFile rendered from S, read into a
      table T with the same sections and keys (the next run's initial
      table), finds every section and key, raises nothing, and leaves each
      setting as it was in S but for its comment, which becomes the written
      comment as it follows the "//". Nothing of T's values survives. */
  lemma ReadWhatWasWritten(T: seq<Section>, S: seq<Section>, ch: Checks)
    requires RoundTrips(S, ch) && SameShape(T, S)
    ensures Parse(T, Render(S), ch) == Parsed(ReadBackAll(S), None)
  {
    ParseRendered(T, S, ch);
    ReadAllBodies(T, S, ch);
  }

  // ---------------------------------------------------------------------
  // Writing again what was read

  /** A comment that writeFile writes the same way after readFile has read
      it back: empty once stripped, or still non-empty and without
      surrounding whitespace once the line breaks and bars are gone. */
  predicate StableComment(c: string) {
    Strip(c) == [] || (Cleaned(c) != [] && Trimmed(Cleaned(c)))
  }

  predicate AllStable(S: seq<Section>) {
    forall i, j :: 0 <= i < |S| && 0 <= j < |S[i].settings| ==> StableComment(S[i].settings[j].comment)
  }

  lemma CommentStable(c: string)
    requires StableComment(c)
    ensures CommentText(ReadBack(c)) == CommentText(c)
  {
    CommentTextShape(c);
    if Strip(c) != [] {
      var x := Cleaned(c);
      assert AllSpace(" ") by { assert IsSpace(' '); }
      StripPadded(" ", x, []);
      assert " " + x + [] == " " + x;
      CommentTextShape(" " + x);
      RemoveClears(Strip(c), Junk);
      RemoveFree(x, Junk);
    }
  }

  lemma SectionLinesStable(s: Section)
    requires forall j :: 0 <= j < |s.settings| ==> StableComment(s.settings[j].comment)
    ensures SectionLines(ReadBackSection(s)) == SectionLines(s)
  {
    forall j | 0 <= j < |s.settings|
      ensures EntryLines(ReadBackSection(s))[j] == EntryLines(s)[j]
    {
      CommentStable(s.settings[j].comment);
    }
  }

  lemma {:induction false} BuiltStable(S: seq<Section>, n: nat)
    requires n <= |S| && AllStable(S)
    ensures Built(ReadBackAll(S), n) == Built(S, n)
  {
    if n > 0 {
      BuiltStable(S, n - 1);
      SectionLinesStable(S[n - 1]);
    }
  }

  /** Writing the settings after reading a written file back into a table
      of the same shape writes the same text again, when every comment is
      stable. */
  lemma WriteReadWrite(T: seq<Section>, S: seq<Section>, ch: Checks)
    requires RoundTrips(S, ch) && SameShape(T, S) && AllStable(S)
    ensures Parse(T, Render(S), ch) == Parsed(ReadBackAll(S), None)
    ensures Render(ReadBackAll(S)) == Render(S)
  {
    ReadWhatWasWritten(T, S, ch);
    BuiltStable(S, |S|);
  }

  /** A comment made only of a bar is written as a bare " // ", read back
      as a single space, and then written as no comment at all. */
  lemma BarCommentLost()
    ensures CommentText("|") == " // "
    ensures ReadBack("|") == " "
    ensures CommentText(ReadBack("|")) == []
  {
    assert !IsSpace('|');
    assert Strip("|") == "|";
    assert Remove("|", Junk) == [];
    CommentTextShape("|");
    assert AllSpace(" ") by { assert IsSpace(' '); }
    StripPadded(" ", [], []);
    assert Strip(" ") == [];
  }

  // ---------------------------------------------------------------------
  // An exception keeps the updates made before it

  /** A one-section file cut at the brackets. */
  lemma CutOneSection(name: string, body: string)
    requires Free(name, Brackets) && Free(body, Brackets)
    ensures Split("[" + name + "]" + body, Brackets) == [[], name, body]
  {
    var t := "[" + name + "]" + body;
    SplitAt([], '[', name + "]" + body, Brackets);
    assert [] + ['['] + (name + "]" + body) == t;
    SplitAt(name, ']', body, Brackets);
    assert name + [']'] + body == name + "]" + body;
    SplitFree([], Brackets);
    SplitFree(name, Brackets);
    SplitFree(body, Brackets);
  }

  /** A body of one line after the header's line break. */
  lemma OneBodyLine(line: string)
    requires line != [] && Free(line, {'\n'})
    ensures BodyLines("\n" + line) == [line]
  {
    SplitAt([], '\n', line, {'\n'});
    assert [] + ['\n'] + line == "\n" + line;
    SplitFree([], {'\n'});
    SplitFree(line, {'\n'});
    NonEmptyAppend([[]], [line]);
    assert [[], line] == [[]] + [line];
    BlankDropped();
    NonEmptyKeeps([line]);
  }

  /** A line "key//comment" without '='. */
  lemma CutNoValue(key: string, c: string)
    requires Plain(key) && (key == [] || key[|key| - 1] != '/') && NoDoubleSlash(c)
    ensures SplitLine(key + "//" + c) == LineParts(key, c, None)
  {
    SplitSlashesAt(key, c);
    SplitSlashesFree(c);
    SplitFree(key, {'='});
    StripTrimmed(key);
  }

  /** The line "key//comment" of a one-setting section stores the comment
      and raises for the missing value. */
  lemma ReadNoValueLine(name: string, st: Setting, c: string, ch: Checks)
    requires Plain(st.key) && (st.key == [] || st.key[|st.key| - 1] != '/') && NoDoubleSlash(c)
    ensures ReadLines([Section(name, [st])], name, [st.key + "//" + c], ch) ==
      Parsed([Section(name, [st.(comment := c)])], Some(MissingValue(st.key)))
  {
    var S := [Section(name, [st])];
    var line := st.key + "//" + c;
    assert [line][..0] == [];
    CutNoValue(st.key, c);
    assert FindSection(S, name) == Some(0);
    assert FindKey([st], st.key) == Some(0);
    assert [st][0 := st.(comment := c)] == [st.(comment := c)];
    assert Put(S, 0, 0, st.(comment := c)) == [Section(name, [st.(comment := c)])];
  }

  /** A line whose key is known but that has no '=' stores its comment
      before the missing value raises, and the parse ends with that comment
      in place. */
  lemma CommentKeptOnMissingValue(name: string, st: Setting, c: string, ch: Checks)
    requires Free(name, Brackets) && Plain(st.key) && (st.key == [] || st.key[|st.key| - 1] != '/')
    requires NoDoubleSlash(c) && Free(c, FormatChars)
    ensures Parse([Section(name, [st])], "[" + name + "]\n" + st.key + "//" + c, ch) ==
      Parsed([Section(name, [st.(comment := c)])], Some(MissingValue(st.key)))
  {
    var S := [Section(name, [st])];
    var line := st.key + "//" + c;
    var body := "\n" + line;
    assert Free(body, Brackets) && Free(line, {'\n'});
    assert "[" + name + "]\n" + st.key + "//" + c == "[" + name + "]" + body;
    CutOneSection(name, body);
    assert Odds([[], name, body]) == [name];
    assert [[], name, body][2..] == [body];
    assert Evens([[], name, body]) == [[], body];
    NonEmptyAppend([[]], [body]);
    assert [[], body] == [[]] + [body];
    BlankDropped();
    NonEmptyKeeps([body]);
    OneBodyLine(line);
    ReadNoValueLine(name, st, c, ch);
    assert ReadSections(S, [name], [body], 1, ch) == ReadLines(S, name, [line], ch);
  }
}
