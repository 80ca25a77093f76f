/**
 The settings file: MainWindow.writeFile renders the nested settings
 dictionary as "[section]" headers followed by "key = value // comment"
 lines, and MainWindow.readFile splits such a text back up and stores each
 known key's comment and (validated) value. The dictionary keeps its
 insertion order, so it is a sequence of sections, each a sequence of
 settings. Opening, reading and writing the file on disk are not modelled:
 writeFile returns the text and readFile receives it (None when the file
 does not exist).
 */
module SettingsFile {
  import opened Text
  import opened Validation
  import opened Wrappers

  /** The error code stored with each setting, naming its validator. */
  datatype Code = NaN | NaI | NaL | NaP | NaB

  /** Where writeFile takes a setting's value from: nowhere ("nul", the
      stored value is kept), the clockwise radio variable ("cw_var"), or
      an entry widget. */
  datatype Source = Nul | CwVar | Entry(widget: string)

  /** A stored value: the text of an entry, or a boolean. */
  datatype Value = Str(text: string) | Flag(on: bool)

  /** One settings entry [widget, window, value, error code, comment]; the
      window name only locates the widget and is not modelled. */
  datatype Setting = Setting(key: string, source: Source, value: Value, code: Code, comment: string)

  datatype Section = Section(name: string, settings: seq<Setting>)

  // ---------------------------------------------------------------------
  // writeFile

  /** Booleans are written as 1 and 0, everything else as it is. */
  function ValueText(v: Value): string {
    match v
    case Flag(b) => if b then "1" else "0"
    case Str(t) => t
  }

  /** The characters removed from a written comment. */
  const Junk: set<char> := {'\r', '|', '\n'}

  /** A comment is stripped, introduced by " // " when not empty, and
      cleared of line breaks and bars. */
  function CommentText(c: string): string {
    Remove(if Strip(c) != [] then " // " + Strip(c) else [], Junk)
  }

  function EntryLine(st: Setting): string {
    st.key + " = " + ValueText(st.value) + CommentText(st.comment)
  }

  function Header(s: Section): string {
    "[" + s.name + "]"
  }

  function EntryLines(s: Section): (r: seq<string>)
    ensures |r| == |s.settings|
    ensures forall j :: 0 <= j < |r| ==> r[j] == EntryLine(s.settings[j])
  {
    seq(|s.settings|, j requires 0 <= j < |s.settings| => EntryLine(s.settings[j]))
  }

  function SectionLines(s: Section): seq<string> {
    [Header(s)] + EntryLines(s)
  }

  /** The lines list after the first n sections: each section's lines and a
      blank line. */
  function Built(S: seq<Section>, n: nat): (r: seq<string>)
    requires n <= |S|
    ensures n > 0 ==> |r| > 0 && r[|r| - 1] == []
  {
    if n == 0 then [] else Built(S, n - 1) + SectionLines(S[n - 1]) + [[]]
  }

  /** The written lines: the last blank line is popped (the settings always
      have sections, so there is one to pop). */
  function FileLines(S: seq<Section>): seq<string>
    requires |S| > 0
  {
    var b := Built(S, |S|);
    b[..|b| - 1]
  }

  function Render(S: seq<Section>): string
    requires |S| > 0
  {
    Join(FileLines(S), "\n")
  }

  /** The value writeFile stores before writing a setting. */
  function Refreshed(st: Setting, widgets: map<string, string>, cw: bool): Setting
    requires st.source.Entry? ==> st.source.widget in widgets
  {
    match st.source
    case Nul => st
    case CwVar => st.(value := Flag(cw))
    case Entry(w) => st.(value := Str(widgets[w]))
  }

  predicate WidgetsPresent(S: seq<Section>, widgets: map<string, string>) {
    forall i, j :: 0 <= i < |S| && 0 <= j < |S[i].settings| && S[i].settings[j].source.Entry? ==>
      S[i].settings[j].source.widget in widgets
  }

  function RefreshSection(s: Section, widgets: map<string, string>, cw: bool): Section
    requires forall j :: 0 <= j < |s.settings| && s.settings[j].source.Entry? ==> s.settings[j].source.widget in widgets
  {
    s.(settings := seq(|s.settings|, j requires 0 <= j < |s.settings| => Refreshed(s.settings[j], widgets, cw)))
  }

  function RefreshAll(S: seq<Section>, widgets: map<string, string>, cw: bool): seq<Section>
    requires WidgetsPresent(S, widgets)
  {
    seq(|S|, i requires 0 <= i < |S| => RefreshSection(S[i], widgets, cw))
  }

  /** The sections with the first n refreshed. */
  function RefreshFirst(S: seq<Section>, widgets: map<string, string>, cw: bool, n: nat): seq<Section>
    requires WidgetsPresent(S, widgets)
  {
    seq(|S|, k requires 0 <= k < |S| => if k < n then RefreshSection(S[k], widgets, cw) else S[k])
  }

  // ---------------------------------------------------------------------
  // readFile

  /** The validators readFile picks by error code. The number checks and
      the pin check are parameters; the letter and pin entries' texts are
      what validateAlu counts in. */
  datatype Checks = Checks(number: string -> bool, integer: string -> bool, pin: string -> bool,
                           letterFields: seq<string>, pinFields: seq<string>)

  predicate Valid(code: Code, value: string, ch: Checks) {
    match code
    case NaN => ch.number(value)
    case NaL => AluValid(value, false, ch.pin, ch.letterFields)
    case NaB => value == "0" || value == "1"
    case NaI => ch.integer(value)
    case NaP => AluValid(value, true, ch.pin, ch.pinFields)
  }

  /** The exceptions readFile's parse can raise; each makes it return False
      with the updates made so far kept. */
  datatype ReadError =
    | MissingBody                          // values[i]: fewer bodies than headers
    | UnknownSection(name: string)         // self.settings[keys[i]]
    | MissingValue(key: string)            // key_value[1]: no '=' on the line
    | Invalid(code: Code, value: string)   // the validator refused the value

  datatype Parsed = Parsed(sections: seq<Section>, error: Option<ReadError>)

  /** Looking a section up by name. */
  function FindSection(S: seq<Section>, name: string): (r: Option<nat>)
    ensures r.Some? ==> r.value < |S|
  {
    if S == [] then None
    else if S[0].name == name then Some(0)
    else match FindSection(S[1..], name)
      case None => None
      case Some(k) => Some(k + 1)
  }

  /** Looking a key up in a section. */
  function FindKey(settings: seq<Setting>, key: string): (r: Option<nat>)
    ensures r.Some? ==> r.value < |settings|
  {
    if settings == [] then None
    else if settings[0].key == key then Some(0)
    else match FindKey(settings[1..], key)
      case None => None
      case Some(k) => Some(k + 1)
  }

  function Put(S: seq<Section>, i: nat, j: nat, st: Setting): seq<Section>
    requires i < |S| && j < |S[i].settings|
  {
    S[i := S[i].(settings := S[i].settings[j := st])]
  }

  /** The value stored for a validated text. */
  function Stored(code: Code, value: string): Value {
    if code == NaB then Flag(value == "1") else Str(value)
  }

  /** What a line holds: the stripped key, the comment after "//" (kept
      only when the line has exactly one "//"), and the stripped value
      after the first '=' (None when there is no '='). */
  datatype LineParts = LineParts(key: string, comment: string, value: Option<string>)

  function SplitLine(line: string): LineParts {
    var cs := SplitSlashes(line);
    var kv := Split(cs[0], {'='});
    LineParts(Strip(kv[0]), if |cs| == 2 then cs[1] else [], if |kv| < 2 then None else Some(Strip(kv[1])))
  }

  /** One non-empty line of section `name`. The comment is stored before
      the value is looked at, so a missing '=' or an invalid value leaves
      the new comment in place. */
  function ReadLine(S: seq<Section>, name: string, line: string, ch: Checks): Parsed {
    var parts := SplitLine(line);
    match FindSection(S, name)
    case None => Parsed(S, Some(UnknownSection(name)))
    case Some(i) =>
      match FindKey(S[i].settings, parts.key)
      case None => Parsed(S, None)
      case Some(j) => Store(S, i, j, parts, ch)
  }

  /** Storing a known key's comment, then its value once it is valid. */
  function Store(S: seq<Section>, i: nat, j: nat, parts: LineParts, ch: Checks): Parsed
    requires i < |S| && j < |S[i].settings|
  {
    var st := S[i].settings[j].(comment := parts.comment);
    match parts.value
    case None => Parsed(Put(S, i, j, st), Some(MissingValue(parts.key)))
    case Some(value) =>
      if !Valid(st.code, value, ch) then Parsed(Put(S, i, j, st), Some(Invalid(st.code, value)))
      else Parsed(Put(S, i, j, st.(value := Stored(st.code, value))), None)
  }

  /** The lines of one section, in order, up to the first error. */
  function ReadLines(S: seq<Section>, name: string, lines: seq<string>, ch: Checks): Parsed {
    if lines == [] then Parsed(S, None)
    else
      var p := ReadLines(S, name, lines[..|lines| - 1], ch);
      if p.error.Some? then p else ReadLine(p.sections, name, lines[|lines| - 1], ch)
  }

  /** The non-empty lines of a section's body. */
  function BodyLines(body: string): seq<string> {
    NonEmpty(Split(body, {'\n'}))
  }

  /** The first n sections of the file, up to the first error. */
  function ReadSections(S: seq<Section>, keys: seq<string>, values: seq<string>, n: nat, ch: Checks): Parsed
    requires n <= |keys|
  {
    if n == 0 then Parsed(S, None)
    else
      var p := ReadSections(S, keys, values, n - 1, ch);
      if p.error.Some? then p
      else if n - 1 >= |values| then Parsed(p.sections, Some(MissingBody))
      else ReadLines(p.sections, keys[n - 1], BodyLines(values[n - 1]), ch)
  }

  /** xs[1::2] */
  function Odds<T>(xs: seq<T>): seq<T> {
    if |xs| < 2 then [] else [xs[1]] + Odds(xs[2..])
  }

  /** xs[::2] */
  function Evens<T>(xs: seq<T>): seq<T> {
    if xs == [] then [] else if |xs| == 1 then xs else [xs[0]] + Evens(xs[2..])
  }

  /** readFile's parse: split at the brackets, headers at the odd places,
      the non-empty bodies at the even ones. */
  function Parse(S: seq<Section>, text: string, ch: Checks): Parsed {
    var contents := Split(text, {'[', ']'});
    var keys := Odds(contents);
    var values := NonEmpty(Evens(contents));
    ReadSections(S, keys, values, |keys|, ch)
  }

  // ---------------------------------------------------------------------
  // The window's settings

  /** The settings part of MainWindow. */
  class MainWindow {
    var settings: seq<Section>

    constructor (initial: seq<Section>)
      ensures settings == initial
    {
      settings := initial;
    }

    /** writeFile: stores each widget-backed value, then renders every
        setting. */
    method WriteFile(widgets: map<string, string>, cw: bool) returns (text: string)
      requires |settings| > 0 && WidgetsPresent(settings, widgets)
      modifies this
      ensures settings == RefreshAll(old(settings), widgets, cw)
      ensures text == Render(settings)
    {
      ghost var start := settings;
      ghost var final := RefreshAll(settings, widgets, cw);
      var lines: seq<string> := [];
      RefreshFirstNone(start, widgets, cw);
      for i := 0 to |settings|
        invariant |settings| == |start|
        invariant settings == RefreshFirst(start, widgets, cw, i)
        invariant lines == Built(final, i)
      {
        RefreshFirstKeeps(start, widgets, cw, i);
        var sectionLines := WriteSection(i, widgets, cw);
        RefreshFirstStep(start, widgets, cw, i);
        BuiltRefreshed(start, widgets, cw, i);
        lines := lines + sectionLines + [[]];
      }
      RefreshFirstAll(start, widgets, cw);
      lines := lines[..|lines| - 1];
      text := Join(lines, "\n");
    }

    /** The inner loop of writeFile: one section's header and lines, storing
        each widget-backed value on the way. */
    method WriteSection(i: nat, widgets: map<string, string>, cw: bool) returns (lines: seq<string>)
      requires i < |settings| && WidgetsPresent(settings, widgets)
      modifies this
      ensures settings == old(settings)[i := RefreshSection(old(settings)[i], widgets, cw)]
      ensures lines == SectionLines(RefreshSection(old(settings)[i], widgets, cw))
    {
      var section := settings[i];
      WidgetsOfSection(settings, i, widgets);
      ghost var start := settings;
      RefreshUpToNone(section, widgets, cw);
      lines := [Header(section)];
      for j := 0 to |section.settings|
        invariant settings == start[i := RefreshUpTo(section, widgets, cw, j)]
        invariant lines == [Header(section)] + EntryLines(RefreshSection(section, widgets, cw))[..j]
      {
        var st := Refreshed(section.settings[j], widgets, cw);
        RefreshUpToStep(start, i, section, widgets, cw, j);
        settings := Put(settings, i, j, st);
        lines := lines + [EntryLine(st)];
        LinesStep(Header(section), RefreshSection(section, widgets, cw), j);
      }
      RefreshUpToAll(section, widgets, cw);
      assert EntryLines(RefreshSection(section, widgets, cw))[..|section.settings|] ==
        EntryLines(RefreshSection(section, widgets, cw));
    }

    /** readFile: applies the file's lines section by section; the first
        exception ends the parse and the updates made before it stay. */
    method ReadFile(file: Option<string>, ch: Checks) returns (error: Option<ReadError>)
      modifies this
      ensures file.None? ==> settings == old(settings) && error.None?
      ensures file.Some? ==> Parsed(settings, error) == Parse(old(settings), file.value, ch)
    {
      error := None;
      if file.None? {
        return;
      }
      var contents := Split(file.value, {'[', ']'});
      var keys := Odds(contents);
      var values := NonEmpty(Evens(contents));
      ghost var start := settings;
      var i := 0;
      while i < |keys| && error.None?
        invariant 0 <= i <= |keys|
        invariant Parsed(settings, error) == ReadSections(start, keys, values, i, ch)
      {
        ReadSectionsNext(start, keys, values, i, ch);
        if i >= |values| {
          error := Some(MissingBody);
        } else {
          error := ReadBody(keys[i], BodyLines(values[i]), ch);
        }
        i := i + 1;
      }
      if error.Some? {
        ReadSectionsStopped(start, keys, values, i, ch);
      }
    }

    /** The inner loop of readFile: the lines of one section, up to the
        first exception. */
    method ReadBody(name: string, lines: seq<string>, ch: Checks) returns (error: Option<ReadError>)
      modifies this
      ensures Parsed(settings, error) == ReadLines(old(settings), name, lines, ch)
    {
      error := None;
      var j := 0;
      while j < |lines| && error.None?
        invariant 0 <= j <= |lines|
        invariant Parsed(settings, error) == ReadLines(old(settings), name, lines[..j], ch)
      {
        error := ReadOneLine(name, lines[j], ch);
        assert lines[..j + 1][..j] == lines[..j];
        j := j + 1;
      }
      if error.Some? {
        ReadLinesStopped(old(settings), name, lines, j, ch);
      } else {
        assert lines[..j] == lines;
      }
    }

    /** One line of readFile's inner loop. */
    method ReadOneLine(name: string, line: string, ch: Checks) returns (error: Option<ReadError>)
      modifies this
      ensures Parsed(settings, error) == ReadLine(old(settings), name, line, ch)
    {
      var parts := SplitLine(line);
      var i := FindSection(settings, name);
      if i.None? {
        return Some(UnknownSection(name));
      }
      var j := FindKey(settings[i.value].settings, parts.key);
      if j.None? {
        return None;
      }
      ghost var before := settings;
      var st := settings[i.value].settings[j.value].(comment := parts.comment);
      settings := Put(settings, i.value, j.value, st);
      if parts.value.None? {
        return Some(MissingValue(parts.key));
      }
      var value := parts.value.value;
      if !Valid(st.code, value, ch) {
        return Some(Invalid(st.code, value));
      }
      PutTwice(before, i.value, j.value, st, st.(value := Stored(st.code, value)));
      settings := Put(settings, i.value, j.value, st.(value := Stored(st.code, value)));
      error := None;
    }
  }

  /** The sections with none refreshed yet. */
  lemma RefreshFirstNone(S: seq<Section>, widgets: map<string, string>, cw: bool)
    requires WidgetsPresent(S, widgets)
    ensures RefreshFirst(S, widgets, cw, 0) == S
  {
  }

  /** Section i is still as it was before it is refreshed. */
  lemma RefreshFirstKeeps(S: seq<Section>, widgets: map<string, string>, cw: bool, i: nat)
    requires WidgetsPresent(S, widgets) && i < |S|
    ensures RefreshFirst(S, widgets, cw, i)[i] == S[i]
    ensures WidgetsPresent(RefreshFirst(S, widgets, cw, i), widgets)
  {
    var R := RefreshFirst(S, widgets, cw, i);
    forall k, j | 0 <= k < |R| && 0 <= j < |R[k].settings| && R[k].settings[j].source.Entry?
      ensures R[k].settings[j].source.widget in widgets
    {
      assert R[k].settings[j].source == S[k].settings[j].source;
    }
  }

  lemma RefreshFirstStep(S: seq<Section>, widgets: map<string, string>, cw: bool, i: nat)
    requires WidgetsPresent(S, widgets) && i < |S|
    ensures RefreshFirst(S, widgets, cw, i)[i := RefreshSection(S[i], widgets, cw)] == RefreshFirst(S, widgets, cw, i + 1)
  {
  }

  lemma BuiltRefreshed(S: seq<Section>, widgets: map<string, string>, cw: bool, i: nat)
    requires WidgetsPresent(S, widgets) && i < |S|
    ensures Built(RefreshAll(S, widgets, cw), i + 1) ==
      Built(RefreshAll(S, widgets, cw), i) + SectionLines(RefreshSection(S[i], widgets, cw)) + [[]]
  {
  }

  lemma RefreshFirstAll(S: seq<Section>, widgets: map<string, string>, cw: bool)
    requires WidgetsPresent(S, widgets)
    ensures RefreshFirst(S, widgets, cw, |S|) == RefreshAll(S, widgets, cw)
  {
  }

  lemma WidgetsOfSection(S: seq<Section>, i: nat, widgets: map<string, string>)
    requires WidgetsPresent(S, widgets) && i < |S|
    ensures forall j :: 0 <= j < |S[i].settings| && S[i].settings[j].source.Entry? ==>
      S[i].settings[j].source.widget in widgets
  {
  }

  /** A section with its first j settings refreshed. */
  function RefreshUpTo(s: Section, widgets: map<string, string>, cw: bool, j: nat): Section
    requires forall k :: 0 <= k < |s.settings| && s.settings[k].source.Entry? ==> s.settings[k].source.widget in widgets
  {
    s.(settings := seq(|s.settings|, k requires 0 <= k < |s.settings| =>
      if k < j then Refreshed(s.settings[k], widgets, cw) else s.settings[k]))
  }

  lemma RefreshUpToNone(s: Section, widgets: map<string, string>, cw: bool)
    requires forall k :: 0 <= k < |s.settings| && s.settings[k].source.Entry? ==> s.settings[k].source.widget in widgets
    ensures RefreshUpTo(s, widgets, cw, 0) == s
  {
    assert RefreshUpTo(s, widgets, cw, 0).settings == s.settings;
  }

  lemma RefreshUpToAll(s: Section, widgets: map<string, string>, cw: bool)
    requires forall k :: 0 <= k < |s.settings| && s.settings[k].source.Entry? ==> s.settings[k].source.widget in widgets
    ensures RefreshUpTo(s, widgets, cw, |s.settings|) == RefreshSection(s, widgets, cw)
  {
  }

  lemma RefreshUpToStep(S: seq<Section>, i: nat, s: Section, widgets: map<string, string>, cw: bool, j: nat)
    requires i < |S| && S[i] == s && j < |s.settings|
    requires forall k :: 0 <= k < |s.settings| && s.settings[k].source.Entry? ==> s.settings[k].source.widget in widgets
    ensures Put(S[i := RefreshUpTo(s, widgets, cw, j)], i, j, Refreshed(s.settings[j], widgets, cw)) ==
      S[i := RefreshUpTo(s, widgets, cw, j + 1)]
  {
    assert RefreshUpTo(s, widgets, cw, j).settings[j := Refreshed(s.settings[j], widgets, cw)] ==
      RefreshUpTo(s, widgets, cw, j + 1).settings;
  }

  lemma LinesStep(h: string, s: Section, j: nat)
    requires j < |s.settings|
    ensures [h] + EntryLines(s)[..j] + [EntryLine(s.settings[j])] == [h] + EntryLines(s)[..j + 1]
  {
    assert EntryLines(s)[..j + 1] == EntryLines(s)[..j] + [EntryLine(s.settings[j])];
  }

  lemma PutTwice(S: seq<Section>, i: nat, j: nat, a: Setting, b: Setting)
    requires i < |S| && j < |S[i].settings|
    ensures Put(Put(S, i, j, a), i, j, b) == Put(S, i, j, b)
  {
    assert Put(S, i, j, a)[i].settings[j := b] == S[i].settings[j := b];
  }

  lemma ReadLinesStopped(S: seq<Section>, name: string, lines: seq<string>, j: nat, ch: Checks)
    requires j <= |lines| && ReadLines(S, name, lines[..j], ch).error.Some?
    ensures ReadLines(S, name, lines, ch) == ReadLines(S, name, lines[..j], ch)
    decreases |lines| - j
  {
    if j < |lines| {
      assert lines[..j + 1][..j] == lines[..j];
      ReadLinesStopped(S, name, lines, j + 1, ch);
    } else {
      assert lines[..j] == lines;
    }
  }

  /** One more section after an error-free prefix. */
  lemma ReadSectionsNext(S: seq<Section>, keys: seq<string>, values: seq<string>, n: nat, ch: Checks)
    requires n < |keys| && ReadSections(S, keys, values, n, ch).error.None?
    ensures ReadSections(S, keys, values, n + 1, ch) ==
      if n >= |values| then Parsed(ReadSections(S, keys, values, n, ch).sections, Some(MissingBody))
      else ReadLines(ReadSections(S, keys, values, n, ch).sections, keys[n], BodyLines(values[n]), ch)
  {
  }

  lemma ReadSectionsStopped(S: seq<Section>, keys: seq<string>, values: seq<string>, n: nat, ch: Checks)
    requires n <= |keys| && ReadSections(S, keys, values, n, ch).error.Some?
    ensures ReadSections(S, keys, values, |keys|, ch) == ReadSections(S, keys, values, n, ch)
    decreases |keys| - n
  {
    if n < |keys| {
      ReadSectionsStopped(S, keys, values, n + 1, ch);
    }
  }

  /** FindSection gives the first section of that name, and None only when
      there is none. */
  lemma {:induction false} FindSectionFirst(S: seq<Section>, name: string)
    ensures FindSection(S, name).Some? ==> S[FindSection(S, name).value].name == name
    ensures FindSection(S, name).Some? ==> forall k :: 0 <= k < FindSection(S, name).value ==> S[k].name != name
    ensures FindSection(S, name).None? ==> forall k :: 0 <= k < |S| ==> S[k].name != name
  {
    if S != [] && S[0].name != name {
      FindSectionFirst(S[1..], name);
      assert forall k :: 1 <= k < |S| ==> S[k] == S[1..][k - 1];
    }
  }

  /** FindKey gives the first setting with that key, and None only when
      there is none. */
  lemma {:induction false} FindKeyFirst(settings: seq<Setting>, key: string)
    ensures FindKey(settings, key).Some? ==> settings[FindKey(settings, key).value].key == key
    ensures FindKey(settings, key).Some? ==> forall k :: 0 <= k < FindKey(settings, key).value ==> settings[k].key != key
    ensures FindKey(settings, key).None? ==> forall k :: 0 <= k < |settings| ==> settings[k].key != key
  {
    if settings != [] && settings[0].key != key {
      FindKeyFirst(settings[1..], key);
      assert forall k :: 1 <= k < |settings| ==> settings[k] == settings[1..][k - 1];
    }
  }

  /** Odds keeps the elements at the odd places. */
  lemma {:induction false} OddsAt<T>(xs: seq<T>)
    ensures |Odds(xs)| == |xs| / 2
    ensures forall k :: 0 <= k < |xs| / 2 ==> Odds(xs)[k] == xs[2 * k + 1]
    decreases |xs|
  {
    if |xs| >= 2 {
      OddsAt(xs[2..]);
      assert forall k :: 1 <= k < |xs| / 2 ==> Odds(xs)[k] == Odds(xs[2..])[k - 1];
    }
  }

  /** Evens keeps the elements at the even places. */
  lemma {:induction false} EvensAt<T>(xs: seq<T>)
    ensures |Evens(xs)| == (|xs| + 1) / 2
    ensures forall k :: 0 <= k < (|xs| + 1) / 2 ==> Evens(xs)[k] == xs[2 * k]
    decreases |xs|
  {
    if |xs| >= 2 {
      EvensAt(xs[2..]);
      assert forall k :: 1 <= k < (|xs| + 1) / 2 ==> Evens(xs)[k] == Evens(xs[2..])[k - 1];
    }
  }
}
