/** INI text (internal/bindings/formats.go): the two parsers, the printer, and ini_read and ini_write. */
module Ini {
  import opened Text

  /** Sections of keys and values; the keys before any header are in "_root". */
  type Sections = map<string, map<string, string>>

  const ROOT := "_root"
  const BOM := '\U{FEFF}'

  function StripBom(text: string): (r: string) {
    if text != [] && text[0] == BOM then text[1..] else text
  }

  // ----- One line -----

  datatype Line = Skipped | Header(name: string) | Pair(key: string, value: string)

  predicate IsComment(line: string) { line != [] && (line[0] == ';' || line[0] == '#') }

  predicate IsHeader(line: string) { line != [] && line[0] == '[' && line[|line| - 1] == ']' }

  /** What a line means, once trimmed. */
  function ReadLine(raw: string): (r: Line) { ReadTrimmed(TrimSpace(raw)) }

  function ReadTrimmed(line: string): (r: Line) {
    if line == "" || IsComment(line) then Skipped
    else if IsHeader(line) then Header(TrimSpace(line[1..|line| - 1]))
    else
      var eq := Until(line, '=');
      if eq == |line| then Skipped
      else Pair(TrimSpace(line[..eq]), TrimSpace(line[eq + 1..]))
  }

  // ----- The parsers -----

  /** What has been read, and the section being filled. */
  datatype State = State(sections: Sections, current: string)

  /** A header opens its section again; parseINI then starts it anew, parseINIGo goes on with it. */
  function Step(restarts: bool, st: State, line: Line): (r: State) {
    match line
    case Skipped => st
    case Header(name) =>
      State(if restarts || name !in st.sections then st.sections[name := map[]] else st.sections, name)
    case Pair(key, value) =>
      var current := if st.current in st.sections then st.sections[st.current] else map[];
      st.(sections := st.sections[st.current := current[key := value]])
  }

  function Run(restarts: bool, st: State, lines: seq<string>): (r: State) {
    if lines == [] then st
    else
      var n := |lines| - 1;
      Step(restarts, Run(restarts, st, lines[..n]), ReadLine(lines[n]))
  }

  function Start(): (r: State) { State(map[ROOT := map[]], ROOT) }

  function Parse(restarts: bool, text: string): (r: Sections) {
    Run(restarts, Start(), Split(StripBom(text), '\n')).sections
  }

  /** parseINI and parseINIGo. */
  method ParseIni(restarts: bool, text: string) returns (root: Sections)
    ensures root == Parse(restarts, text)
  {
    root := ParseLines(restarts, Split(StripBom(text), '\n'));
  }

  /** The loop over the lines. */
  method ParseLines(restarts: bool, lines: seq<string>) returns (root: Sections)
    ensures root == Run(restarts, Start(), lines).sections
  {
    root := map[ROOT := map[]];
    var current := ROOT;
    for i := 0 to |lines|
      invariant State(root, current) == Run(restarts, Start(), lines[..i])
      invariant current in root
    {
      assert lines[..i + 1][..i] == lines[..i];
      root, current := ParseLine(restarts, lines[i], root, current);
    }
    assert lines[..|lines|] == lines;
  }

  /** The body of the loop. */
  method ParseLine(restarts: bool, rawLine: string, root0: Sections, current0: string) returns (root: Sections, current: string)
    requires current0 in root0
    ensures State(root, current) == Step(restarts, State(root0, current0), ReadLine(rawLine))
    ensures current in root
  {
    root, current := ParseTrimmed(restarts, TrimSpace(rawLine), root0, current0);
  }

  method ParseTrimmed(restarts: bool, line: string, root0: Sections, current0: string) returns (root: Sections, current: string)
    requires current0 in root0
    ensures State(root, current) == Step(restarts, State(root0, current0), ReadTrimmed(line))
    ensures current in root
  {
    root, current := root0, current0;
    if line == "" || line[0] == ';' || line[0] == '#' {
      return;
    }
    if line[0] == '[' && line[|line| - 1] == ']' {
      var sec := TrimSpace(line[1..|line| - 1]);
      if restarts || sec !in root {
        root := root[sec := map[]];
      }
      current := sec;
      return;
    }
    var eq := Until(line, '=');
    if eq == |line| {
      return;
    }
    var k, v := TrimSpace(line[..eq]), TrimSpace(line[eq + 1..]);
    root := root[current := root[current][k := v]];
  }

  // ----- The printer -----

  /** strings.ReplaceAll(v, "\n", "\\n"). */
  function EscapeNewlines(v: string): (r: string)
    ensures '\n' !in v ==> r == v
  {
    if v == [] then [] else (if v[0] == '\n' then "\\n" else [v[0]]) + EscapeNewlines(v[1..])
  }

  function PairLine(key: string, value: string): (r: string) { key + "=" + EscapeNewlines(value) }

  function PairLines(pairs: map<string, string>, keys: seq<string>): (r: seq<string>) {
    if keys == [] then []
    else
      var n := |keys| - 1;
      PairLines(pairs, keys[..n]) + [PairLine(keys[n], if keys[n] in pairs then pairs[keys[n]] else "")]
  }

  function SectionLines(name: string, pairs: map<string, string>): (r: seq<string>) {
    ["[" + name + "]"] + PairLines(pairs, SortedKeys(pairs.Keys))
  }

  function AllSectionLines(m: Sections, names: seq<string>): (r: seq<string>) {
    if names == [] then []
    else
      var n := |names| - 1;
      var before := AllSectionLines(m, names[..n]);
      if names[n] == ROOT || names[n] !in m then before else before + SectionLines(names[n], m[names[n]])
  }

  function RootLines(m: Sections): (r: seq<string>) {
    if ROOT in m then PairLines(m[ROOT], SortedKeys(m[ROOT].Keys)) else []
  }

  function Lines(m: Sections): (r: seq<string>) { RootLines(m) + AllSectionLines(m, SortedKeys(m.Keys)) }

  function Ended(lines: seq<string>): (r: string) {
    if lines == [] then "" else Ended(lines[..|lines| - 1]) + (lines[|lines| - 1] + "\n")
  }

  /** The text of these sections: each line with its newline. */
  function Print(m: Sections): (r: string) { Ended(Lines(m)) }

  lemma {:induction false} EndedMore(a: seq<string>, b: seq<string>)
    ensures Ended(a + b) == Ended(a) + Ended(b)
  {
    if b == [] {
      assert a + b == a;
    } else {
      var n := |b| - 1;
      assert (a + b)[..|a + b| - 1] == a + b[..n] && (a + b)[|a + b| - 1] == b[n];
      EndedMore(a, b[..n]);
    }
  }

  /** writePairs. */
  method WritePairs(sb: string, pairs: map<string, string>, keys: seq<string>) returns (out: string)
    ensures out == sb + Ended(PairLines(pairs, keys))
  {
    out := sb;
    for i := 0 to |keys|
      invariant out == sb + Ended(PairLines(pairs, keys[..i]))
    {
      assert keys[..i + 1][..i] == keys[..i];
      var v := if keys[i] in pairs then pairs[keys[i]] else "";
      PairWritten(sb, PairLines(pairs, keys[..i]), keys[i], EscapeNewlines(v));
      assert PairLines(pairs, keys[..i + 1]) == PairLines(pairs, keys[..i]) + [PairLine(keys[i], v)];
      out := out + keys[i];
      out := out + "=";
      out := out + EscapeNewlines(v);
      out := out + "\n";
    }
    assert keys[..|keys|] == keys;
  }

  lemma PairWritten(sb: string, lines: seq<string>, key: string, value: string)
    ensures sb + Ended(lines) + key + "=" + value + "\n" == sb + Ended(lines + [key + "=" + value])
  {
    assert (lines + [key + "=" + value])[..|lines|] == lines;
  }

  /** An entry of the table to be printed: a section, or anything else. */
  datatype Entry = Table(pairs: map<string, string>) | NoTable

  /** The entries that are sections; the others are not printed. */
  function Tables(entries: map<string, Entry>): (r: Sections) { map s | s in entries && entries[s].Table? :: entries[s].pairs }

  /** iniString. */
  method IniString(entries: map<string, Entry>) returns (text: string)
    ensures text == Print(Tables(entries))
  {
    ghost var m := Tables(entries);
    var names := SortedKeys(entries.Keys);
    text := "";
    if ROOT in entries && entries[ROOT].Table? {
      text := WritePairs(text, entries[ROOT].pairs, SortedKeys(entries[ROOT].pairs.Keys));
    }
    assert text == Ended(RootLines(m));
    EndedMore(RootLines(m), AllSectionLines(m, names));
    text := WriteSections(text, entries, names);
    NamesKept(entries);
  }

  function Kept(m: Sections, names: seq<string>): (r: seq<string>) {
    if names == [] then []
    else
      var before, last := Kept(m, names[..|names| - 1]), names[|names| - 1];
      if last in m then before + [last] else before
  }

  lemma {:induction false} KeptLines(m: Sections, names: seq<string>)
    ensures AllSectionLines(m, Kept(m, names)) == AllSectionLines(m, names)
  {
    if names != [] {
      var n := |names| - 1;
      var before := Kept(m, names[..n]);
      KeptLines(m, names[..n]);
      if names[n] in m { assert (before + [names[n]])[..|before|] == before; }
    }
  }

  lemma {:induction false} KeptHas(m: Sections, names: seq<string>, x: string)
    requires Sorted(names)
    ensures multiset(Kept(m, names))[x] == if x in m then multiset(names)[x] else 0
    ensures Sorted(Kept(m, names)) && forall k :: k in Kept(m, names) ==> k in names
  {
    if names != [] {
      var n := |names| - 1;
      assert names == names[..n] + [names[n]];
      KeptHas(m, names[..n], x);
      forall k | k in Kept(m, names[..n]) ensures Leq(k, names[n]) {
        var i :| 0 <= i < n && names[..n][i] == k;
        assert names[i] == k;
      }
    }
  }

  /** Skipping what is no section leaves the sections in byte order. */
  lemma NamesKept(entries: map<string, Entry>)
    ensures var m := Tables(entries); AllSectionLines(m, SortedKeys(entries.Keys)) == AllSectionLines(m, SortedKeys(m.Keys))
  {
    var m, names := Tables(entries), SortedKeys(entries.Keys);
    KeptLines(m, names);
    assert multiset(Kept(m, names)) == multiset(m.Keys) by {
      forall x ensures multiset(Kept(m, names))[x] == multiset(m.Keys)[x] { KeptHas(m, names, x); }
    }
    KeptHas(m, names, "");
    SortedIsUnique(Kept(m, names), SortedKeys(m.Keys));
  }

  /** The loop over the section names. */
  method WriteSections(sb: string, entries: map<string, Entry>, names: seq<string>) returns (text: string)
    ensures text == sb + Ended(AllSectionLines(Tables(entries), names))
  {
    ghost var m := Tables(entries);
    text := sb;
    for i := 0 to |names|
      invariant text == sb + Ended(AllSectionLines(m, names[..i]))
    {
      assert names[..i + 1][..i] == names[..i];
      if names[i] == ROOT || names[i] !in entries || !entries[names[i]].Table? {
        continue;
      }
      ghost var done := AllSectionLines(m, names[..i]);
      var pairs := entries[names[i]].pairs;
      var keys := SortedKeys(pairs.Keys);
      SectionWritten(sb, done, names[i], PairLines(pairs, keys));
      text := text + "[";
      text := text + names[i];
      text := text + "]\n";
      text := WritePairs(text, pairs, keys);
    }
    assert names[..|names|] == names;
  }

  lemma SectionWritten(sb: string, done: seq<string>, name: string, pairs: seq<string>)
    ensures sb + Ended(done) + "[" + name + "]\n" + Ended(pairs) == sb + Ended(done + (["[" + name + "]"] + pairs))
  {
    var header := "[" + name + "]";
    EndedMore([header], pairs);
    EndedMore(done, [header] + pairs);
    LoneLine(header);
    HeaderGlue(sb, Ended(done), name, Ended(pairs));
  }

  lemma LoneLine(line: string)
    ensures Ended([line]) == line + "\n"
  {
    assert [line][..0] == [];
  }

  lemma HeaderGlue(sb: string, done: string, name: string, pairs: string)
    ensures sb + done + "[" + name + "]\n" + pairs == sb + (done + ("[" + name + "]" + "\n" + pairs))
  {
  }

  // ----- What can be printed and read back -----

  predicate CleanPair(key: string, value: string) {
    && IsTrimmed(key) && IsTrimmed(value)
    && '\n' !in key && '\n' !in value
    && '=' !in key
    && !IsComment(key)
    && !IsHeader(key + "=" + value)
  }

  predicate CleanName(name: string) { IsTrimmed(name) && '\n' !in name }

  predicate CleanPairs(pairs: map<string, string>) { forall k :: k in pairs ==> CleanPair(k, pairs[k]) }

  predicate Clean(m: Sections) {
    ROOT in m && forall s :: s in m ==> CleanName(s) && CleanPairs(m[s])
  }

  /** A clean pair's line is neither trimmed away nor taken for a comment or a header. */
  lemma PairLineStands(key: string, value: string)
    requires CleanPair(key, value)
    ensures PairLine(key, value) == key + "=" + value && '\n' !in PairLine(key, value)
    ensures IsTrimmed(PairLine(key, value)) && !IsComment(PairLine(key, value)) && !IsHeader(PairLine(key, value))
  {
    var line := key + "=" + value;
    assert line[0] == if key == [] then '=' else key[0];
    assert line[|line| - 1] == if value == [] then '=' else value[|value| - 1];
  }

  lemma PairReads(key: string, value: string)
    requires CleanPair(key, value)
    ensures ReadLine(PairLine(key, value)) == Pair(key, value) && '\n' !in PairLine(key, value)
  {
    var line := PairLine(key, value);
    PairLineStands(key, value);
    EqualsAt(key, value);
    assert line[..|key|] == key && line[|key| + 1..] == value;
  }

  lemma {:induction false} EqualsAt(key: string, value: string)
    requires '=' !in key
    ensures Until(key + "=" + value, '=') == |key|
  {
    if key != [] {
      assert (key + "=" + value)[1..] == key[1..] + "=" + value;
      EqualsAt(key[1..], value);
    }
  }

  lemma HeaderReads(name: string)
    requires CleanName(name)
    ensures ReadLine("[" + name + "]") == Header(name) && '\n' !in "[" + name + "]"
  {
    var line := "[" + name + "]";
    assert IsTrimmed(line);
    assert line[1..|line| - 1] == name;
  }

  predicate OneLine(lines: seq<string>) { forall i :: 0 <= i < |lines| ==> '\n' !in lines[i] }

  lemma {:induction false} SplitEnded(lines: seq<string>, rest: string)
    requires OneLine(lines)
    ensures Split(Ended(lines) + rest, '\n') == lines + Split(rest, '\n')
  {
    if lines == [] {
      assert Ended(lines) + rest == rest;
    } else {
      var n := |lines| - 1;
      SplitEnded(lines[..n], lines[n] + "\n" + rest);
      SplitLine(lines[n], rest);
      Assoc(Ended(lines[..n]), lines[n] + "\n", rest);
      LastLine(lines, Split(rest, '\n'));
    }
  }

  lemma SplitLine(line: string, rest: string)
    requires '\n' !in line
    ensures Split(line + "\n" + rest, '\n') == [line] + Split(rest, '\n')
  {
    SplitPiece(line, rest, '\n');
    assert ['\n'] == "\n";
  }

  lemma LastLine(lines: seq<string>, more: seq<string>)
    requires lines != []
    ensures lines[..|lines| - 1] + ([lines[|lines| - 1]] + more) == lines + more
  {
  }

  lemma {:induction false} RunMore(restarts: bool, st: State, a: seq<string>, b: seq<string>)
    ensures Run(restarts, st, a + b) == Run(restarts, Run(restarts, st, a), b)
  {
    if b == [] {
      assert a + b == a;
    } else {
      var n := |b| - 1;
      assert (a + b)[..|a + b| - 1] == a + b[..n] && (a + b)[|a + b| - 1] == b[n];
      RunMore(restarts, st, a, b[..n]);
    }
  }

  function Only(pairs: map<string, string>, keys: seq<string>): (r: map<string, string>) {
    map k | k in pairs && k in keys :: pairs[k]
  }

  lemma OnlyAnother(pairs: map<string, string>, keys: seq<string>, key: string)
    requires key in pairs
    ensures Only(pairs, keys + [key]) == Only(pairs, keys)[key := pairs[key]]
  {
    assert forall k :: k in keys + [key] <==> k in keys || k == key;
  }

  lemma OnlyLast(pairs: map<string, string>, keys: seq<string>)
    requires keys != [] && keys[|keys| - 1] in pairs
    ensures Only(pairs, keys) == Only(pairs, keys[..|keys| - 1])[keys[|keys| - 1] := pairs[keys[|keys| - 1]]]
  {
    OnlyAnother(pairs, keys[..|keys| - 1], keys[|keys| - 1]);
    assert keys == keys[..|keys| - 1] + [keys[|keys| - 1]];
  }

  lemma PairLinesLast(pairs: map<string, string>, keys: seq<string>)
    requires keys != [] && keys[|keys| - 1] in pairs
    ensures PairLines(pairs, keys) == PairLines(pairs, keys[..|keys| - 1]) + [PairLine(keys[|keys| - 1], pairs[keys[|keys| - 1]])]
  {
  }

  lemma {:induction false} PairLinesOneLine(pairs: map<string, string>, keys: seq<string>)
    requires CleanPairs(pairs) && forall i :: 0 <= i < |keys| ==> keys[i] in pairs
    ensures OneLine(PairLines(pairs, keys))
  {
    if keys != [] {
      PairLinesOneLine(pairs, keys[..|keys| - 1]);
      PairReads(keys[|keys| - 1], pairs[keys[|keys| - 1]]);
    }
  }

  /** The state with its current section holding these pairs. */
  function Filled(st: State, pairs: map<string, string>): (r: State) {
    st.(sections := st.sections[st.current := pairs])
  }

  lemma FillAnother(restarts: bool, st: State, pairs: map<string, string>, key: string, value: string)
    ensures Step(restarts, Filled(st, pairs), Pair(key, value)) == Filled(st, pairs[key := value])
  {
  }

  /** Reading back the pairs of a section fills it with them. */
  lemma {:induction false} PairsRun(restarts: bool, st: State, pairs: map<string, string>, keys: seq<string>)
    requires CleanPairs(pairs) && forall i :: 0 <= i < |keys| ==> keys[i] in pairs
    ensures Run(restarts, Filled(st, map[]), PairLines(pairs, keys)) == Filled(st, Only(pairs, keys))
  {
    if keys == [] {
      assert Only(pairs, keys) == map[];
    } else {
      var n := |keys| - 1;
      PairsRun(restarts, st, pairs, keys[..n]);
      PairReads(keys[n], pairs[keys[n]]);
      FillAnother(restarts, st, Only(pairs, keys[..n]), keys[n], pairs[keys[n]]);
      OnlyLast(pairs, keys);
      PairLinesLast(pairs, keys);
      RunAnother(restarts, Filled(st, map[]), PairLines(pairs, keys[..n]), PairLine(keys[n], pairs[keys[n]]));
    }
  }

  lemma RunAnother(restarts: bool, st: State, lines: seq<string>, line: string)
    ensures Run(restarts, st, lines + [line]) == Step(restarts, Run(restarts, st, lines), ReadLine(line))
  {
    assert (lines + [line])[..|lines|] == lines;
  }

  lemma OnlyAll(pairs: map<string, string>)
    ensures Only(pairs, SortedKeys(pairs.Keys)) == pairs
  {
    assert forall k :: k in SortedKeys(pairs.Keys) <==> k in pairs;
  }

  lemma AllPairsRun(restarts: bool, st: State, pairs: map<string, string>)
    requires CleanPairs(pairs)
    ensures OneLine(PairLines(pairs, SortedKeys(pairs.Keys)))
    ensures Run(restarts, Filled(st, map[]), PairLines(pairs, SortedKeys(pairs.Keys))) == Filled(st, pairs)
  {
    AllAreKeys(pairs);
    PairLinesOneLine(pairs, SortedKeys(pairs.Keys));
    PairsRun(restarts, st, pairs, SortedKeys(pairs.Keys));
    OnlyAll(pairs);
  }

  lemma AllAreKeys(pairs: map<string, string>)
    ensures forall i :: 0 <= i < |SortedKeys(pairs.Keys)| ==> SortedKeys(pairs.Keys)[i] in pairs
  {
    var keys := SortedKeys(pairs.Keys);
    forall i | 0 <= i < |keys| ensures keys[i] in pairs {
      assert keys[i] in keys;
    }
  }

  lemma HeaderRun(restarts: bool, st: State, name: string)
    requires CleanName(name) && name !in st.sections
    ensures Run(restarts, st, ["[" + name + "]"]) == Filled(State(st.sections, name), map[])
  {
    HeaderReads(name);
    assert ["[" + name + "]"][..0] == [];
  }

  /** Reading back a section's lines adds the section. */
  lemma SectionRun(restarts: bool, st: State, name: string, pairs: map<string, string>)
    requires CleanName(name) && CleanPairs(pairs) && name !in st.sections
    ensures OneLine(SectionLines(name, pairs))
    ensures Run(restarts, st, SectionLines(name, pairs)) == Filled(State(st.sections, name), pairs)
  {
    HeaderReads(name);
    HeaderRun(restarts, st, name);
    AllPairsRun(restarts, State(st.sections, name), pairs);
    Headed(restarts, st, "[" + name + "]", PairLines(pairs, SortedKeys(pairs.Keys)));
  }

  lemma Headed(restarts: bool, st: State, header: string, lines: seq<string>)
    requires '\n' !in header && OneLine(lines)
    ensures OneLine([header] + lines)
    ensures Run(restarts, st, [header] + lines) == Run(restarts, Run(restarts, st, [header]), lines)
  {
    RunMore(restarts, st, [header], lines);
  }

  /** The root and the named sections. */
  function Restrict(m: Sections, names: seq<string>): (r: Sections) {
    map s | s in m && (s == ROOT || s in names) :: m[s]
  }

  lemma RestrictAnother(m: Sections, names: seq<string>, name: string)
    requires ROOT in m && name in m
    ensures Restrict(m, names + [name]) == if name == ROOT then Restrict(m, names) else Restrict(m, names)[name := m[name]]
  {
    assert forall s :: s in names + [name] <==> s in names || s == name;
  }

  lemma {:induction false} SectionsRun(restarts: bool, st: State, m: Sections, names: seq<string>)
    requires Clean(m) && st.sections == Restrict(m, [])
    requires forall i :: 0 <= i < |names| ==> names[i] in m
    requires forall i, j :: 0 <= i < j < |names| ==> names[i] != names[j]
    ensures OneLine(AllSectionLines(m, names))
    ensures Run(restarts, st, AllSectionLines(m, names)).sections == Restrict(m, names)
  {
    if names == [] {
      NoSections(restarts, st, m);
    } else {
      var n := |names| - 1;
      var before, name := names[..n], names[n];
      assert names == before + [name] && name !in before;
      SectionsRun(restarts, st, m, before);
      NextSections(m, before, name);
      LastSectionRun(restarts, st, m, before, name, AllSectionLines(m, before));
    }
  }

  lemma NoSections(restarts: bool, st: State, m: Sections)
    ensures AllSectionLines(m, []) == [] && Run(restarts, st, []) == st
  {
  }

  lemma NextSections(m: Sections, names: seq<string>, name: string)
    requires name in m && name !in names
    ensures AllSectionLines(m, names + [name]) ==
      if name == ROOT then AllSectionLines(m, names) else AllSectionLines(m, names) + SectionLines(name, m[name])
    ensures name != ROOT ==> name !in Restrict(m, names)
  {
    assert (names + [name])[..|names|] == names;
  }

  /** One more section after those read. */
  lemma LastSectionRun(restarts: bool, st: State, m: Sections, names: seq<string>, name: string, before: seq<string>)
    requires Clean(m) && name in m && before == AllSectionLines(m, names) && OneLine(before)
    requires Run(restarts, st, before).sections == Restrict(m, names)
    requires name != ROOT ==> name !in Restrict(m, names)
    ensures var lines := if name == ROOT then before else before + SectionLines(name, m[name]);
      OneLine(lines) && Run(restarts, st, lines).sections == Restrict(m, names + [name])
  {
    RestrictAnother(m, names, name);
    if name != ROOT {
      SectionRun(restarts, Run(restarts, st, before), name, m[name]);
      RunMore(restarts, st, before, SectionLines(name, m[name]));
      OneLineMore(before, SectionLines(name, m[name]));
    }
  }

  lemma OneLineMore(a: seq<string>, b: seq<string>)
    requires OneLine(a) && OneLine(b)
    ensures OneLine(a + b)
  {
  }

  lemma RootRun(restarts: bool, m: Sections)
    requires Clean(m)
    ensures OneLine(RootLines(m))
    ensures Run(restarts, Start(), RootLines(m)).sections == Restrict(m, [])
  {
    AllPairsRun(restarts, Start(), m[ROOT]);
    StartFilled(m);
  }

  lemma StartFilled(m: Sections)
    requires ROOT in m
    ensures Filled(Start(), map[]) == Start() && Filled(Start(), m[ROOT]).sections == Restrict(m, [])
  {
    assert Restrict(m, []) == map[ROOT := m[ROOT]];
  }

  /** Reading back every line, whatever order the sections are printed in. */
  lemma LinesRun(restarts: bool, m: Sections, names: seq<string>)
    requires Clean(m) && Restrict(m, names) == m
    requires forall i :: 0 <= i < |names| ==> names[i] in m
    requires forall i, j :: 0 <= i < j < |names| ==> names[i] != names[j]
    ensures OneLine(RootLines(m) + AllSectionLines(m, names))
    ensures Run(restarts, Start(), (RootLines(m) + AllSectionLines(m, names)) + [""]).sections == m
  {
    RootRun(restarts, m);
    SectionsRun(restarts, Run(restarts, Start(), RootLines(m)), m, names);
    RunMore(restarts, Start(), RootLines(m), AllSectionLines(m, names));
    RunAnother(restarts, Start(), RootLines(m) + AllSectionLines(m, names), "");
  }

  /** The sections as a parser would have them: with a root, if only an empty one. */
  function WithRoot(m: Sections): (r: Sections) { if ROOT in m then m else m[ROOT := map[]] }

  lemma AllNames(m: Sections)
    ensures Restrict(WithRoot(m), SortedKeys(m.Keys)) == WithRoot(m)
    ensures forall i :: 0 <= i < |SortedKeys(m.Keys)| ==> SortedKeys(m.Keys)[i] in m
  {
    var names := SortedKeys(m.Keys);
    assert forall s :: s in names <==> s in m;
    forall i | 0 <= i < |names| ensures names[i] in m {
      assert names[i] in names;
    }
  }

  lemma {:induction false} SameSectionLines(m: Sections, w: Sections, names: seq<string>)
    requires forall s :: s != ROOT ==> (s in m <==> s in w) && (s in m ==> m[s] == w[s])
    ensures AllSectionLines(w, names) == AllSectionLines(m, names)
  {
    if names != [] {
      var n := |names| - 1;
      SameSectionLines(m, w, names[..n]);
      assert names[n] != ROOT && names[n] in m ==> m[names[n]] == w[names[n]];
    }
  }

  lemma SameRootLines(m: Sections)
    ensures RootLines(WithRoot(m)) == RootLines(m)
  {
    var none: map<string, string> := map[];
    assert multiset(none.Keys) == multiset{};
  }

  predicate StartsWithBom(text: string) { text != [] && text[0] == BOM }

  /** Clean sections read back line by line. */
  lemma CleanRuns(restarts: bool, m: Sections)
    requires Clean(WithRoot(m))
    ensures OneLine(Lines(m)) && Run(restarts, Start(), Lines(m) + [""]).sections == WithRoot(m)
  {
    AllNames(m);
    LinesWithRoot(m);
    LinesRun(restarts, WithRoot(m), SortedKeys(m.Keys));
  }

  lemma CleanReadsBack(restarts: bool, m: Sections)
    requires Clean(WithRoot(m)) && !StartsWithBom(Print(m))
    ensures Parse(restarts, Print(m)) == WithRoot(m)
  {
    CleanRuns(restarts, m);
    SplitEnded(Lines(m), "");
    assert Print(m) + "" == Print(m);
  }

  // ----- What the parsers produce -----

  lemma {:induction false} TrimRightKeepsFirst(s: string)
    requires s != [] && !IsSpace(s[0])
    ensures TrimRight(s) != [] && TrimRight(s)[0] == s[0]
  {
    if IsSpace(s[|s| - 1]) { TrimRightKeepsFirst(s[..|s| - 1]); }
  }

  lemma {:induction false} TrimLeftKeepsLast(s: string)
    requires s != [] && !IsSpace(s[|s| - 1])
    ensures TrimLeft(s) != [] && TrimLeft(s)[|TrimLeft(s)| - 1] == s[|s| - 1]
  {
    if IsSpace(s[0]) { TrimLeftKeepsLast(s[1..]); }
  }

  lemma TrimKeepsFirst(s: string)
    requires s != [] && !IsSpace(s[0])
    ensures TrimSpace(s) != [] && TrimSpace(s)[0] == s[0]
  {
    TrimRightKeepsFirst(s);
  }

  lemma TrimKeepsLast(s: string)
    requires s != [] && !IsSpace(s[|s| - 1])
    ensures TrimSpace(s) != [] && TrimSpace(s)[|TrimSpace(s)| - 1] == s[|s| - 1]
  {
    TrimLeftKeepsLast(s);
  }

  /** The pair cut from a trimmed line at its first equals sign would not be taken for a comment or a
      header, since the line was not. */
  lemma CutIsClean(line: string, eq: nat)
    requires line != "" && IsTrimmed(line) && !IsComment(line) && !IsHeader(line)
    requires '\n' !in line && eq < |line| && line[eq] == '=' && '=' !in line[..eq]
    ensures CleanPair(TrimSpace(line[..eq]), TrimSpace(line[eq + 1..]))
  {
    var key, value := TrimSpace(line[..eq]), TrimSpace(line[eq + 1..]);
    CutEnds(line, eq);
    assert forall c :: c in key ==> c in line[..eq];
    assert forall c :: c in value ==> c in line[eq + 1..];
  }

  lemma CutEnds(line: string, eq: nat)
    requires line != "" && IsTrimmed(line) && !IsComment(line) && !IsHeader(line)
    requires eq < |line| && line[eq] == '='
    ensures !IsComment(TrimSpace(line[..eq]))
    ensures !IsHeader(TrimSpace(line[..eq]) + "=" + TrimSpace(line[eq + 1..]))
  {
    var key, value := TrimSpace(line[..eq]), TrimSpace(line[eq + 1..]);
    if eq > 0 {
      TrimKeepsFirst(line[..eq]);
      assert key[0] == line[0];
    } else {
      assert key == "";
    }
    if eq + 1 < |line| {
      TrimKeepsLast(line[eq + 1..]);
      assert value[|value| - 1] == line[|line| - 1];
    } else {
      assert value == "";
    }
    var whole := key + "=" + value;
    assert whole[0] == line[0] && whole[|whole| - 1] == line[|line| - 1];
  }

  predicate CleanLine(line: Line) {
    match line
    case Skipped => true
    case Header(name) => CleanName(name)
    case Pair(key, value) => CleanPair(key, value)
  }

  lemma ReadsClean(raw: string)
    requires '\n' !in raw
    ensures CleanLine(ReadLine(raw))
  {
    var line := TrimSpace(raw);
    assert '\n' !in line;
    if line != "" && !IsComment(line) {
      if IsHeader(line) {
        var inner := line[1..|line| - 1];
        assert forall c :: c in inner ==> c in line;
        assert '\n' !in TrimSpace(inner);
      } else if Until(line, '=') < |line| {
        CutIsClean(line, Until(line, '='));
      }
    }
  }

  lemma StepClean(restarts: bool, st: State, line: Line)
    requires Clean(st.sections) && st.current in st.sections && CleanLine(line)
    ensures Clean(Step(restarts, st, line).sections)
    ensures Step(restarts, st, line).current in Step(restarts, st, line).sections
  {
  }

  lemma {:induction false} RunClean(restarts: bool, lines: seq<string>)
    requires forall i :: 0 <= i < |lines| ==> '\n' !in lines[i]
    ensures Clean(Run(restarts, Start(), lines).sections)
    ensures Run(restarts, Start(), lines).current in Run(restarts, Start(), lines).sections
  {
    if lines != [] {
      var n := |lines| - 1;
      RunClean(restarts, lines[..n]);
      ReadsClean(lines[n]);
      StepClean(restarts, Run(restarts, Start(), lines[..n]), ReadLine(lines[n]));
    } else {
      assert IsTrimmed(ROOT) && '\n' !in ROOT;
    }
  }

  /** Everything either parser produces is clean. */
  lemma ParsesClean(restarts: bool, text: string)
    ensures Clean(Parse(restarts, text))
  {
    var lines := Split(StripBom(text), '\n');
    forall i | 0 <= i < |lines| ensures '\n' !in lines[i] {
      assert lines[i] in lines;
    }
    RunClean(restarts, lines);
  }

  // ----- A printed byte order mark -----

  lemma {:induction false} EndedFirst(lines: seq<string>)
    requires lines != []
    ensures Ended(lines) == lines[0] + "\n" + Ended(lines[1..])
  {
    EndedMore([lines[0]], lines[1..]);
    assert lines == [lines[0]] + lines[1..];
    LoneLine(lines[0]);
  }

  lemma {:induction false} EqualsInPrefix(s: string, n: nat)
    requires n <= |s|
    ensures Until(s[..n], '=') <= Until(s, '=')
  {
    if n > 0 && s[0] != '=' {
      assert s[..n][1..] == s[1..][..n - 1];
      EqualsInPrefix(s[1..], n - 1);
    }
  }

  lemma {:induction false} EqualsAfterTrimLeft(s: string)
    ensures Until(TrimLeft(s), '=') <= Until(s, '=')
  {
    if s != [] && IsSpace(s[0]) { EqualsAfterTrimLeft(s[1..]); }
  }

  lemma EqualsAfterTrim(s: string)
    ensures Until(TrimSpace(s), '=') <= Until(s, '=')
  {
    EqualsAfterTrimLeft(s);
    EqualsInPrefix(TrimLeft(s), |TrimSpace(s)|);
  }

  /** A line whose first equals sign comes sooner is not a pair with that key. */
  lemma ShorterKey(raw: string, key: string)
    requires Until(raw, '=') < |key|
    ensures ReadLine(raw).Pair? ==> ReadLine(raw).key != key
  {
    EqualsAfterTrim(raw);
  }

  /** No line gives the key to the root: each is another pair, or a header other than the root's. */
  predicate Avoids(lines: seq<string>, key: string) {
    forall i :: 0 <= i < |lines| ==> (ReadLine(lines[i]).Pair? ==> ReadLine(lines[i]).key != key)
  }

  lemma {:induction false} AvoidingRun(restarts: bool, st: State, lines: seq<string>, key: string)
    requires ROOT in st.sections && key !in st.sections[ROOT] && Avoids(lines, key)
    ensures var after := Run(restarts, st, lines); ROOT in after.sections && key !in after.sections[ROOT]
  {
    if lines != [] {
      var n := |lines| - 1;
      AvoidingRun(restarts, st, lines[..n], key);
      AvoidingStep(restarts, Run(restarts, st, lines[..n]), ReadLine(lines[n]), key);
    }
  }

  lemma AvoidingStep(restarts: bool, st: State, line: Line, key: string)
    requires ROOT in st.sections && key !in st.sections[ROOT] && (line.Pair? ==> line.key != key)
    ensures var after := Step(restarts, st, line); ROOT in after.sections && key !in after.sections[ROOT]
  {
  }

  predicate AllPairs(lines: seq<string>) { forall i :: 0 <= i < |lines| ==> ReadLine(lines[i]).Pair? }

  lemma {:induction false} PairLinesArePairs(pairs: map<string, string>, keys: seq<string>)
    requires CleanPairs(pairs) && forall i :: 0 <= i < |keys| ==> keys[i] in pairs
    ensures AllPairs(PairLines(pairs, keys))
  {
    if keys != [] {
      var n := |keys| - 1;
      PairLinesArePairs(pairs, keys[..n]);
      PairReads(keys[n], pairs[keys[n]]);
    }
  }

  lemma {:induction false} PairsElsewhere(restarts: bool, st: State, lines: seq<string>)
    requires st.current != ROOT && ROOT in st.sections && AllPairs(lines)
    ensures LeavesRoot(st, Run(restarts, st, lines), st.current)
  {
    if lines != [] { PairsElsewhere(restarts, st, lines[..|lines| - 1]); }
  }

  predicate LeavesRoot(st: State, after: State, current: string) {
    after.current == current && ROOT in st.sections && ROOT in after.sections && after.sections[ROOT] == st.sections[ROOT]
  }

  lemma HeaderElsewhere(restarts: bool, st: State, name: string)
    requires name != ROOT && CleanName(name) && ROOT in st.sections
    ensures LeavesRoot(st, Run(restarts, st, ["[" + name + "]"]), name)
  {
    HeaderReads(name);
    assert ["[" + name + "]"][..0] == [];
  }

  /** A section's lines leave the root alone. */
  lemma ElsewhereRun(restarts: bool, st: State, name: string, pairs: map<string, string>)
    requires name != ROOT && CleanName(name) && CleanPairs(pairs) && ROOT in st.sections
    ensures LeavesRoot(st, Run(restarts, st, SectionLines(name, pairs)), name)
  {
    HeaderElsewhere(restarts, st, name);
    AllAreKeys(pairs);
    PairLinesArePairs(pairs, SortedKeys(pairs.Keys));
    PairsElsewhere(restarts, Run(restarts, st, ["[" + name + "]"]), PairLines(pairs, SortedKeys(pairs.Keys)));
    RunMore(restarts, st, ["[" + name + "]"], PairLines(pairs, SortedKeys(pairs.Keys)));
  }

  lemma {:induction false} SectionsLeaveRoot(restarts: bool, st: State, m: Sections, names: seq<string>)
    requires Clean(WithRoot(m)) && ROOT in st.sections
    ensures var after := Run(restarts, st, AllSectionLines(m, names));
      ROOT in after.sections && after.sections[ROOT] == st.sections[ROOT]
  {
    if names != [] {
      var n := |names| - 1;
      SectionsLeaveRoot(restarts, st, m, names[..n]);
      if names[n] != ROOT && names[n] in m {
        var before := Run(restarts, st, AllSectionLines(m, names[..n]));
        var pairs := m[names[n]];
        ElsewhereRun(restarts, before, names[n], pairs);
        RunMore(restarts, st, AllSectionLines(m, names[..n]), SectionLines(names[n], pairs));
      }
    }
  }

  lemma {:induction false} OtherKeysAvoid(pairs: map<string, string>, keys: seq<string>, key: string)
    requires CleanPairs(pairs) && key !in keys && forall i :: 0 <= i < |keys| ==> keys[i] in pairs
    ensures Avoids(PairLines(pairs, keys), key)
  {
    if keys != [] {
      var n := |keys| - 1;
      OtherKeysAvoid(pairs, keys[..n], key);
      PairReads(keys[n], pairs[keys[n]]);
    }
  }

  lemma {:induction false} PairLinesFirst(pairs: map<string, string>, keys: seq<string>)
    requires keys != [] && keys[0] in pairs
    ensures PairLines(pairs, keys) == [PairLine(keys[0], pairs[keys[0]])] + PairLines(pairs, keys[1..])
  {
    if |keys| > 1 {
      PairLinesFirst(pairs, keys[..|keys| - 1]);
      assert keys[1..][..|keys| - 2] == keys[..|keys| - 1][1..];
    }
  }

  lemma {:induction false} SectionsBegin(m: Sections, names: seq<string>)
    ensures AllSectionLines(m, names) != [] ==> AllSectionLines(m, names)[0] != "" && AllSectionLines(m, names)[0][0] == '['
  {
    if names != [] { SectionsBegin(m, names[..|names| - 1]); }
  }

  /** Text printed with a leading byte order mark owes it to the first key of the root. */
  lemma BomIsInKey(m: Sections, keys: seq<string>, names: seq<string>)
    requires Clean(m) && keys == SortedKeys(m[ROOT].Keys)
    requires StartsWithBom(Ended(PairLines(m[ROOT], keys) + AllSectionLines(m, names)))
    ensures keys != [] && keys[0] != "" && keys[0][0] == BOM
  {
    var lines := PairLines(m[ROOT], keys) + AllSectionLines(m, names);
    if keys == [] {
      SectionsBegin(m, names);
      if lines != [] { EndedFirst(lines); }
    } else {
      AllAreKeys(m[ROOT]);
      PairLinesFirst(m[ROOT], keys);
      EndedFirst(lines);
    }
  }

  /** The sections do not have the key at the root. */
  predicate Lost(m: Sections, key: string) { ROOT in m && key !in m[ROOT] }

  /** When the text begins with a byte order mark, that mark is cut off and its key is lost; so it is when a
      second mark is cut off too. */
  lemma BomLosesKey(restarts: bool, m: Sections, names: seq<string>, text: string)
    requires Clean(m)
    requires OneLine(RootLines(m) + AllSectionLines(m, names))
    requires text == Ended(RootLines(m) + AllSectionLines(m, names)) && StartsWithBom(text)
    ensures var keys := SortedKeys(m[ROOT].Keys);
      keys != [] && keys[0] in m[ROOT] && Lost(Parse(restarts, text), keys[0]) && Lost(Parse(restarts, StripBom(text)), keys[0])
  {
    var keys := SortedKeys(m[ROOT].Keys);
    BomIsInKey(m, keys, names);
    AllAreKeys(m[ROOT]);
    FirstKeyLost(restarts, m, keys, AllSectionLines(m, names), names, text, 1);
    if StartsWithBom(text[1..]) {
      SecondMark(m[ROOT], keys, AllSectionLines(m, names), text);
      FirstKeyLost(restarts, m, keys, AllSectionLines(m, names), names, text, 2);
      assert text[1..][1..] == text[2..];
    }
  }

  /** A second mark is in the key too. */
  lemma SecondMark(pairs: map<string, string>, keys: seq<string>, sections: seq<string>, text: string)
    requires keys != [] && keys[0] in pairs && keys[0] != "" && text == Ended(PairLines(pairs, keys) + sections)
    requires text != "" && StartsWithBom(text[1..])
    ensures |keys[0]| >= 2
  {
    var lines, first := PairLines(pairs, keys) + sections, PairLine(keys[0], pairs[keys[0]]);
    PairLinesFirst(pairs, keys);
    EndedFirst(lines);
    assert lines[0] == first && |first| >= 2;
    assert text[1..][0] == text[1] == first[1];
    assert first[|keys[0]|] == '=';
  }

  lemma FirstKeyLost(restarts: bool, m: Sections, keys: seq<string>, sections: seq<string>, names: seq<string>, text: string, j: nat)
    requires Clean(m) && sections == AllSectionLines(m, names) && OneLine(PairLines(m[ROOT], keys) + sections)
    requires keys != [] && 1 <= j <= |keys[0]| && text == Ended(PairLines(m[ROOT], keys) + sections) && j <= |text|
    requires forall i :: 0 <= i < |keys| ==> keys[i] in m[ROOT]
    requires forall i, j :: 0 <= i < j < |keys| ==> keys[i] != keys[j]
    ensures Lost(Run(restarts, Start(), Split(text[j..], '\n')).sections, keys[0])
  {
    var key := keys[0];
    var first, others := PairLine(key, m[ROOT][key]), PairLines(m[ROOT], keys[1..]);
    PairLinesFirst(m[ROOT], keys);
    Assoc([first], others, sections);
    CutFirst(first, others + sections, j);
    FirstShrinks(key, m[ROOT][key], j);
    OtherKeysAvoid(m[ROOT], keys[1..], key);
    LostKey(restarts, m, first[j..], others, sections, names, key);
  }

  lemma PairCut(key: string, value: string, j: nat)
    requires '\n' !in value && j <= |key|
    ensures j <= |PairLine(key, value)| && PairLine(key, value)[j..] == key[j..] + "=" + value
  {
    CutHead(key + "=", value, j);
    CutHead(key, "=", j);
  }

  lemma FirstShrinks(key: string, value: string, j: nat)
    requires CleanPair(key, value) && 1 <= j <= |key|
    ensures j <= |PairLine(key, value)|
    ensures ReadLine(PairLine(key, value)[j..]).Pair? ==> ReadLine(PairLine(key, value)[j..]).key != key
  {
    PairCut(key, value, j);
    EqualsAt(key[j..], value);
    ShorterKey(PairLine(key, value)[j..], key);
  }

  lemma EndedCons(first: string, lines: seq<string>)
    ensures Ended([first] + lines) == first + ("\n" + Ended(lines))
  {
    EndedFirst([first] + lines);
    assert ([first] + lines)[1..] == lines;
    Assoc(first, "\n", Ended(lines));
  }

  lemma OneLineRest(first: string, lines: seq<string>, other: string)
    requires OneLine([first] + lines) && '\n' !in other
    ensures '\n' !in first && OneLine([other] + lines)
  {
    var all := [first] + lines;
    assert all[0] == first;
    forall i | 0 <= i < |lines| ensures '\n' !in lines[i] { assert all[i + 1] == lines[i]; }
  }

  lemma CutFirst(first: string, lines: seq<string>, j: nat)
    requires j <= |first| && OneLine([first] + lines)
    ensures j <= |Ended([first] + lines)| && Split(Ended([first] + lines)[j..], '\n') == [first[j..]] + lines + [""]
  {
    OneLineRest(first, lines, "");
    OneLineRest(first, lines, first[j..]);
    EndedCons(first, lines);
    EndedCons(first[j..], lines);
    CutHead(first, "\n" + Ended(lines), j);
    SplitEnded([first[j..]] + lines, "");
    assert Ended([first[j..]] + lines) + "" == Ended([first[j..]] + lines);
  }

  lemma LostKey(restarts: bool, m: Sections, first: string, others: seq<string>, sections: seq<string>, names: seq<string>, key: string)
    requires Clean(m) && key in m[ROOT] && sections == AllSectionLines(m, names)
    requires Avoids([first], key) && Avoids(others, key)
    ensures Lost(Run(restarts, Start(), [first] + (others + sections) + [""]).sections, key)
  {
    var root := [first] + others;
    assert Avoids(root, key);
    AvoidingRun(restarts, Start(), root, key);
    SectionsLeaveRoot(restarts, Run(restarts, Start(), root), m, names);
    AfterSections(restarts, root, sections);
    Assoc([first], others, sections);
  }

  lemma AfterSections(restarts: bool, root: seq<string>, sections: seq<string>)
    ensures Run(restarts, Start(), root + sections + [""]) == Run(restarts, Run(restarts, Start(), root), sections)
  {
    RunMore(restarts, Start(), root, sections);
    RunAnother(restarts, Start(), root + sections, "");
  }

  // ----- The round trip -----

  lemma BomBreaks(restarts: bool, m: Sections)
    requires Clean(WithRoot(m)) && StartsWithBom(Print(m))
    ensures var keys := SortedKeys(WithRoot(m)[ROOT].Keys);
      && keys != [] && keys[0] in WithRoot(m)[ROOT]
      && Lost(Parse(restarts, Print(m)), keys[0]) && Lost(Parse(restarts, StripBom(Print(m))), keys[0])
  {
    CleanRuns(restarts, m);
    LinesWithRoot(m);
    BomLosesKey(restarts, WithRoot(m), SortedKeys(m.Keys), Print(m));
  }

  lemma LinesWithRoot(m: Sections)
    ensures Lines(m) == RootLines(WithRoot(m)) + AllSectionLines(WithRoot(m), SortedKeys(m.Keys))
  {
    SameRootLines(m);
    SameSections(m, SortedKeys(m.Keys));
  }

  lemma SameSections(m: Sections, names: seq<string>)
    ensures AllSectionLines(WithRoot(m), names) == AllSectionLines(m, names)
  {
    SameSectionLines(m, WithRoot(m), names);
  }

  /** Printing and parsing again gives the same sections exactly when they are clean and the text does not
      begin with a byte order mark. */
  lemma RoundTripIff(restarts: bool, m: Sections)
    ensures Parse(restarts, Print(m)) == WithRoot(m) <==> Clean(WithRoot(m)) && !StartsWithBom(Print(m))
  {
    ParsesClean(restarts, Print(m));
    if Clean(WithRoot(m)) {
      if StartsWithBom(Print(m)) {
        BomBreaks(restarts, m);
      } else {
        CleanReadsBack(restarts, m);
      }
    }
  }

  /** Whatever the text, with either parser: what it was parsed to can be printed and parsed again, byte
      order mark aside. */
  lemma ReparseIff(first: bool, second: bool, text: string)
    ensures Parse(second, Print(Parse(first, text))) == Parse(first, text) <==> !StartsWithBom(Print(Parse(first, text)))
  {
    ParsesClean(first, text);
    RoundTripIff(second, Parse(first, text));
  }

  // ----- ini_read and ini_write -----

  function Find(m: Sections, section: string, key: string): (r: string) {
    if section in m && key in m[section] then m[section][key] else ""
  }

  /** What ini_read sees in a file: two byte order marks are cut, one here and one by the parser. */
  function FileSections(data: string): (r: Sections) { Parse(false, StripBom(data)) }

  /** What ini_write starts from: nothing at all when the file cannot be read. */
  function Loaded(data: Option<string>): (r: Sections) { if data.None? then map[] else FileSections(data.value) }

  function Updated(m: Sections, section: string, key: string, value: string): (r: Sections) {
    m[section := (if section in m then m[section] else map[])[key := value]]
  }

  method IniRead(data: string, section: string, key: string) returns (value: string)
    ensures value == Find(FileSections(data), section, key)
  {
    var root := ParseIni(false, StripBom(data));
    if section !in root { return ""; }
    if key !in root[section] { return ""; }
    return root[section][key];
  }

  method IniWrite(data: Option<string>, section: string, key: string, value: string) returns (text: string)
    ensures text == Print(Updated(Loaded(data), section, key, value))
  {
    var root: Sections := map[];
    if data.Some? {
      root := ParseIni(false, StripBom(data.value));
    }
    if section !in root {
      root := root[section := map[]];
    }
    root := root[section := root[section][key := value]];
    assert root == Updated(Loaded(data), section, key, value);
    var luaRoot := map s | s in root :: Table(root[s]);
    assert Tables(luaRoot) == root;
    text := IniString(luaRoot);
  }

  /** What ini_read sees of a printed text. */
  lemma FileReadsIff(m: Sections)
    ensures FileSections(Print(m)) == WithRoot(m) <==> Clean(WithRoot(m)) && !StartsWithBom(Print(m))
  {
    ParsesClean(false, StripBom(Print(m)));
    RoundTripIff(false, m);
    if Clean(WithRoot(m)) && StartsWithBom(Print(m)) { BomBreaks(false, m); }
  }

  /** After ini_write the file holds what it held, with the one value set: exactly when section, key and
      value are clean and the text written does not begin with a byte order mark. */
  lemma WriteReadsIff(data: Option<string>, section: string, key: string, value: string, text: string)
    requires text == Print(Updated(Loaded(data), section, key, value))
    ensures FileSections(text) == Updated(WithRoot(Loaded(data)), section, key, value)
      <==> CleanName(section) && CleanPair(key, value) && !StartsWithBom(text)
  {
    var m := Loaded(data);
    RootUpdated(m, section, key, value);
    LoadedClean(data);
    UpdateClean(WithRoot(m), section, key, value);
    FileReadsIff(Updated(m, section, key, value));
  }

  lemma RootUpdated(m: Sections, section: string, key: string, value: string)
    ensures WithRoot(Updated(m, section, key, value)) == Updated(WithRoot(m), section, key, value)
  {
  }

  lemma LoadedClean(data: Option<string>)
    ensures Clean(WithRoot(Loaded(data)))
  {
    if data.Some? {
      ParsesClean(false, StripBom(data.value));
    } else {
      assert CleanName(ROOT);
    }
  }

  lemma UpdateClean(m: Sections, section: string, key: string, value: string)
    requires Clean(m)
    ensures Clean(Updated(m, section, key, value)) <==> CleanName(section) && CleanPair(key, value)
  {
    var now := Updated(m, section, key, value);
    assert section in now && key in now[section] && now[section][key] == value;
  }

  lemma FindUpdated(m: Sections, section: string, key: string, value: string, s: string, k: string)
    ensures Find(Updated(WithRoot(m), section, key, value), s, k) == if s == section && k == key then value else Find(m, s, k)
  {
  }

  /** So ini_read gives the value written, and every other key of the file as before, unless the text written
      begins with a byte order mark: then the first key of the root is lost. */
  lemma WriteThenRead(data: Option<string>, section: string, key: string, value: string, text: string, s: string, k: string)
    requires CleanName(section) && CleanPair(key, value)
    requires text == Print(Updated(Loaded(data), section, key, value))
    ensures !StartsWithBom(text) ==>
      Find(FileSections(text), s, k) == if s == section && k == key then value else Find(Loaded(data), s, k)
    ensures StartsWithBom(text) ==>
      var root := WithRoot(Updated(Loaded(data), section, key, value))[ROOT];
      var keys := SortedKeys(root.Keys);
      keys != [] && keys[0] in root && Lost(FileSections(text), keys[0])
  {
    WriteReadsIff(data, section, key, value, text);
    FindUpdated(Loaded(data), section, key, value, s, k);
    if StartsWithBom(text) {
      RootUpdated(Loaded(data), section, key, value);
      LoadedClean(data);
      UpdateClean(WithRoot(Loaded(data)), section, key, value);
      BomBreaks(false, Updated(Loaded(data), section, key, value));
    }
  }
}
