/** json.Decoder as parseJSON (internal/bindings/json.go) uses it: the first value of a text, read by the
    grammar of RFC 8259 with numbers kept as their text, and the proof that it reads back everything the
    encoder writes. */
module JsonReader {
  import opened Text
  import opened JsonWriter

  datatype GoValue =
    | GNil
    | GBool(b: bool)
    | GNumber(text: string)
    | GString(s: string)
    | GSlice(items: seq<GoValue>)
    | GMap(members: map<string, GoValue>)

  // ----- Lexical parts -----

  function SkipSpace(s: string): (t: string)
    ensures |t| <= |s|
  {
    if s != [] && IsBlank(s[0]) then SkipSpace(s[1..]) else s
  }

  /** The integer part: a zero, or digits that do not begin with one. */
  function ScanInteger(s: string): (n: Option<nat>)
    ensures n.Some? ==> 0 < n.value <= |s|
  {
    if s == [] || !IsDigit(s[0]) then None
    else if s[0] == '0' then Some(1)
    else Some(DigitRun(s))
  }

  function ScanFraction(s: string): (n: Option<nat>)
    ensures n.Some? ==> n.value <= |s|
  {
    if s == [] || s[0] != '.' then Some(0)
    else if DigitRun(s[1..]) == 0 then None
    else Some(1 + DigitRun(s[1..]))
  }

  function ScanExponent(s: string): (n: Option<nat>)
    ensures n.Some? ==> n.value <= |s|
  {
    if s == [] || (s[0] != 'e' && s[0] != 'E') then Some(0)
    else
      var sign := if |s| > 1 && (s[1] == '+' || s[1] == '-') then 1 else 0;
      if DigitRun(s[1 + sign..]) == 0 then None
      else Some(1 + sign + DigitRun(s[1 + sign..]))
  }

  function ScanTail(s: string): (n: Option<nat>)
    ensures n.Some? ==> n.value <= |s|
  {
    var fraction := ScanFraction(s);
    if fraction.None? then None
    else
      var exponent := ScanExponent(s[fraction.value..]);
      if exponent.None? then None else Some(fraction.value + exponent.value)
  }

  function ScanUnsigned(s: string): (n: Option<nat>)
    ensures n.Some? ==> 0 < n.value <= |s|
  {
    var whole := ScanInteger(s);
    if whole.None? then None
    else
      var tail := ScanTail(s[whole.value..]);
      if tail.None? then None else Some(whole.value + tail.value)
  }

  /** The length of the number that begins a text. */
  function ScanNumber(s: string): (n: Option<nat>)
    ensures n.Some? ==> 0 < n.value <= |s|
  {
    if s != [] && s[0] == '-' then
      var n := ScanUnsigned(s[1..]);
      if n.None? then None else Some(1 + n.value)
    else ScanUnsigned(s)
  }

  predicate IsJsonNumber(text: string) { ScanNumber(text) == Some(|text|) }

  function HexValue(c: char): (d: Option<nat>)
    ensures d.Some? ==> d.value < 16
  {
    if '0' <= c <= '9' then Some((c - '0') as nat)
    else if 'a' <= c <= 'f' then Some(10 + (c - 'a') as nat)
    else if 'A' <= c <= 'F' then Some(10 + (c - 'A') as nat)
    else None
  }

  /** getu4: the four hexadecimal digits of a \u escape at the head of a text. */
  function CodeUnit(s: string): (u: Option<nat>)
    ensures u.Some? ==> |s| >= 6 && u.value < 0x10000
  {
    if |s| < 6 || s[0] != '\\' || s[1] != 'u' then None
    else
      var a, b, c, d := HexValue(s[2]), HexValue(s[3]), HexValue(s[4]), HexValue(s[5]);
      if a.None? || b.None? || c.None? || d.None? then None
      else Some(4096 * a.value + 256 * b.value + 16 * c.value + d.value)
  }

  predicate IsSurrogate(u: nat) { 0xD800 <= u < 0xE000 }

  /** A \u escape: a pair of surrogates is one character, a lone surrogate the replacement character. */
  function UnicodeChar(s: string): (r: Option<(char, nat)>)
    ensures r.Some? ==> 6 <= r.value.1 <= |s|
  {
    var u := CodeUnit(s);
    if u.None? then None
    else if !IsSurrogate(u.value) then Some((u.value as char, 6))
    else
      var low := CodeUnit(s[6..]);
      if u.value < 0xDC00 && low.Some? && 0xDC00 <= low.value < 0xE000 then
        Some(((0x10000 + (u.value - 0xD800) * 0x400 + (low.value - 0xDC00)) as char, 12))
      else Some(('\U{FFFD}', 6))
  }

  function ShortEscape(c: char): (r: Option<char>) {
    if c == '"' || c == '\\' || c == '/' then Some(c)
    else if c == 'b' then Some('\U{8}')
    else if c == 'f' then Some('\U{C}')
    else if c == 'n' then Some('\n')
    else if c == 'r' then Some('\r')
    else if c == 't' then Some('\t')
    else None
  }

  /** One character of a string literal and how much of the text it takes. */
  function ParseChar(s: string): (r: Option<(char, nat)>)
    requires s != []
    ensures r.Some? ==> 0 < r.value.1 <= |s|
  {
    if s[0] < ' ' then None
    else if s[0] != '\\' then Some((s[0], 1))
    else if |s| > 1 && s[1] == 'u' then UnicodeChar(s)
    else if |s| > 1 && ShortEscape(s[1]).Some? then Some((ShortEscape(s[1]).value, 2))
    else None
  }

  /** The rest of a string literal, after its opening quote. */
  function ParseChars(s: string): (r: Option<(string, string)>)
    ensures r.Some? ==> |r.value.1| < |s|
    decreases |s|
  {
    if s == [] then None
    else if s[0] == '"' then Some(([], s[1..]))
    else
      var c := ParseChar(s);
      if c.None? then None
      else
        var rest := ParseChars(s[c.value.1..]);
        if rest.None? then None else Some(([c.value.0] + rest.value.0, rest.value.1))
  }

  // ----- Values -----

  function ParseNumber(s: string): (r: Option<(GoValue, string)>)
    ensures r.Some? ==> |r.value.1| < |s|
  {
    var n := ScanNumber(s);
    if n.None? then None else Some((GNumber(s[..n.value]), s[n.value..]))
  }

  function ParseLiteral(s: string, word: string, v: GoValue): (r: Option<(GoValue, string)>)
    requires word != []
    ensures r.Some? ==> |r.value.1| < |s|
  {
    if word <= s then Some((v, s[|word|..])) else None
  }

  function ParseValue(text: string): (r: Option<(GoValue, string)>)
    ensures r.Some? ==> |r.value.1| < |text|
    decreases |text|, 0
  {
    var s := SkipSpace(text);
    if s == [] then None
    else if s[0] == '{' then
      var inner := SkipSpace(s[1..]);
      if inner != [] && inner[0] == '}' then Some((GMap(map[]), inner[1..]))
      else
        var r := ParseMembers(inner, map[]);
        if r.None? then None else Some((GMap(r.value.0), r.value.1))
    else if s[0] == '[' then
      var inner := SkipSpace(s[1..]);
      if inner != [] && inner[0] == ']' then Some((GSlice([]), inner[1..]))
      else
        var r := ParseItems(inner);
        if r.None? then None else Some((GSlice(r.value.0), r.value.1))
    else if s[0] == '"' then
      var r := ParseChars(s[1..]);
      if r.None? then None else Some((GString(r.value.0), r.value.1))
    else if s[0] == 't' then ParseLiteral(s, "true", GBool(true))
    else if s[0] == 'f' then ParseLiteral(s, "false", GBool(false))
    else if s[0] == 'n' then ParseLiteral(s, "null", GNil)
    else ParseNumber(s)
  }

  function ParseItems(s: string): (r: Option<(seq<GoValue>, string)>)
    ensures r.Some? ==> |r.value.1| < |s|
    decreases |s|, 1
  {
    var v := ParseValue(s);
    if v.None? then None
    else
      var after := SkipSpace(v.value.1);
      if after == [] then None
      else if after[0] == ']' then Some(([v.value.0], after[1..]))
      else if after[0] != ',' then None
      else
        var rest := ParseItems(after[1..]);
        if rest.None? then None else Some(([v.value.0] + rest.value.0, rest.value.1))
  }

  /** Members are stored as they are read: the last of a repeated name stays. */
  function ParseMembers(text: string, m: map<string, GoValue>): (r: Option<(map<string, GoValue>, string)>)
    ensures r.Some? ==> |r.value.1| < |text|
    decreases |text|, 1
  {
    var s := SkipSpace(text);
    if s == [] || s[0] != '"' then None
    else
      var name := ParseChars(s[1..]);
      if name.None? then None
      else
        var colon := SkipSpace(name.value.1);
        if colon == [] || colon[0] != ':' then None
        else
          var v := ParseValue(colon[1..]);
          if v.None? then None
          else
            var stored := m[name.value.0 := v.value.0];
            var after := SkipSpace(v.value.1);
            if after == [] then None
            else if after[0] == '}' then Some((stored, after[1..]))
            else if after[0] != ',' then None
            else ParseMembers(after[1..], stored)
  }

  // ----- Reading back what the encoder wrote -----

  /** The Go value a tree denotes. */
  function GoOf(t: Tree): (r: GoValue)
    decreases t, 1
  {
    match t
    case TNull => GNil
    case TBool(b) => GBool(b)
    case TNum(text) => GNumber(text)
    case TStr(s) => GString(s)
    case TArr(items) => GSlice(AllGoOf(items))
    case TObj(names, values) => GMap(MembersOf(names, values, map[]))
  }

  function AllGoOf(ts: seq<Tree>): (gs: seq<GoValue>)
    ensures |gs| == |ts|
    decreases ts, 0
  {
    if ts == [] then [] else [GoOf(ts[0])] + AllGoOf(ts[1..])
  }

  function MembersOf(names: seq<string>, values: seq<Tree>, m: map<string, GoValue>): (r: map<string, GoValue>)
    decreases values, 0
  {
    if names == [] || values == [] then m
    else MembersOf(names[1..], values[1..], m[names[0] := GoOf(values[0])])
  }

  /** Every number is a JSON number, and every object has a value for each of its names. */
  predicate Sound(t: Tree)
    decreases t, 1
  {
    match t
    case TNum(text) => IsJsonNumber(text)
    case TArr(items) => AllSound(items)
    case TObj(names, values) => |names| == |values| && AllSound(values)
    case _ => true
  }

  predicate AllSound(ts: seq<Tree>)
    decreases ts, 0
  {
    ts == [] || (Sound(ts[0]) && AllSound(ts[1..]))
  }

  /** What may follow a value: nothing, or the punctuation of the list it stands in. */
  predicate EndsValue(rest: string) { rest == [] || rest[0] == ',' || rest[0] == ']' || rest[0] == '}' }

  predicate EndsNumber(rest: string) {
    rest == [] || (!IsDigit(rest[0]) && rest[0] != '.' && rest[0] != 'e' && rest[0] != 'E')
  }

  lemma {:induction false} DigitRunStops(s: string, rest: string)
    requires DigitRun(s) == |s| ==> rest == [] || !IsDigit(rest[0])
    ensures DigitRun(s + rest) == DigitRun(s)
  {
    if s == [] {
      assert s + rest == rest;
    } else {
      CutHead(s, rest, 1);
      if IsDigit(s[0]) { DigitRunStops(s[1..], rest); }
    }
  }

  lemma ScanIntegerStops(s: string, rest: string)
    requires ScanInteger(s).Some? && EndsNumber(rest)
    ensures ScanInteger(s + rest) == ScanInteger(s)
  {
    DigitRunStops(s, rest);
  }

  lemma ScanFractionStops(s: string, rest: string)
    requires ScanFraction(s).Some? && EndsNumber(rest)
    ensures ScanFraction(s + rest) == ScanFraction(s)
  {
    if s == [] {
      assert s + rest == rest;
    } else {
      CutHead(s, rest, 1);
      DigitRunStops(s[1..], rest);
    }
  }

  lemma ScanExponentStops(s: string, rest: string)
    requires ScanExponent(s).Some? && EndsNumber(rest)
    ensures ScanExponent(s + rest) == ScanExponent(s)
  {
    if s == [] {
      assert s + rest == rest;
    } else {
      CutHead(s, rest, 1);
      if |s| > 1 {
        CutHead(s, rest, 2);
        DigitRunStops(s[2..], rest);
      }
      DigitRunStops(s[1..], rest);
    }
  }

  lemma ScanTailStops(s: string, rest: string)
    requires ScanTail(s).Some? && EndsNumber(rest)
    ensures ScanTail(s + rest) == ScanTail(s)
  {
    var n := ScanFraction(s).value;
    ScanFractionStops(s, rest);
    ScanExponentStops(s[n..], rest);
    CutHead(s, rest, n);
  }

  lemma ScanUnsignedStops(s: string, rest: string)
    requires ScanUnsigned(s).Some? && EndsNumber(rest)
    ensures ScanUnsigned(s + rest) == ScanUnsigned(s)
  {
    var n := ScanInteger(s).value;
    ScanIntegerStops(s, rest);
    ScanTailStops(s[n..], rest);
    CutHead(s, rest, n);
  }

  lemma ScanNumberStops(s: string, rest: string)
    requires IsJsonNumber(s) && EndsNumber(rest)
    ensures ScanNumber(s + rest) == Some(|s|)
  {
    if s[0] == '-' {
      CutHead(s, rest, 1);
      ScanUnsignedStops(s[1..], rest);
    } else {
      ScanUnsignedStops(s, rest);
    }
  }

  lemma HexBack(d: nat)
    requires d < 16
    ensures HexValue(HexDigit(d)) == Some(d)
  {
  }

  lemma HexDigits(n: nat)
    requires n < 0x10000
    ensures n / 4096 < 16 && 4096 * (n / 4096) + 256 * (n / 256 % 16) + 16 * (n / 16 % 16) + n % 16 == n
  {
    assert n == 16 * (n / 16) + n % 16;
    assert n / 16 == 16 * (n / 256) + n / 16 % 16;
    assert n / 256 == 16 * (n / 4096) + n / 256 % 16;
  }

  lemma CodeUnitOf(s: string, a: nat, b: nat, c: nat, d: nat)
    requires a < 16 && b < 16 && c < 16 && d < 16
    requires |s| >= 6 && s[0] == '\\' && s[1] == 'u'
    requires s[2] == HexDigit(a) && s[3] == HexDigit(b) && s[4] == HexDigit(c) && s[5] == HexDigit(d)
    ensures CodeUnit(s) == Some(4096 * a + 256 * b + 16 * c + d)
  {
    HexBack(a);
    HexBack(b);
    HexBack(c);
    HexBack(d);
  }

  lemma UnicodeBack(c: char, rest: string)
    requires c <= '\U{2029}'
    ensures UnicodeChar(UnicodeEscape(c) + rest) == Some((c, 6))
  {
    var n := c as nat;
    HexDigits(n);
    CodeUnitOf(UnicodeEscape(c) + rest, n / 4096, n / 256 % 16, n / 16 % 16, n % 16);
  }

  lemma CharBack(c: char, rest: string)
    ensures EscapeChar(c) != [] && EscapeChar(c)[0] != '"'
    ensures ParseChar(EscapeChar(c) + rest) == Some((c, |EscapeChar(c)|))
  {
    if |EscapeChar(c)| == 6 { UnicodeBack(c, rest); }
  }

  lemma CharsStep(e: string, c: char, more: string, s: string, rest: string)
    requires e != [] && e[0] != '"' && ParseChar(e + more) == Some((c, |e|))
    requires ParseChars(more) == Some((s, rest))
    ensures ParseChars(e + more) == Some(([c] + s, rest))
  {
    assert (e + more)[|e|..] == more;
  }

  lemma {:induction false} CharsBack(s: string, rest: string)
    ensures ParseChars(EscapeChars(s) + ("\"" + rest)) == Some((s, rest))
  {
    if s == [] {
      assert EscapeChars(s) + ("\"" + rest) == "\"" + rest;
    } else {
      var e, tail := EscapeChar(s[0]), EscapeChars(s[1..]);
      CharsBack(s[1..], rest);
      CharBack(s[0], tail + ("\"" + rest));
      CharsStep(e, s[0], tail + ("\"" + rest), s[1..], rest);
      Assoc(e, tail, "\"" + rest);
      assert s == [s[0]] + s[1..];
    }
  }

  // One lemma for each production, over any text that is read so.

  lemma StringValue(s: string, rest: string)
    ensures ParseValue(JsonString(s) + rest) == Some((GString(s), rest))
  {
    CharsBack(s, rest);
    Quoted(EscapeChars(s), rest);
    StringCase(JsonString(s) + rest, s, rest);
  }

  lemma Quoted(e: string, rest: string)
    ensures ("\"" + e + "\"" + rest)[1..] == e + ("\"" + rest)
  {
  }

  lemma StringCase(text: string, s: string, rest: string)
    requires text != [] && text[0] == '"' && ParseChars(text[1..]) == Some((s, rest))
    ensures ParseValue(text) == Some((GString(s), rest))
  {
  }

  lemma NumberCase(s: string)
    requires s != [] && (s[0] == '-' || IsDigit(s[0]))
    ensures ParseValue(s) == ParseNumber(s)
  {
    assert SkipSpace(s) == s;
    assert s[0] != '{' && s[0] != '[' && s[0] != '"' && s[0] != 't' && s[0] != 'f' && s[0] != 'n';
  }

  lemma NumberValue(text: string, rest: string)
    requires IsJsonNumber(text) && EndsNumber(rest)
    ensures ParseValue(text + rest) == Some((GNumber(text), rest))
  {
    ScanNumberStops(text, rest);
    NumberHead(text);
    NumberCase(text + rest);
    assert (text + rest)[..|text|] == text && (text + rest)[|text|..] == rest;
  }

  lemma NumberHead(text: string)
    requires IsJsonNumber(text)
    ensures text[0] == '-' || IsDigit(text[0])
  {
  }

  lemma ArrayValue(inner: string, gs: seq<GoValue>, rest: string)
    requires inner != [] && !IsBlank(inner[0]) && inner[0] != ']' && ParseItems(inner) == Some((gs, rest))
    ensures ParseValue("[" + inner) == Some((GSlice(gs), rest))
  {
    assert ("[" + inner)[1..] == inner;
  }

  lemma EmptyArrayValue(rest: string)
    ensures ParseValue("[]" + rest) == Some((GSlice([]), rest))
  {
    var inner := "]" + rest;
    assert ("[]" + rest)[1..] == inner && inner[1..] == rest;
  }

  lemma ObjectValue(inner: string, m: map<string, GoValue>, rest: string)
    requires inner != [] && !IsBlank(inner[0]) && inner[0] != '}' && ParseMembers(inner, map[]) == Some((m, rest))
    ensures ParseValue("{" + inner) == Some((GMap(m), rest))
  {
    assert ("{" + inner)[1..] == inner;
  }

  lemma EmptyObjectValue(rest: string)
    ensures ParseValue("{}" + rest) == Some((GMap(map[]), rest))
  {
    var inner := "}" + rest;
    assert ("{}" + rest)[1..] == inner && inner[1..] == rest;
  }

  lemma LastItem(e: string, g: GoValue, rest: string)
    requires ParseValue(e + ("]" + rest)) == Some((g, "]" + rest))
    ensures ParseItems(e + ("]" + rest)) == Some(([g], rest))
  {
    assert ("]" + rest)[1..] == rest;
  }

  lemma MoreItems(e: string, g: GoValue, more: string, gs: seq<GoValue>, rest: string)
    requires ParseValue(e + ("," + more)) == Some((g, "," + more))
    requires ParseItems(more) == Some((gs, rest))
    ensures ParseItems(e + ("," + more)) == Some(([g] + gs, rest))
  {
    assert ("," + more)[1..] == more;
  }

  /** A name, a colon and a value, then whatever follows. */
  lemma NameAndColon(name: string, after: string)
    ensures var text := JsonString(name) + (":" + after);
      text[0] == '"' && ParseChars(text[1..]) == Some((name, ":" + after))
  {
    CharsBack(name, ":" + after);
    Quoted(EscapeChars(name), ":" + after);
  }

  lemma LastMember(text: string, name: string, after: string, g: GoValue, m: map<string, GoValue>, rest: string)
    requires text != [] && text[0] == '"' && ParseChars(text[1..]) == Some((name, ":" + after))
    requires ParseValue(after) == Some((g, "}" + rest))
    ensures ParseMembers(text, m) == Some((m[name := g], rest))
  {
    assert (":" + after)[1..] == after && ("}" + rest)[1..] == rest;
  }

  lemma MoreMembers(text: string, name: string, after: string, g: GoValue, m: map<string, GoValue>, more: string)
    requires text != [] && text[0] == '"' && ParseChars(text[1..]) == Some((name, ":" + after))
    requires ParseValue(after) == Some((g, "," + more))
    ensures ParseMembers(text, m) == ParseMembers(more, m[name := g])
  {
    assert (":" + after)[1..] == after && ("," + more)[1..] == more;
  }

  // What the encoder writes.

  lemma EncodeHead(t: Tree)
    requires Sound(t)
    ensures Encode(t) != [] && !IsBlank(Encode(t)[0]) && Encode(t)[0] != ']'
  {
    if t.TNum? { NumberHead(t.text); }
  }

  lemma JoinHead(parts: seq<string>)
    requires parts != [] && parts[0] != []
    ensures Join(parts, ",") != [] && Join(parts, ",")[0] == parts[0][0]
  {
  }

  /** The decoder reads back every tree the encoder writes, whatever follows it in the text. */
  lemma {:induction false} ValueBack(t: Tree, rest: string)
    requires Sound(t) && EndsValue(rest)
    ensures ParseValue(Encode(t) + rest) == Some((GoOf(t), rest))
    decreases t, 1
  {
    match t
    case TNull =>
      assert ("null" + rest)[4..] == rest;
    case TBool(b) =>
      assert ("true" + rest)[4..] == rest && ("false" + rest)[5..] == rest;
    case TNum(text) => NumberValue(text, rest);
    case TStr(s) => StringValue(s, rest);
    case TArr(items) => ArrayBack(items, rest);
    case TObj(names, values) => ObjectBack(names, values, rest);
  }

  lemma {:induction false} ArrayBack(items: seq<Tree>, rest: string)
    requires AllSound(items)
    ensures ParseValue("[" + Join(EncodeAll(items), ",") + "]" + rest) == Some((GSlice(AllGoOf(items)), rest))
    decreases items, 1
  {
    var parts := EncodeAll(items);
    if items == [] {
      EmptyArrayValue(rest);
      assert "[" + Join(parts, ",") + "]" + rest == "[]" + rest;
    } else {
      ItemsBack(items, rest);
      EncodeHead(items[0]);
      JoinHead(parts);
      ArrayValue(Join(parts, ",") + ("]" + rest), AllGoOf(items), rest);
      Regroup("[", Join(parts, ","), "]", rest);
    }
  }

  lemma {:induction false} ItemsBack(items: seq<Tree>, rest: string)
    requires items != [] && AllSound(items)
    ensures ParseItems(Join(EncodeAll(items), ",") + ("]" + rest)) == Some((AllGoOf(items), rest))
    decreases items, 0
  {
    var e, g := Encode(items[0]), GoOf(items[0]);
    if |items| == 1 {
      ValueBack(items[0], "]" + rest);
      LastItem(e, g, rest);
      assert EncodeAll(items) == [e] && AllGoOf(items) == [g];
    } else {
      var parts := EncodeAll(items[1..]);
      var more := Join(parts, ",") + ("]" + rest);
      ItemsBack(items[1..], rest);
      ValueBack(items[0], "," + more);
      MoreItems(e, g, more, AllGoOf(items[1..]), rest);
      JoinCons(e, parts);
      Regroup(e, ",", Join(parts, ","), "]" + rest);
    }
  }

  lemma JoinCons(part: string, parts: seq<string>)
    requires parts != []
    ensures Join([part] + parts, ",") == part + "," + Join(parts, ",")
  {
    assert ([part] + parts)[1..] == parts;
  }

  lemma {:induction false} ObjectBack(names: seq<string>, values: seq<Tree>, rest: string)
    requires |names| == |values| && AllSound(values)
    ensures ParseValue("{" + Join(EncodeMembers(names, values), ",") + "}" + rest) == Some((GMap(MembersOf(names, values, map[])), rest))
    decreases values, 1
  {
    var parts := EncodeMembers(names, values);
    if values == [] {
      EmptyObjectValue(rest);
      assert "{" + Join(parts, ",") + "}" + rest == "{}" + rest;
    } else {
      MembersBack(names, values, map[], rest);
      JoinHead(parts);
      ObjectValue(Join(parts, ",") + ("}" + rest), MembersOf(names, values, map[]), rest);
      Regroup("{", Join(parts, ","), "}", rest);
    }
  }

  lemma {:induction false} MembersBack(names: seq<string>, values: seq<Tree>, m: map<string, GoValue>, rest: string)
    requires values != [] && |names| == |values| && AllSound(values)
    ensures ParseMembers(Join(EncodeMembers(names, values), ",") + ("}" + rest), m) == Some((MembersOf(names, values, m), rest))
    decreases values, 0
  {
    var e, g, name := Encode(values[0]), GoOf(values[0]), names[0];
    if |values| == 1 {
      ValueBack(values[0], "}" + rest);
      NameAndColon(name, e + ("}" + rest));
      LastMember(JsonString(name) + (":" + (e + ("}" + rest))), name, e + ("}" + rest), g, m, rest);
      Regroup(JsonString(name), ":", e, "}" + rest);
      assert EncodeMembers(names, values) == [JsonString(name) + ":" + e];
    } else {
      var parts := EncodeMembers(names[1..], values[1..]);
      var more := Join(parts, ",") + ("}" + rest);
      MembersBack(names[1..], values[1..], m[name := g], rest);
      ValueBack(values[0], "," + more);
      NameAndColon(name, e + ("," + more));
      MoreMembers(JsonString(name) + (":" + (e + ("," + more))), name, e + ("," + more), g, m, more);
      JoinCons(EncodeMember(name, values[0]), parts);
      Regroup(EncodeMember(name, values[0]), ",", Join(parts, ","), "}" + rest);
      Regroup(JsonString(name), ":", e, "," + more);
    }
  }
}
