/** JSON text as RFC 8259 defines it: values, their compact rendering, and a parser for the whole
    grammar. Parsing inverts rendering, which is what makes the rendering an encoding. */
module Json {
  import opened Wrappers
  import opened Decimal

  /** A JSON value. A number keeps its literal, so `1.50` and `1.5` stay apart. */
  datatype Json =
    | Null
    | Bool(flag: bool)
    | Number(literal: NumberLiteral)
    | Text(text: string)
    | Array(items: seq<Json>)
    | Object(fields: seq<Field>)

  datatype Field = Field(name: string, value: Json)

  // Number literals: section 6.

  type NumberLiteral = s: string | IsNumber(s) witness "0"

  function DigitSpan(s: string): (n: nat)
    ensures n <= |s| && AllDigits(s[..n])
    ensures n < |s| ==> !IsDigit(s[n])
  {
    if s == [] || !IsDigit(s[0]) then 0 else 1 + DigitSpan(s[1..])
  }

  predicate IsNumber(s: string) {
    IsMagnitude(if s != [] && s[0] == '-' then s[1..] else s)
  }

  predicate IsMagnitude(s: string) {
    var n := DigitSpan(s);
    n > 0 && (s[0] == '0' ==> n == 1) && IsFraction(s[n..])
  }

  predicate IsFraction(s: string) {
    if s != [] && s[0] == '.' then
      var n := DigitSpan(s[1..]);
      n > 0 && IsExponent(s[1..][n..])
    else
      IsExponent(s)
  }

  predicate IsExponent(s: string) {
    s != [] ==>
      && (s[0] == 'e' || s[0] == 'E')
      && var t := if |s| > 1 && (s[1] == '+' || s[1] == '-') then s[2..] else s[1..];
         t != [] && AllDigits(t)
  }

  predicate IsNumberChar(c: char) {
    IsDigit(c) || c in "-+.eE"
  }

  function NumberSpan(s: string): (n: nat)
    ensures n <= |s|
  {
    if s == [] || !IsNumberChar(s[0]) then 0 else 1 + NumberSpan(s[1..])
  }

  // Compact rendering.

  const HEX: string := "0123456789abcdef"

  /** A character inside a JSON string: section 7, with the short escapes the writer uses. */
  function EscapeChar(c: char): string {
    match c
    case '\"' => "\\\""
    case '\\' => "\\\\"
    case '\n' => "\\n"
    case '\r' => "\\r"
    case '\t' => "\\t"
    case _ =>
      if c as int < 0x20 then ['\\', 'u', '0', '0', HEX[c as int / 16], HEX[c as int % 16]] else [c]
  }

  function Escape(s: string): string {
    if s == [] then "" else EscapeChar(s[0]) + Escape(s[1..])
  }

  function RenderText(s: string): string {
    "\"" + Escape(s) + "\""
  }

  function Render(j: Json): string
    decreases j, 0
  {
    match j
    case Null => "null"
    case Bool(flag) => if flag then "true" else "false"
    case Number(literal) => literal
    case Text(text) => RenderText(text)
    case Array(items) => "[" + RenderItems(items, 0) + "]"
    case Object(fields) => "{" + RenderFields(fields, 0) + "}"
  }

  /** The items from `i` on, each but the very first after a comma. */
  function RenderItems(items: seq<Json>, i: nat): string
    requires i <= |items|
    decreases items, |items| - i
  {
    if i == |items| then ""
    else (if i > 0 then "," else "") + Render(items[i]) + RenderItems(items, i + 1)
  }

  function RenderField(field: Field): string
    decreases field, 0
  {
    RenderText(field.name) + ":" + Render(field.value)
  }

  function RenderFields(fields: seq<Field>, i: nat): string
    requires i <= |fields|
    decreases fields, |fields| - i
  {
    if i == |fields| then ""
    else (if i > 0 then "," else "") + RenderField(fields[i]) + RenderFields(fields, i + 1)
  }

  /** An array of two looks as it should: brackets, one comma, and no space. */
  lemma ArrayLooks(items: seq<Json>)
    requires |items| == 2
    ensures Render(Array(items)) == "[" + Render(items[0]) + "," + Render(items[1]) + "]"
  {
    hide RenderText, RenderFields, RenderField;
    var a, b := Render(items[0]), Render(items[1]);
    assert RenderItems(items, 2) == "";
    assert RenderItems(items, 1) == "," + b;
    assert RenderItems(items, 0) == a + ("," + b);
    assert "[" + (a + ("," + b)) + "]" == "[" + a + "," + b + "]";
  }

  /** And so does an object of one: braces, the quoted name, a colon and the value. */
  lemma ObjectLooks(fields: seq<Field>)
    requires |fields| == 1
    ensures Render(Object(fields)) == "{\"" + Escape(fields[0].name) + "\":" + Render(fields[0].value) + "}"
  {
    hide Escape, RenderItems;
    var name, value := Escape(fields[0].name), Render(fields[0].value);
    assert RenderFields(fields, 1) == "";
    assert RenderField(fields[0]) == "\"" + name + "\"" + ":" + value;
    assert RenderFields(fields, 0) == RenderField(fields[0]);
  }

  // Parsing.

  predicate IsSpace(c: char) {
    c in " \t\n\r"
  }

  function SkipSpace(s: string): (r: string)
    ensures |r| <= |s|
  {
    if s != [] && IsSpace(s[0]) then SkipSpace(s[1..]) else s
  }

  predicate StartsWith(s: string, c: char) {
    s != [] && s[0] == c
  }

  function HexValue(c: char): (r: Option<nat>)
    ensures r.Some? ==> r.value < 16
  {
    if IsDigit(c) then Some(DigitValue(c))
    else if 'a' <= c <= 'f' then Some((c - 'a') as nat + 10)
    else if 'A' <= c <= 'F' then Some((c - 'A') as nat + 10)
    else None
  }

  function Hex4(s: string): (r: Option<nat>)
    ensures r.Some? ==> |s| >= 4 && r.value < 0x10000
  {
    if |s| < 4 then None
    else
      match (HexValue(s[0]), HexValue(s[1]), HexValue(s[2]), HexValue(s[3]))
      case (Some(a), Some(b), Some(c), Some(d)) => Some(a * 4096 + b * 256 + c * 16 + d)
      case _ => None
  }

  /** What follows `\u`: one scalar value, or a surrogate pair spelled as two escapes. */
  function ParseUnicode(s: string): (r: Option<(char, string)>)
    ensures r.Some? ==> |r.value.1| < |s|
  {
    var high := Hex4(s);
    if high.None? then None
    else if high.value < 0xD800 || 0xE000 <= high.value then Some((high.value as char, s[4..]))
    else if high.value < 0xDC00 && |s| >= 6 && s[4] == '\\' && s[5] == 'u' then
      var low := Hex4(s[6..]);
      if low.Some? && 0xDC00 <= low.value < 0xE000 then
        Some(((0x10000 + (high.value - 0xD800) * 0x400 + (low.value - 0xDC00)) as char, s[10..]))
      else
        None
    else None
  }

  function ParseEscape(s: string): (r: Option<(char, string)>)
    ensures r.Some? ==> |r.value.1| < |s|
  {
    if s == [] then None
    else
      match s[0]
      case '\"' => Some(('\"', s[1..]))
      case '\\' => Some(('\\', s[1..]))
      case '/' => Some(('/', s[1..]))
      case 'b' => Some((8 as char, s[1..]))
      case 'f' => Some((12 as char, s[1..]))
      case 'n' => Some(('\n', s[1..]))
      case 'r' => Some(('\r', s[1..]))
      case 't' => Some(('\t', s[1..]))
      case 'u' => ParseUnicode(s[1..])
      case _ => None
  }

  /** One character of a string's inside, escaped or plain; the closing quote is not one. */
  function ParseChar(s: string): (r: Option<(char, string)>)
    ensures r.Some? ==> |r.value.1| < |s|
  {
    if s == [] || s[0] == '\"' || s[0] as int < 0x20 then None
    else if s[0] == '\\' then ParseEscape(s[1..])
    else Some((s[0], s[1..]))
  }

  /** The inside of a string, up to and including its closing quote. */
  function ParseText(s: string): (r: Option<(string, string)>)
    ensures r.Some? ==> |r.value.1| < |s|
  {
    if StartsWith(s, '\"') then Some(("", s[1..]))
    else
      var head := ParseChar(s);
      if head.None? then None
      else
        var tail := ParseText(head.value.1);
        if tail.None? then None else Some(([head.value.0] + tail.value.0, tail.value.1))
  }

  function ParseNumber(s: string): (r: Option<(Json, string)>)
    ensures r.Some? ==> |r.value.1| < |s|
  {
    var n := NumberSpan(s);
    if n > 0 && IsNumber(s[..n]) then Some((Number(s[..n]), s[n..])) else None
  }

  /** The value `s` begins with, and everything after it. */
  function ParseValue(s: string): (r: Option<(Json, string)>)
    ensures r.Some? ==> |r.value.1| < |s|
    decreases |s|, 0
  {
    var t := SkipSpace(s);
    if t == [] then None
    else if "null" <= t then Some((Null, t[4..]))
    else if "true" <= t then Some((Bool(true), t[4..]))
    else if "false" <= t then Some((Bool(false), t[5..]))
    else if t[0] == '\"' then
      var text := ParseText(t[1..]);
      if text.None? then None else Some((Text(text.value.0), text.value.1))
    else if t[0] == '[' then
      if StartsWith(SkipSpace(t[1..]), ']') then Some((Array([]), SkipSpace(t[1..])[1..]))
      else
        var items := ParseItems(t[1..]);
        if items.None? then None else Some((Array(items.value.0), items.value.1))
    else if t[0] == '{' then
      if StartsWith(SkipSpace(t[1..]), '}') then Some((Object([]), SkipSpace(t[1..])[1..]))
      else
        var fields := ParseFields(t[1..]);
        if fields.None? then None else Some((Object(fields.value.0), fields.value.1))
    else ParseNumber(t)
  }

  /** One or more items up to and including the closing bracket. */
  function ParseItems(s: string): (r: Option<(seq<Json>, string)>)
    ensures r.Some? ==> |r.value.1| < |s|
    decreases |s|, 1
  {
    var head := ParseValue(s);
    if head.None? then None
    else
      var rest := SkipSpace(head.value.1);
      if StartsWith(rest, ']') then Some(([head.value.0], rest[1..]))
      else if StartsWith(rest, ',') then
        var tail := ParseItems(rest[1..]);
        if tail.None? then None else Some(([head.value.0] + tail.value.0, tail.value.1))
      else None
  }

  function ParseField(s: string): (r: Option<(Field, string)>)
    ensures r.Some? ==> |r.value.1| < |s|
    decreases |s|, 1
  {
    var t := SkipSpace(s);
    if !StartsWith(t, '\"') then None
    else
      var name := ParseText(t[1..]);
      if name.None? || !StartsWith(SkipSpace(name.value.1), ':') then None
      else
        var value := ParseValue(SkipSpace(name.value.1)[1..]);
        if value.None? then None else Some((Field(name.value.0, value.value.0), value.value.1))
  }

  /** One or more fields up to and including the closing brace. */
  function ParseFields(s: string): (r: Option<(seq<Field>, string)>)
    ensures r.Some? ==> |r.value.1| < |s|
    decreases |s|, 2
  {
    var head := ParseField(s);
    if head.None? then None
    else
      var rest := SkipSpace(head.value.1);
      if StartsWith(rest, '}') then Some(([head.value.0], rest[1..]))
      else if StartsWith(rest, ',') then
        var tail := ParseFields(rest[1..]);
        if tail.None? then None else Some(([head.value.0] + tail.value.0, tail.value.1))
      else None
  }

  /** A whole JSON text: one value, with nothing but space around it. */
  function ParseJson(s: string): Option<Json> {
    var r := ParseValue(s);
    if r.Some? && SkipSpace(r.value.1) == [] then Some(r.value.0) else None
  }

  // Parsing inverts rendering.

  /** Nothing, or a character no value can go on with. */
  predicate EndsValue(k: string) {
    k != [] ==> !IsNumberChar(k[0])
  }

  lemma {:induction false} NumberSpanOfLiteral(s: string, k: string)
    requires AllNumberChars(s)
    requires EndsValue(k)
    ensures NumberSpan(s + k) == |s|
  {
    if s == [] {
      assert s + k == k;
    } else {
      NumberSpanOfLiteral(s[1..], k);
      assert (s + k)[1..] == s[1..] + k;
    }
  }

  predicate AllNumberChars(s: string) {
    forall i | 0 <= i < |s| :: IsNumberChar(s[i])
  }

  lemma LiteralChars(s: string)
    requires IsNumber(s)
    ensures s != [] && (IsDigit(s[0]) || s[0] == '-')
    ensures AllNumberChars(s)
  {
    if s[0] == '-' {
      MagnitudeChars(s[1..]);
      assert s == [s[0]] + s[1..];
    } else {
      MagnitudeChars(s);
    }
  }

  lemma MagnitudeChars(s: string)
    requires IsMagnitude(s)
    ensures s != [] && IsDigit(s[0]) && AllNumberChars(s)
  {
    var n := DigitSpan(s);
    FractionChars(s[n..]);
    assert s[0] == s[..n][0];
    forall i | 0 <= i < |s| ensures IsNumberChar(s[i]) {
      assert s[i] == if i < n then s[..n][i] else s[n..][i - n];
    }
  }

  lemma FractionChars(s: string)
    requires IsFraction(s)
    ensures AllNumberChars(s)
  {
    if s != [] && s[0] == '.' {
      var n := DigitSpan(s[1..]);
      assert s == [s[0]] + s[1..][..n] + s[1..][n..];
      ExponentChars(s[1..][n..]);
    } else {
      ExponentChars(s);
    }
  }

  lemma ExponentChars(s: string)
    requires IsExponent(s)
    ensures AllNumberChars(s)
  {
    if s != [] {
      var k := if |s| > 1 && (s[1] == '+' || s[1] == '-') then 2 else 1;
      assert s == s[..k] + s[k..];
    }
  }

  lemma NumberHead(s: string)
    requires s != [] && (IsDigit(s[0]) || s[0] == '-')
    ensures ParseValue(s) == ParseNumber(s)
  {
    assert SkipSpace(s) == s;
  }

  lemma ParseOfLiteral(literal: NumberLiteral, k: string)
    requires EndsValue(k)
    ensures ParseValue(literal + k) == Some((Number(literal), k))
  {
    LiteralChars(literal);
    NumberSpanOfLiteral(literal, k);
    var s := literal + k;
    assert s[0] == literal[0] && s[..|literal|] == literal && s[|literal|..] == k;
    NumberHead(s);
  }

  lemma HexOfNibble(d: nat)
    requires d < 16
    ensures HexValue(HEX[d]) == Some(d)
  {
  }

  lemma ParseOfEscapedChar(c: char, rest: string)
    ensures EscapeChar(c) != [] && EscapeChar(c)[0] != '\"'
    ensures ParseChar(EscapeChar(c) + rest) == Some((c, rest))
  {
    var s := EscapeChar(c) + rest;
    if c == '\"' || c == '\\' || c == '\n' || c == '\r' || c == '\t' {
      assert s[1..][1..] == rest;
    } else if c as int >= 0x20 {
      assert s[1..] == rest;
    } else {
      ParseOfControl(c, rest);
    }
  }

  lemma ParseOfControl(c: char, rest: string)
    requires c as int < 0x20
    ensures
      ParseChar(['\\', 'u', '0', '0', HEX[c as int / 16], HEX[c as int % 16]] + rest) == Some((c, rest))
  {
    HexOfNibble(c as int / 16);
    HexOfNibble(c as int % 16);
    var hex := ['0', '0', HEX[c as int / 16], HEX[c as int % 16]] + rest;
    var s := ['\\', 'u', '0', '0', HEX[c as int / 16], HEX[c as int % 16]] + rest;
    assert s[1..][1..] == hex && hex[4..] == rest;
    assert Hex4(hex) == Some(c as nat);
  }

  lemma {:induction false} ParseOfEscapedText(text: string, k: string)
    ensures ParseText(Escape(text) + "\"" + k) == Some((text, k))
  {
    var s := Escape(text) + "\"" + k;
    if text == [] {
      assert s == "\"" + k;
    } else {
      var rest := Escape(text[1..]) + "\"" + k;
      assert s == EscapeChar(text[0]) + rest;
      ParseOfEscapedChar(text[0], rest);
      ParseOfEscapedText(text[1..], k);
      assert text == [text[0]] + text[1..];
    }
  }

  lemma ParseOfText(text: string, k: string)
    ensures ParseValue(RenderText(text) + k) == Some((Text(text), k))
  {
    var s := RenderText(text) + k;
    assert s == "\"" + (Escape(text) + "\"" + k);
    assert SkipSpace(s) == s && s[1..] == Escape(text) + "\"" + k;
    ParseOfEscapedText(text, k);
  }

  lemma ParseOfWord(j: Json, k: string)
    requires j.Null? || j.Bool?
    ensures ParseValue(Render(j) + k) == Some((j, k))
  {
    var s := Render(j) + k;
    assert s[0] == Render(j)[0] && s[|Render(j)|..] == k;
    assert s[..|Render(j)|] == Render(j);
  }

  lemma RenderHead(j: Json)
    ensures Render(j) != [] && !IsSpace(Render(j)[0]) && Render(j)[0] != ']'
  {
    match j
    case Number(literal) => LiteralChars(literal);
    case Bool(flag) => assert Render(j)[0] == if flag then 't' else 'f';
    case _ =>
  }

  lemma SkipNoSpace(c: char, k: string)
    requires !IsSpace(c)
    ensures SkipSpace([c] + k) == [c] + k && ([c] + k)[0] == c && ([c] + k)[1..] == k
  {
  }

  lemma SplitAt<T>(s: seq<T>, i: nat)
    requires i < |s|
    ensures s[i..] == [s[i]] + s[i + 1..]
  {
  }

  // One step of each list parser, on the pieces the step finds.

  lemma ArrayStep(inside: string, items: seq<Json>, k: string)
    requires if items == [] then inside == [']'] + k
             else ParseItems(inside) == Some((items, k)) && inside != [] && !IsSpace(inside[0]) && inside[0] != ']'
    ensures ParseValue(['['] + inside) == Some((Array(items), k))
  {
    SkipNoSpace('[', inside);
    SkipNoSpace(']', k);
  }

  lemma ObjectStep(inside: string, fields: seq<Field>, k: string)
    requires if fields == [] then inside == ['}'] + k
             else ParseFields(inside) == Some((fields, k)) && inside != [] && inside[0] == '\"'
    ensures ParseValue(['{'] + inside) == Some((Object(fields), k))
  {
    SkipNoSpace('{', inside);
    SkipNoSpace('}', k);
  }

  lemma ItemsStep(s: string, head: Json, rest: string, items: seq<Json>, k: string)
    requires ParseValue(s) == Some((head, rest))
    requires if items == [] then rest == [']'] + k
             else rest != [] && rest[0] == ',' && ParseItems(rest[1..]) == Some((items, k))
    ensures ParseItems(s) == Some(([head] + items, k))
  {
    SkipNoSpace(']', k);
    assert [head] + [] == [head];
  }

  lemma FieldsStep(s: string, head: Field, rest: string, fields: seq<Field>, k: string)
    requires ParseField(s) == Some((head, rest))
    requires if fields == [] then rest == ['}'] + k
             else rest != [] && rest[0] == ',' && ParseFields(rest[1..]) == Some((fields, k))
    ensures ParseFields(s) == Some(([head] + fields, k))
  {
    SkipNoSpace('}', k);
    assert [head] + [] == [head];
  }

  lemma FieldStep(inside: string, field: Field, value: string, k: string)
    requires ParseText(inside) == Some((field.name, [':'] + value))
    requires ParseValue(value) == Some((field.value, k))
    ensures ParseField(['\"'] + inside) == Some((field, k))
  {
    SkipNoSpace('\"', inside);
    SkipNoSpace(':', value);
  }

  /** Parsing the rendering of any value yields that value and leaves the continuation untouched. */
  lemma {:induction false} ParseOfRender(j: Json, k: string)
    requires EndsValue(k)
    ensures ParseValue(Render(j) + k) == Some((j, k))
    decreases j, 0
  {
    match j
    case Null => ParseOfWord(j, k);
    case Bool(_) => ParseOfWord(j, k);
    case Number(literal) => ParseOfLiteral(literal, k);
    case Text(text) => ParseOfText(text, k);
    case Array(items) => ParseOfArray(items, k);
    case Object(fields) => ParseOfObject(fields, k);
  }

  lemma {:induction false} ParseOfArray(items: seq<Json>, k: string)
    ensures ParseValue(Render(Array(items)) + k) == Some((Array(items), k))
    decreases items, |items| + 1
  {
    var inside := RenderItems(items, 0) + ([']'] + k);
    assert Render(Array(items)) + k == ['['] + inside;
    if items == [] {
      assert inside == [']'] + k;
    } else {
      ItemsUnfold(items, 0, [']'] + k);
      ParseOfItems(items, 0, k);
    }
    ArrayStep(inside, items, k);
  }

  lemma {:induction false} ParseOfObject(fields: seq<Field>, k: string)
    ensures ParseValue(Render(Object(fields)) + k) == Some((Object(fields), k))
    decreases fields, |fields| + 1
  {
    var inside := RenderFields(fields, 0) + (['}'] + k);
    assert Render(Object(fields)) + k == ['{'] + inside;
    if fields == [] {
      assert inside == ['}'] + k;
    } else {
      FieldsUnfold(fields, 0, ['}'] + k);
      ParseOfFields(fields, 0, k);
    }
    ObjectStep(inside, fields, k);
  }

  lemma Regroup(separator: string, head: string, tail: string, k: string)
    requires head != []
    ensures
      var s := separator + head + tail + k;
      && s[|separator|..] == head + (tail + k)
      && s[0] == (separator + head + tail)[0] == (if separator == [] then head[0] else separator[0])
  {
  }

  lemma ItemsUnfold(items: seq<Json>, i: nat, k: string)
    requires i < |items|
    ensures
      var s := RenderItems(items, i) + k;
      && s != []
      && (if i > 0 then s[1..] else s) == Render(items[i]) + (RenderItems(items, i + 1) + k)
      && s[0] == RenderItems(items, i)[0]
      && if i > 0 then s[0] == ',' else !IsSpace(s[0]) && s[0] != ']'
  {
    RenderHead(items[i]);
    Regroup(if i > 0 then "," else "", Render(items[i]), RenderItems(items, i + 1), k);
  }

  lemma {:induction false} ParseOfItems(items: seq<Json>, i: nat, k: string)
    requires i < |items|
    ensures
      ParseItems(Render(items[i]) + (RenderItems(items, i + 1) + ([']'] + k))) == Some((items[i..], k))
    decreases items, |items| - i
  {
    var rest := RenderItems(items, i + 1) + ([']'] + k);
    SplitAt(items, i);
    if i + 1 == |items| {
      assert rest == [']'] + k;
    } else {
      ItemsUnfold(items, i + 1, [']'] + k);
      ParseOfItems(items, i + 1, k);
    }
    ParseOfRender(items[i], rest);
    ItemsStep(Render(items[i]) + rest, items[i], rest, items[i + 1..], k);
  }

  lemma FieldText(name: string, value: string, k: string)
    ensures
      var s := "\"" + name + "\"" + ":" + value;
      s + k == ['\"'] + (name + "\"" + ([':'] + (value + k))) && s[0] == '\"'
  {
  }

  lemma {:induction false} ParseOfField(field: Field, k: string)
    requires EndsValue(k)
    ensures ParseField(RenderField(field) + k) == Some((field, k))
    ensures RenderField(field)[0] == '\"'
    decreases field, 0
  {
    var value := Render(field.value);
    FieldText(Escape(field.name), value, k);
    ParseOfEscapedText(field.name, [':'] + (value + k));
    ParseOfRender(field.value, k);
    FieldStep(Escape(field.name) + "\"" + ([':'] + (value + k)), field, value + k, k);
  }

  lemma FieldsUnfold(fields: seq<Field>, i: nat, k: string)
    requires i < |fields|
    ensures
      var s := RenderFields(fields, i) + k;
      && s != []
      && (if i > 0 then s[1..] else s) == RenderField(fields[i]) + (RenderFields(fields, i + 1) + k)
      && s[0] == RenderFields(fields, i)[0] == if i > 0 then ',' else '\"'
  {
    assert RenderField(fields[i])[0] == '\"';
    Regroup(if i > 0 then "," else "", RenderField(fields[i]), RenderFields(fields, i + 1), k);
  }

  lemma {:induction false} ParseOfFields(fields: seq<Field>, i: nat, k: string)
    requires i < |fields|
    ensures
      ParseFields(RenderField(fields[i]) + (RenderFields(fields, i + 1) + (['}'] + k))) == Some((fields[i..], k))
    decreases fields, |fields| - i
  {
    var rest := RenderFields(fields, i + 1) + (['}'] + k);
    SplitAt(fields, i);
    if i + 1 == |fields| {
      assert rest == ['}'] + k;
    } else {
      FieldsUnfold(fields, i + 1, ['}'] + k);
      ParseOfFields(fields, i + 1, k);
    }
    ParseOfField(fields[i], rest);
    FieldsStep(RenderField(fields[i]) + rest, fields[i], rest, fields[i + 1..], k);
  }

  /** A rendered value is a JSON text of its own, and of no other value. */
  lemma RenderParses(j: Json)
    ensures ParseJson(Render(j)) == Some(j)
  {
    ParseOfRender(j, []);
    assert Render(j) + [] == Render(j);
  }

  lemma RenderIsInjective(a: Json, b: Json)
    ensures Render(a) == Render(b) <==> a == b
  {
    RenderParses(a);
    RenderParses(b);
  }
}
