/** The benchmark's message body: two fields the consumer reads, padded with fields it ignores until
    the JSON text is exactly the size asked for. */
module Padding {
  import opened Wrappers
  import Decimal
  import HeaderText
  import opened Json

  const PAD_WIDTH: nat := 16
  const U32_RANGE: nat := 0x1_0000_0000

  const START: string := "{\"id\":1000000,\"quantity\":37"

  /** The text that starts one padding field and closes its empty value. */
  function Key(field: nat): (key: string)
    ensures |key| == 7 + |Decimal.ToText(field)|
  {
    ",\"f" + Decimal.ToText(field) + "\":\"\""
  }

  function Pad(width: nat): (pad: string)
    ensures |pad| == width
  {
    seq(width, i => 'x')
  }

  function Base(): (fields: seq<Field>)
    ensures |fields| == 2
  {
    [Field("id", Number(Digits(1_000_000))), Field("quantity", Number(Digits(37)))]
  }

  function Digits(n: nat): NumberLiteral {
    DigitsAreNumber(n);
    Decimal.ToText(n)
  }

  function PadField(field: nat, width: nat): Field {
    Field("f" + Decimal.ToText(field), Text(Pad(width)))
  }

  lemma DigitsAreNumber(n: nat)
    ensures IsNumber(Decimal.ToText(n))
  {
    HeaderText.IntegerIsNumber(n);
  }

  predicate IsPlain(c: char) {
    c as int >= 0x20 && c != '\"' && c != '\\'
  }

  lemma {:induction false} PlainEscapes(s: string)
    requires forall i | 0 <= i < |s| :: IsPlain(s[i])
    ensures Escape(s) == s
  {
    if s != [] {
      PlainEscapes(s[1..]);
    }
  }

  lemma {:induction false} FieldsOneMore(fields: seq<Field>, field: Field, i: nat)
    requires fields != [] && i <= |fields|
    ensures RenderFields(fields + [field], i) == RenderFields(fields, i) + "," + RenderField(field)
    decreases |fields| - i
  {
    hide RenderField;
    if i < |fields| {
      FieldsOneMore(fields, field, i + 1);
      var comma := if i > 0 then "," else "";
      Regrouped(comma, RenderField(fields[i]), RenderFields(fields, i + 1), RenderField(field));
    } else {
      assert RenderFields(fields + [field], i + 1) == "";
    }
  }

  lemma Regrouped(comma: string, head: string, tail: string, last: string)
    ensures comma + head + (tail + "," + last) == comma + head + tail + "," + last
  {
  }

  /** What one turn of the loop writes is the comma and the field. */
  lemma WritesField(field: nat, width: nat)
    ensures Key(field)[..|Key(field)| - 1] + Pad(width) + "\"" == "," + RenderField(PadField(field, width))
  {
    var digits := Decimal.ToText(field);
    PlainEscapes("f" + digits);
    PlainEscapes(Pad(width));
    Spliced(digits, Pad(width));
  }

  lemma Spliced(digits: string, pad: string)
    ensures var key := ",\"f" + digits + "\":\"\"";
            key[..|key| - 1] + pad + "\"" == "," + (("\"" + ("f" + digits) + "\"") + ":" + ("\"" + pad + "\""))
  {
    var key := ",\"f" + digits + "\":\"\"";
    assert key[..|key| - 1] == ",\"f" + digits + "\":\"";
  }

  lemma FixedDigits()
    ensures Decimal.ToText(37) == "37" && Decimal.ToText(1_000_000) == "1000000"
  {
    assert Decimal.ToText(1) == "1";
    assert Decimal.ToText(10) == "10";
    assert Decimal.ToText(100) == "100";
    assert Decimal.ToText(1000) == "1000";
    assert Decimal.ToText(10_000) == "10000";
    assert Decimal.ToText(100_000) == "100000";
  }

  lemma FieldIs(name: string, n: nat)
    requires forall i | 0 <= i < |name| :: IsPlain(name[i])
    ensures RenderField(Field(name, Number(Digits(n)))) == "\"" + name + "\":" + Decimal.ToText(n)
  {
    PlainEscapes(name);
    Quoted(name, Decimal.ToText(n));
  }

  lemma Quoted(name: string, digits: string)
    ensures ("\"" + name + "\"") + ":" + digits == "\"" + name + "\":" + digits
  {
  }

  lemma TwoFields(a: Field, b: Field)
    ensures RenderFields([a, b], 0) == RenderField(a) + "," + RenderField(b)
  {
    hide RenderField;
    assert RenderFields([a, b], 2) == "";
    assert RenderFields([a, b], 1) == "," + RenderField(b) + "";
  }

  lemma IdField()
    ensures RenderField(Base()[0]) == "\"id\":1000000"
  {
    hide Escape, RenderText, Render, RenderField, Decimal.ToText, Digits, IsPlain;
    FixedDigits();
    PlainName("id");
    FieldIs("id", 1_000_000);
  }

  lemma QuantityField()
    ensures RenderField(Base()[1]) == "\"quantity\":37"
  {
    hide Escape, RenderText, Render, RenderField, Decimal.ToText, Digits, IsPlain;
    FixedDigits();
    PlainName("quantity");
    FieldIs("quantity", 37);
  }

  lemma PlainName(name: string)
    requires name == "id" || name == "quantity"
    ensures forall i | 0 <= i < |name| :: IsPlain(name[i])
  {
  }

  lemma StartIs()
    ensures START == "{" + RenderFields(Base(), 0) && |START| == 27
  {
    IdField();
    QuantityField();
    hide RenderField, RenderFields, Decimal.ToText, Base;
    TwoFields(Base()[0], Base()[1]);
    assert Base() == [Base()[0], Base()[1]];
  }

  /** The next key is at most one byte longer, and shorter only where the counter wraps. */
  lemma NextKey(field: nat)
    requires field < U32_RANGE
    ensures |Key((field + 1) % U32_RANGE)| <= |Key(field)| + 1
    ensures field + 1 < U32_RANGE ==> |Key(field)| <= |Key(field + 1)|
  {
    if field + 1 < U32_RANGE {
      NextDigits(field);
    }
  }

  lemma {:induction false} NextDigits(n: nat)
    ensures |Decimal.ToText(n)| <= |Decimal.ToText(n + 1)| <= |Decimal.ToText(n)| + 1
  {
    if n >= 10 {
      NextDigits(n / 10);
    }
  }

  /** A field the consumer does not read. */
  predicate IsIgnored(field: Field) {
    field.name != "id" && field.name != "quantity" && field.value.Text?
  }

  ghost predicate IsBody(body: string, fields: seq<Field>) {
    && body == "{" + RenderFields(fields, 0) && START <= body
    && Base() <= fields && forall i | 2 <= i < |fields| :: IsIgnored(fields[i])
  }

  /** The text with one more padding field. */
  function Padded(text: string, key: string, width: nat): (r: string)
    requires key != ""
    ensures |r| == |text| + |key| + width
  {
    text + key[..|key| - 1] + Pad(width) + "\""
  }

  lemma BodyGrows(body: string, fields: seq<Field>, field: nat, width: nat)
    requires IsBody(body, fields)
    ensures IsBody(Padded(body, Key(field), width), fields + [PadField(field, width)])
  {
    hide RenderFields, RenderField, Base, Key;
    assert PadField(field, width).name[0] == 'f';
    FieldsOneMore(fields, PadField(field, width), 0);
    WritesField(field, width);
    var key := Key(field);
    Rejoined(
      body, key[..|key| - 1], Pad(width), RenderFields(fields, 0), RenderField(PadField(field, width)));
  }

  lemma Rejoined(body: string, key: string, pad: string, fields: string, last: string)
    requires body == "{" + fields && key + pad + "\"" == "," + last
    ensures body + key + pad + "\"" == "{" + (fields + "," + last)
  {
    assert body + key + pad + "\"" == body + (key + pad + "\"");
  }

  lemma Starts()
    ensures IsBody(START, Base()) && |START| == 27
  {
    StartIs();
  }

  lemma Closes(body: string, fields: seq<Field>)
    requires IsBody(body, fields)
    ensures Base() <= fields && body + "}" == Render(Object(fields)) && START <= body
    ensures forall i | 2 <= i < |fields| :: IsIgnored(fields[i])
  {
  }

  /** The body of `size` bytes, or nothing where the final assertion stops the program: exactly for the
      sizes too small to hold a padding field, other than the one that needs none. The body is the
      JSON object of the two fields and the padding. */
  method JsonBody(size: nat) returns (body: Option<string>)
    ensures body.Some? <==> size == 28 || size >= 36
    ensures body.Some? ==> |body.value| == size
    ensures body.Some? ==> "{\"id\":1000000,\"quantity\":37" <= body.value
    ensures body.Some? ==>
              exists fields :: Base() <= fields && body.value == Render(Object(fields)) &&
                  forall i | 2 <= i < |fields| :: IsIgnored(fields[i])
  {
    var text := START;
    ghost var fields := Base();
    var field: nat := 0;
    Starts();
    hide IsBody, Key, START, Base, RenderFields, Decimal.ToText, Pad, Padded;
    while true
      invariant IsBody(text, fields) && field < U32_RANGE
      invariant (|text| == 27 && field == 0) || |text| + 1 == size || |text| + |Key(field)| + 1 <= size
      invariant |text| == 27 || size >= 36
      decreases size - |text|
    {
      var key := Key(field);
      if size < |text| + |key| + 1 {
        break;
      }
      var room := size - (|text| + |key| + 1);
      var width := if room > PAD_WIDTH + |key| then PAD_WIDTH else room;
      BodyGrows(text, fields, field, width);
      NextKey(field);
      text := Padded(text, key, width);
      fields := fields + [PadField(field, width)];
      field := (field + 1) % U32_RANGE;
    }
    Closes(text, fields);
    text := text + "}";
    if |text| != size {
      return None;
    }
    return Some(text);
  }
}
