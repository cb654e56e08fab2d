/** How the typed values of a header table become the untyped bytes of a header: byte strings are left
    alone, scalars are spelled out in decimal, and arrays and tables are written as compact JSON. */
module HeaderText {
  import opened Wrappers
  import opened Utf8
  import opened Amqp
  import Decimal
  import Json

  // What the text means.

  /** The JSON value an AMQP value is rendered as: its type is forgotten, its content is not. */
  function Erase(value: AmqpValue): Json.Json
    decreases value, 0
  {
    match value
    case Boolean(flag) => Json.Bool(flag)
    case Timestamp(seconds) => Integer(seconds)
    case DecimalValue(scale, n) => DecimalIsNumber(n, scale); Json.Number(DecimalText(n, scale))
    case FloatValue(float) => EraseFloat(float)
    case DoubleValue(double) => EraseFloat(double)
    case LongString(text) => EraseBytes(text)
    case ShortStringValue(text) => Json.Text(text)
    case ByteArray(bytes) => EraseBytes(bytes)
    case Void => Json.Null
    case FieldArray(values) => Json.Array(EraseAll(values))
    case FieldTable(table) => Json.Object(EraseFields(table))
    case _ => Integer(IntegerOf(value).value)
  }

  function EraseAll(values: seq<AmqpValue>): (r: seq<Json.Json>)
    ensures |r| == |values|
    ensures forall i | 0 <= i < |values| :: r[i] == Erase(values[i])
    decreases values, 0
  {
    if values == [] then [] else [Erase(values[0])] + EraseAll(values[1..])
  }

  function EraseFields(table: Table): (r: seq<Json.Field>)
    ensures |r| == |table|
    ensures forall i | 0 <= i < |table| :: r[i] == Json.Field(table[i].name, Erase(table[i].value))
    decreases table, 0
  {
    if table == [] then []
    else [Json.Field(table[0].name, Erase(table[0].value))] + EraseFields(table[1..])
  }

  function Integer(n: int): Json.Json {
    IntegerIsNumber(n);
    Json.Number(Decimal.IntToText(n))
  }

  function EraseFloat(float: Float): Json.Json {
    if float.Finite? then Json.Number(float.shown) else Json.Text(float.Show())
  }

  /** Text when the bytes are UTF-8, and the array of their values when they are not. */
  function EraseBytes(bytes: Bytes): Json.Json {
    match Decode(bytes)
    case Some(text) => Json.Text(text)
    case None => Json.Array(ByteNumbers(bytes))
  }

  function ByteNumbers(bytes: Bytes): (r: seq<Json.Json>)
    ensures |r| == |bytes|
    ensures forall i | 0 <= i < |bytes| :: r[i] == Integer(bytes[i])
  {
    if bytes == [] then [] else [Integer(bytes[0])] + ByteNumbers(bytes[1..])
  }

  /** The decimal literal of `n` over ten to the power `scale`; 5 at scale 3 gives `0.005`. */
  function DecimalText(n: nat, scale: nat): string {
    Pointed(Decimal.ToText(n), scale)
  }

  /** The digits with the point `scale` places from the right. */
  function Pointed(digits: string, scale: nat): string {
    if scale == 0 then digits
    else if |digits| > scale then digits[..|digits| - scale] + "." + digits[|digits| - scale..]
    else "0." + Zeros(scale - |digits|) + digits
  }

  function Zeros(k: nat): (s: string)
    ensures |s| == k
    ensures Decimal.AllDigits(s) && Decimal.Value(s) == 0
  {
    if k == 0 then "" else Zeros(k - 1) + "0"
  }

  /** The bytes `value` reaches a handler as. */
  function Arrives(value: AmqpValue): Bytes {
    match value
    case LongString(text) => text
    case ShortStringValue(text) => Encode(text)
    case ByteArray(bytes) => bytes
    case Void => []
    case FloatValue(float) => Encode(float.Show())
    case DoubleValue(double) => Encode(double.Show())
    case _ => Encode(Json.Render(Erase(value)))
  }

  // Numbers.

  lemma {:induction false} DigitSpanOfDigits(s: string, k: string)
    requires Decimal.AllDigits(s)
    requires k != [] ==> !Decimal.IsDigit(k[0])
    ensures Json.DigitSpan(s + k) == |s|
  {
    if s == [] {
      assert s + k == k;
    } else {
      DigitSpanOfDigits(s[1..], k);
      assert (s + k)[1..] == s[1..] + k;
    }
  }

  lemma IntegerIsNumber(n: int)
    ensures Json.IsNumber(Decimal.IntToText(n))
  {
    var digits := Decimal.ToText(if n < 0 then -n else n);
    DigitSpanOfDigits(digits, []);
    assert digits + [] == digits;
    assert ("-" + digits)[1..] == digits;
  }

  /** The whole and the fraction of the text `DecimalText` builds for a scale above zero. */
  ghost predicate Splits(text: string, whole: string, fraction: string) {
    && text == whole + "." + fraction
    && whole != [] && Decimal.AllDigits(whole) && (whole[0] == '0' ==> |whole| == 1)
    && fraction != [] && Decimal.AllDigits(fraction)
  }

  lemma SplitIsNumber(text: string, whole: string, fraction: string)
    requires Splits(text, whole, fraction)
    ensures Json.IsNumber(text) && Json.DigitSpan(text) == |whole|
  {
    assert text == whole + ("." + fraction);
    DigitSpanOfDigits(whole, "." + fraction);
    DigitSpanOfDigits(fraction, []);
    assert fraction + [] == fraction;
    var rest := text[|whole|..];
    assert rest == "." + fraction && rest[1..] == fraction;
  }

  lemma DecimalSplits(n: nat, scale: nat) returns (whole: string, fraction: string)
    requires scale > 0
    ensures Splits(DecimalText(n, scale), whole, fraction)
    ensures |fraction| == scale && Weighs(whole, fraction, n)
  {
    var digits := Decimal.ToText(n);
    if |digits| > scale {
      whole, fraction := digits[..|digits| - scale], digits[|digits| - scale..];
      SplitInside(n, whole, fraction);
    } else {
      whole, fraction := "0", Zeros(scale - |digits|) + digits;
      SplitBefore(n, Zeros(scale - |digits|), digits);
    }
  }

  lemma SplitInside(n: nat, whole: string, fraction: string)
    requires whole + fraction == Decimal.ToText(n) && whole != [] && fraction != []
    ensures Splits(whole + "." + fraction, whole, fraction) && Weighs(whole, fraction, n)
  {
    var digits := Decimal.ToText(n);
    assert whole == digits[..|whole|] && fraction == digits[|whole|..];
    Decimal.ValueOfText(n);
    Decimal.ValueOfConcat(whole, fraction);
    Weight(whole, fraction, n);
  }

  lemma SplitBefore(n: nat, zeros: string, digits: string)
    requires digits == Decimal.ToText(n)
    requires Decimal.AllDigits(zeros) && Decimal.Value(zeros) == 0
    ensures Splits("0." + zeros + digits, "0", zeros + digits) && Weighs("0", zeros + digits, n)
  {
    Decimal.ValueOfText(n);
    Decimal.ValueOfConcat(zeros, digits);
    PointAfterZero(zeros, digits);
    Weight("0", zeros + digits, n);
  }

  /** The two digit runs around the point denote `n` over ten to the number of fraction digits. */
  ghost predicate Weighs(whole: string, fraction: string, n: nat)
    requires Decimal.AllDigits(whole) && Decimal.AllDigits(fraction)
  {
    Decimal.Value(whole) as real + Decimal.Value(fraction) as real / Decimal.Pow10(|fraction|) as real
    == n as real / Decimal.Pow10(|fraction|) as real
  }

  lemma Weight(whole: string, fraction: string, n: nat)
    requires Decimal.AllDigits(whole) && Decimal.AllDigits(fraction)
    requires Decimal.Value(whole) * Decimal.Pow10(|fraction|) + Decimal.Value(fraction) == n
    ensures Weighs(whole, fraction, n)
  {
    Fraction(Decimal.Value(whole), Decimal.Value(fraction), Decimal.Pow10(|fraction|), n);
  }

  lemma Fraction(whole: nat, fraction: nat, ten: nat, n: nat)
    requires ten > 0 && whole * ten + fraction == n
    ensures whole as real + fraction as real / ten as real == n as real / ten as real
  {
    assert (whole * ten) as real == whole as real * ten as real;
  }

  lemma PointAfterZero(zeros: string, digits: string)
    ensures "0." + zeros + digits == "0" + "." + (zeros + digits)
    ensures Decimal.AllDigits("0") && Decimal.Value("0") == 0
  {
  }

  lemma DecimalIsNumber(n: nat, scale: nat)
    ensures Json.IsNumber(DecimalText(n, scale))
  {
    if scale == 0 {
      IntegerIsNumber(n);
    } else {
      var whole, fraction := DecimalSplits(n, scale);
      SplitIsNumber(DecimalText(n, scale), whole, fraction);
    }
  }

  /** An unsigned literal without an exponent. */
  predicate IsPlain(s: string) {
    var n := Json.DigitSpan(s);
    n < |s| ==> s[n] == '.' && Decimal.AllDigits(s[n + 1..])
  }

  /** The digits after the point of a plain literal. */
  function FractionDigits(s: string): nat {
    var n := Json.DigitSpan(s);
    if n < |s| then |s| - n - 1 else 0
  }

  /** The exact value a plain literal denotes. */
  function Denotes(s: string): real
    requires IsPlain(s)
  {
    var n := Json.DigitSpan(s);
    if n == |s| then Decimal.Value(s[..n]) as real
    else Decimal.Value(s[..n]) as real + Decimal.Value(s[n + 1..]) as real / Decimal.Pow10(FractionDigits(s)) as real
  }

  lemma SplitIsPlain(text: string, whole: string, fraction: string)
    requires Splits(text, whole, fraction) && Json.DigitSpan(text) == |whole|
    ensures IsPlain(text) && FractionDigits(text) == |fraction| && '.' in text
    ensures
      Denotes(text) ==
      Decimal.Value(whole) as real + Decimal.Value(fraction) as real / Decimal.Pow10(|fraction|) as real
  {
    assert text[|whole|] == '.' && text[..|whole|] == whole && text[|whole| + 1..] == fraction;
  }

  lemma DigitsArePlain(digits: string)
    requires Decimal.AllDigits(digits)
    ensures Json.DigitSpan(digits) == |digits| && IsPlain(digits) && '.' !in digits
    ensures Denotes(digits) == Decimal.Value(digits) as real
  {
    DigitSpanOfDigits(digits, []);
    assert digits + [] == digits && digits[..|digits|] == digits;
  }

  lemma DecimalShape(n: nat, scale: nat)
    ensures IsPlain(DecimalText(n, scale)) && FractionDigits(DecimalText(n, scale)) == scale
    ensures ('.' in DecimalText(n, scale)) == (scale > 0)
  {
    if scale == 0 {
      DigitsArePlain(Decimal.ToText(n));
    } else {
      var whole, fraction := DecimalSplits(n, scale);
      SplitIsNumber(DecimalText(n, scale), whole, fraction);
      SplitIsPlain(DecimalText(n, scale), whole, fraction);
    }
  }

  lemma WholeDenotes(n: nat)
    requires IsPlain(DecimalText(n, 0))
    ensures Denotes(DecimalText(n, 0)) == n as real / Decimal.Pow10(0) as real
  {
    hide Decimal.ToText;
    DigitsArePlain(Decimal.ToText(n));
    Decimal.ValueOfText(n);
  }

  lemma ScaledDenotes(n: nat, scale: nat)
    requires scale > 0 && IsPlain(DecimalText(n, scale))
    ensures Denotes(DecimalText(n, scale)) == n as real / Decimal.Pow10(scale) as real
  {
    var whole, fraction := DecimalSplits(n, scale);
    SplitIsNumber(DecimalText(n, scale), whole, fraction);
    SplitIsPlain(DecimalText(n, scale), whole, fraction);
  }

  /** The decimal text is a JSON number with exactly `scale` fraction digits, and denotes the exact
      rational it stands for. */
  lemma DecimalIsExact(n: nat, scale: nat)
    ensures Json.IsNumber(DecimalText(n, scale)) && IsPlain(DecimalText(n, scale))
    ensures FractionDigits(DecimalText(n, scale)) == scale
    ensures ('.' in DecimalText(n, scale)) == (scale > 0)
    ensures Denotes(DecimalText(n, scale)) == n as real / Decimal.Pow10(scale) as real
  {
    DecimalIsNumber(n, scale);
    DecimalShape(n, scale);
    if scale == 0 {
      WholeDenotes(n);
    } else {
      ScaledDenotes(n, scale);
    }
  }

  // Writing.

  /** A string under construction. */
  class StringBuffer {
    var text: string

    constructor ()
      ensures text == ""
    {
      text := "";
    }

    method Push(c: char)
      modifies this
      ensures text == old(text) + [c]
    {
      text := text + [c];
    }

    method PushStr(s: string)
      modifies this
      ensures text == old(text) + s
    {
      text := text + s;
    }
  }

  method WriteInteger(out: StringBuffer, n: int)
    modifies out
    ensures out.text == old(out.text) + Json.Render(Integer(n))
  {
    out.PushStr(Decimal.IntToText(n));
  }

  method WriteDecimal(out: StringBuffer, n: U32, scale: Byte)
    modifies out
    ensures out.text == old(out.text) + DecimalText(n, scale)
  {
    hide Zeros, Decimal.ToText;
    var digits := Decimal.ToText(n);
    if scale == 0 {
      out.PushStr(digits);
      return;
    }
    ghost var before := out.text;
    if |digits| > scale {
      var split := |digits| - scale;
      out.PushStr(digits[..split]);
      out.Push('.');
      out.PushStr(digits[split..]);
      Concat3(before, digits[..split], ".", digits[split..]);
    } else {
      out.PushStr("0.");
      out.PushStr(Zeros(scale - |digits|));
      out.PushStr(digits);
      Concat3(before, "0.", Zeros(scale - |digits|), digits);
    }
  }

  lemma Concat3(before: string, a: string, b: string, c: string)
    ensures before + a + b + c == before + (a + b + c)
  {
  }

  /** One more character written: what is written and what is left still make up `total`. */
  lemma CharWritten(before: string, text: string, i: nat, total: string)
    requires i < |text| && before + Json.Escape(text[i..]) == total
    ensures before + Json.EscapeChar(text[i]) + Json.Escape(text[i + 1..]) == total
  {
    assert text[i..][1..] == text[i + 1..];
  }

  method WriteJsonString(out: StringBuffer, text: string)
    modifies out
    ensures out.text == old(out.text) + Json.RenderText(text)
  {
    ghost var total := out.text + "\"" + Json.Escape(text);
    out.Push('\"');
    assert text[0..] == text;
    for i := 0 to |text|
      invariant out.text + Json.Escape(text[i..]) == total
    {
      CharWritten(out.text, text, i, total);
      WriteJsonChar(out, text[i]);
    }
    assert out.text == total;
    out.Push('\"');
    Concat3(old(out.text), "\"", Json.Escape(text), "\"");
  }

  method WriteJsonChar(out: StringBuffer, c: char)
    modifies out
    ensures out.text == old(out.text) + Json.EscapeChar(c)
  {
    match c
    case '\"' => out.PushStr("\\\"");
    case '\\' => out.PushStr("\\\\");
    case '\n' => out.PushStr("\\n");
    case '\r' => out.PushStr("\\r");
    case '\t' => out.PushStr("\\t");
    case _ =>
      if c as int < 0x20 {
        out.PushStr(['\\', 'u', '0', '0', Json.HEX[c as int / 16], Json.HEX[c as int % 16]]);
      } else {
        out.Push(c);
      }
  }

  method WriteJsonFloat(out: StringBuffer, float: Float)
    modifies out
    ensures out.text == old(out.text) + Json.Render(EraseFloat(float))
  {
    if float.Finite? {
      out.PushStr(float.Show());
    } else {
      WriteJsonString(out, float.Show());
    }
  }

  /** One more item written after its separator: written and left still make up `total`. */
  lemma ItemWritten(before: string, items: seq<Json.Json>, i: nat, total: string)
    requires i < |items| && before + Json.RenderItems(items, i) == total
    ensures (if i > 0 then before + [','] else before) + Json.Render(items[i]) + Json.RenderItems(items, i + 1) == total
  {
    var separator := if i > 0 then "," else "";
    Concat3(before, separator, Json.Render(items[i]), Json.RenderItems(items, i + 1));
    assert before + "" == before;
  }

  lemma ListWritten(before: string, inside: string, open: char, close: char)
    ensures before + [open] + inside + [close] == before + ([open] + inside + [close])
  {
  }

  method WriteJsonBytes(out: StringBuffer, bytes: Bytes)
    modifies out
    ensures out.text == old(out.text) + Json.Render(EraseBytes(bytes))
  {
    var decoded := Decode(bytes);
    if decoded.Some? {
      WriteJsonString(out, decoded.value);
      return;
    }
    ghost var items := ByteNumbers(bytes);
    ghost var total := out.text + ['['] + Json.RenderItems(items, 0);
    out.Push('[');
    for i := 0 to |bytes|
      invariant out.text + Json.RenderItems(items, i) == total
    {
      ItemWritten(out.text, items, i, total);
      if i > 0 {
        out.Push(',');
      }
      WriteInteger(out, bytes[i]);
    }
    assert out.text == total;
    out.Push(']');
    ListWritten(old(out.text), Json.RenderItems(items, 0), '[', ']');
  }

  predicate IsScalar(value: AmqpValue) {
    value.Boolean? || value.Timestamp? || value.Void? || value.DecimalValue? || IntegerOf(value).Some?
  }

  method WriteScalar(out: StringBuffer, value: AmqpValue)
    requires IsScalar(value)
    modifies out
    ensures out.text == old(out.text) + Json.Render(Erase(value))
    ensures value.Boolean? ==> out.text == old(out.text) + if value.flag then "true" else "false"
    ensures value.Void? ==> out.text == old(out.text) + "null"
  {
    var integer := IntegerOf(value);
    if integer.Some? {
      WriteInteger(out, integer.value);
      return;
    }
    match value
    case Boolean(flag) => out.PushStr(if flag then "true" else "false");
    case Timestamp(seconds) => WriteInteger(out, seconds);
    case Void => out.PushStr("null");
    case DecimalValue(scale, n) => WriteDecimal(out, n, scale);
  }

  /** Writes `value` as a JSON value that means it: the compact rendering of its erasure. */
  method WriteJson(out: StringBuffer, value: AmqpValue)
    modifies out
    ensures out.text == old(out.text) + Json.Render(Erase(value))
    ensures exists j :: Means(value, j) && out.text == old(out.text) + Json.Render(j)
    decreases value, 0
  {
    hide Means;
    ErasureMeans(value);
    match value
    case FloatValue(float) => WriteJsonFloat(out, float);
    case DoubleValue(double) => WriteJsonFloat(out, double);
    case LongString(text) => WriteJsonBytes(out, text);
    case ShortStringValue(text) => WriteJsonString(out, text);
    case ByteArray(bytes) => WriteJsonBytes(out, bytes);
    case FieldArray(values) => WriteArray(out, values);
    case FieldTable(table) => WriteTable(out, table);
    case _ => WriteScalar(out, value);
  }

  method WriteArray(out: StringBuffer, values: seq<AmqpValue>)
    modifies out
    ensures out.text == old(out.text) + Json.Render(Json.Array(EraseAll(values)))
    decreases values, 1
  {
    ghost var items := EraseAll(values);
    ghost var total := out.text + ['['] + Json.RenderItems(items, 0);
    out.Push('[');
    for i := 0 to |values|
      invariant out.text + Json.RenderItems(items, i) == total
    {
      ItemWritten(out.text, items, i, total);
      if i > 0 {
        out.Push(',');
      }
      WriteJson(out, values[i]);
    }
    assert out.text == total;
    out.Push(']');
    ListWritten(old(out.text), Json.RenderItems(items, 0), '[', ']');
  }

  lemma FieldWritten(before: string, fields: seq<Json.Field>, i: nat, total: string)
    requires i < |fields| && before + Json.RenderFields(fields, i) == total
    ensures
      (if i > 0 then before + [','] else before)
      + Json.RenderText(fields[i].name) + [':'] + Json.Render(fields[i].value)
      + Json.RenderFields(fields, i + 1) == total
  {
    var separator := if i > 0 then "," else "";
    Concat3(before, separator, Json.RenderField(fields[i]), Json.RenderFields(fields, i + 1));
    Concat3(before + separator, Json.RenderText(fields[i].name), ":", Json.Render(fields[i].value));
    assert before + "" == before;
  }

  method WriteTable(out: StringBuffer, table: Table)
    modifies out
    ensures out.text == old(out.text) + Json.Render(Json.Object(EraseFields(table)))
    decreases table, 1
  {
    ghost var fields := EraseFields(table);
    ghost var total := out.text + ['{'] + Json.RenderFields(fields, 0);
    out.Push('{');
    for i := 0 to |table|
      invariant out.text + Json.RenderFields(fields, i) == total
    {
      FieldWritten(out.text, fields, i, total);
      if i > 0 {
        out.Push(',');
      }
      WriteJsonString(out, table[i].name);
      out.Push(':');
      WriteJson(out, table[i].value);
    }
    assert out.text == total;
    out.Push('}');
    ListWritten(old(out.text), Json.RenderFields(fields, 0), '{', '}');
  }

  method HeaderBytes(value: AmqpValue) returns (bytes: Bytes)
    ensures bytes == Arrives(value)
    ensures Tells(bytes, value)
  {
    hide Tells;
    HeaderTells(value);
    match value
    case LongString(text) => bytes := text;
    case ShortStringValue(text) => bytes := Encode(text);
    case ByteArray(raw) => bytes := raw;
    case Void => bytes := [];
    case FloatValue(float) => bytes := Encode(float.Show());
    case DoubleValue(double) => bytes := Encode(double.Show());
    case _ =>
      var text := new StringBuffer();
      WriteJson(text, value);
      assert text.text == Json.Render(Erase(value));
      bytes := Encode(text.text);
  }

  // What a reader gets back.

  /** Parsing what `WriteJson` wrote yields the value's erasure and nothing of what follows. */
  lemma {:induction false} WrittenParses(value: AmqpValue, k: string)
    requires Json.EndsValue(k)
    ensures Json.ParseValue(Json.Render(Erase(value)) + k) == Some((Erase(value), k))
  {
    Json.ParseOfRender(Erase(value), k);
  }

  /** Two values are written alike exactly when they erase to the same JSON value. */
  lemma {:induction false} WrittenAlike(a: AmqpValue, b: AmqpValue)
    ensures Json.Render(Erase(a)) == Json.Render(Erase(b)) <==> Erase(a) == Erase(b)
  {
    Json.RenderIsInjective(Erase(a), Erase(b));
  }

  /** A header that is neither a byte string, nor void, nor a float is the UTF-8 of a JSON text, and
      that text reads back as the value's erasure. */
  lemma HeaderReadsBack(value: AmqpValue)
    requires !value.LongString? && !value.ShortStringValue? && !value.ByteArray?
    requires !value.Void? && !value.FloatValue? && !value.DoubleValue?
    ensures Decode(Arrives(value)).Some?
    ensures Json.ParseJson(Decode(Arrives(value)).value) == Some(Erase(value))
  {
    DecodesIffEncodes(Arrives(value), Json.Render(Erase(value)));
    Json.RenderParses(Erase(value));
  }

  /** What a reader of the JSON value `j` is told of `value`, type by type. */
  ghost predicate Means(value: AmqpValue, j: Json.Json)
    decreases value
  {
    match value
    case Boolean(flag) => j == Json.Bool(flag)
    case ShortShortInt(n) => Spells(j, n)
    case ShortShortUInt(n) => Spells(j, n)
    case ShortInt(n) => Spells(j, n)
    case ShortUInt(n) => Spells(j, n)
    case LongInt(n) => Spells(j, n)
    case LongUInt(n) => Spells(j, n)
    case LongLongInt(n) => Spells(j, n)
    case Timestamp(seconds) => Spells(j, seconds)
    case DecimalValue(scale, n) =>
      && j.Number? && IsPlain(j.literal) && FractionDigits(j.literal) == scale
      && Denotes(j.literal) == n as real / Decimal.Pow10(scale) as real
    case FloatValue(float) => MeansFloat(float, j)
    case DoubleValue(double) => MeansFloat(double, j)
    case LongString(text) => MeansBytes(text, j)
    case ShortStringValue(text) => j == Json.Text(text)
    case ByteArray(bytes) => MeansBytes(bytes, j)
    case Void => j == Json.Null
    case FieldArray(values) =>
      && j.Array? && |j.items| == |values|
      && forall i | 0 <= i < |values| :: Means(values[i], j.items[i])
    case FieldTable(table) =>
      && j.Object? && |j.fields| == |table|
      && forall i | 0 <= i < |table| :: j.fields[i].name == table[i].name && Means(table[i].value, j.fields[i].value)
  }

  /** `j` is a number without point or exponent, whose sign and digits are those of `n`. */
  ghost predicate Spells(j: Json.Json, n: int) {
    && j.Number?
    && var digits := if n < 0 then j.literal[1..] else j.literal;
       (n < 0 ==> j.literal[0] == '-') && Decimal.AllDigits(digits) && Decimal.Value(digits) == if n < 0 then -n else n
  }

  /** A finite float is a number, and one that is not is text. */
  ghost predicate MeansFloat(float: Float, j: Json.Json) {
    match float
    case Finite(shown) => j == Json.Number(shown)
    case NaN => j == Json.Text("NaN")
    case Infinity => j == Json.Text("inf")
    case NegInfinity => j == Json.Text("-inf")
  }

  /** `j` is the text `bytes` encode, or the numbers of the bytes where they encode none. */
  ghost predicate MeansBytes(bytes: Bytes, j: Json.Json) {
    if j.Text? then Encode(j.text) == bytes
    else
      && j.Array? && |j.items| == |bytes|
      && (forall i | 0 <= i < |bytes| :: Spells(j.items[i], bytes[i]))
      && forall text :: Encode(text) != bytes
  }

  /** What a handler is told of `value` by the bytes of its header: byte strings are left alone, what
      is text in JSON or not there at all is bare, and the rest reads back as JSON that means it. */
  ghost predicate Tells(bytes: Bytes, value: AmqpValue) {
    match value
    case LongString(text) => bytes == text
    case ByteArray(raw) => bytes == raw
    case ShortStringValue(text) => Decode(bytes) == Some(text)
    case Void => bytes == []
    case FloatValue(float) => TellsFloat(bytes, float)
    case DoubleValue(double) => TellsFloat(bytes, double)
    case _ =>
      && Decode(bytes).Some? && Json.ParseJson(Decode(bytes).value).Some?
      && Means(value, Json.ParseJson(Decode(bytes).value).value)
  }

  ghost predicate TellsFloat(bytes: Bytes, float: Float) {
    match float
    case Finite(shown) => Decode(bytes) == Some(shown)
    case NaN => Decode(bytes) == Some("NaN")
    case Infinity => Decode(bytes) == Some("inf")
    case NegInfinity => Decode(bytes) == Some("-inf")
  }

  lemma IntegerSpells(n: int)
    ensures Spells(Integer(n), n)
  {
    var digits := Decimal.ToText(if n < 0 then -n else n);
    Decimal.ValueOfText(if n < 0 then -n else n);
    assert ("-" + digits)[1..] == digits;
  }

  lemma ErasedBytesMean(bytes: Bytes)
    ensures MeansBytes(bytes, EraseBytes(bytes))
  {
    hide Integer, Spells, Decode, Encode;
    if Decode(bytes).Some? {
      DecodesIffEncodes(bytes, Decode(bytes).value);
    } else {
      forall text ensures Encode(text) != bytes {
        DecodesIffEncodes(bytes, text);
      }
      forall i | 0 <= i < |bytes| ensures Spells(ByteNumbers(bytes)[i], bytes[i]) {
        IntegerSpells(bytes[i]);
      }
    }
  }

  /** The erasure of a value means it. */
  lemma {:induction false} ErasureMeans(value: AmqpValue)
    ensures Means(value, Erase(value))
    decreases value
  {
    hide Integer, Spells, MeansBytes, EraseBytes, DecimalText, Denotes, IsPlain, FractionDigits;
    var integer := IntegerOf(value);
    if integer.Some? {
      IntegerSpells(integer.value);
    }
    match value
    case DecimalValue(scale, n) => DecimalIsExact(n, scale);
    case Timestamp(seconds) => IntegerSpells(seconds);
    case LongString(text) => ErasedBytesMean(text);
    case ByteArray(bytes) => ErasedBytesMean(bytes);
    case FieldArray(values) =>
      forall i | 0 <= i < |values| ensures Means(values[i], EraseAll(values)[i]) {
        ErasureMeans(values[i]);
      }
    case FieldTable(table) =>
      forall i | 0 <= i < |table| ensures Means(table[i].value, EraseFields(table)[i].value) {
        ErasureMeans(table[i].value);
      }
    case _ =>
  }

  /** What was written parses, up to whatever follows it, to a JSON value that means what was given. */
  lemma WrittenMeans(value: AmqpValue, k: string)
    requires Json.EndsValue(k)
    ensures var read := Json.ParseValue(Json.Render(Erase(value)) + k);
            read.Some? && Means(value, read.value.0) && read.value.1 == k
  {
    ErasureMeans(value);
    WrittenParses(value, k);
  }

  lemma ShownDecodes(text: string)
    ensures Decode(Encode(text)) == Some(text)
  {
    DecodesIffEncodes(Encode(text), text);
  }

  /** The bytes of a header tell its value. */
  lemma HeaderTells(value: AmqpValue)
    ensures Tells(Arrives(value), value)
  {
    hide Decode, Encode, Means, Erase, Json.Render, Json.ParseJson;
    match value
    case LongString(_) =>
    case ByteArray(_) =>
    case Void =>
    case ShortStringValue(text) => ShownDecodes(text);
    case FloatValue(float) => ShownDecodes(float.Show());
    case DoubleValue(double) => ShownDecodes(double.Show());
    case _ =>
      HeaderReadsBack(value);
      ErasureMeans(value);
  }

  /** Every table in the value, at whatever depth, is in name order, as its tree keeps it. */
  ghost predicate TablesInOrder(value: AmqpValue) {
    match value
    case FieldTable(table) => InNameOrder(table) && forall i | 0 <= i < |table| :: TablesInOrder(table[i].value)
    case FieldArray(values) => forall i | 0 <= i < |values| :: TablesInOrder(values[i])
    case _ => true
  }

  ghost predicate FieldsInOrder(fields: seq<Json.Field>) {
    forall i, j | 0 <= i < j < |fields| :: Before(fields[i].name, fields[j].name)
  }

  /** Every object in the JSON value, at whatever depth, has its members in name order. */
  ghost predicate ObjectsInOrder(j: Json.Json) {
    match j
    case Object(fields) => FieldsInOrder(fields) && forall i | 0 <= i < |fields| :: ObjectsInOrder(fields[i].value)
    case Array(items) => forall i | 0 <= i < |items| :: ObjectsInOrder(items[i])
    case _ => true
  }

  lemma {:induction false} ErasedInOrder(value: AmqpValue)
    requires TablesInOrder(value)
    ensures ObjectsInOrder(Erase(value))
  {
    match value
    case FieldTable(table) =>
      forall i | 0 <= i < |table| ensures ObjectsInOrder(EraseFields(table)[i].value) {
        ErasedInOrder(table[i].value);
      }
    case FieldArray(values) =>
      forall i | 0 <= i < |values| ensures ObjectsInOrder(EraseAll(values)[i]) {
        ErasedInOrder(values[i]);
      }
    case _ =>
  }

  /** Read back, a value's tables are objects with their members in name order, at whatever depth. */
  lemma ReadsBackInOrder(value: AmqpValue)
    requires TablesInOrder(value)
    ensures Json.ParseJson(Json.Render(Erase(value))).Some?
    ensures ObjectsInOrder(Json.ParseJson(Json.Render(Erase(value))).value)
  {
    Json.RenderParses(Erase(value));
    ErasedInOrder(value);
  }
}
