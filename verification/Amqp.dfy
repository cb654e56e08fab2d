/** The typed values of an AMQP 0-9-1 header table (section 4.2.5 of the protocol), and the table
    itself as what it shows: its entries in name order. */
module Amqp {
  import opened Wrappers
  import opened Utf8
  import Json

  type I8 = x: int | -0x80 <= x < 0x80
  type I16 = x: int | -0x8000 <= x < 0x8000
  type I32 = x: int | -0x8000_0000 <= x < 0x8000_0000
  type I64 = x: int | -0x8000_0000_0000_0000 <= x < 0x8000_0000_0000_0000
  type U16 = x: int | 0 <= x < 0x1_0000
  type U32 = x: int | 0 <= x < 0x1_0000_0000
  type U64 = x: int | 0 <= x < 0x1_0000_0000_0000_0000

  /** Text of at most 255 bytes. */
  type ShortString = s: string | IsShort(s)

  predicate IsShort(s: string) {
    |Encode(s)| <= 255
  }

  /** A float, finite with the digits it is shown by, or not finite. */
  datatype Float = Finite(shown: Json.NumberLiteral) | NaN | Infinity | NegInfinity {
    function Show(): string {
      match this
      case Finite(shown) => shown
      case NaN => "NaN"
      case Infinity => "inf"
      case NegInfinity => "-inf"
    }
  }

  datatype AmqpValue =
    | Boolean(flag: bool)
    | ShortShortInt(i8: I8)
    | ShortShortUInt(u8: Byte)
    | ShortInt(i16: I16)
    | ShortUInt(u16: U16)
    | LongInt(i32: I32)
    | LongUInt(u32: U32)
    | LongLongInt(i64: I64)
    | Timestamp(seconds: U64)
    | DecimalValue(scale: Byte, value: U32)
    | FloatValue(float: Float)
    | DoubleValue(double: Float)
    | LongString(text: Bytes)
    | ShortStringValue(short: ShortString)
    | ByteArray(bytes: Bytes)
    | Void
    | FieldArray(values: seq<AmqpValue>)
    | FieldTable(table: Table)

  /** The integer a value of any integer width holds; a timestamp is not one. */
  function IntegerOf(value: AmqpValue): Option<int> {
    match value
    case ShortShortInt(n) => Some(n)
    case ShortShortUInt(n) => Some(n)
    case ShortInt(n) => Some(n)
    case ShortUInt(n) => Some(n)
    case LongInt(n) => Some(n)
    case LongUInt(n) => Some(n)
    case LongLongInt(n) => Some(n)
    case _ => None
  }

  datatype Entry = Entry(name: ShortString, value: AmqpValue)

  type Table = seq<Entry>

  // Name order: the order of the table's tree, which UTF-8 makes the order of the scalar values.

  predicate Before(a: string, b: string) {
    if b == [] then false
    else if a == [] then true
    else a[0] < b[0] || (a[0] == b[0] && Before(a[1..], b[1..]))
  }

  predicate InNameOrder(table: Table) {
    forall i, j | 0 <= i < j < |table| :: Before(table[i].name, table[j].name)
  }

  function Lookup(table: Table, name: string): Option<AmqpValue> {
    if table == [] then None
    else if table[0].name == name then Some(table[0].value)
    else Lookup(table[1..], name)
  }

  /** The table with `name` bound to `value`, in place of any value it had. */
  function Insert(table: Table, name: ShortString, value: AmqpValue): Table {
    if table == [] || Before(name, table[0].name) then [Entry(name, value)] + table
    else if table[0].name == name then [Entry(name, value)] + table[1..]
    else [table[0]] + Insert(table[1..], name, value)
  }

  lemma {:induction false} BeforeIsTransitive(a: string, b: string, c: string)
    requires Before(a, b) && Before(b, c)
    ensures Before(a, c)
  {
    if a != [] && a[0] == b[0] == c[0] {
      BeforeIsTransitive(a[1..], b[1..], c[1..]);
    }
  }

  lemma {:induction false} BeforeIsTotal(a: string, b: string)
    ensures Before(a, b) || a == b || Before(b, a)
    ensures !(Before(a, b) && Before(b, a)) && !Before(a, a)
  {
    if a != [] && b != [] {
      BeforeIsTotal(a[1..], b[1..]);
      assert a == [a[0]] + a[1..] && b == [b[0]] + b[1..];
    }
    if a != [] {
      BeforeIsTotal(a[1..], a[1..]);
    }
  }

  /** Name order is settled by the first difference, and a name comes before those it begins. */
  lemma {:induction false} FirstDifferenceSettles(shared: string, a: string, b: string)
    requires a != [] && b != [] ==> a[0] != b[0]
    ensures Before(shared + a, shared + b) <==> b != [] && (a == [] || a[0] < b[0])
  {
    if shared == [] {
      assert shared + a == a && shared + b == b;
    } else {
      FirstDifferenceSettles(shared[1..], a, b);
      assert (shared + a)[1..] == shared[1..] + a && (shared + b)[1..] == shared[1..] + b;
    }
  }

  lemma {:induction false} InsertLooksUp(table: Table, name: ShortString, value: AmqpValue, n: string)
    ensures Lookup(Insert(table, name, value), n) == if n == name then Some(value) else Lookup(table, n)
  {
    if table == [] || Before(name, table[0].name) {
      assert ([Entry(name, value)] + table)[1..] == table;
    } else if table[0].name == name {
      assert ([Entry(name, value)] + table[1..])[1..] == table[1..];
    } else {
      InsertLooksUp(table[1..], name, value, n);
      assert ([table[0]] + Insert(table[1..], name, value))[1..] == Insert(table[1..], name, value);
    }
  }

  lemma {:induction false} InsertAdds(table: Table, name: ShortString, value: AmqpValue, e: Entry)
    requires e in Insert(table, name, value)
    ensures e.name == name || e in table
  {
    if table != [] && !Before(name, table[0].name) && table[0].name != name && e != table[0] {
      InsertAdds(table[1..], name, value, e);
    }
  }

  lemma OrderedAfter(first: Entry, rest: Table)
    requires InNameOrder(rest) && forall e | e in rest :: Before(first.name, e.name)
    ensures InNameOrder([first] + rest)
  {
    var all := [first] + rest;
    forall i, j | 0 <= i < j < |all| ensures Before(all[i].name, all[j].name) {
      assert all[j] == rest[j - 1] && rest[j - 1] in rest;
    }
  }

  lemma {:induction false} InsertKeepsOrder(table: Table, name: ShortString, value: AmqpValue)
    requires InNameOrder(table)
    ensures InNameOrder(Insert(table, name, value))
  {
    if table == [] {
    } else if Before(name, table[0].name) {
      forall e | e in table ensures Before(name, e.name) {
        if e.name != table[0].name {
          BeforeIsTransitive(name, table[0].name, e.name);
        }
      }
      OrderedAfter(Entry(name, value), table);
    } else if table[0].name == name {
      OrderedAfter(Entry(name, value), table[1..]);
    } else {
      InsertKeepsOrder(table[1..], name, value);
      BeforeIsTotal(name, table[0].name);
      var rest := Insert(table[1..], name, value);
      forall e | e in rest ensures Before(table[0].name, e.name) {
        InsertAdds(table[1..], name, value, e);
      }
      OrderedAfter(table[0], rest);
    }
  }

  /** Insertion keeps the table in name order, one entry a name, and rebinds just the one name. */
  lemma {:induction false} InsertRebinds(table: Table, name: ShortString, value: AmqpValue)
    requires InNameOrder(table)
    ensures InNameOrder(Insert(table, name, value))
    ensures forall n :: Lookup(Insert(table, name, value), n) == if n == name then Some(value) else Lookup(table, n)
    ensures forall e | e in Insert(table, name, value) :: e.name == name || e in table
  {
    InsertKeepsOrder(table, name, value);
    hide InNameOrder, Lookup, Insert;
    forall n
      ensures Lookup(Insert(table, name, value), n) == if n == name then Some(value) else Lookup(table, n)
    {
      InsertLooksUp(table, name, value, n);
    }
    forall e | e in Insert(table, name, value) ensures e.name == name || e in table {
      InsertAdds(table, name, value, e);
    }
  }

  lemma {:induction false} LookupFindsEntry(table: Table, name: string)
    ensures Lookup(table, name).Some? ==> IsShort(name) && Entry(name, Lookup(table, name).value) in table
  {
    if table != [] && table[0].name != name {
      LookupFindsEntry(table[1..], name);
    }
  }
}
