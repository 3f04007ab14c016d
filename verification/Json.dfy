/** JSON values as Python's `json` sees them, and the serialization `json_bytes` keeps:
    `json.dumps(payload, indent=1, sort_keys=True)` in UTF-8. */
module Json {
  import opened Basics
  import opened Decimal
  import opened Lex

  // A number keeps both its value, which Python compares, and the text it prints as.
  datatype Json =
    | Null
    | Bool(b: bool)
    | Num(value: real, text: Ascii)
    | Str(s: string)
    | List(items: seq<Json>)
    | Dict(fields: seq<Field>)

  datatype Field = Field(key: string, value: Json)

  type Ascii = s: string | IsAscii(s) witness ""

  predicate IsAscii(s: string) {
    forall i :: 0 <= i < |s| ==> s[i] < 128 as char
  }

  function Int(n: nat): (j: Json)
    ensures j.Num?
  {
    Num(n as real, Digits(n))
  }

  // ----- dictionaries ---------------------------------------------------------

  function Find(fs: seq<Field>, k: string): Option<Json> {
    if fs == [] then None else if fs[0].key == k then Some(fs[0].value) else Find(fs[1..], k)
  }

  predicate DistinctKeys(fs: seq<Field>) {
    forall i, j :: 0 <= i < j < |fs| ==> fs[i].key != fs[j].key
  }

  lemma {:induction false} FindAt(fs: seq<Field>, i: nat, key: string, value: Json)
    requires DistinctKeys(fs) && i < |fs| && fs[i] == Field(key, value)
    ensures Find(fs, key) == Some(value)
  {
    if i > 0 { FindAt(fs[1..], i - 1, key, value); }
  }

  // `value.pop(k, None)`
  function Drop(fs: seq<Field>, k: string): seq<Field> {
    if fs == [] then [] else if fs[0].key == k then Drop(fs[1..], k) else [fs[0]] + Drop(fs[1..], k)
  }

  // `value[k] = v`: in place when the key is there, appended when it is not.
  function Put(fs: seq<Field>, k: string, v: Json): seq<Field> {
    if fs == [] then [Field(k, v)]
    else if fs[0].key == k then [Field(k, v)] + Drop(fs[1..], k)
    else [fs[0]] + Put(fs[1..], k, v)
  }

  lemma {:induction false} FindPut(fs: seq<Field>, k: string, v: Json, q: string)
    ensures Find(Put(fs, k, v), q) == if q == k then Some(v) else Find(fs, q)
  {
    if fs != [] {
      if fs[0].key == k {
        FindDrop(fs[1..], k, q);
        assert Put(fs, k, v)[1..] == Drop(fs[1..], k);
      } else {
        FindPut(fs[1..], k, v, q);
        assert Put(fs, k, v)[1..] == Put(fs[1..], k, v);
      }
    }
  }

  lemma {:induction false} FindDrop(fs: seq<Field>, k: string, q: string)
    ensures Find(Drop(fs, k), q) == if q == k then None else Find(fs, q)
  {
    if fs != [] {
      FindDrop(fs[1..], k, q);
      if fs[0].key != k {
        assert Drop(fs, k)[1..] == Drop(fs[1..], k);
      }
    }
  }

  lemma {:induction false} DropPut(fs: seq<Field>, k: string, v: Json)
    ensures Drop(Put(fs, k, v), k) == Drop(fs, k)
  {
    if fs == [] {
      assert Drop([Field(k, v)], k) == Drop([Field(k, v)][1..], k);
    } else if fs[0].key == k {
      DropDrop(fs[1..], k);
      assert Put(fs, k, v)[1..] == Drop(fs[1..], k);
    } else {
      DropPut(fs[1..], k, v);
      assert Put(fs, k, v)[1..] == Put(fs[1..], k, v);
    }
  }

  lemma {:induction false} DropDrop(fs: seq<Field>, k: string)
    ensures Drop(Drop(fs, k), k) == Drop(fs, k)
  {
    if fs != [] {
      DropDrop(fs[1..], k);
      if fs[0].key != k {
        assert Drop(fs, k)[1..] == Drop(fs[1..], k);
      }
    }
  }

  // ----- sort_keys ------------------------------------------------------------

  function InsertField(f: Field, fs: seq<Field>): seq<Field> {
    if fs == [] || Le(f.key, fs[0].key) then [f] + fs else [fs[0]] + InsertField(f, fs[1..])
  }

  function SortKeys(v: Json): Json
    decreases v, 1
  {
    match v
    case List(items) => List(SortItems(items))
    case Dict(fields) => Dict(SortFields(fields))
    case _ => v
  }

  function SortItems(items: seq<Json>): (r: seq<Json>)
    ensures |r| == |items|
    decreases items, 0
  {
    if items == [] then [] else [SortKeys(items[0])] + SortItems(items[1..])
  }

  function SortFields(fs: seq<Field>): seq<Field>
    decreases fs, 0
  {
    if fs == [] then []
    else InsertField(Field(fs[0].key, SortKeys(fs[0].value)), SortFields(fs[1..]))
  }

  // ----- the text -------------------------------------------------------------

  function HexChar(d: nat): (c: char)
    requires d < 16
    ensures c < 128 as char
  {
    if d < 10 then DigitChar(d) else 'a' + (d - 10) as char
  }

  function Unicode4(n: nat): (s: Ascii)
    requires n < 0x10000
    ensures |s| == 6
  {
    ['\\', 'u', HexChar(n / 4096), HexChar(n / 256 % 16), HexChar(n / 16 % 16), HexChar(n % 16)]
  }

  function EscapeChar(c: char): (s: Ascii) {
    if c == '"' then "\\\""
    else if c == '\\' then "\\\\"
    else if c == '\n' then "\\n"
    else if c == '\r' then "\\r"
    else if c == '\t' then "\\t"
    else if c as int == 8 then "\\b"
    else if c as int == 12 then "\\f"
    else if ' ' <= c <= '~' then [c]
    else if c as int < 0x10000 then Unicode4(c as int)
    else
      var u := c as int - 0x10000;
      Unicode4(0xD800 + u / 1024) + Unicode4(0xDC00 + u % 1024)
  }

  function Escape(s: string): (r: Ascii) {
    if s == "" then "" else EscapeChar(s[0]) + Escape(s[1..])
  }

  function Quote(s: string): (r: Ascii) {
    "\"" + Escape(s) + "\""
  }

  function Newline(level: nat): (r: Ascii)
    ensures |r| == 1 + level
  {
    "\n" + seq(level, _ => ' ')
  }

  function Text(v: Json, level: nat): (r: Ascii)
    decreases v, 1
  {
    match v
    case Null => "null"
    case Bool(b) => if b then "true" else "false"
    case Num(_, text) => text
    case Str(s) => Quote(s)
    case List(items) =>
      if items == [] then "[]" else "[" + ItemsText(items, level + 1) + Newline(level) + "]"
    case Dict(fields) =>
      if fields == [] then "{}" else "{" + FieldsText(fields, level + 1) + Newline(level) + "}"
  }

  function ItemsText(items: seq<Json>, level: nat): (r: Ascii)
    requires items != []
    decreases items, 0
  {
    var first := Newline(level) + Text(items[0], level);
    if |items| == 1 then first else first + "," + ItemsText(items[1..], level)
  }

  function FieldsText(fs: seq<Field>, level: nat): (r: Ascii)
    requires fs != []
    decreases fs, 0
  {
    var first := Newline(level) + Quote(fs[0].key) + ": " + Text(fs[0].value, level);
    if |fs| == 1 then first else first + "," + FieldsText(fs[1..], level)
  }

  function AsciiBytes(s: Ascii): (b: seq<byte>)
    ensures |b| == |s|
  {
    seq(|s|, i requires 0 <= i < |s| => s[i] as int)
  }

  function Dumps(v: Json): Ascii { Text(SortKeys(v), 0) }

  function JsonBytes(v: Json): seq<byte> { AsciiBytes(Dumps(v)) }

  // ----- its length, which no key order changes ---------------------------------

  function Len(v: Json, level: nat): nat
    decreases v, 1
  {
    match v
    case Null => 4
    case Bool(b) => if b then 4 else 5
    case Num(_, text) => |text|
    case Str(s) => |Quote(s)|
    case List(items) => if items == [] then 2 else 2 + ItemsLen(items, level + 1) + level
    case Dict(fields) => if fields == [] then 2 else 2 + FieldsLen(fields, level + 1) + level
  }

  function ItemsLen(items: seq<Json>, level: nat): nat
    decreases items, 0
  {
    if items == [] then 0 else 2 + level + Len(items[0], level) + ItemsLen(items[1..], level)
  }

  function FieldsLen(fs: seq<Field>, level: nat): nat
    decreases fs, 0
  {
    if fs == [] then 0 else FieldLen(fs[0].key, fs[0].value, level) + FieldsLen(fs[1..], level)
  }

  function FieldLen(key: string, value: Json, level: nat): nat
    decreases value, 2
  {
    4 + level + |Quote(key)| + Len(value, level)
  }

  lemma {:induction false} TextLength(v: Json, level: nat)
    ensures |Text(v, level)| == Len(v, level)
    decreases v, 1
  {
    match v
    case List(items) => if items != [] { ItemsTextLength(items, level + 1); }
    case Dict(fields) => if fields != [] { FieldsTextLength(fields, level + 1); }
    case _ =>
  }

  lemma {:induction false} ItemsTextLength(items: seq<Json>, level: nat)
    requires items != []
    ensures |ItemsText(items, level)| + 1 == ItemsLen(items, level)
    decreases items, 0
  {
    TextLength(items[0], level);
    if |items| > 1 { ItemsTextLength(items[1..], level); }
  }

  lemma {:induction false} FieldsTextLength(fs: seq<Field>, level: nat)
    requires fs != []
    ensures |FieldsText(fs, level)| + 1 == FieldsLen(fs, level)
    decreases fs, 0
  {
    TextLength(fs[0].value, level);
    if |fs| > 1 { FieldsTextLength(fs[1..], level); }
  }

  lemma {:induction false} InsertFieldLength(f: Field, fs: seq<Field>, level: nat)
    ensures FieldsLen(InsertField(f, fs), level) == FieldLen(f.key, f.value, level) + FieldsLen(fs, level)
  {
    if fs == [] || Le(f.key, fs[0].key) {
      assert ([f] + fs)[1..] == fs;
    } else {
      InsertFieldLength(f, fs[1..], level);
      assert InsertField(f, fs)[1..] == InsertField(f, fs[1..]);
    }
  }

  lemma {:induction false} SortKeysLength(v: Json, level: nat)
    ensures Len(SortKeys(v), level) == Len(v, level)
    decreases v, 1
  {
    match v
    case List(items) => SortItemsLength(items, level + 1);
    case Dict(fields) => SortFieldsLength(fields, level + 1);
    case _ =>
  }

  lemma {:induction false} SortItemsLength(items: seq<Json>, level: nat)
    ensures ItemsLen(SortItems(items), level) == ItemsLen(items, level)
    decreases items, 0
  {
    if items != [] {
      SortKeysLength(items[0], level);
      SortItemsLength(items[1..], level);
      assert SortItems(items)[1..] == SortItems(items[1..]);
    }
  }

  lemma {:induction false} SortFieldsLength(fs: seq<Field>, level: nat)
    ensures FieldsLen(SortFields(fs), level) == FieldsLen(fs, level)
    ensures fs != [] ==> SortFields(fs) != []
    decreases fs, 0
  {
    if fs != [] {
      SortKeysLength(fs[0].value, level);
      SortFieldsLength(fs[1..], level);
      InsertFieldLength(Field(fs[0].key, SortKeys(fs[0].value)), SortFields(fs[1..]), level);
    }
  }

  // The serialized size of a value does not depend on the order of its dictionary keys.
  lemma DumpsLength(v: Json)
    ensures |JsonBytes(v)| == |Dumps(v)| == Len(v, 0)
  {
    SortKeysLength(v, 0);
    TextLength(SortKeys(v), 0);
  }
}
