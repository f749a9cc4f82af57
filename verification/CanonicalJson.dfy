/** canonicalize: JSON printed with sorted keys, and the parser that undoes it. */
module CanonicalJson {
  import opened Wrappers
  import opened LexOrder
  import opened StableSort
  import opened JsonText

  /** Numbers are safe integers; `fields` lists an object's own properties in insertion order. */
  datatype Value =
    | Undefined | Null | Bool(b: bool) | Num(n: int) | Str(s: Text) | Arr(items: seq<Value>) | Obj(fields: seq<Field>)

  datatype Field = Field(key: Text, value: Value)

  /** A key with what its value prints as. */
  datatype Entry = Entry(key: Text, printed: Text)

  datatype CanonError = NotCanonicalizable

  predicate KeyLeq(a: Text, b: Text) {
    LexLeq(a, b)
  }

  predicate EntryLeq(a: Entry, b: Entry) {
    KeyLeq(a.key, b.key)
  }

  predicate FieldLeq(a: Field, b: Field) {
    KeyLeq(a.key, b.key)
  }

  const COMMA: Unit := 44
  const COLON: Unit := 58
  const OPEN_BRACKET: Unit := 91
  const CLOSE_BRACKET: Unit := 93
  const OPEN_BRACE: Unit := 123
  const CLOSE_BRACE: Unit := 125
  const NULL: Text := [110, 117, 108, 108]
  const TRUE: Text := [116, 114, 117, 101]
  const FALSE: Text := [102, 97, 108, 115, 101]

  // ---------- printing ----------

  /** Nothing in it is undefined. */
  predicate Printable(v: Value) {
    match v
    case Undefined => false
    case Arr(items) => forall item | item in items :: Printable(item)
    case Obj(fields) => forall field | field in fields :: Printable(field.value)
    case _ => true
  }

  function Join(parts: seq<Text>): Text {
    if parts == [] then [] else if |parts| == 1 then parts[0] else parts[0] + [COMMA] + Join(parts[1..])
  }

  function EntryText(e: Entry): Text {
    Quote(e.key) + [COLON] + e.printed
  }

  function EntryTexts(entries: seq<Entry>): seq<Text> {
    if entries == [] then [] else [EntryText(entries[0])] + EntryTexts(entries[1..])
  }

  function Print(v: Value): Text
    requires Printable(v)
  {
    match v
    case Null => NULL
    case Bool(b) => if b then TRUE else FALSE
    case Num(n) => Decimal(n)
    case Str(s) => Quote(s)
    case Arr(items) => [OPEN_BRACKET] + Join(PrintItems(items)) + [CLOSE_BRACKET]
    case Obj(fields) => [OPEN_BRACE] + Join(EntryTexts(Sort(PrintFields(fields), EntryLeq))) + [CLOSE_BRACE]
  }

  function PrintItems(items: seq<Value>): (printed: seq<Text>)
    requires forall item | item in items :: Printable(item)
    ensures |printed| == |items|
  {
    if items == [] then [] else [Print(items[0])] + PrintItems(items[1..])
  }

  function PrintFields(fields: seq<Field>): (entries: seq<Entry>)
    requires forall field | field in fields :: Printable(field.value)
    ensures |entries| == |fields|
    ensures forall i | 0 <= i < |fields| :: entries[i] == Entry(fields[i].key, Print(fields[i].value))
  {
    if fields == [] then [] else [Entry(fields[0].key, Print(fields[0].value))] + PrintFields(fields[1..])
  }

  function Canonicalize(v: Value): Result<Text, CanonError> {
    if Printable(v) then Success(Print(v)) else Failure(NotCanonicalizable)
  }

  // ---------- the canonical form of a value ----------

  /** The same value with the fields of every object in key order. */
  function KeySorted(v: Value): Value {
    match v
    case Arr(items) => Arr(SortedItems(items))
    case Obj(fields) => Obj(Sort(SortedFields(fields), FieldLeq))
    case _ => v
  }

  function SortedItems(items: seq<Value>): (sorted: seq<Value>)
    ensures |sorted| == |items| && forall i | 0 <= i < |items| :: sorted[i] == KeySorted(items[i])
  {
    if items == [] then [] else [KeySorted(items[0])] + SortedItems(items[1..])
  }

  function SortedFields(fields: seq<Field>): (sorted: seq<Field>)
    ensures |sorted| == |fields| && forall i | 0 <= i < |fields| :: sorted[i] == Field(fields[i].key, KeySorted(fields[i].value))
  {
    if fields == [] then [] else [Field(fields[0].key, KeySorted(fields[0].value))] + SortedFields(fields[1..])
  }

  // ---------- parsing ----------

  function Expect(t: Text, word: Text): Option<Text> {
    if word <= t then Some(t[|word|..]) else None
  }

  function ParseValue(t: Text): (r: Option<(Value, Text)>)
    ensures r.Some? ==> |r.value.1| < |t|
    decreases |t|, 0
  {
    if t == [] then None
    else if t[0] == NULL[0] then ParseWord(t, NULL, Null)
    else if t[0] == TRUE[0] then ParseWord(t, TRUE, Bool(true))
    else if t[0] == FALSE[0] then ParseWord(t, FALSE, Bool(false))
    else if t[0] == QUOTE then
      var r := ReadBody(t[1..]);
      if r.None? then None else Some((Str(r.value.0), r.value.1))
    else if t[0] == OPEN_BRACKET then
      if |t| > 1 && t[1] == CLOSE_BRACKET then Some((Arr([]), t[2..]))
      else
        var r := ParseItems(t[1..]);
        if r.None? then None else Some((Arr(r.value.0), r.value.1))
    else if t[0] == OPEN_BRACE then
      if |t| > 1 && t[1] == CLOSE_BRACE then Some((Obj([]), t[2..]))
      else
        var r := ParseFields(t[1..]);
        if r.None? then None else Some((Obj(r.value.0), r.value.1))
    else
      var r := ReadInt(t);
      if r.None? then None else Some((Num(r.value.0), r.value.1))
  }

  function ParseWord(t: Text, word: Text, v: Value): (r: Option<(Value, Text)>)
    requires word != []
    ensures r.Some? ==> |r.value.1| < |t|
  {
    var r := Expect(t, word);
    if r.None? then None else Some((v, r.value))
  }

  /** Items separated by commas, up to the closing bracket. */
  function ParseItems(t: Text): (r: Option<(seq<Value>, Text)>)
    ensures r.Some? ==> |r.value.1| < |t|
    decreases |t|, 1
  {
    var first := ParseValue(t);
    if first.None? || first.value.1 == [] then None
    else
      var rest := first.value.1;
      if rest[0] == CLOSE_BRACKET then Some(([first.value.0], rest[1..]))
      else if rest[0] != COMMA then None
      else
        var more := ParseItems(rest[1..]);
        if more.None? then None else Some(([first.value.0] + more.value.0, more.value.1))
  }

  function ParseField(t: Text): (r: Option<(Field, Text)>)
    ensures r.Some? ==> |r.value.1| < |t|
    decreases |t|, 1
  {
    if t == [] || t[0] != QUOTE then None
    else
      var key := ReadBody(t[1..]);
      if key.None? || key.value.1 == [] || key.value.1[0] != COLON then None
      else
        var v := ParseValue(key.value.1[1..]);
        if v.None? then None else Some((Field(key.value.0, v.value.0), v.value.1))
  }

  function ParseFields(t: Text): (r: Option<(seq<Field>, Text)>)
    ensures r.Some? ==> |r.value.1| < |t|
    decreases |t|, 2
  {
    var first := ParseField(t);
    if first.None? || first.value.1 == [] then None
    else
      var rest := first.value.1;
      if rest[0] == CLOSE_BRACE then Some(([first.value.0], rest[1..]))
      else if rest[0] != COMMA then None
      else
        var more := ParseFields(rest[1..]);
        if more.None? then None else Some(([first.value.0] + more.value.0, more.value.1))
  }
}
