/** The laws of the canonical form: the parser undoes the printer, and two values print the same
    exactly when they are the same JSON up to the order of object keys. */
module CanonicalJsonLaws {
  import opened Wrappers
  import opened LexOrder
  import opened StableSort
  import opened JsonText
  import opened CanonicalJson

  // ---------- printing without sorting ----------

  function Plain(v: Value): Text
    requires Printable(v)
  {
    match v
    case Null => NULL
    case Bool(b) => if b then TRUE else FALSE
    case Num(n) => Decimal(n)
    case Str(s) => Quote(s)
    case Arr(items) => [OPEN_BRACKET] + Join(PlainItems(items)) + [CLOSE_BRACKET]
    case Obj(fields) => [OPEN_BRACE] + Join(PlainFields(fields)) + [CLOSE_BRACE]
  }

  function PlainItems(items: seq<Value>): (printed: seq<Text>)
    requires forall item | item in items :: Printable(item)
    ensures |printed| == |items|
  {
    if items == [] then [] else [Plain(items[0])] + PlainItems(items[1..])
  }

  function PlainField(field: Field): Text
    requires Printable(field.value)
  {
    Quote(field.key) + [COLON] + Plain(field.value)
  }

  function PlainFields(fields: seq<Field>): (printed: seq<Text>)
    requires forall field | field in fields :: Printable(field.value)
    ensures |printed| == |fields|
  {
    if fields == [] then [] else [PlainField(fields[0])] + PlainFields(fields[1..])
  }

  // ---------- the parser undoes plain printing ----------

  /** The text that follows does not continue a number. */
  predicate EndsNumber(rest: Text) {
    rest == [] || !IsDigit(rest[0])
  }

  predicate StartsValue(u: Unit) {
    u == NULL[0] || u == TRUE[0] || u == FALSE[0] || u == QUOTE || u == OPEN_BRACKET || u == OPEN_BRACE || u == MINUS || IsDigit(u)
  }

  lemma PlainStart(v: Value)
    requires Printable(v)
    ensures Plain(v) != [] && StartsValue(Plain(v)[0])
  {
    if v.Num? {
      DecimalStart(v.n);
    }
  }

  lemma JoinMore(first: Text, rest: seq<Text>)
    requires rest != []
    ensures Join([first] + rest) == first + [COMMA] + Join(rest)
  {
    assert ([first] + rest)[1..] == rest;
  }

  lemma WordRoundTrip(v: Value, rest: Text)
    requires v.Null? || v.Bool?
    ensures ParseValue(Plain(v) + rest) == Some((v, rest))
  {
    assert (NULL + rest)[4..] == rest && (TRUE + rest)[4..] == rest && (FALSE + rest)[5..] == rest;
  }

  lemma NumberRoundTrip(n: int, rest: Text)
    requires EndsNumber(rest)
    ensures ParseValue(Decimal(n) + rest) == Some((Num(n), rest))
  {
    DecimalStart(n);
    IntRoundTrip(n, rest);
  }

  lemma StringRoundTrip(s: Text, rest: Text)
    ensures ParseValue(Quote(s) + rest) == Some((Str(s), rest))
  {
    QuoteRoundTrip(s, rest);
    assert (Quote(s) + rest)[1..] == QuoteBody(s) + [QUOTE] + rest;
  }

  lemma {:induction false} RoundTrip(v: Value, rest: Text)
    requires Printable(v) && EndsNumber(rest)
    ensures ParseValue(Plain(v) + rest) == Some((v, rest))
    decreases v, 0
  {
    match v
    case Null => WordRoundTrip(v, rest);
    case Bool(_) => WordRoundTrip(v, rest);
    case Num(n) => NumberRoundTrip(n, rest);
    case Str(s) => StringRoundTrip(s, rest);
    case Arr(items) => ArrayRoundTrip(items, rest);
    case Obj(fields) => ObjectRoundTrip(fields, rest);
  }

  lemma LastItem(t: Text, v: Value, rest: Text)
    requires ParseValue(t) == Some((v, [CLOSE_BRACKET] + rest))
    ensures ParseItems(t) == Some(([v], rest))
  {
    assert ([CLOSE_BRACKET] + rest)[1..] == rest;
  }

  lemma OneMoreItem(t: Text, v: Value, tail: Text, more: seq<Value>, rest: Text)
    requires ParseValue(t) == Some((v, [COMMA] + tail)) && ParseItems(tail) == Some((more, rest))
    ensures ParseItems(t) == Some(([v] + more, rest))
  {
    assert ([COMMA] + tail)[1..] == tail;
  }

  lemma LastField(t: Text, field: Field, rest: Text)
    requires ParseField(t) == Some((field, [CLOSE_BRACE] + rest))
    ensures ParseFields(t) == Some(([field], rest))
  {
    assert ([CLOSE_BRACE] + rest)[1..] == rest;
  }

  lemma OneMoreField(t: Text, field: Field, tail: Text, more: seq<Field>, rest: Text)
    requires ParseField(t) == Some((field, [COMMA] + tail)) && ParseFields(tail) == Some((more, rest))
    ensures ParseFields(t) == Some(([field] + more, rest))
  {
    assert ([COMMA] + tail)[1..] == tail;
  }

  lemma KeyThenValue(key: Text, tail: Text, v: Value, rest: Text)
    requires ParseValue(tail) == Some((v, rest))
    ensures ParseField(Quote(key) + [COLON] + tail) == Some((Field(key, v), rest))
  {
    QuoteRoundTrip(key, [COLON] + tail);
    assert (Quote(key) + [COLON] + tail)[1..] == QuoteBody(key) + [QUOTE] + ([COLON] + tail);
    assert ([COLON] + tail)[1..] == tail;
  }

  lemma {:induction false} ArrayRoundTrip(items: seq<Value>, rest: Text)
    requires Printable(Arr(items))
    ensures ParseValue(Plain(Arr(items)) + rest) == Some((Arr(items), rest))
    decreases items, 2
  {
    var t := Plain(Arr(items)) + rest;
    if items == [] {
      assert t == [OPEN_BRACKET, CLOSE_BRACKET] + rest;
      assert t[2..] == rest;
    } else {
      ItemsRoundTrip(items, rest);
      assert t[1..] == Join(PlainItems(items)) + [CLOSE_BRACKET] + rest;
      JoinStarts(items);
    }
  }

  lemma JoinStarts(items: seq<Value>)
    requires items != [] && forall item | item in items :: Printable(item)
    ensures Join(PlainItems(items)) != [] && StartsValue(Join(PlainItems(items))[0])
  {
    PlainStart(items[0]);
    if |items| > 1 {
      JoinMore(Plain(items[0]), PlainItems(items[1..]));
    }
  }

  lemma {:induction false} ItemsRoundTrip(items: seq<Value>, rest: Text)
    requires items != [] && forall item | item in items :: Printable(item)
    ensures ParseItems(Join(PlainItems(items)) + [CLOSE_BRACKET] + rest) == Some((items, rest))
    decreases items, 1
  {
    var t := Join(PlainItems(items)) + [CLOSE_BRACKET] + rest;
    if |items| == 1 {
      RoundTrip(items[0], [CLOSE_BRACKET] + rest);
      assert t == Plain(items[0]) + ([CLOSE_BRACKET] + rest);
      LastItem(t, items[0], rest);
      assert items == [items[0]];
    } else {
      var tail := Join(PlainItems(items[1..])) + [CLOSE_BRACKET] + rest;
      FirstThenTail(Plain(items[0]), PlainItems(items[1..]), CLOSE_BRACKET, rest);
      RoundTrip(items[0], [COMMA] + tail);
      ItemsRoundTrip(items[1..], rest);
      OneMoreItem(t, items[0], tail, items[1..], rest);
      assert items == [items[0]] + items[1..];
    }
  }

  lemma {:induction false} FieldRoundTrip(field: Field, rest: Text)
    requires Printable(field.value) && EndsNumber(rest)
    ensures ParseField(PlainField(field) + rest) == Some((field, rest))
    decreases field, 1
  {
    RoundTrip(field.value, rest);
    KeyThenValue(field.key, Plain(field.value) + rest, field.value, rest);
    assert PlainField(field) + rest == Quote(field.key) + [COLON] + (Plain(field.value) + rest);
  }

  lemma {:induction false} FieldsRoundTrip(fields: seq<Field>, rest: Text)
    requires fields != [] && forall field | field in fields :: Printable(field.value)
    ensures ParseFields(Join(PlainFields(fields)) + [CLOSE_BRACE] + rest) == Some((fields, rest))
    decreases fields, 1
  {
    var first, more := fields[0], fields[1..];
    assert fields == [first] + more && first in fields;
    if more == [] {
      FieldRoundTrip(first, [CLOSE_BRACE] + rest);
      OnlyField(first, rest);
      assert fields == [first];
    } else {
      FieldRoundTrip(first, [COMMA] + (Join(PlainFields(more)) + [CLOSE_BRACE] + rest));
      FieldsRoundTrip(more, rest);
      FirstOfFields(first, more, rest);
    }
  }

  lemma OnlyField(field: Field, rest: Text)
    requires Printable(field.value) && ParseField(PlainField(field) + ([CLOSE_BRACE] + rest)) == Some((field, [CLOSE_BRACE] + rest))
    ensures ParseFields(Join(PlainFields([field])) + [CLOSE_BRACE] + rest) == Some(([field], rest))
  {
    assert Join(PlainFields([field])) + [CLOSE_BRACE] + rest == PlainField(field) + ([CLOSE_BRACE] + rest);
    LastField(PlainField(field) + ([CLOSE_BRACE] + rest), field, rest);
  }

  lemma FirstOfFields(first: Field, more: seq<Field>, rest: Text)
    requires more != [] && Printable(first.value) && forall field | field in more :: Printable(field.value)
    requires var tail := Join(PlainFields(more)) + [CLOSE_BRACE] + rest;
      && ParseField(PlainField(first) + ([COMMA] + tail)) == Some((first, [COMMA] + tail))
      && ParseFields(tail) == Some((more, rest))
    ensures ParseFields(Join(PlainFields([first] + more)) + [CLOSE_BRACE] + rest) == Some(([first] + more, rest))
  {
    var tail := Join(PlainFields(more)) + [CLOSE_BRACE] + rest;
    assert PlainFields([first] + more) == [PlainField(first)] + PlainFields(more);
    FirstThenTail(PlainField(first), PlainFields(more), CLOSE_BRACE, rest);
    OneMoreField(PlainField(first) + ([COMMA] + tail), first, tail, more, rest);
  }

  lemma FirstThenTail(first: Text, more: seq<Text>, close: Unit, rest: Text)
    requires more != []
    ensures Join([first] + more) + [close] + rest == first + ([COMMA] + (Join(more) + [close] + rest))
  {
    JoinMore(first, more);
  }

  lemma {:induction false} ObjectRoundTrip(fields: seq<Field>, rest: Text)
    requires Printable(Obj(fields))
    ensures ParseValue(Plain(Obj(fields)) + rest) == Some((Obj(fields), rest))
    decreases fields, 2
  {
    var t := Plain(Obj(fields)) + rest;
    if fields == [] {
      assert t == [OPEN_BRACE, CLOSE_BRACE] + rest;
      assert t[2..] == rest;
    } else {
      FieldsRoundTrip(fields, rest);
      assert t[1..] == Join(PlainFields(fields)) + [CLOSE_BRACE] + rest;
      FieldsStart(fields);
    }
  }

  lemma FieldsStart(fields: seq<Field>)
    requires fields != [] && forall field | field in fields :: Printable(field.value)
    ensures var t := Join(PlainFields(fields)); t != [] && t[0] == QUOTE
  {
    if |fields| > 1 {
      JoinMore(PlainField(fields[0]), PlainFields(fields[1..]));
    }
  }

  // ---------- sorted printing ----------

  lemma {:induction false} SortedIsPrintable(v: Value)
    requires Printable(v)
    ensures Printable(KeySorted(v))
    decreases v
  {
    match v
    case Arr(items) =>
      forall item | item in SortedItems(items) ensures Printable(item) {
        var i :| 0 <= i < |items| && SortedItems(items)[i] == item;
        SortedIsPrintable(items[i]);
      }
    case Obj(fields) =>
      SortPermutes(SortedFields(fields), FieldLeq);
      forall field | field in Sort(SortedFields(fields), FieldLeq) ensures Printable(field.value) {
        assert field in SortedFields(fields);
        var i :| 0 <= i < |fields| && SortedFields(fields)[i] == field;
        assert fields[i] in fields;
        SortedIsPrintable(fields[i].value);
      }
    case _ =>
  }

  /** A field as it will be printed; total, so that it can be mapped over sorted fields. */
  function EntryOf(field: Field): Entry {
    Entry(field.key, if Printable(field.value) then Plain(field.value) else [])
  }

  lemma {:induction false} EntriesAreFields(entries: seq<Entry>, fields: seq<Field>)
    requires |entries| == |fields| && forall field | field in fields :: Printable(field.value)
    requires forall i | 0 <= i < |fields| :: entries[i] == EntryOf(fields[i])
    ensures EntryTexts(entries) == PlainFields(fields)
    decreases |fields|
  {
    if fields != [] {
      assert fields[0] in fields;
      EntriesAreFields(entries[1..], fields[1..]);
    }
  }

  /** Sorting the printed entries is printing the sorted fields. */
  lemma {:induction false} PrintIsPlainOfSorted(v: Value)
    requires Printable(v)
    ensures Printable(KeySorted(v)) && Print(v) == Plain(KeySorted(v))
    decreases v, 1
  {
    SortedIsPrintable(v);
    match v
    case Arr(items) => ItemsPrintSorted(items);
    case Obj(fields) => FieldsPrintSorted(fields);
    case _ =>
  }

  lemma {:induction false} ItemsPrintSorted(items: seq<Value>)
    requires forall item | item in items :: Printable(item)
    ensures forall item | item in SortedItems(items) :: Printable(item)
    ensures PrintItems(items) == PlainItems(SortedItems(items))
    decreases items, 0
  {
    if items != [] {
      PrintIsPlainOfSorted(items[0]);
      ItemsPrintSorted(items[1..]);
    }
  }

  lemma {:induction false} FieldsPrintSorted(fields: seq<Field>)
    requires Printable(Obj(fields)) && Printable(KeySorted(Obj(fields)))
    ensures EntryTexts(Sort(PrintFields(fields), EntryLeq)) == PlainFields(Sort(SortedFields(fields), FieldLeq))
    decreases fields, 0
  {
    var sorted, entries := SortedFields(fields), PrintFields(fields);
    forall i | 0 <= i < |fields| ensures entries[i] == EntryOf(sorted[i]) {
      assert fields[i] in fields;
      PrintIsPlainOfSorted(fields[i].value);
    }
    SortImages(sorted, entries, EntryOf, FieldLeq, EntryLeq);
    EntriesAreFields(Sort(entries, EntryLeq), Sort(sorted, FieldLeq));
  }

  // ---------- the same JSON ----------

  /** No object has a key twice, as no JavaScript object does. */
  predicate KeysDistinct(v: Value) {
    match v
    case Arr(items) => forall item | item in items :: KeysDistinct(item)
    case Obj(fields) =>
      && (forall i, j | 0 <= i < j < |fields| :: fields[i].key != fields[j].key)
      && (forall field | field in fields :: KeysDistinct(field.value))
    case _ => true
  }

  /** Equal up to the order of object keys. */
  ghost predicate SameJson(a: Value, b: Value)
    decreases a
  {
    match a
    case Arr(items) => b.Arr? && |items| == |b.items| && forall i | 0 <= i < |items| :: SameJson(items[i], b.items[i])
    case Obj(fields) =>
      && b.Obj?
      && (forall f | f in fields :: Matched(f, b.fields))
      && (forall g | g in b.fields :: exists f | f in fields :: f.key == g.key)
    case _ => a == b
  }

  ghost predicate Matched(f: Field, others: seq<Field>)
    decreases f
  {
    exists g | g in others :: g.key == f.key && SameJson(f.value, g.value)
  }

  // ---------- the parser undoes the printer ----------

  /** In no object does a key come before a smaller one. */
  ghost predicate KeysAscend(v: Value) {
    match v
    case Arr(items) => forall item | item in items :: KeysAscend(item)
    case Obj(fields) =>
      && (forall i, j | 0 <= i < j < |fields| :: !LexSmaller(fields[j].key, fields[i].key))
      && (forall field | field in fields :: KeysAscend(field.value))
    case _ => true
  }

  lemma {:induction false} KeySortedAscends(v: Value)
    ensures KeysAscend(KeySorted(v))
  {
    match v
    case Arr(items) =>
      forall item | item in SortedItems(items) ensures KeysAscend(item) {
        var i :| 0 <= i < |items| && SortedItems(items)[i] == item;
        KeySortedAscends(items[i]);
      }
    case Obj(fields) =>
      var sorted := SortedFields(fields);
      FieldLeqIsTotal();
      SortSorts(sorted, FieldLeq);
      SortPermutes(sorted, FieldLeq);
      forall i, j | 0 <= i < j < |sorted| ensures !LexSmaller(Sort(sorted, FieldLeq)[j].key, Sort(sorted, FieldLeq)[i].key) {
        LexNotSmaller(Sort(sorted, FieldLeq)[i].key, Sort(sorted, FieldLeq)[j].key);
      }
      forall field | field in Sort(sorted, FieldLeq) ensures KeysAscend(field.value) {
        assert field in sorted;
        var i :| 0 <= i < |fields| && sorted[i] == field;
        KeySortedAscends(fields[i].value);
      }
    case _ =>
  }

  lemma {:induction false} KeySortedIsSameJson(v: Value)
    ensures SameJson(v, KeySorted(v))
  {
    match v
    case Arr(items) =>
      forall i | 0 <= i < |items| ensures SameJson(items[i], SortedItems(items)[i]) {
        KeySortedIsSameJson(items[i]);
      }
    case Obj(fields) =>
      var sorted := Sort(SortedFields(fields), FieldLeq);
      SortPermutes(SortedFields(fields), FieldLeq);
      forall f | f in fields ensures Matched(f, sorted) {
        SortedMember(fields, f);
        KeySortedIsSameJson(f.value);
        assert Field(f.key, KeySorted(f.value)) in sorted;
      }
      forall g | g in sorted ensures exists f | f in fields :: f.key == g.key {
        assert g in SortedFields(fields);
        var i :| 0 <= i < |fields| && SortedFields(fields)[i] == g;
        assert fields[i] in fields;
      }
    case _ =>
  }

  /** A parser reads the canonical text, and what follows it, as the same JSON with every object's keys in
      ascending order. */
  lemma ParserUndoesPrinter(v: Value, rest: Text)
    requires Canonicalize(v).Success? && EndsNumber(rest)
    ensures ParseValue(Canonicalize(v).value + rest) == Some((KeySorted(v), rest))
    ensures KeysAscend(KeySorted(v)) && SameJson(v, KeySorted(v))
  {
    PrintIsPlainOfSorted(v);
    RoundTrip(KeySorted(v), rest);
    KeySortedAscends(v);
    KeySortedIsSameJson(v);
  }

  lemma SameKeySameField(fields: seq<Field>, f: Field, g: Field)
    requires KeysDistinct(Obj(fields)) && f in fields && g in fields && f.key == g.key
    ensures f == g
  {
    var i :| 0 <= i < |fields| && fields[i] == f;
    var j :| 0 <= j < |fields| && fields[j] == g;
    if i < j {
    } else if j < i {
    }
  }

  lemma SortedMember(fields: seq<Field>, f: Field)
    requires f in fields
    ensures Field(f.key, KeySorted(f.value)) in SortedFields(fields)
  {
    var i :| 0 <= i < |fields| && fields[i] == f;
    assert SortedFields(fields)[i] == Field(f.key, KeySorted(f.value));
  }

  lemma FieldLeqIsTotal()
    ensures TotalPreorder(FieldLeq)
  {
    forall x, y ensures FieldLeq(x, y) || FieldLeq(y, x) {
      LexTotal(x.key, y.key);
    }
    forall x, y, z | FieldLeq(x, y) && FieldLeq(y, z) ensures FieldLeq(x, z) {
      LexTransitive(x.key, y.key, z.key);
    }
  }

  /** Two arrangements of the same distinctly keyed fields sort to the same sequence. */
  lemma SameFieldsSortSame(s: seq<Field>, t: seq<Field>)
    requires forall i, j | 0 <= i < j < |s| :: s[i].key != s[j].key
    requires forall i, j | 0 <= i < j < |t| :: t[i].key != t[j].key
    requires forall f :: f in s <==> f in t
    ensures Sort(s, FieldLeq) == Sort(t, FieldLeq)
  {
    FieldLeqIsTotal();
    SortSorts(s, FieldLeq);
    SortSorts(t, FieldLeq);
    SortPermutes(s, FieldLeq);
    SortPermutes(t, FieldLeq);
    DistinctMultiset(s, t);
    forall x, y | x in Sort(s, FieldLeq) && y in Sort(s, FieldLeq) && FieldLeq(x, y) && FieldLeq(y, x) ensures x == y {
      LexTotal(x.key, y.key);
      assert x in s && y in s;
    }
    SortedIsUnique(Sort(s, FieldLeq), Sort(t, FieldLeq), FieldLeq);
  }

  lemma {:induction false} SameJsonSortsSame(a: Value, b: Value)
    requires KeysDistinct(a) && KeysDistinct(b) && SameJson(a, b)
    ensures KeySorted(a) == KeySorted(b)
    decreases a, 1
  {
    match a
    case Arr(items) =>
      forall i | 0 <= i < |items| ensures SortedItems(items)[i] == SortedItems(b.items)[i] {
        SameJsonSortsSame(items[i], b.items[i]);
      }
    case Obj(fields) => SameObjectsSortSame(fields, b.fields);
    case _ =>
  }

  /** Each field of an object has its image among the sorted fields of the same object elsewhere. */
  lemma {:induction false} FieldHasImage(f: Field, others: seq<Field>)
    requires KeysDistinct(f.value) && KeysDistinct(Obj(others)) && Matched(f, others)
    ensures Field(f.key, KeySorted(f.value)) in SortedFields(others)
    ensures forall g | g in others && g.key == f.key :: KeySorted(g.value) == KeySorted(f.value)
    decreases f, 0
  {
    var g :| g in others && g.key == f.key && SameJson(f.value, g.value);
    SameJsonSortsSame(f.value, g.value);
    SortedMember(others, g);
    forall h | h in others && h.key == f.key ensures KeySorted(h.value) == KeySorted(f.value) {
      SameKeySameField(others, g, h);
    }
  }

  lemma {:induction false} FieldsHaveImages(fields: seq<Field>, others: seq<Field>)
    requires (forall f | f in fields :: KeysDistinct(f.value)) && KeysDistinct(Obj(others))
    requires forall f | f in fields :: Matched(f, others)
    ensures forall f | f in fields :: Field(f.key, KeySorted(f.value)) in SortedFields(others)
    ensures forall f, g | f in fields && g in others && g.key == f.key :: KeySorted(g.value) == KeySorted(f.value)
    decreases fields, 0
  {
    forall f | f in fields
      ensures Field(f.key, KeySorted(f.value)) in SortedFields(others)
      ensures forall g | g in others && g.key == f.key :: KeySorted(g.value) == KeySorted(f.value)
    {
      FieldHasImage(f, others);
    }
  }

  lemma BackImages(fields: seq<Field>, others: seq<Field>)
    requires forall g | g in others :: exists f | f in fields :: f.key == g.key
    requires forall f, g | f in fields && g in others && g.key == f.key :: KeySorted(g.value) == KeySorted(f.value)
    ensures forall g | g in others :: Field(g.key, KeySorted(g.value)) in SortedFields(fields)
  {
    forall g | g in others ensures Field(g.key, KeySorted(g.value)) in SortedFields(fields) {
      var f :| f in fields && f.key == g.key;
      SortedMember(fields, f);
    }
  }

  lemma {:induction false} SameObjectsSortSame(fields: seq<Field>, others: seq<Field>)
    requires KeysDistinct(Obj(fields)) && KeysDistinct(Obj(others)) && SameJson(Obj(fields), Obj(others))
    ensures Sort(SortedFields(fields), FieldLeq) == Sort(SortedFields(others), FieldLeq)
    decreases fields, 1
  {
    FieldsHaveImages(fields, others);
    BackImages(fields, others);
    SameSortedMembers(fields, others);
  }

  lemma SameSortedMembers(s: seq<Field>, t: seq<Field>)
    requires KeysDistinct(Obj(s)) && KeysDistinct(Obj(t))
    requires forall f | f in s :: Field(f.key, KeySorted(f.value)) in SortedFields(t)
    requires forall g | g in t :: Field(g.key, KeySorted(g.value)) in SortedFields(s)
    ensures Sort(SortedFields(s), FieldLeq) == Sort(SortedFields(t), FieldLeq)
  {
    forall f ensures f in SortedFields(s) <==> f in SortedFields(t) {
      if f in SortedFields(s) {
        var i :| 0 <= i < |s| && SortedFields(s)[i] == f;
        assert s[i] in s;
      }
      if f in SortedFields(t) {
        var i :| 0 <= i < |t| && SortedFields(t)[i] == f;
        assert t[i] in t;
      }
    }
    SameFieldsSortSame(SortedFields(s), SortedFields(t));
  }

  lemma {:induction false} SortsSameIsSameJson(a: Value, b: Value)
    requires KeySorted(a) == KeySorted(b)
    ensures SameJson(a, b)
    decreases a
  {
    match a
    case Arr(items) =>
      forall i | 0 <= i < |items| ensures SameJson(items[i], b.items[i]) {
        assert SortedItems(items)[i] == SortedItems(b.items)[i];
        SortsSameIsSameJson(items[i], b.items[i]);
      }
    case Obj(fields) =>
      SortPermutes(SortedFields(fields), FieldLeq);
      SortPermutes(SortedFields(b.fields), FieldLeq);
      forall f | f in fields ensures Matched(f, b.fields) {
        var g := FieldSortedAs(b.fields, f);
        SortsSameIsSameJson(f.value, g.value);
      }
      forall g | g in b.fields ensures exists f | f in fields :: f.key == g.key {
        var f := FieldSortedAs(fields, g);
      }
    case _ =>
  }

  lemma FieldSortedAs(fields: seq<Field>, f: Field) returns (g: Field)
    requires Field(f.key, KeySorted(f.value)) in SortedFields(fields)
    ensures g in fields && g.key == f.key && KeySorted(g.value) == KeySorted(f.value)
  {
    var i :| 0 <= i < |fields| && SortedFields(fields)[i] == Field(f.key, KeySorted(f.value));
    g := fields[i];
  }

  /** The canonical text is the same for two values exactly when they are the same JSON up to the
      order of object keys; so a digest of it identifies the value. */
  lemma CanonicalTextIdentifies(a: Value, b: Value)
    requires KeysDistinct(a) && KeysDistinct(b) && Canonicalize(a).Success? && Canonicalize(b).Success?
    ensures Canonicalize(a) == Canonicalize(b) <==> SameJson(a, b)
  {
    PrintIsPlainOfSorted(a);
    PrintIsPlainOfSorted(b);
    if Print(a) == Print(b) {
      ParserUndoesPrinter(a, []);
      ParserUndoesPrinter(b, []);
      SortsSameIsSameJson(a, b);
    }
    if SameJson(a, b) {
      SameJsonSortsSame(a, b);
    }
  }

  /** Being the same JSON keeps a value canonicalizable. */
  lemma {:induction false} SameJsonSameOutcome(a: Value, b: Value)
    requires KeysDistinct(a) && KeysDistinct(b) && SameJson(a, b)
    ensures Canonicalize(a) == Canonicalize(b)
  {
    SameJsonSortsSame(a, b);
    SortedPrintable(a);
    SortedPrintable(b);
    if Printable(a) {
      PrintIsPlainOfSorted(a);
      PrintIsPlainOfSorted(b);
    }
  }

  lemma {:induction false} SortedPrintable(v: Value)
    ensures Printable(KeySorted(v)) <==> Printable(v)
    decreases v
  {
    if Printable(v) {
      SortedIsPrintable(v);
    } else {
      match v
      case Arr(items) =>
        var item :| item in items && !Printable(item);
        var i :| 0 <= i < |items| && items[i] == item;
        SortedPrintable(item);
        assert SortedItems(items)[i] in SortedItems(items);
      case Obj(fields) =>
        var f :| f in fields && !Printable(f.value);
        SortedPrintable(f.value);
        SortedMember(fields, f);
        SortPermutes(SortedFields(fields), FieldLeq);
      case _ =>
    }
  }

  // ---------- encoding ----------

  lemma {:induction false} JoinWellFormed(parts: seq<Text>)
    requires forall part | part in parts :: WellFormed(part)
    ensures WellFormed(Join(parts))
  {
    if |parts| > 1 {
      JoinWellFormed(parts[1..]);
      PlainIsWellFormed([COMMA]);
      WellFormedAppend(parts[0], [COMMA]);
      WellFormedAppend(parts[0] + [COMMA], Join(parts[1..]));
    }
  }

  lemma Wrapped(open: Unit, t: Text, close: Unit)
    requires WellFormed(t) && open < 0xD800 && close < 0xD800
    ensures WellFormed([open] + t + [close])
  {
    PlainIsWellFormed([open]);
    PlainIsWellFormed([close]);
    WellFormedAppend([open], t);
    WellFormedAppend([open] + t, [close]);
  }

  lemma {:induction false} PlainPrintsWellFormed(v: Value)
    requires Printable(v)
    ensures WellFormed(Plain(v))
    decreases v, 1
  {
    match v
    case Num(n) =>
      DecimalStart(n);
      PlainIsWellFormed(Decimal(n));
    case Str(s) => QuoteIsWellFormed(s);
    case Arr(items) =>
      ItemsWellFormed(items);
      JoinWellFormed(PlainItems(items));
      Wrapped(OPEN_BRACKET, Join(PlainItems(items)), CLOSE_BRACKET);
    case Obj(fields) =>
      FieldsWellFormed(fields);
      JoinWellFormed(PlainFields(fields));
      Wrapped(OPEN_BRACE, Join(PlainFields(fields)), CLOSE_BRACE);
    case Null => PlainIsWellFormed(NULL);
    case Bool(b) => PlainIsWellFormed(if b then TRUE else FALSE);
    case Undefined =>
  }

  lemma {:induction false} ItemsWellFormed(items: seq<Value>)
    requires forall item | item in items :: Printable(item)
    ensures forall part | part in PlainItems(items) :: WellFormed(part)
    decreases items, 0
  {
    if items != [] {
      PlainPrintsWellFormed(items[0]);
      ItemsWellFormed(items[1..]);
    }
  }

  lemma {:induction false} FieldsWellFormed(fields: seq<Field>)
    requires forall field | field in fields :: Printable(field.value)
    ensures forall part | part in PlainFields(fields) :: WellFormed(part)
    decreases fields, 0
  {
    if fields != [] {
      assert fields[0] in fields;
      PlainPrintsWellFormed(fields[0].value);
      QuoteIsWellFormed(fields[0].key);
      PlainIsWellFormed([COLON]);
      WellFormedAppend(Quote(fields[0].key), [COLON]);
      WellFormedAppend(Quote(fields[0].key) + [COLON], Plain(fields[0].value));
      FieldsWellFormed(fields[1..]);
    }
  }

  /** Canonical text never holds a lone surrogate, so encoding it as UTF-8 for the digest loses
      nothing. */
  lemma CanonicalTextIsWellFormed(v: Value)
    requires Canonicalize(v).Success?
    ensures WellFormed(Canonicalize(v).value)
  {
    PrintIsPlainOfSorted(v);
    PlainPrintsWellFormed(KeySorted(v));
  }
}
