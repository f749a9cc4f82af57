/** How JSON.stringify writes strings and integers, in UTF-16 code units, and how they are read back.
    String quoting follows section 7 of RFC 8259. */
module JsonText {
  import opened Wrappers

  type Unit = u: int | 0 <= u < 0x10000
  type Text = seq<Unit>

  const QUOTE: Unit := 34
  const BACKSLASH: Unit := 92
  const LOWER_U: Unit := 117

  predicate HighSurrogate(u: Unit) {
    0xD800 <= u <= 0xDBFF
  }

  predicate LowSurrogate(u: Unit) {
    0xDC00 <= u <= 0xDFFF
  }

  // ---------- quoting ----------

  function HexDigit(n: nat): Unit
    requires n < 16
  {
    if n < 10 then 48 + n else 87 + n
  }

  function UnicodeEscape(u: Unit): Text {
    [BACKSLASH, LOWER_U, HexDigit(u / 4096), HexDigit(u / 256 % 16), HexDigit(u / 16 % 16), HexDigit(u % 16)]
  }

  /** The letter of a two-character escape. */
  function ShortEscape(u: Unit): Option<Unit> {
    if u == 34 then Some(34)
    else if u == 92 then Some(92)
    else if u == 8 then Some(98)
    else if u == 12 then Some(102)
    else if u == 10 then Some(110)
    else if u == 13 then Some(114)
    else if u == 9 then Some(116)
    else None
  }

  function Escape(u: Unit): Text {
    if ShortEscape(u).Some? then [BACKSLASH, ShortEscape(u).value]
    else if u < 32 || HighSurrogate(u) || LowSurrogate(u) then UnicodeEscape(u)
    else [u]
  }

  /** A surrogate pair stays as it is; a lone surrogate is escaped. */
  function QuoteBody(s: Text): Text
    decreases |s|
  {
    if s == [] then []
    else if HighSurrogate(s[0]) && |s| > 1 && LowSurrogate(s[1]) then [s[0], s[1]] + QuoteBody(s[2..])
    else Escape(s[0]) + QuoteBody(s[1..])
  }

  function Quote(s: Text): Text {
    [QUOTE] + QuoteBody(s) + [QUOTE]
  }

  /** The shortest way of writing it: the quotation mark, the backslash and five control characters take two
      units, the other control characters and surrogates that stand alone take six, in lower-case
      hexadecimal, and everything else is written as it is. */
  lemma EscapeForm(u: Unit)
    ensures |Escape(u)| == 2 <==> u in {8, 9, 10, 12, 13, 34, 92}
    ensures |Escape(u)| == 6 <==> (u < 32 && u !in {8, 9, 10, 12, 13}) || 0xD800 <= u < 0xE000
    ensures |Escape(u)| == 6 ==> forall i | 2 <= i < 6 :: 48 <= Escape(u)[i] <= 57 || 97 <= Escape(u)[i] <= 102
    ensures |Escape(u)| !in {2, 6} ==> Escape(u) == [u]
  {
  }

  // ---------- reading a string ----------

  function HexValue(u: Unit): Option<nat> {
    if 48 <= u <= 57 then Some(u - 48)
    else if 97 <= u <= 102 then Some(u - 87)
    else if 65 <= u <= 70 then Some(u - 55)
    else None
  }

  function Unescape(u: Unit): Option<Unit> {
    if u == 34 || u == 92 || u == 47 then Some(u)
    else if u == 98 then Some(8)
    else if u == 102 then Some(12)
    else if u == 110 then Some(10)
    else if u == 114 then Some(13)
    else if u == 116 then Some(9)
    else None
  }

  /** One character of a string: what it means and how many units it takes. */
  function ReadUnit(t: Text): (r: Option<(Unit, nat)>)
    ensures r.Some? ==> 0 < r.value.1 <= |t|
  {
    if t == [] || t[0] == QUOTE || t[0] < 32 then None
    else if t[0] != BACKSLASH then Some((t[0], 1))
    else if |t| >= 2 && Unescape(t[1]).Some? then Some((Unescape(t[1]).value, 2))
    else if |t| >= 6 && t[1] == LOWER_U && HexValue(t[2]).Some? && HexValue(t[3]).Some? && HexValue(t[4]).Some? && HexValue(t[5]).Some? then
      var u := HexValue(t[2]).value * 4096 + HexValue(t[3]).value * 256 + HexValue(t[4]).value * 16 + HexValue(t[5]).value;
      Some((u, 6))
    else None
  }

  /** The string up to the closing quote, and what follows the quote. */
  function ReadBody(t: Text): (r: Option<(Text, Text)>)
    ensures r.Some? ==> |r.value.1| < |t|
    decreases |t|
  {
    if t == [] then None
    else if t[0] == QUOTE then Some(([], t[1..]))
    else
      var first := ReadUnit(t);
      if first.None? then None
      else
        var more := ReadBody(t[first.value.1..]);
        if more.None? then None else Some(([first.value.0] + more.value.0, more.value.1))
  }

  lemma HexRoundTrip(n: nat)
    requires n < 16
    ensures HexValue(HexDigit(n)) == Some(n)
  {
  }

  lemma HexNumber(u: Unit)
    ensures u / 4096 < 16
    ensures u / 4096 * 4096 + u / 256 % 16 * 256 + u / 16 % 16 * 16 + u % 16 == u
  {
    assert u / 256 == u / 4096 * 16 + u / 256 % 16;
    assert u / 16 == u / 256 * 16 + u / 16 % 16;
  }

  lemma ReadUnicodeEscape(u: Unit, rest: Text)
    ensures ReadUnit(UnicodeEscape(u) + rest) == Some((u, 6))
  {
    var t := UnicodeEscape(u) + rest;
    HexRoundTrip(u / 4096);
    HexRoundTrip(u / 256 % 16);
    HexRoundTrip(u / 16 % 16);
    HexRoundTrip(u % 16);
    HexNumber(u);
    assert t[0] == BACKSLASH && t[1] == LOWER_U;
    assert t[2] == HexDigit(u / 4096) && t[3] == HexDigit(u / 256 % 16) && t[4] == HexDigit(u / 16 % 16) && t[5] == HexDigit(u % 16);
  }

  lemma ReadEscape(u: Unit, rest: Text)
    ensures ReadUnit(Escape(u) + rest) == Some((u, |Escape(u)|))
  {
    var t := Escape(u) + rest;
    if ShortEscape(u).Some? {
      assert t[0] == BACKSLASH && t[1] == ShortEscape(u).value;
    } else if u < 32 || HighSurrogate(u) || LowSurrogate(u) {
      ReadUnicodeEscape(u, rest);
    } else {
      assert t[0] == u;
    }
  }

  lemma ReadsOne(t: Text, u: Unit, tail: Text, more: Text, rest: Text)
    requires t != [] && t[0] != QUOTE && ReadUnit(t).Some? && ReadUnit(t).value.0 == u && t[ReadUnit(t).value.1..] == tail
    requires ReadBody(tail) == Some((more, rest))
    ensures ReadBody(t) == Some(([u] + more, rest))
  {
  }

  lemma ReadsEscape(u: Unit, tail: Text, more: Text, rest: Text)
    requires ReadBody(tail) == Some((more, rest))
    ensures ReadBody(Escape(u) + tail) == Some(([u] + more, rest))
  {
    var t := Escape(u) + tail;
    ReadEscape(u, tail);
    assert t[|Escape(u)|..] == tail;
    ReadsOne(t, u, tail, more, rest);
  }

  lemma ReadsPlain(u: Unit, tail: Text, more: Text, rest: Text)
    requires u >= 0xD800 && ReadBody(tail) == Some((more, rest))
    ensures ReadBody([u] + tail) == Some(([u] + more, rest))
  {
    assert ([u] + tail)[1..] == tail;
    ReadsOne([u] + tail, u, tail, more, rest);
  }

  lemma ReadsPair(s: Text, rest: Text)
    requires |s| > 1 && HighSurrogate(s[0]) && LowSurrogate(s[1])
    requires ReadBody(QuoteBody(s[2..]) + [QUOTE] + rest) == Some((s[2..], rest))
    ensures ReadBody(QuoteBody(s) + [QUOTE] + rest) == Some((s, rest))
  {
    var tail := QuoteBody(s[2..]) + [QUOTE] + rest;
    ReadsPlain(s[1], tail, s[2..], rest);
    ReadsPlain(s[0], [s[1]] + tail, [s[1]] + s[2..], rest);
    assert QuoteBody(s) + [QUOTE] + rest == [s[0]] + ([s[1]] + tail);
    assert s == [s[0]] + ([s[1]] + s[2..]);
  }

  lemma ReadsSingle(s: Text, rest: Text)
    requires s != [] && !(HighSurrogate(s[0]) && |s| > 1 && LowSurrogate(s[1]))
    requires ReadBody(QuoteBody(s[1..]) + [QUOTE] + rest) == Some((s[1..], rest))
    ensures ReadBody(QuoteBody(s) + [QUOTE] + rest) == Some((s, rest))
  {
    var tail := QuoteBody(s[1..]) + [QUOTE] + rest;
    ReadsEscape(s[0], tail, s[1..], rest);
    assert QuoteBody(s) + [QUOTE] + rest == Escape(s[0]) + tail;
    assert s == [s[0]] + s[1..];
  }

  /** Reading what was quoted gives the string back, surrogates and control characters included. */
  lemma {:induction false} QuoteRoundTrip(s: Text, rest: Text)
    ensures ReadBody(QuoteBody(s) + [QUOTE] + rest) == Some((s, rest))
    decreases |s|
  {
    if s == [] {
      assert QuoteBody(s) + [QUOTE] + rest == [QUOTE] + rest;
    } else if HighSurrogate(s[0]) && |s| > 1 && LowSurrogate(s[1]) {
      QuoteRoundTrip(s[2..], rest);
      ReadsPair(s, rest);
    } else {
      QuoteRoundTrip(s[1..], rest);
      ReadsSingle(s, rest);
    }
  }

  /** Every surrogate is one half of a pair. */
  predicate WellFormed(t: Text)
    decreases |t|
  {
    if t == [] then true
    else if HighSurrogate(t[0]) then |t| > 1 && LowSurrogate(t[1]) && WellFormed(t[2..])
    else !LowSurrogate(t[0]) && WellFormed(t[1..])
  }

  lemma {:induction false} WellFormedAppend(s: Text, t: Text)
    requires WellFormed(s) && WellFormed(t)
    ensures WellFormed(s + t)
    decreases |s|
  {
    if s == [] {
      assert s + t == t;
    } else if HighSurrogate(s[0]) {
      WellFormedAppend(s[2..], t);
      assert (s + t)[2..] == s[2..] + t;
    } else {
      WellFormedAppend(s[1..], t);
      assert (s + t)[1..] == s[1..] + t;
    }
  }

  lemma {:induction false} PlainIsWellFormed(t: Text)
    requires forall i | 0 <= i < |t| :: t[i] < 0xD800
    ensures WellFormed(t)
    decreases |t|
  {
    if t != [] {
      PlainIsWellFormed(t[1..]);
    }
  }

  /** Quoted text can be encoded as UTF-8 without loss. */
  lemma {:induction false} QuoteIsWellFormed(s: Text)
    ensures WellFormed(Quote(s))
  {
    BodyIsWellFormed(s);
    PlainIsWellFormed([QUOTE]);
    WellFormedAppend([QUOTE], QuoteBody(s));
    WellFormedAppend([QUOTE] + QuoteBody(s), [QUOTE]);
  }

  lemma {:induction false} BodyIsWellFormed(s: Text)
    ensures WellFormed(QuoteBody(s))
    decreases |s|
  {
    if s != [] {
      if HighSurrogate(s[0]) && |s| > 1 && LowSurrogate(s[1]) {
        BodyIsWellFormed(s[2..]);
        assert ([s[0], s[1]] + QuoteBody(s[2..]))[2..] == QuoteBody(s[2..]);
      } else {
        BodyIsWellFormed(s[1..]);
        EscapeIsWellFormed(s[0]);
        WellFormedAppend(Escape(s[0]), QuoteBody(s[1..]));
      }
    }
  }

  lemma EscapeIsWellFormed(u: Unit)
    ensures WellFormed(Escape(u))
  {
    if ShortEscape(u).Some? || u < 32 || HighSurrogate(u) || LowSurrogate(u) {
      PlainIsWellFormed(Escape(u));
    } else {
      assert WellFormed([u][1..]);
    }
  }

  // ---------- integers ----------

  predicate IsDigit(u: Unit) {
    48 <= u <= 57
  }

  function Digits(n: nat): (t: Text)
    ensures t != []
  {
    if n < 10 then [48 + n] else Digits(n / 10) + [48 + n % 10]
  }

  const MINUS: Unit := 45

  function Decimal(n: int): Text {
    if n < 0 then [MINUS] + Digits(-n) else Digits(n)
  }

  /** How many digits the text starts with. */
  function DigitCount(t: Text): (n: nat)
    ensures n <= |t|
  {
    if t != [] && IsDigit(t[0]) then 1 + DigitCount(t[1..]) else 0
  }

  function Value(digits: Text): nat
    requires forall i | 0 <= i < |digits| :: IsDigit(digits[i])
  {
    if digits == [] then 0
    else
      var last := digits[|digits| - 1];
      assert IsDigit(last);
      Value(digits[..|digits| - 1]) * 10 + (last as int - 48)
  }

  lemma {:induction false} CountedAreDigits(t: Text)
    ensures forall i | 0 <= i < DigitCount(t) :: IsDigit(t[i])
  {
    if t != [] && IsDigit(t[0]) {
      CountedAreDigits(t[1..]);
      forall i | 0 <= i < DigitCount(t) ensures IsDigit(t[i]) {
        if i > 0 {
          assert t[i] == t[1..][i - 1];
        }
      }
    }
  }

  function ReadNat(t: Text): (r: Option<(nat, Text)>)
    ensures r.Some? ==> |r.value.1| < |t|
  {
    var n := DigitCount(t);
    CountedAreDigits(t);
    if n == 0 then None else Some((Value(t[..n]), t[n..]))
  }

  function ReadInt(t: Text): (r: Option<(int, Text)>)
    ensures r.Some? ==> |r.value.1| < |t|
  {
    if t != [] && t[0] == MINUS then
      var r := ReadNat(t[1..]);
      if r.None? then None else Some((-(r.value.0 as int), r.value.1))
    else
      var r := ReadNat(t);
      if r.None? then None else Some((r.value.0, r.value.1))
  }

  lemma {:induction false} DigitsAreDigits(n: nat)
    ensures forall i | 0 <= i < |Digits(n)| :: IsDigit(Digits(n)[i])
    ensures Value(Digits(n)) == n
  {
    if n >= 10 {
      DigitsAreDigits(n / 10);
      assert Digits(n)[..|Digits(n)| - 1] == Digits(n / 10);
    } else {
      assert Digits(n)[..0] == [];
    }
  }

  lemma {:induction false} CountsAll(digits: Text, rest: Text)
    requires forall i | 0 <= i < |digits| :: IsDigit(digits[i])
    requires rest == [] || !IsDigit(rest[0])
    ensures DigitCount(digits + rest) == |digits|
  {
    if digits == [] {
      assert digits + rest == rest;
    } else {
      assert (digits + rest)[1..] == digits[1..] + rest;
      CountsAll(digits[1..], rest);
    }
  }

  lemma NatRoundTrip(n: nat, rest: Text)
    requires rest == [] || !IsDigit(rest[0])
    ensures ReadNat(Digits(n) + rest) == Some((n, rest))
  {
    DigitsAreDigits(n);
    CountsAll(Digits(n), rest);
    assert (Digits(n) + rest)[..|Digits(n)|] == Digits(n) && (Digits(n) + rest)[|Digits(n)|..] == rest;
  }

  lemma NegativeRoundTrip(n: nat, rest: Text)
    requires rest == [] || !IsDigit(rest[0])
    ensures ReadInt([MINUS] + (Digits(n) + rest)) == Some((-(n as int), rest))
  {
    NatRoundTrip(n, rest);
    var t := [MINUS] + (Digits(n) + rest);
    assert t[1..] == Digits(n) + rest;
  }

  lemma PositiveRoundTrip(n: nat, rest: Text)
    requires rest == [] || !IsDigit(rest[0])
    ensures ReadInt(Digits(n) + rest) == Some((n, rest))
  {
    NatRoundTrip(n, rest);
    DigitsAreDigits(n);
    assert (Digits(n) + rest)[0] == Digits(n)[0];
  }

  /** Reading what was printed gives the integer back, when no further digit follows. */
  lemma IntRoundTrip(n: int, rest: Text)
    requires rest == [] || !IsDigit(rest[0])
    ensures ReadInt(Decimal(n) + rest) == Some((n, rest))
  {
    if n < 0 {
      NegativeRoundTrip(-n, rest);
      assert Decimal(n) + rest == [MINUS] + (Digits(-n) + rest);
    } else {
      PositiveRoundTrip(n, rest);
    }
  }

  /** No number but zero starts with a zero. */
  lemma {:induction false} NoLeadingZero(n: nat)
    ensures Digits(n)[0] == 48 <==> n == 0
  {
    if n >= 10 {
      NoLeadingZero(n / 10);
    }
  }

  lemma DecimalStart(n: int)
    ensures Decimal(n) != [] && (Decimal(n)[0] == MINUS || IsDigit(Decimal(n)[0]))
    ensures forall i | 0 <= i < |Decimal(n)| :: Decimal(n)[i] < 0xD800
  {
    DigitsAreDigits(if n < 0 then -n else n);
  }
}
