/** The text of a JSON log line (logging_config.py): what `json.dumps` writes, then each lone
    surrogate and each character a reader may break a line at replaced by an escape. A text is
    its code points, surrogates among them; the reader is the one of RFC 8259, section 7. */
module LogLine {
  import opened Results

  type Text = seq<nat>

  const QUOTE: nat := 34
  const BACKSLASH: nat := 92
  const LETTER_U: nat := 117

  predicate IsSurrogate(c: nat) {
    0xD800 <= c <= 0xDFFF
  }

  predicate IsLineBreak(c: nat) {
    c == 0x85 || c == 0x2028 || c == 0x2029
  }

  // ---- Hexadecimal ----

  function HexDigit(n: nat): nat
    requires n < 16
  {
    if n < 10 then 48 + n else 87 + n
  }

  function Hex4(n: nat): Text
    requires n < 0x1_0000
  {
    [HexDigit(n / 0x1000), HexDigit(n / 0x100 % 16), HexDigit(n / 16 % 16), HexDigit(n % 16)]
  }

  /** The value of a hexadecimal digit of either case. */
  function HexValue(c: nat): Option<nat> {
    if 48 <= c <= 57 then Some(c - 48)
    else if 97 <= c <= 102 then Some(c - 87)
    else if 65 <= c <= 70 then Some(c - 55)
    else None
  }

  /** The code unit four hexadecimal digits at the head of the text spell. */
  function Unit(t: Text): (unit: Option<nat>)
    ensures unit.Some? ==> |t| >= 4
  {
    if |t| < 4 then None
    else
      match (HexValue(t[0]), HexValue(t[1]), HexValue(t[2]), HexValue(t[3]))
      case (Some(a), Some(b), Some(c), Some(d)) => Some(((a * 16 + b) * 16 + c) * 16 + d)
      case _ => None
  }

  // ---- Writing ----

  /** What `json.dumps(ensure_ascii=False)` writes for one character of a string. */
  function Escape(c: nat): Text {
    if c == QUOTE || c == BACKSLASH then [BACKSLASH, c]
    else if c == 8 then [BACKSLASH, 98]
    else if c == 9 then [BACKSLASH, 116]
    else if c == 10 then [BACKSLASH, 110]
    else if c == 12 then [BACKSLASH, 102]
    else if c == 13 then [BACKSLASH, 114]
    else if c < 32 then [BACKSLASH, LETTER_U] + Hex4(c)
    else [c]
  }

  function EscapeAll(s: Text): Text {
    if s == [] then [] else Escape(s[0]) + EscapeAll(s[1..])
  }

  function DumpString(s: Text): Text {
    [QUOTE] + EscapeAll(s) + [QUOTE]
  }

  /** A lone surrogate as an escaped backslash and `uXXXX`. */
  function EscapeSurrogate(c: nat): Text {
    if IsSurrogate(c) then [BACKSLASH, BACKSLASH, LETTER_U] + Hex4(c) else [c]
  }

  function EscapeBreak(c: nat): Text {
    if IsLineBreak(c) then [BACKSLASH, LETTER_U] + Hex4(c) else [c]
  }

  /** A substitution of single characters, over a text. */
  function Substituted(t: Text, sub: nat -> Text): Text {
    if t == [] then [] else sub(t[0]) + Substituted(t[1..], sub)
  }

  function Encodable(t: Text): Text {
    Substituted(Substituted(t, EscapeSurrogate), EscapeBreak)
  }

  /** What a line says of a text: a surrogate reads as the six characters of its escape. */
  function Shown(s: Text): Text {
    if s == [] then [] else ShownChar(s[0]) + Shown(s[1..])
  }

  function ShownChar(c: nat): Text {
    if IsSurrogate(c) then [BACKSLASH, LETTER_U] + Hex4(c) else [c]
  }

  // ---- Reading ----

  datatype Reading<T> = Unreadable | Read(value: T, rest: Text)

  function Prepend(c: nat, r: Reading<Text>): Reading<Text> {
    match r
    case Unreadable => Unreadable
    case Read(value, rest) => Read([c] + value, rest)
  }

  function ShortEscape(c: nat): Option<nat> {
    if c == QUOTE || c == BACKSLASH || c == 47 then Some(c)
    else if c == 98 then Some(8)
    else if c == 102 then Some(12)
    else if c == 110 then Some(10)
    else if c == 114 then Some(13)
    else if c == 116 then Some(9)
    else None
  }

  /** A low surrogate escaped at the head of the text, which completes a pair. */
  function LowHalf(t: Text): Option<nat> {
    if |t| >= 6 && t[0] == BACKSLASH && t[1] == LETTER_U && Unit(t[2..]).Some? && 0xDC00 <= Unit(t[2..]).value <= 0xDFFF
    then Unit(t[2..]) else None
  }

  /** The rest of a string after its opening quote. */
  function ReadChars(t: Text): (r: Reading<Text>)
    ensures r.Read? ==> |r.rest| < |t|
    decreases |t|
  {
    if t == [] then Unreadable
    else if t[0] == QUOTE then Read([], t[1..])
    else if t[0] < 32 then Unreadable
    else if t[0] != BACKSLASH then Prepend(t[0], ReadChars(t[1..]))
    else if |t| < 2 then Unreadable
    else if ShortEscape(t[1]).Some? then Prepend(ShortEscape(t[1]).value, ReadChars(t[2..]))
    else if t[1] != LETTER_U || Unit(t[2..]).None? then Unreadable
    else
      var unit := Unit(t[2..]).value;
      if 0xD800 <= unit <= 0xDBFF && LowHalf(t[6..]).Some?
      then Prepend(0x1_0000 + (unit - 0xD800) * 0x400 + (LowHalf(t[6..]).value - 0xDC00), ReadChars(t[12..]))
      else Prepend(unit, ReadChars(t[6..]))
  }

  function ReadString(t: Text): Reading<Text> {
    if t != [] && t[0] == QUOTE then ReadChars(t[1..]) else Unreadable
  }

  // ---- Substitution ----

  lemma {:induction false} SubstitutedAppend(a: Text, b: Text, sub: nat -> Text)
    ensures Substituted(a + b, sub) == Substituted(a, sub) + Substituted(b, sub)
  {
    if a == [] {
      assert a + b == b;
    } else {
      assert (a + b)[1..] == a[1..] + b;
      SubstitutedAppend(a[1..], b, sub);
    }
  }

  lemma EncodableAppend(a: Text, b: Text)
    ensures Encodable(a + b) == Encodable(a) + Encodable(b)
  {
    SubstitutedAppend(a, b, EscapeSurrogate);
    SubstitutedAppend(Substituted(a, EscapeSurrogate), Substituted(b, EscapeSurrogate), EscapeBreak);
  }

  predicate Plain(t: Text) {
    forall i :: 0 <= i < |t| ==> !IsSurrogate(t[i]) && !IsLineBreak(t[i])
  }

  lemma {:induction false} PlainStays(t: Text)
    requires Plain(t)
    ensures Encodable(t) == t
  {
    if t != [] {
      PlainStays(t[1..]);
      EncodableAppend([t[0]], t[1..]);
      assert t == [t[0]] + t[1..];
      assert Encodable([t[0]]) == [t[0]] by { One(t[0]); }
    }
  }

  /** What becomes of a text of one character. */
  lemma One(c: nat)
    ensures Encodable([c]) == if IsSurrogate(c) then [BACKSLASH, BACKSLASH, LETTER_U] + Hex4(c)
                              else if IsLineBreak(c) then [BACKSLASH, LETTER_U] + Hex4(c) else [c]
  {
    assert [c][1..] == [];
    assert Substituted([c], EscapeSurrogate) == EscapeSurrogate(c) + [];
    if IsSurrogate(c) {
      var six := EscapeSurrogate(c);
      assert six + [] == six;
      NoBreaks(six);
    } else {
      assert Substituted([c], EscapeBreak) == EscapeBreak(c) + [];
    }
  }

  lemma {:induction false} NoBreaks(t: Text)
    requires Plain(t)
    ensures Substituted(t, EscapeBreak) == t
  {
    if t != [] {
      NoBreaks(t[1..]);
      assert t == [t[0]] + t[1..];
    }
  }

  // ---- Reading back ----

  /** One character of a string as it leaves the formatter. */
  function Written(c: nat): Text {
    if IsSurrogate(c) then [BACKSLASH, BACKSLASH, LETTER_U] + Hex4(c)
    else if IsLineBreak(c) then [BACKSLASH, LETTER_U] + Hex4(c)
    else Escape(c)
  }

  lemma EncodedEscape(c: nat)
    ensures Encodable(Escape(c)) == Written(c)
  {
    if c >= 32 && c != QUOTE && c != BACKSLASH {
      One(c);
    } else {
      PlainStays(Escape(c));
    }
  }

  lemma DigitReadsBack(d: nat)
    requires d < 16
    ensures HexValue(HexDigit(d)) == Some(d) && HexDigit(d) >= 48 && HexDigit(d) <= 102
  {
  }

  lemma DigitsOf(n: nat)
    requires n < 0x1_0000
    ensures n == ((n / 0x1000 * 16 + n / 0x100 % 16) * 16 + n / 16 % 16) * 16 + n % 16
  {
    assert n / 16 == n / 0x100 * 16 + n / 16 % 16;
    assert n / 0x100 == n / 0x1000 * 16 + n / 0x100 % 16;
  }

  lemma UnitOfHex(n: nat, t: Text)
    requires n < 0x1_0000
    ensures Unit(Hex4(n) + t) == Some(n)
  {
    var all := Hex4(n) + t;
    assert all[..4] == Hex4(n);
    assert all[0] == Hex4(n)[0] && all[1] == Hex4(n)[1] && all[2] == Hex4(n)[2] && all[3] == Hex4(n)[3];
    DigitReadsBack(n / 0x1000);
    DigitReadsBack(n / 0x100 % 16);
    DigitReadsBack(n / 16 % 16);
    DigitReadsBack(n % 16);
    DigitsOf(n);
  }

  function PrependAll(s: Text, r: Reading<Text>): Reading<Text> {
    match r
    case Unreadable => Unreadable
    case Read(value, rest) => Read(s + value, rest)
  }

  lemma ReadEscapedUnit(n: nat, t: Text)
    requires n < 0x1_0000 && !IsSurrogate(n)
    ensures ReadChars([BACKSLASH, LETTER_U] + Hex4(n) + t) == Prepend(n, ReadChars(t))
  {
    var all := [BACKSLASH, LETTER_U] + Hex4(n) + t;
    assert all[2..] == Hex4(n) + t && all[6..] == t;
    UnitOfHex(n, t);
  }

  lemma ReadPlainChar(c: nat, t: Text)
    requires c >= 32 && c != QUOTE && c != BACKSLASH
    ensures ReadChars([c] + t) == Prepend(c, ReadChars(t))
  {
    assert ([c] + t)[1..] == t;
  }

  lemma PrependMore(c: nat, p: Text, r: Reading<Text>)
    ensures Prepend(c, PrependAll(p, r)) == PrependAll([c] + p, r)
  {
    if r.Read? { assert [c] + (p + r.value) == ([c] + p) + r.value; }
  }

  lemma PrependNone(r: Reading<Text>)
    ensures PrependAll([], r) == r
  {
    if r.Read? { assert [] + r.value == r.value; }
  }

  lemma {:induction false} ReadPlain(p: Text, t: Text)
    requires forall i :: 0 <= i < |p| ==> p[i] >= 32 && p[i] != QUOTE && p[i] != BACKSLASH
    ensures ReadChars(p + t) == PrependAll(p, ReadChars(t))
  {
    if p == [] {
      assert p + t == t;
      PrependNone(ReadChars(t));
    } else {
      var c, later := p[0], p[1..];
      ReadPlain(later, t);
      ReadPlainChar(c, later + t);
      PrependMore(c, later, ReadChars(t));
      assert [c] + later == p && [c] + (later + t) == p + t;
    }
  }

  lemma HexIsPlain(n: nat)
    requires n < 0x1_0000
    ensures forall i :: 0 <= i < 4 ==> Hex4(n)[i] >= 32 && Hex4(n)[i] != QUOTE && Hex4(n)[i] != BACKSLASH
  {
    DigitReadsBack(n / 0x1000);
    DigitReadsBack(n / 0x100 % 16);
    DigitReadsBack(n / 16 % 16);
    DigitReadsBack(n % 16);
  }

  lemma ReadShort(c: nat, letter: nat, t: Text)
    requires ShortEscape(letter) == Some(c)
    ensures ReadChars([BACKSLASH, letter] + t) == Prepend(c, ReadChars(t))
  {
    assert ([BACKSLASH, letter] + t)[2..] == t;
  }

  /** An escaped surrogate reads as six characters, none of them a surrogate. */
  lemma ReadSurrogate(c: nat, t: Text)
    requires IsSurrogate(c)
    ensures ReadChars(Written(c) + t) == PrependAll(ShownChar(c), ReadChars(t))
  {
    var tail := [LETTER_U] + Hex4(c);
    assert Written(c) == [BACKSLASH, BACKSLASH] + tail;
    assert Written(c) + t == [BACKSLASH, BACKSLASH] + (tail + t);
    ReadShort(BACKSLASH, BACKSLASH, tail + t);
    HexIsPlain(c);
    ReadPlain(tail, t);
    PrependMore(BACKSLASH, tail, ReadChars(t));
    assert [BACKSLASH] + tail == ShownChar(c);
  }

  lemma ReadEscape(c: nat, t: Text)
    requires !IsSurrogate(c) && !IsLineBreak(c)
    ensures ReadChars(Escape(c) + t) == Prepend(c, ReadChars(t))
  {
    if c == QUOTE || c == BACKSLASH { ReadShort(c, c, t); }
    else if c == 8 { ReadShort(c, 98, t); }
    else if c == 9 { ReadShort(c, 116, t); }
    else if c == 10 { ReadShort(c, 110, t); }
    else if c == 12 { ReadShort(c, 102, t); }
    else if c == 13 { ReadShort(c, 114, t); }
    else if c < 32 { ReadEscapedUnit(c, t); }
    else { ReadPlainChar(c, t); }
  }

  lemma ReadWritten(c: nat, t: Text)
    ensures ReadChars(Written(c) + t) == PrependAll(ShownChar(c), ReadChars(t))
  {
    if IsSurrogate(c) { ReadSurrogate(c, t); }
    else if IsLineBreak(c) { ReadEscapedUnit(c, t); }
    else { ReadEscape(c, t); }
  }

  lemma Associate(a: Text, b: Text, c: Text)
    ensures (a + b) + c == a + (b + c)
  {
  }

  lemma ReadFirst(c: nat, later: Text, tail: Text)
    ensures ReadChars((Written(c) + later) + tail) == PrependAll(ShownChar(c), ReadChars(later + tail))
  {
    Associate(Written(c), later, tail);
    ReadWritten(c, later + tail);
  }

  lemma EscapedMore(s: Text)
    requires s != []
    ensures Encodable(EscapeAll(s)) == Written(s[0]) + Encodable(EscapeAll(s[1..]))
  {
    EncodableAppend(Escape(s[0]), EscapeAll(s[1..]));
    EncodedEscape(s[0]);
  }

  lemma ReadEnd(tail: Text, t: Text)
    requires tail == [QUOTE] + t
    ensures ReadChars(Encodable([]) + tail) == Read([], t)
  {
    assert Encodable([]) + tail == tail && tail[1..] == t;
  }

  lemma {:induction false} ReadAll(s: Text, tail: Text, t: Text)
    requires tail == [QUOTE] + t
    ensures ReadChars(Encodable(EscapeAll(s)) + tail) == Read(Shown(s), t)
  {
    if s == [] {
      ReadEnd(tail, t);
    } else {
      EscapedMore(s);
      ReadFirst(s[0], Encodable(EscapeAll(s[1..])), tail);
      ReadAll(s[1..], tail, t);
    }
  }

  lemma DumpedString(s: Text)
    ensures Encodable(DumpString(s)) == [QUOTE] + Encodable(EscapeAll(s)) + [QUOTE]
  {
    EncodableAppend([QUOTE] + EscapeAll(s), [QUOTE]);
    EncodableAppend([QUOTE], EscapeAll(s));
    One(QUOTE);
  }

  /** Every text reads back from a line with each surrogate as the six characters of its
      escape and everything else as it was, whatever follows it on the line. */
  lemma LineReadsBack(s: Text, t: Text)
    ensures ReadString(Encodable(DumpString(s)) + t) == Read(Shown(s), t)
  {
    DumpedString(s);
    QuotedBody(Encodable(EscapeAll(s)), t);
    ReadAll(s, [QUOTE] + t, t);
  }

  lemma QuotedBody(body: Text, t: Text)
    ensures ReadString([QUOTE] + body + [QUOTE] + t) == ReadChars(body + ([QUOTE] + t))
  {
    assert ([QUOTE] + body + [QUOTE] + t)[1..] == body + ([QUOTE] + t);
  }

  /** It reads back as it was exactly when it holds no surrogate. */
  lemma {:induction false} ReadsBackUnchanged(s: Text)
    ensures Shown(s) == s <==> forall i :: 0 <= i < |s| ==> !IsSurrogate(s[i])
  {
    if s != [] {
      ReadsBackUnchanged(s[1..]);
      ShownLonger(s[1..]);
      if !IsSurrogate(s[0]) {
        assert Shown(s) == [s[0]] + Shown(s[1..]);
        assert s == [s[0]] + s[1..];
        assert Shown(s)[1..] == Shown(s[1..]);
      }
    }
  }

  lemma {:induction false} ShownLonger(s: Text)
    ensures |Shown(s)| >= |s|
  {
    if s != [] { ShownLonger(s[1..]); }
  }

  /** What no character of a line can be: a surrogate, or one a reader breaks a line at. */
  predicate OneLine(t: Text) {
    forall i :: 0 <= i < |t| ==> t[i] >= 32 && !IsSurrogate(t[i]) && !IsLineBreak(t[i])
  }

  lemma WrittenIsOneLine(c: nat)
    ensures OneLine(Written(c))
  {
    if IsSurrogate(c) || IsLineBreak(c) || c < 32 {
      if c < 0x1_0000 { HexIsPlain(c); HexIsAscii(c); }
    }
  }

  lemma HexIsAscii(n: nat)
    requires n < 0x1_0000
    ensures forall i :: 0 <= i < 4 ==> 48 <= Hex4(n)[i] <= 102
  {
    DigitReadsBack(n / 0x1000);
    DigitReadsBack(n / 0x100 % 16);
    DigitReadsBack(n / 16 % 16);
    DigitReadsBack(n % 16);
  }

  lemma OneLineAppend(a: Text, b: Text)
    requires OneLine(a) && OneLine(b)
    ensures OneLine(a + b)
  {
  }

  lemma {:induction false} EscapedIsOneLine(s: Text)
    ensures OneLine(Encodable(EscapeAll(s)))
  {
    if s != [] {
      EncodableAppend(Escape(s[0]), EscapeAll(s[1..]));
      EncodedEscape(s[0]);
      EscapedIsOneLine(s[1..]);
      WrittenIsOneLine(s[0]);
      OneLineAppend(Written(s[0]), Encodable(EscapeAll(s[1..])));
    }
  }
}
