/** The UUID texts a stored page can hold, and the canonical form of each (Python's
    `uuid.UUID` as 015_status_page_item_shapes.py uses it). */
module Uuids {
  import opened Results

  function Pow16(n: nat): (p: nat)
    ensures p >= 1
  {
    if n == 0 then 1 else 16 * Pow16(n - 1)
  }

  const DIGITS := "0123456789abcdef"

  function Digit(n: nat): char
    requires n < 16
  {
    DIGITS[n]
  }

  predicate IsHex(c: char) {
    '0' <= c <= '9' || 'a' <= c <= 'f' || 'A' <= c <= 'F'
  }

  function DigitValue(c: char): (v: nat)
    requires IsHex(c)
    ensures v < 16
  {
    if '0' <= c <= '9' then (c as int) - ('0' as int)
    else if 'a' <= c <= 'f' then (c as int) - ('a' as int) + 10
    else (c as int) - ('A' as int) + 10
  }

  /** The number in k digits, the leading ones zero. */
  function Hex(n: nat, k: nat): (s: string)
    ensures |s| == k
  {
    if k == 0 then "" else Hex(n / 16, k - 1) + [Digit(n % 16)]
  }

  predicate AllHex(s: string) {
    forall i :: 0 <= i < |s| ==> IsHex(s[i])
  }

  function NumberOf(s: string): nat
    requires AllHex(s)
  {
    if s == "" then 0 else NumberOf(s[..|s| - 1]) * 16 + DigitValue(s[|s| - 1])
  }

  lemma DigitRoundTrip(n: nat)
    requires n < 16
    ensures IsHex(Digit(n)) && DigitValue(Digit(n)) == n
  {
  }

  lemma {:induction false} HexRoundTrip(n: nat, k: nat)
    requires n < Pow16(k)
    ensures AllHex(Hex(n, k)) && NumberOf(Hex(n, k)) == n
  {
    if k > 0 {
      HexRoundTrip(n / 16, k - 1);
      DigitRoundTrip(n % 16);
      assert Hex(n, k)[..k - 1] == Hex(n / 16, k - 1);
    }
  }

  // ---- Reading ----

  /** `s.replace(pattern, "")`. */
  function Without(s: string, pattern: string): string
    requires pattern != ""
  {
    if |s| < |pattern| then s
    else if s[..|pattern|] == pattern then Without(s[|pattern|..], pattern)
    else [s[0]] + Without(s[1..], pattern)
  }

  predicate IsBrace(c: char) {
    c == '{' || c == '}'
  }

  /** `s.strip("{}")`. */
  function Stripped(s: string): string {
    if s != "" && IsBrace(s[0]) then Stripped(s[1..])
    else if s != "" && IsBrace(s[|s| - 1]) then Stripped(s[..|s| - 1])
    else s
  }

  /** The 32 characters `UUID` reads as a number. */
  function Core(s: string): string {
    Without(Stripped(Without(Without(s, "urn:"), "uuid:")), "-")
  }

  /** What `int(text, 16)` makes of a text that is not plain digits (underscores, blanks,
      other scripts' digits): whatever it does, so for every such function. */
  type Lenient = string -> Option<int>

  function ParseInt16(s: string, lenient: Lenient): Option<int> {
    if s != "" && AllHex(s) then Some(NumberOf(s)) else lenient(s)
  }

  /** The number a text is a UUID of, if it is one. */
  function Parse(s: string, lenient: Lenient): (n: Option<nat>)
    ensures n.Some? ==> n.value < Pow16(32)
  {
    var core := Core(s);
    if |core| != 32 then None
    else
      match ParseInt16(core, lenient)
      case None => None
      case Some(n) => if 0 <= n < Pow16(32) then Some(n) else None
  }

  function Canonical(n: nat): string {
    var h := Hex(n, 32);
    Five(h[..8], h[8..12], h[12..16], h[16..20], h[20..])
  }

  /** `str(UUID(s))`, or None where it raises. */
  function Uuid(s: string, lenient: Lenient): Option<string> {
    match Parse(s, lenient)
    case None => None
    case Some(n) => Some(Canonical(n))
  }

  /** The stored form: 32 hex digits, plain or hyphenated 8-4-4-4-12. */
  predicate IsStoredForm(s: string) {
    || (|s| == 32 && AllHex(s))
    || (|s| == 36 && s[8] == '-' && s[13] == '-' && s[18] == '-' && s[23] == '-'
        && AllHex(s[..8]) && AllHex(s[9..13]) && AllHex(s[14..18]) && AllHex(s[19..23]) && AllHex(s[24..]))
  }

  function StoredUuid(s: string, lenient: Lenient): Option<string> {
    if IsStoredForm(s) then Uuid(s, lenient) else None
  }

  // ---- A canonical text reads as the number it is of ----

  lemma {:induction false} WithoutAbsent(s: string, pattern: string, c: char)
    requires pattern != "" && c in pattern && c !in s
    ensures Without(s, pattern) == s
  {
    if |s| >= |pattern| {
      var i :| 0 <= i < |pattern| && pattern[i] == c;
      assert s[..|pattern|][i] != pattern[i];
      WithoutAbsent(s[1..], pattern, c);
    }
  }

  lemma {:induction false} HyphenGone(a: string, b: string)
    requires '-' !in a
    ensures Without(a + "-" + b, "-") == a + Without(b, "-")
  {
    var all := a + "-" + b;
    if a == "" {
      assert all[..1] == "-" && all[1..] == b;
    } else {
      HyphenGone(a[1..], b);
      assert all[1..] == a[1..] + "-" + b && all[..1] == [a[0]];
      assert [a[0]] + (a[1..] + Without(b, "-")) == a + Without(b, "-");
    }
  }

  lemma NoHyphen(s: string)
    requires AllHex(s)
    ensures '-' !in s && ':' !in s && '{' !in s && '}' !in s
  {
  }

  lemma PieceOf(h: string, from: nat, to: nat)
    requires AllHex(h) && from <= to <= |h|
    ensures AllHex(h[from..to]) && '-' !in h[from..to]
  {
    NoHyphen(h[from..to]);
  }

  function Five(a: string, b: string, c: string, d: string, e: string): string {
    a + "-" + b + "-" + c + "-" + d + "-" + e
  }

  lemma FiveNested(a: string, b: string, c: string, d: string, e: string)
    ensures Five(a, b, c, d, e) == a + "-" + (b + "-" + (c + "-" + (d + "-" + e)))
  {
  }

  lemma HyphensGone(a: string, b: string, c: string, d: string, e: string)
    requires '-' !in a && '-' !in b && '-' !in c && '-' !in d && '-' !in e
    ensures Without(Five(a, b, c, d, e), "-") == a + (b + (c + (d + e)))
  {
    FiveNested(a, b, c, d, e);
    HyphenGone(a, b + "-" + (c + "-" + (d + "-" + e)));
    HyphenGone(b, c + "-" + (d + "-" + e));
    HyphenGone(c, d + "-" + e);
    HyphenGone(d, e);
    WithoutAbsent(e, "-", '-');
  }

  lemma FiveCut(a: string, b: string, c: string, d: string, e: string)
    requires |a| == 8 && |b| == 4 && |c| == 4 && |d| == 4 && |e| == 12
    ensures var s := Five(a, b, c, d, e);
            && |s| == 36 && s[8] == '-' && s[13] == '-' && s[18] == '-' && s[23] == '-'
            && s[..8] == a && s[9..13] == b && s[14..18] == c && s[19..23] == d && s[24..] == e
  {
  }

  lemma WholeHex(h: string)
    requires |h| == 32
    ensures h[..8] + (h[8..12] + (h[12..16] + (h[16..20] + h[20..]))) == h
  {
  }

  lemma FivePieces(h: string)
    requires |h| == 32 && AllHex(h)
    ensures var s := Five(h[..8], h[8..12], h[12..16], h[16..20], h[20..]);
            && |s| == 36 && ':' !in s && Stripped(s) == s && Without(s, "-") == h && IsStoredForm(s)
  {
    var a, b, c, d, e := h[..8], h[8..12], h[12..16], h[16..20], h[20..];
    var s := Five(a, b, c, d, e);
    PieceOf(h, 0, 8); PieceOf(h, 8, 12); PieceOf(h, 12, 16); PieceOf(h, 16, 20); PieceOf(h, 20, 32);
    HyphensGone(a, b, c, d, e);
    WholeHex(h);
    FiveCut(a, b, c, d, e);
    NoHyphen(a); NoHyphen(b); NoHyphen(c); NoHyphen(d); NoHyphen(e);
    assert s[0] == s[..8][0] && s[35] == s[24..][11];
  }

  /** The canonical text of a number reads as that number, in a stored form. */
  lemma CanonicalReadsBack(n: nat, lenient: Lenient)
    requires n < Pow16(32)
    ensures Parse(Canonical(n), lenient) == Some(n) && IsStoredForm(Canonical(n))
  {
    HexRoundTrip(n, 32);
    FivePieces(Hex(n, 32));
    var s := Canonical(n);
    WithoutAbsent(s, "urn:", ':');
    WithoutAbsent(s, "uuid:", ':');
    assert Core(s) == Hex(n, 32);
  }

  /** The canonical form of a canonical form is itself. */
  lemma UuidIsIdempotent(s: string, lenient: Lenient)
    requires Uuid(s, lenient).Some?
    ensures Uuid(Uuid(s, lenient).value, lenient) == Uuid(s, lenient)
    ensures StoredUuid(Uuid(s, lenient).value, lenient) == Uuid(s, lenient)
    ensures Parse(Uuid(s, lenient).value, lenient) == Parse(s, lenient)
  {
    CanonicalReadsBack(Parse(s, lenient).value, lenient);
  }
}
