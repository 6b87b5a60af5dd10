/** server/internal/library/uuid.go: random version-4 UUIDs (section 5.4 of RFC 9562) as
    text, and why the storage keys built on them never collide. */
module Uuid {
  import opened Tables

  function HexDigit(n: bv8): (c: char)
    requires n < 16
    ensures c != '.' && c != '-'
  {
    if n == 0 then '0' else if n == 1 then '1' else if n == 2 then '2' else if n == 3 then '3'
    else if n == 4 then '4' else if n == 5 then '5' else if n == 6 then '6' else if n == 7 then '7'
    else if n == 8 then '8' else if n == 9 then '9' else if n == 10 then 'a' else if n == 11 then 'b'
    else if n == 12 then 'c' else if n == 13 then 'd' else if n == 14 then 'e' else 'f'
  }

  lemma HexDigitInjective(m: bv8, n: bv8)
    requires m < 16 && n < 16 && HexDigit(m) == HexDigit(n)
    ensures m == n
  {
  }

  function HexValue(c: char): int {
    if '0' <= c <= '9' then c as int - '0' as int else c as int - 'a' as int + 10
  }

  lemma HexDigitIsTheValue(n: bv8)
    requires n < 16
    ensures ('0' <= HexDigit(n) <= '9' || 'a' <= HexDigit(n) <= 'f') && HexValue(HexDigit(n)) == n as int
  {
  }

  /** %x of a byte slice */
  function Hex(bytes: seq<bv8>): (s: string)
    ensures |s| == 2 * |bytes|
    ensures forall i :: 0 <= i < |s| ==> s[i] != '.' && s[i] != '-'
    ensures forall i :: 0 <= i < |bytes| ==> s[2 * i] == HexDigit(bytes[i] >> 4)
    ensures forall i :: 0 <= i < |bytes| ==> s[2 * i + 1] == HexDigit(bytes[i] & 15)
  {
    if bytes == [] then ""
    else Hex(bytes[..|bytes| - 1]) + [HexDigit(bytes[|bytes| - 1] >> 4), HexDigit(bytes[|bytes| - 1] & 15)]
  }

  lemma NibblesMakeTheByte(a: bv8, b: bv8)
    requires a >> 4 == b >> 4 && a & 15 == b & 15
    ensures a == b
  {
  }

  lemma HexInjective(a: seq<bv8>, b: seq<bv8>)
    requires Hex(a) == Hex(b)
    ensures a == b
  {
    assert |a| == |b|;
    forall i | 0 <= i < |a|
      ensures a[i] == b[i]
    {
      assert Hex(a)[2 * i] == Hex(b)[2 * i] && Hex(a)[2 * i + 1] == Hex(b)[2 * i + 1];
      HexDigitInjective(a[i] >> 4, b[i] >> 4);
      HexDigitInjective(a[i] & 15, b[i] & 15);
      NibblesMakeTheByte(a[i], b[i]);
    }
  }

  function Stamped(random: seq<bv8>): (b: seq<bv8>)
    requires |random| == 16
    ensures |b| == 16
  {
    random[6 := (random[6] & 0x0f) | 0x40][8 := (random[8] & 0x3f) | 0x80]
  }

  function Text(b: seq<bv8>): string
    requires |b| == 16
  {
    Hex(b[0..4]) + "-" + Hex(b[4..6]) + "-" + Hex(b[6..8]) + "-" + Hex(b[8..10]) + "-" + Hex(b[10..16])
  }

  /** What the storage layer relies on. */
  predicate UuidShaped(s: string) {
    |s| == 36 && forall i :: 0 <= i < |s| ==> s[i] != '.'
  }

  /** `random` is what the system's generator delivers, if it does. */
  method NewUUID(random: Option<seq<bv8>>) returns (text: Option<string>)
    requires random.Some? ==> |random.value| == 16
    ensures text == if random.Some? then Some(Text(Stamped(random.value))) else None
  {
    if random.None? {
      return None;
    }
    var b := new bv8[16](i requires 0 <= i < 16 => random.value[i]);
    b[6] := (b[6] & 0x0f) | 0x40;
    b[8] := (b[8] & 0x3f) | 0x80;
    assert b[..] == Stamped(random.value);
    text := Some(Hex(b[0..4]) + "-" + Hex(b[4..6]) + "-" + Hex(b[6..8]) + "-" + Hex(b[8..10]) + "-" + Hex(b[10..16]));
    assert b[0..4] == b[..][0..4] && b[4..6] == b[..][4..6] && b[6..8] == b[..][6..8];
    assert b[8..10] == b[..][8..10] && b[10..16] == b[..][10..16];
  }

  lemma StampedBits(x: bv8)
    ensures ((x & 0x0f) | 0x40) >> 4 == 4
    ensures 8 <= ((x & 0x3f) | 0x80) >> 4 <= 11
  {
  }

  /** Thirty-six characters, four dashes in place, version 4, variant 10xx, and no dot. */
  lemma TextIsVersion4(random: seq<bv8>)
    requires |random| == 16
    ensures var s := Text(Stamped(random));
      && UuidShaped(s)
      && (forall i :: 0 <= i < 36 ==> (s[i] == '-' <==> i in {8, 13, 18, 23}))
      && s[14] == '4' && s[19] in {'8', '9', 'a', 'b'}
  {
    var b := Stamped(random);
    StampedBits(random[6]);
    StampedBits(random[8]);
    assert b[6..8][0] == b[6] && b[8..10][0] == b[8];
    assert Hex(b[6..8])[2 * 0] == HexDigit(b[6] >> 4);
    assert Hex(b[8..10])[2 * 0] == HexDigit(b[8] >> 4);
  }

  lemma Fields(b: seq<bv8>)
    requires |b| == 16
    ensures var s := Text(b);
      && |s| == 36 && s[0..8] == Hex(b[0..4]) && s[9..13] == Hex(b[4..6]) && s[14..18] == Hex(b[6..8])
      && s[19..23] == Hex(b[8..10]) && s[24..36] == Hex(b[10..16])
  {
  }

  lemma Rejoined(b: seq<bv8>)
    requires |b| == 16
    ensures b == b[0..4] + b[4..6] + b[6..8] + b[8..10] + b[10..16]
  {
  }

  /** Main result: different identifiers have different texts. */
  lemma TextInjective(a: seq<bv8>, b: seq<bv8>)
    requires |a| == |b| == 16 && Text(a) == Text(b)
    ensures a == b
  {
    Fields(a);
    Fields(b);
    HexInjective(a[0..4], b[0..4]);
    HexInjective(a[4..6], b[4..6]);
    HexInjective(a[6..8], b[6..8]);
    HexInjective(a[8..10], b[8..10]);
    HexInjective(a[10..16], b[10..16]);
    Rejoined(a);
    Rejoined(b);
  }

  /** An audio key is never an artwork key, and artwork keys of different tracks differ,
      because the text has a fixed length. */
  lemma KeysNeverCollide(a: string, e: string, b: string, f: string)
    requires UuidShaped(a) && UuidShaped(b) && a != b && f != ""
    ensures a != b + f && a + e != b + f
  {
    assert (a + e)[..36] == a && (b + f)[..36] == b;
  }

  /** The 122 bits that are not fixed are those of the generator. */
  lemma StampKeepsTheRest(random: seq<bv8>)
    requires |random| == 16
    ensures var b := Stamped(random);
      && (forall i :: 0 <= i < 16 && i != 6 && i != 8 ==> b[i] == random[i])
      && b[6] & 0x0f == random[6] & 0x0f && b[8] & 0x3f == random[8] & 0x3f
  {
    LowBits(random[6]);
    LowBits(random[8]);
  }

  lemma LowBits(x: bv8)
    ensures ((x & 0x0f) | 0x40) & 0x0f == x & 0x0f && ((x & 0x3f) | 0x80) & 0x3f == x & 0x3f
  {
  }

  /** Main result: two generated texts are equal only if the generator gave the same 122 bits. */
  lemma EqualTextsEqualBits(a: seq<bv8>, b: seq<bv8>)
    requires |a| == |b| == 16 && Text(Stamped(a)) == Text(Stamped(b))
    ensures forall i :: 0 <= i < 16 && i != 6 && i != 8 ==> a[i] == b[i]
    ensures a[6] & 0x0f == b[6] & 0x0f && a[8] & 0x3f == b[8] & 0x3f
  {
    TextInjective(Stamped(a), Stamped(b));
    StampKeepsTheRest(a);
    StampKeepsTheRest(b);
  }
}
