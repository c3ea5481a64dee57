/**
 UTF-8 as defined in section 3 of RFC 3629. A Rust `&str` is modelled by its characters; this module
 says where each character lies in the encoded bytes, because the sources index strings by byte.
*/
module Utf8 {
  import opened Wrappers

  function EncodeChar(c: char): (bytes: Bytes)
    ensures |bytes| == Width(c)
    ensures !Continuation(bytes[0]) && forall k :: 0 < k < |bytes| ==> Continuation(bytes[k])
  {
    var cp := c as int;
    if cp < 0x80 then [cp as Byte]
    else if cp < 0x800 then [(0xC0 + cp / 64) as Byte, Tail(cp)]
    else if cp < 0x10000 then [(0xE0 + cp / 4096) as Byte, Tail(cp / 64), Tail(cp)]
    else [(0xF0 + cp / 262144) as Byte, Tail(cp / 4096), Tail(cp / 64), Tail(cp)]
  }

  /** A continuation byte holds six bits. */
  function Tail(n: nat): (b: Byte)
    ensures Continuation(b)
  {
    (0x80 + n % 64) as Byte
  }

  predicate Continuation(b: Byte) { 0x80 <= b < 0xC0 }

  function Width(c: char): (n: nat)
    ensures 1 <= n <= 4
  {
    var cp := c as int;
    if cp < 0x80 then 1 else if cp < 0x800 then 2 else if cp < 0x10000 then 3 else 4
  }

  /** The bits of the code point that the bytes of a character hold. */
  function Payload(bytes: Bytes): int {
    match |bytes|
    case 1 => bytes[0] as int
    case 2 => (bytes[0] as int - 0xC0) * 64 + Bits(bytes[1])
    case 3 => (bytes[0] as int - 0xE0) * 4096 + Bits(bytes[1]) * 64 + Bits(bytes[2])
    case 4 => (bytes[0] as int - 0xF0) * 262144 + Bits(bytes[1]) * 4096 + Bits(bytes[2]) * 64 + Bits(bytes[3])
    case _ => 0
  }

  function Bits(b: Byte): int { b as int - 0x80 }

  /** The bytes of a character hold its code point, and are as few as can hold it. */
  lemma EncodesCodePoint(c: char)
    ensures Payload(EncodeChar(c)) == c as int
    ensures match |EncodeChar(c)|
            case 1 => c as int < 0x80
            case 2 => 0x80 <= c as int < 0x800
            case 3 => 0x800 <= c as int < 0x1_0000
            case _ => 0x1_0000 <= c as int
  {
    var cp := c as int;
    LastBits(cp);
    if cp >= 0x800 { LastBits(cp / 64); }
    if cp >= 0x1_0000 { LastBits(cp / 4096); }
    assert cp / 4096 == cp / 64 / 64 && cp / 262144 == cp / 4096 / 64;
    hide Tail, Bits;
  }

  lemma LastBits(n: nat)
    ensures n == 64 * (n / 64) + Bits(Tail(n))
  {
  }

  function Encode(s: string): Bytes {
    if s == [] then [] else Encode(s[..|s| - 1]) + EncodeChar(s[|s| - 1])
  }

  /** The byte offset of the `i`-th character of `s`. */
  function Off(s: string, i: nat): nat {
    if i == 0 then 0 else Off(s, i - 1) + if i <= |s| then Width(s[i - 1]) else 0
  }

  /** `str::len`. */
  function ByteLen(s: string): nat { Off(s, |s|) }

  /** `str::is_char_boundary`, as the standard library decides it from one byte. */
  predicate IsCharBoundary(bytes: Bytes, o: nat) {
    o == 0 || o == |bytes| || (o < |bytes| && !Continuation(bytes[o]))
  }

  // ── Offsets ──────────────────────────────────────────────────

  lemma {:induction false} OffGrows(s: string, i: nat, j: nat)
    requires i <= j <= |s|
    ensures Off(s, i) + (j - i) <= Off(s, j) <= Off(s, i) + 4 * (j - i)
    decreases j
  {
    if i < j { OffGrows(s, i, j - 1); }
  }

  lemma {:induction false} OffSlice(s: string, a: nat, b: nat, i: nat)
    requires a <= b <= |s| && i <= b - a
    ensures Off(s[a..b], i) == Off(s, a + i) - Off(s, a)
  {
    if i > 0 {
      OffSlice(s, a, b, i - 1);
      assert s[a..b][i - 1] == s[a + i - 1];
    }
  }

  lemma ByteLenSlice(s: string, a: nat, b: nat)
    requires a <= b <= |s|
    ensures ByteLen(s[a..b]) == Off(s, b) - Off(s, a)
  {
    OffSlice(s, a, b, b - a);
  }

  // ── Characters and bytes ─────────────────────────────────────

  lemma {:induction false} OffPrefix(s: string, n: nat, i: nat)
    requires i <= n <= |s|
    ensures Off(s[..n], i) == Off(s, i)
  {
    if i > 0 { OffPrefix(s, n, i - 1); }
  }

  lemma {:induction false} EncodedLength(s: string)
    ensures |Encode(s)| == ByteLen(s)
  {
    if s != [] {
      EncodedLength(s[..|s| - 1]);
      OffPrefix(s, |s| - 1, |s| - 1);
    }
  }

  /** The bytes from one character offset to the next are the encoding of that character. */
  lemma {:induction false} EncodedAt(s: string, i: nat)
    requires i < |s|
    ensures Off(s, i + 1) <= |Encode(s)|
    ensures Encode(s)[Off(s, i)..Off(s, i + 1)] == EncodeChar(s[i])
  {
    EncodedLength(s);
    if i == |s| - 1 {
      LastEncoded(s);
    } else {
      OffGrows(s, i + 1, |s|);
      EncodedAt(s[..|s| - 1], i);
      OffPrefix(s, |s| - 1, i);
      OffPrefix(s, |s| - 1, i + 1);
      SliceOfFront(Encode(s[..|s| - 1]), EncodeChar(s[|s| - 1]), Off(s, i), Off(s, i + 1));
    }
  }

  lemma LastEncoded(s: string)
    requires s != []
    ensures |Encode(s)| == ByteLen(s) && Encode(s)[Off(s, |s| - 1)..] == EncodeChar(s[|s| - 1])
  {
    var front := Encode(s[..|s| - 1]);
    EncodedLength(s[..|s| - 1]);
    OffPrefix(s, |s| - 1, |s| - 1);
    assert |front| == Off(s, |s| - 1);
    EncodedLength(s);
  }

  lemma SliceOfFront(front: Bytes, back: Bytes, a: nat, b: nat)
    requires a <= b <= |front|
    ensures (front + back)[a..b] == front[a..b]
  {
  }

  /** Every offset lies in exactly one character: `i` is the last character starting at or before it. */
  lemma {:induction false} CharContaining(s: string, o: nat) returns (i: nat)
    requires o < ByteLen(s)
    ensures i < |s| && Off(s, i) <= o < Off(s, i + 1)
  {
    i := |s| - 1;
    while Off(s, i) > o
      invariant i < |s| && o < Off(s, i + 1)
    {
      i := i - 1;
    }
  }

  /** Deciding a boundary from one byte is deciding whether a character starts (or the text ends) there. */
  lemma BoundaryIsOffset(s: string, o: nat)
    ensures o <= |Encode(s)| && IsCharBoundary(Encode(s), o) <==> exists i :: 0 <= i <= |s| && Off(s, i) == o
  {
    EncodedLength(s);
    if o < |Encode(s)| {
      var i := CharContaining(s, o);
      EncodedAt(s, i);
      assert Encode(s)[o] == Encode(s)[Off(s, i)..Off(s, i + 1)][o - Off(s, i)];
      if o > Off(s, i) {
        forall j | 0 <= j <= |s|
          ensures Off(s, j) != o
        {
          if j <= i { OffGrows(s, j, i); } else { OffGrows(s, i + 1, j); }
        }
      }
    } else {
      assert Off(s, |s|) == |Encode(s)|;
      forall j | 0 <= j <= |s|
        ensures Off(s, j) <= |Encode(s)|
      {
        OffGrows(s, j, |s|);
      }
    }
  }

  // ── Slicing by byte offsets ──────────────────────────────────

  ghost predicate IsOffset(s: string, o: nat) { exists i :: 0 <= i <= |s| && Off(s, i) == o }

  /** The character at a byte offset. */
  function CharAt(s: string, o: nat): (i: nat)
    requires IsOffset(s, o)
    ensures i <= |s| && Off(s, i) == o
  {
    CharAtFrom(s, o, 0)
  }

  function CharAtFrom(s: string, o: nat, from: nat): (i: nat)
    requires exists i :: from <= i <= |s| && Off(s, i) == o
    ensures from <= i <= |s| && Off(s, i) == o
    decreases |s| - from
  {
    if Off(s, from) == o then from else CharAtFrom(s, o, from + 1)
  }

  /** `&s[a..b]`: Rust panics unless both ends are character boundaries in order. */
  function SliceBytes(s: string, a: nat, b: nat): (r: string)
    requires a <= b && IsOffset(s, a) && IsOffset(s, b)
    ensures forall i, j :: 0 <= i <= j <= |s| && Off(s, i) == a && Off(s, j) == b ==> r == s[i..j]
  {
    var i, j := CharAt(s, a), CharAt(s, b);
    OffsetsAreInjective(s);
    s[i..j]
  }

  lemma OffsetsAreInjective(s: string)
    ensures forall i, j :: 0 <= i < j <= |s| ==> Off(s, i) < Off(s, j)
  {
    forall i, j | 0 <= i < j <= |s|
      ensures Off(s, i) < Off(s, j)
    {
      OffGrows(s, i, j);
    }
  }
}
