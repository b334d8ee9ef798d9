// Byte strings, fixed-width integers and hexadecimal text, as the pipeline's
// struct, int.to_bytes and bytes.hex calls produce and consume them.
module Bytes {
  import opened Options
  import opened Sequences

  type byte = b: int | 0 <= b < 256
  type bytes = seq<byte>
  type Digest = d: bytes | |d| == 32 witness seq(32, _ => 0)
  const NEWLINE: byte := 10
  const RETURN: byte := 13

  function Pow256(n: nat): (p: nat)
    ensures p > 0
  {
    if n == 0 then 1 else 256 * Pow256(n - 1)
  }

  lemma Pow256Values()
    ensures Pow256(1) == 0x100
    ensures Pow256(4) == 0x1_0000_0000
    ensures Pow256(8) == 0x1_0000_0000_0000_0000
  {
    assert Pow256(2) == 0x1_0000;
    assert Pow256(3) == 0x100_0000;
    assert Pow256(4) == 0x1_0000_0000;
    assert Pow256(5) == 0x100_0000_0000;
    assert Pow256(6) == 0x1_0000_0000_0000;
    assert Pow256(7) == 0x100_0000_0000_0000;
  }

  // ---- Fixed-width integers ----

  // The low `width` bytes of n, least significant first.
  function Little(n: nat, width: nat): (b: bytes)
    ensures |b| == width
  {
    if width == 0 then [] else [n % 256] + Little(n / 256, width - 1)
  }

  function FromLittle(b: bytes): nat {
    if b == [] then 0 else b[0] + 256 * FromLittle(b[1..])
  }

  // The low `width` bytes of n, most significant first.
  function Big(n: nat, width: nat): (b: bytes)
    ensures |b| == width
  {
    if width == 0 then [] else Big(n / 256, width - 1) + [n % 256]
  }

  function FromBig(b: bytes): nat {
    if b == [] then 0 else 256 * FromBig(b[..|b| - 1]) + b[|b| - 1]
  }

  lemma {:induction false} LittleDecodes(n: nat, width: nat)
    requires n < Pow256(width)
    ensures FromLittle(Little(n, width)) == n
  {
    if width > 0 {
      LittleDecodes(n / 256, width - 1);
      assert Little(n, width)[1..] == Little(n / 256, width - 1);
    }
  }

  // The only byte string of its length with that value.
  lemma {:induction false} LittleEncodes(b: bytes)
    ensures FromLittle(b) < Pow256(|b|)
    ensures Little(FromLittle(b), |b|) == b
  {
    if b != [] {
      LittleEncodes(b[1..]);
      assert b == [b[0]] + b[1..];
    }
  }

  // The low byte stands first in the one, and last in the other.
  lemma LowByte(n: nat, width: nat)
    requires width > 0
    ensures Little(n, width)[0] == n % 256 && Big(n, width)[width - 1] == n % 256
  {
    assert |Big(n / 256, width - 1)| == width - 1;
  }

  lemma {:induction false} BigDecodes(n: nat, width: nat)
    requires n < Pow256(width)
    ensures FromBig(Big(n, width)) == n
  {
    if width > 0 {
      BigDecodes(n / 256, width - 1);
      var b := Big(n, width);
      assert b[..|b| - 1] == Big(n / 256, width - 1);
    }
  }

  lemma {:induction false} BigEncodes(b: bytes)
    ensures FromBig(b) < Pow256(|b|)
    ensures Big(FromBig(b), |b|) == b
  {
    if b != [] {
      BigEncodes(b[..|b| - 1]);
      assert b == b[..|b| - 1] + [b[|b| - 1]];
    }
  }

  // ---- Hexadecimal text ----

  predicate HexDigit(c: char) {
    '0' <= c <= '9' || 'a' <= c <= 'f'
  }

  function DigitOf(n: nat): (c: char)
    requires n < 16
    ensures HexDigit(c)
  {
    if n < 10 then '0' + n as char else 'a' + (n - 10) as char
  }

  function DigitValue(c: char): (n: nat)
    requires HexDigit(c)
    ensures n < 16
  {
    if c <= '9' then (c - '0') as nat else (c - 'a') as nat + 10
  }

  function Hex(b: bytes): (s: string)
    ensures |s| == 2 * |b|
  {
    if b == [] then "" else [DigitOf(b[0] / 16), DigitOf(b[0] % 16)] + Hex(b[1..])
  }

  function Unhex(s: string): Option<bytes> {
    if s == "" then Some([])
    else if |s| == 1 || !HexDigit(s[0]) || !HexDigit(s[1]) then None
    else
      var tail :- Unhex(s[2..]);
      Some([DigitValue(s[0]) * 16 + DigitValue(s[1])] + tail)
  }

  predicate LowerHex(s: string, length: nat) {
    |s| == length && forall i | 0 <= i < |s| :: HexDigit(s[i])
  }

  lemma DigitInverse(n: nat)
    requires n < 16
    ensures DigitValue(DigitOf(n)) == n
  {
  }

  lemma UnhexStep(b: byte, s: string)
    ensures Unhex([DigitOf(b / 16), DigitOf(b % 16)] + s) ==
            if Unhex(s).Some? then Some([b] + Unhex(s).value) else None
  {
    DigitInverse(b / 16);
    DigitInverse(b % 16);
    assert ([DigitOf(b / 16), DigitOf(b % 16)] + s)[2..] == s;
  }

  // Reading back the text of a byte string, with more text behind it.
  lemma {:induction false} HexThen(b: bytes, tail: string)
    ensures Unhex(Hex(b) + tail) ==
            if Unhex(tail).Some? then Some(b + Unhex(tail).value) else None
  {
    if b == [] {
      assert Hex(b) + tail == tail;
      assert Unhex(tail).Some? ==> b + Unhex(tail).value == Unhex(tail).value;
    } else {
      var pair := [DigitOf(b[0] / 16), DigitOf(b[0] % 16)];
      assert Hex(b) + tail == pair + (Hex(b[1..]) + tail);
      UnhexStep(b[0], Hex(b[1..]) + tail);
      HexThen(b[1..], tail);
      assert b == [b[0]] + b[1..];
      assert Unhex(tail).Some? ==> [b[0]] + (b[1..] + Unhex(tail).value) == b + Unhex(tail).value;
    }
  }

  lemma PairOf(c: char, d: char)
    requires HexDigit(c) && HexDigit(d)
    ensures var b: byte := DigitValue(c) * 16 + DigitValue(d); DigitOf(b / 16) == c && DigitOf(b % 16) == d
  {
    var high, low := DigitValue(c), DigitValue(d);
    assert (high * 16 + low) / 16 == high && (high * 16 + low) % 16 == low;
    assert DigitOf(high) == c && DigitOf(low) == d;
  }

  lemma HexOne(b: byte, tail: bytes)
    ensures Hex([b] + tail) == [DigitOf(b / 16), DigitOf(b % 16)] + Hex(tail)
  {
    assert ([b] + tail)[1..] == tail;
  }

  // Writing back what was read.
  lemma {:induction false} UnhexExact(s: string, n: nat)
    requires LowerHex(s, 2 * n)
    ensures Unhex(s).Some? && |Unhex(s).value| == n && Hex(Unhex(s).value) == s
  {
    if n > 0 {
      var rest := s[2..];
      assert LowerHex(rest, 2 * (n - 1));
      UnhexExact(rest, n - 1);
      PairOf(s[0], s[1]);
      HexOne(DigitValue(s[0]) * 16 + DigitValue(s[1]), Unhex(rest).value);
      assert s == [s[0], s[1]] + rest;
    }
  }

  lemma {:induction false} HexIsLower(b: bytes)
    ensures LowerHex(Hex(b), 2 * |b|)
  {
    if b != [] {
      HexIsLower(b[1..]);
      assert forall i | 2 <= i < |Hex(b)| :: Hex(b)[i] == Hex(b[1..])[i - 2];
    }
  }

  lemma HexRoundTrip(b: bytes)
    ensures Unhex(Hex(b)) == Some(b)
  {
    HexThen(b, "");
    assert Hex(b) + "" == Hex(b);
    assert b + [] == b;
  }

  // The bytes of an ASCII literal.
  function Ascii(s: string): (b: bytes)
    ensures |b| == |s|
  {
    seq(|s|, i requires 0 <= i < |s| => s[i] as int % 256)
  }

  // ---- Concatenation ----

  function Flatten(parts: seq<bytes>): bytes {
    if parts == [] then [] else parts[0] + Flatten(parts[1..])
  }

  lemma {:induction false} FlattenConcat(a: seq<bytes>, b: seq<bytes>)
    ensures Flatten(a + b) == Flatten(a) + Flatten(b)
  {
    if a == [] {
      assert a + b == b;
    } else {
      FlattenConcat(a[1..], b);
      assert (a + b)[0] == a[0] && (a + b)[1..] == a[1..] + b;
      Regroup(a[0], Flatten(a[1..]), Flatten(b));
    }
  }
}
