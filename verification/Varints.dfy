// The base-128 integers of the verifier protocol: receipt.py, lines 22-28 and 42-52.
module Varints {
  import opened Options
  import opened Bytes

  // The reader gives up after this many bytes: shifts 0, 7, .., 63.
  const MAX_VARINT: nat := 10

  function Pow128(n: nat): (p: nat)
    ensures p > 0
  {
    if n == 0 then 1 else 128 * Pow128(n - 1)
  }

  function Varint(n: nat): (b: bytes)
    ensures |b| > 0
  {
    if n < 128 then [n] else [n % 128 + 128] + Varint(n / 128)
  }

  method EncodeVarint(value: nat) returns (out: bytes)
    ensures out == Varint(value)
  {
    var n := value;
    out := [];
    while n >= 128
      invariant out + Varint(n) == Varint(value)
    {
      var more: bytes := [n % 128 + 128];
      assert out + Varint(n) == (out + more) + Varint(n / 128);
      out := out + more;
      n := n / 128;
    }
    out := out + [n];
  }

  // The value at the front of data and the number of bytes it took, reading at
  // most `budget` bytes.
  function ReadVarint(data: bytes, budget: nat): (r: Option<(nat, nat)>)
    ensures r.Some? ==> 0 < r.value.1 <= |data| && r.value.1 <= budget
  {
    if budget == 0 || data == [] then None
    else if data[0] < 128 then Some((data[0], 1))
    else
      var (n, used) :- ReadVarint(data[1..], budget - 1);
      Some((data[0] - 128 + 128 * n, used + 1))
  }

  lemma Distribute(scale: nat, low: nat, high: nat)
    ensures scale * (low + 128 * high) == scale * low + (scale * 128) * high
  {
  }

  // The loop of pb_fields' inner `number`, which moves a cursor through data.
  method DecodeVarint(data: bytes, start: nat) returns (r: Option<nat>, pos: nat)
    requires start <= |data|
    ensures start <= pos <= |data|
    ensures var spec := ReadVarint(data[start..], MAX_VARINT);
            if spec.Some? then r == Some(spec.value.0) && pos == start + spec.value.1 else r == None
  {
    pos := start;
    var value, i, scale := 0, 0, 1;
    ghost var spec := ReadVarint(data[start..], MAX_VARINT);
    while i < MAX_VARINT
      invariant i <= MAX_VARINT && pos == start + i && pos <= |data| && scale > 0
      invariant var rest := ReadVarint(data[pos..], MAX_VARINT - i);
                if rest.Some?
                then spec == Some((value + scale * rest.value.0, i + rest.value.1))
                else spec == None
    {
      if pos >= |data| {
        return None, pos;
      }
      var b := data[pos];
      assert data[pos..][1..] == data[pos + 1..];
      ghost var rest := ReadVarint(data[pos + 1..], MAX_VARINT - (i + 1));
      if b >= 128 && rest.Some? {
        Distribute(scale, b - 128, rest.value.0);
      }
      pos, i := pos + 1, i + 1;
      value, scale := value + scale * (b % 128), scale * 128;
      if b < 128 {
        return Some(value), pos;
      }
    }
    return None, pos;
  }

  // ---- What the encoding guarantees ----

  lemma {:induction false} VarintLength(n: nat, k: nat)
    requires k > 0
    ensures |Varint(n)| <= k <==> n < Pow128(k)
  {
    if n < 128 {
      assert Pow128(k) == 128 * Pow128(k - 1);
    } else if k > 1 {
      VarintLength(n / 128, k - 1);
    }
  }

  // An encoded number is read back exactly, whatever follows it, if and only if
  // it fits the reader's budget.
  lemma {:induction false} ReadEncoded(n: nat, rest: bytes, budget: nat)
    ensures ReadVarint(Varint(n) + rest, budget) ==
            if |Varint(n)| <= budget then Some((n, |Varint(n)|)) else None
  {
    if n >= 128 && budget > 0 {
      assert (Varint(n) + rest)[1..] == Varint(n / 128) + rest;
      ReadEncoded(n / 128, rest, budget - 1);
    }
  }

  // With the source's ten-byte budget the bound is seventy bits.
  lemma VarintRoundTrip(n: nat, rest: bytes)
    ensures ReadVarint(Varint(n) + rest, MAX_VARINT) ==
            if n < Pow128(MAX_VARINT) then Some((n, |Varint(n)|)) else None
    ensures Pow128(MAX_VARINT) == 0x40_0000_0000_0000_0000
  {
    VarintLength(n, MAX_VARINT);
    ReadEncoded(n, rest, MAX_VARINT);
    assert Pow128(5) == 0x8_0000_0000;
  }

  lemma {:induction false} ReadValueBound(data: bytes, budget: nat)
    requires ReadVarint(data, budget).Some?
    ensures var (n, used) := ReadVarint(data, budget).value; n < Pow128(used)
  {
    if data[0] >= 128 {
      ReadValueBound(data[1..], budget - 1);
    } else {
      assert Pow128(1) == 128;
    }
  }

  // The reader accepts padded encodings, but none shorter than Varint's.
  lemma VarintIsShortest(data: bytes)
    requires ReadVarint(data, MAX_VARINT).Some?
    ensures var (n, used) := ReadVarint(data, MAX_VARINT).value;
            |Varint(n)| <= used && n < Pow128(MAX_VARINT)
  {
    ReadValueBound(data, MAX_VARINT);
    var (n, used) := ReadVarint(data, MAX_VARINT).value;
    VarintLength(n, used);
    VarintLength(n, MAX_VARINT);
  }

  // What is read does not depend on the bytes behind it.
  lemma {:induction false} ReadPrefix(data: bytes, tail: bytes, budget: nat)
    requires ReadVarint(data, budget).Some?
    ensures ReadVarint(data + tail, budget) == ReadVarint(data, budget)
  {
    if data[0] >= 128 {
      assert (data + tail)[1..] == data[1..] + tail;
      ReadPrefix(data[1..], tail, budget - 1);
    }
  }

  lemma VarintPrefixFree(m: nat, n: nat, s: bytes, t: bytes)
    requires Varint(m) + s == Varint(n) + t
    ensures m == n && s == t
  {
    var budget := |Varint(m)| + |Varint(n)|;
    ReadEncoded(m, s, budget);
    ReadEncoded(n, t, budget);
    assert s == (Varint(m) + s)[|Varint(m)|..];
    assert t == (Varint(n) + t)[|Varint(n)|..];
  }

  // ---- The packed words of an image digest ----

  function Packed(words: seq<nat>): bytes {
    if words == [] then [] else Varint(words[0]) + Packed(words[1..])
  }

  lemma {:induction false} PackedInjective(a: seq<nat>, b: seq<nat>)
    requires Packed(a) == Packed(b)
    ensures a == b
  {
    if a != [] && b != [] {
      VarintPrefixFree(a[0], b[0], Packed(a[1..]), Packed(b[1..]));
      PackedInjective(a[1..], b[1..]);
    }
  }
}
