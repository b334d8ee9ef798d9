// The message encoder and fail-closed decoder of receipt.py, lines 31-66, and
// the verify request that lines 167-171 build with them.
module Protobuf {
  import opened Options
  import opened Bytes
  import opened Varints

  datatype Value = Number(n: nat) | Blob(data: bytes)

  datatype Field = Field(number: nat, value: Value)

  type Fields = map<nat, Value>

  function PbBytes(field: nat, body: bytes): bytes {
    Varint(field * 8 + 2) + Varint(|body|) + body
  }

  function PbNumber(field: nat, value: nat): bytes {
    Varint(field * 8) + Varint(value)
  }

  function EncodeField(f: Field): bytes {
    match f.value
    case Number(n) => PbNumber(f.number, n)
    case Blob(data) => PbBytes(f.number, data)
  }

  function EncodeAll(fs: seq<Field>): bytes {
    if fs == [] then [] else EncodeField(fs[0]) + EncodeAll(fs[1..])
  }

  // ---- Decoding ----

  // The field at the front of data and the number of bytes it took.
  function ReadField(data: bytes): (r: Option<(Field, nat)>)
    ensures r.Some? ==> 0 < r.value.1 <= |data|
  {
    var (key, k) :- ReadVarint(data, MAX_VARINT);
    if key / 8 == 0 || key % 8 !in {0, 2} then None
    else
      var (n, used) :- ReadVarint(data[k..], MAX_VARINT);
      var start := k + used;
      if key % 8 == 0 then Some((Field(key / 8, Number(n)), start))
      else if start + n > |data| then None
      else Some((Field(key / 8, Blob(data[start..start + n])), start + n))
  }

  function ParseFields(data: bytes, seen: Fields): Option<Fields>
    decreases |data|
  {
    if data == [] then Some(seen)
    else
      var (f, used) :- ReadField(data);
      if f.number in seen then None
      else ParseFields(data[used..], seen[f.number := f.value])
  }

  // ReadField in terms of positions in the whole message.
  lemma FieldAt(data: bytes, from: nat)
    requires from <= |data| && ReadVarint(data[from..], MAX_VARINT).Some?
    ensures var (key, k) := ReadVarint(data[from..], MAX_VARINT).value;
            var number := ReadVarint(data[from + k..], MAX_VARINT);
            ReadField(data[from..]) ==
            if key / 8 == 0 || key % 8 !in {0, 2} || number == None then None
            else
              var (n, used) := number.value;
              var pos := from + k + used;
              if key % 8 == 0 then Some((Field(key / 8, Number(n)), k + used))
              else if pos + n > |data| then None
              else Some((Field(key / 8, Blob(data[pos..pos + n])), k + used + n))
  {
    var (key, k) := ReadVarint(data[from..], MAX_VARINT).value;
    assert data[from..][k..] == data[from + k..];
    var number := ReadVarint(data[from + k..], MAX_VARINT);
    if number.Some? {
      var (n, used) := number.value;
      var start := k + used;
      assert from + start + n <= |data| ==>
          data[from..][start..start + n] == data[from + start..from + start + n];
    }
  }

  // One round of the decoder's loop.
  method DecodeField(data: bytes, from: nat, seen: Fields) returns (r: Option<Field>, pos: nat)
    requires from < |data|
    ensures var front := ReadField(data[from..]);
            if front.Some? && front.value.0.number !in seen
            then r == Some(front.value.0) && pos == from + front.value.1
            else r == None
  {
    var key;
    key, pos := DecodeVarint(data, from);
    if key == None { return None, pos; }
    FieldAt(data, from);
    var field, wire := key.value / 8, key.value % 8;
    if field == 0 || field in seen { return None, pos; }
    var number;
    if wire == 0 {
      number, pos := DecodeVarint(data, pos);
      if number == None { return None, pos; }
      return Some(Field(field, Number(number.value))), pos;
    }
    if wire != 2 { return None, pos; }
    number, pos := DecodeVarint(data, pos);
    if number == None || pos + number.value > |data| { return None, pos; }
    var end := pos + number.value;
    return Some(Field(field, Blob(data[pos..end]))), end;
  }

  method PbFields(data: bytes) returns (r: Option<Fields>)
    ensures r == ParseFields(data, map[])
  {
    var pos := 0;
    var result: Fields := map[];
    while pos < |data|
      invariant pos <= |data|
      invariant ParseFields(data, map[]) == ParseFields(data[pos..], result)
    {
      ghost var from := pos;
      var field;
      field, pos := DecodeField(data, pos, result);
      if field == None { return None; }
      result := result[field.value.number := field.value.value];
      assert data[from..][pos - from..] == data[pos..];
    }
    assert data[pos..] == [];
    return Some(result);
  }

  // ---- Compositionality ----

  lemma ReadFieldPrefix(data: bytes, tail: bytes)
    requires ReadField(data).Some?
    ensures ReadField(data + tail) == ReadField(data)
  {
    var (key, k) := ReadVarint(data, MAX_VARINT).value;
    ReadPrefix(data, tail, MAX_VARINT);
    var (n, used) := ReadVarint(data[k..], MAX_VARINT).value;
    ReadPrefix(data[k..], tail, MAX_VARINT);
    assert (data + tail)[k..] == data[k..] + tail;
    if key % 8 == 2 {
      var start := k + used;
      assert (data + tail)[start..start + n] == data[start..start + n];
    }
  }

  lemma ParseStep(data: bytes, seen: Fields, f: Field, used: nat)
    requires data != [] && ReadField(data) == Some((f, used))
    ensures ParseFields(data, seen) ==
            if f.number in seen then None else ParseFields(data[used..], seen[f.number := f.value])
  {
  }

  // The first field of a is the first field of a + b.
  lemma ParseFront(a: bytes, b: bytes, seen: Fields, f: Field, used: nat)
    requires a != [] && ReadField(a) == Some((f, used)) && f.number !in seen
    ensures ParseFields(a, seen) == ParseFields(a[used..], seen[f.number := f.value])
    ensures ParseFields(a + b, seen) == ParseFields(a[used..] + b, seen[f.number := f.value])
  {
    ReadFieldPrefix(a, b);
    ParseStep(a, seen, f, used);
    ParseStep(a + b, seen, f, used);
    assert (a + b)[used..] == a[used..] + b;
  }

  lemma {:induction false} ParseThen(a: bytes, b: bytes, seen: Fields)
    requires ParseFields(a, seen).Some?
    ensures ParseFields(a + b, seen) == ParseFields(b, ParseFields(a, seen).value)
    decreases |a|
  {
    if a == [] {
      assert a + b == b;
    } else {
      var (f, used) := ReadField(a).value;
      ParseFront(a, b, seen, f, used);
      ParseThen(a[used..], b, seen[f.number := f.value]);
    }
  }

  lemma {:induction false} ParseKeeps(b: bytes, seen: Fields)
    requires ParseFields(b, seen).Some?
    ensures seen.Keys <= ParseFields(b, seen).value.Keys
    decreases |b|
  {
    if b != [] {
      var (f, used) := ReadField(b).value;
      ParseKeeps(b[used..], seen[f.number := f.value]);
    }
  }

  // Fields seen before only forbid their own numbers.
  lemma {:induction false} ParseAfter(b: bytes, seen: Fields, more: Fields)
    requires seen.Keys !! more.Keys
    ensures ParseFields(b, seen + more) ==
            var alone := ParseFields(b, more);
            if alone.Some? && alone.value.Keys !! seen.Keys then Some(seen + alone.value) else None
    ensures var alone := ParseFields(b, more);
            alone.Some? ==> more.Keys <= alone.value.Keys
    decreases |b|
  {
    if b != [] && ReadField(b).Some? {
      var (f, used) := ReadField(b).value;
      if f.number !in more {
        var more' := more[f.number := f.value];
        if f.number in seen {
          if ParseFields(b[used..], more').Some? { ParseKeeps(b[used..], more'); }
        } else {
          ParseAfter(b[used..], seen, more');
          assert (seen + more)[f.number := f.value] == seen + more';
        }
        if ParseFields(b[used..], more').Some? { ParseKeeps(b[used..], more'); }
      }
    }
  }

  // If a parses to A, then a + b parses if and only if b parses to fields with
  // other numbers, and the result is the union.
  lemma {:induction false} PbFieldsCompose(a: bytes, b: bytes)
    requires ParseFields(a, map[]).Some?
    ensures var first := ParseFields(a, map[]).value;
            var second := ParseFields(b, map[]);
            ParseFields(a + b, map[]) ==
            if second.Some? && first.Keys !! second.value.Keys then Some(first + second.value) else None
  {
    ParseThen(a, b, map[]);
    var first := ParseFields(a, map[]).value;
    ParseAfter(b, first, map[]);
    assert first + map[] == first;
  }

  // ---- The accepted encodings ----

  // A field whose numbers all fit the reader's seventy bits.
  predicate Representable(f: Field) {
    && 0 < f.number
    && f.number * 8 + 2 < Pow128(MAX_VARINT)
    && (if f.value.Number? then f.value.n else |f.value.data|) < Pow128(MAX_VARINT)
  }

  predicate Decodable(fs: seq<Field>) {
    && (forall i | 0 <= i < |fs| :: Representable(fs[i]))
    && (forall i, j | 0 <= i < j < |fs| :: fs[i].number != fs[j].number)
  }

  ghost function FieldMap(fs: seq<Field>): Fields {
    if fs == [] then map[] else FieldMap(fs[1..])[fs[0].number := fs[0].value]
  }

  lemma {:induction false} FieldMapEntries(fs: seq<Field>, number: nat)
    ensures number in FieldMap(fs) <==> exists i | 0 <= i < |fs| :: fs[i].number == number
  {
    if fs != [] {
      FieldMapEntries(fs[1..], number);
      if exists i | 0 <= i < |fs| :: fs[i].number == number {
        var i :| 0 <= i < |fs| && fs[i].number == number;
        assert i > 0 ==> fs[1..][i - 1].number == number;
      }
    }
  }

  // The two numbers a field starts with.
  lemma ReadKeyThenNumber(key: nat, n: nat, tail: bytes)
    ensures var data := Varint(key) + Varint(n) + tail;
            && (key >= Pow128(MAX_VARINT) ==> ReadVarint(data, MAX_VARINT) == None)
            && (key < Pow128(MAX_VARINT) ==>
                  && ReadVarint(data, MAX_VARINT) == Some((key, |Varint(key)|))
                  && ReadVarint(data[|Varint(key)|..], MAX_VARINT) ==
                     if n < Pow128(MAX_VARINT) then Some((n, |Varint(n)|)) else None)
  {
    var data := Varint(key) + Varint(n) + tail;
    assert data == Varint(key) + (Varint(n) + tail);
    VarintRoundTrip(key, Varint(n) + tail);
    VarintRoundTrip(n, tail);
    assert data[|Varint(key)|..] == Varint(n) + tail;
  }

  lemma KeyBound(number: nat)
    ensures number * 8 < Pow128(MAX_VARINT) <==> number * 8 + 2 < Pow128(MAX_VARINT)
    ensures (number * 8) / 8 == number && (number * 8) % 8 == 0
    ensures (number * 8 + 2) / 8 == number && (number * 8 + 2) % 8 == 2
  {
    assert Pow128(MAX_VARINT) == 8 * (16 * Pow128(9));
  }

  lemma ReadEncodedNumber(field: nat, n: nat, rest: bytes)
    ensures ReadField(PbNumber(field, n) + rest) ==
            if Representable(Field(field, Number(n))) then Some((Field(field, Number(n)), |PbNumber(field, n)|))
            else None
  {
    var key := field * 8;
    KeyBound(field);
    ReadKeyThenNumber(key, n, rest);
    assert key + 2 < Pow128(MAX_VARINT) <==> key < Pow128(MAX_VARINT);
  }

  lemma ReadEncodedBytes(field: nat, body: bytes, rest: bytes)
    ensures ReadField(PbBytes(field, body) + rest) ==
            if Representable(Field(field, Blob(body))) then Some((Field(field, Blob(body)), |PbBytes(field, body)|))
            else None
  {
    var key, n := field * 8 + 2, |body|;
    var data := PbBytes(field, body) + rest;
    KeyBound(field);
    assert data == Varint(key) + Varint(n) + (body + rest);
    ReadKeyThenNumber(key, n, body + rest);
    var start := |Varint(key)| + |Varint(n)|;
    assert data[start..start + n] == body;
  }

  lemma ReadEncodedField(f: Field, rest: bytes)
    ensures ReadField(EncodeField(f) + rest) ==
            if Representable(f) then Some((f, |EncodeField(f)|)) else None
  {
    match f.value
    case Number(n) => ReadEncodedNumber(f.number, n, rest);
    case Blob(body) => ReadEncodedBytes(f.number, body, rest);
  }

  lemma EncodedNonEmpty(f: Field)
    ensures EncodeField(f) != []
  {
  }

  lemma EncodedCons(f: Field, rest: bytes)
    ensures ParseFields(EncodeField(f) + rest, map[]) ==
            var tail := ParseFields(rest, map[]);
            if Representable(f) && tail.Some? && f.number !in tail.value
            then Some(map[f.number := f.value] + tail.value) else None
  {
    ReadEncodedField(f, rest);
    var data := EncodeField(f) + rest;
    if Representable(f) {
      assert data[|EncodeField(f)|..] == rest;
      var one: Fields := map[f.number := f.value];
      ParseAfter(rest, one, map[]);
      assert one + map[] == one && map[][f.number := f.value] == one;
    } else {
      EncodedNonEmpty(f);
    }
  }

  lemma DecodableCons(fs: seq<Field>)
    requires fs != []
    ensures Decodable(fs) <==>
            Representable(fs[0]) && Decodable(fs[1..]) && fs[0].number !in FieldMap(fs[1..])
  {
    var f, rest := fs[0], fs[1..];
    FieldMapEntries(rest, f.number);
    if Representable(f) && Decodable(rest) && f.number !in FieldMap(rest) {
      forall i, j | 0 <= i < j < |fs| ensures fs[i].number != fs[j].number {
        assert fs[j] == rest[j - 1];
        assert i > 0 ==> fs[i] == rest[i - 1];
      }
    } else if Decodable(fs) {
      assert forall i | 0 <= i < |rest| :: rest[i] == fs[i + 1];
    }
  }

  // Any fields, in any order: the message is accepted exactly when every field
  // is representable and no number repeats, and then it means those fields.
  lemma {:induction false} EncodedMessage(fs: seq<Field>)
    ensures ParseFields(EncodeAll(fs), map[]) ==
            if Decodable(fs) then Some(FieldMap(fs)) else None
  {
    if fs != [] {
      EncodedMessage(fs[1..]);
      EncodedCons(fs[0], EncodeAll(fs[1..]));
      DecodableCons(fs);
      if Decodable(fs) {
        var one: Fields := map[fs[0].number := fs[0].value];
        assert one + FieldMap(fs[1..]) == FieldMap(fs);
      }
    }
  }

  // ---- The accepted messages ----

  // The bytes of one field: a positive number with wire type 0 or 2 as the key, and a
  // number, or a length and as many bytes.
  ghost predicate IsField(piece: bytes, f: Field) {
    f.number > 0 && ReadVarint(piece, 10).Some? &&
    var (key, k) := ReadVarint(piece, 10).value;
    match f.value
    case Number(n) => key == 8 * f.number && ReadVarint(piece[k..], 10) == Some((n, |piece| - k))
    case Blob(data) =>
      && key == 8 * f.number + 2 && |data| <= |piece| - k
      && ReadVarint(piece[k..], 10) == Some((|data|, |piece| - k - |data|)) && piece[|piece| - |data|..] == data
  }

  ghost predicate AreFields(pieces: seq<bytes>, fs: seq<Field>) {
    && |pieces| == |fs|
    && (forall i | 0 <= i < |fs| :: IsField(pieces[i], fs[i]))
    && forall i, j | 0 <= i < j < |fs| :: fs[i].number != fs[j].number
  }

  // A varint is read from its own bytes alone.
  lemma {:induction false} ReadAlone(data: bytes, budget: nat, cut: nat)
    requires ReadVarint(data, budget).Some? && ReadVarint(data, budget).value.1 <= cut <= |data|
    ensures ReadVarint(data[..cut], budget) == ReadVarint(data, budget)
  {
    if data[0] >= 128 {
      assert data[..cut][1..] == data[1..][..cut - 1];
      ReadAlone(data[1..], budget - 1, cut - 1);
    }
  }

  lemma FieldIsRead(piece: bytes, f: Field, rest: bytes)
    requires IsField(piece, f)
    ensures ReadField(piece + rest) == Some((f, |piece|)) && piece != []
  {
    var (key, k) := ReadVarint(piece, MAX_VARINT).value;
    assert key / 8 == f.number && key % 8 == key - 8 * f.number;
    ReadPrefix(piece, rest, MAX_VARINT);
    ReadPrefix(piece[k..], rest, MAX_VARINT);
    assert (piece + rest)[k..] == piece[k..] + rest;
    if f.value.Blob? {
      var from := |piece| - |f.value.data|;
      assert (piece + rest)[from..|piece|] == piece[from..];
    }
  }

  lemma ReadIsField(data: bytes, f: Field, used: nat)
    requires ReadField(data) == Some((f, used))
    ensures used <= |data| && IsField(data[..used], f)
  {
    var piece := data[..used];
    var (key, k) := ReadVarint(data, MAX_VARINT).value;
    var (n, more) := ReadVarint(data[k..], MAX_VARINT).value;
    ReadAlone(data, MAX_VARINT, used);
    ReadAlone(data[k..], MAX_VARINT, used - k);
    assert piece[k..] == data[k..][..used - k];
    assert key == 8 * (key / 8) + key % 8;
    if f.value.Blob? { assert piece[|piece| - |f.value.data|..] == f.value.data; }
  }

  lemma FieldCons(piece: bytes, f: Field, rest: bytes)
    requires IsField(piece, f)
    ensures ParseFields(piece + rest, map[]) ==
            var tail := ParseFields(rest, map[]);
            if tail.Some? && f.number !in tail.value then Some(map[f.number := f.value] + tail.value) else None
  {
    FieldIsRead(piece, f, rest);
    assert (piece + rest)[|piece|..] == rest;
    ParseStep(piece + rest, map[], f, |piece|);
    var one: Fields := map[f.number := f.value];
    ParseAfter(rest, one, map[]);
    assert one + map[] == one && map[][f.number := f.value] == one;
  }

  lemma AreFieldsCons(pieces: seq<bytes>, fs: seq<Field>)
    requires |pieces| == |fs| > 0
    ensures AreFields(pieces, fs) <==>
            IsField(pieces[0], fs[0]) && AreFields(pieces[1..], fs[1..]) && fs[0].number !in FieldMap(fs[1..])
  {
    var rest := fs[1..];
    FieldMapEntries(rest, fs[0].number);
    assert forall i | 0 <= i < |rest| :: rest[i] == fs[i + 1] && pieces[1..][i] == pieces[i + 1];
    if AreFields(pieces[1..], rest) && IsField(pieces[0], fs[0]) && fs[0].number !in FieldMap(rest) {
      forall i | 0 <= i < |fs| ensures IsField(pieces[i], fs[i]) {
        if i > 0 { assert IsField(pieces[1..][i - 1], rest[i - 1]); }
      }
      forall i, j | 0 <= i < j < |fs| ensures fs[i].number != fs[j].number {
        assert fs[j] == rest[j - 1];
        assert i > 0 ==> fs[i] == rest[i - 1];
      }
    }
  }

  lemma FieldsCons(piece: bytes, f: Field, more: seq<bytes>, others: seq<Field>)
    ensures Flatten([piece] + more) == piece + Flatten(more)
    ensures FieldMap([f] + others) == map[f.number := f.value] + FieldMap(others)
            || f.number in FieldMap(others)
  {
    assert ([piece] + more)[1..] == more && ([f] + others)[1..] == others;
  }

  lemma {:induction false} FieldsParse(pieces: seq<bytes>, fs: seq<Field>)
    requires AreFields(pieces, fs)
    ensures ParseFields(Flatten(pieces), map[]) == Some(FieldMap(fs))
  {
    if fs != [] {
      AreFieldsCons(pieces, fs);
      FieldsParse(pieces[1..], fs[1..]);
      FieldCons(pieces[0], fs[0], Flatten(pieces[1..]));
      assert map[fs[0].number := fs[0].value] + FieldMap(fs[1..]) == FieldMap(fs);
    }
  }

  lemma {:induction false} ParsedAreFields(data: bytes) returns (pieces: seq<bytes>, fs: seq<Field>)
    requires ParseFields(data, map[]).Some?
    ensures AreFields(pieces, fs) && Flatten(pieces) == data && ParseFields(data, map[]) == Some(FieldMap(fs))
    decreases |data|
  {
    pieces, fs := [], [];
    if data != [] {
      var (f, used) := ReadField(data).value;
      var piece, rest := data[..used], data[used..];
      ReadIsField(data, f, used);
      assert data == piece + rest;
      FieldCons(piece, f, rest);
      var more, others := ParsedAreFields(rest);
      pieces, fs := [piece] + more, [f] + others;
      assert pieces[1..] == more && fs[1..] == others;
      AreFieldsCons(pieces, fs);
      FieldsCons(piece, f, more, others);
    }
  }

  // The decoder accepts exactly the sequences of such fields with numbers that do not
  // repeat, and returns what they say.
  lemma AcceptsExactly(data: bytes, m: Fields)
    ensures ParseFields(data, map[]) == Some(m) <==>
            exists pieces, fs :: AreFields(pieces, fs) && Flatten(pieces) == data && FieldMap(fs) == m
  {
    if ParseFields(data, map[]) == Some(m) {
      var pieces, fs := ParsedAreFields(data);
    }
    if pieces, fs :| AreFields(pieces, fs) && Flatten(pieces) == data && FieldMap(fs) == m {
      FieldsParse(pieces, fs);
    }
  }

  // ---- The verify request ----

  function VerifyRequest(receipt: bytes, words: seq<nat>): bytes {
    var asset := PbBytes(1, receipt);
    var digest := PbBytes(1, Packed(words));
    PbBytes(9, PbBytes(1, asset) + PbBytes(2, digest))
  }

  lemma SingleField(field: nat, body: bytes)
    requires 0 < field < 16 && |body| < Pow128(MAX_VARINT)
    ensures ParseFields(PbBytes(field, body), map[]) == Some(map[field := Blob(body)])
  {
    var fs := [Field(field, Blob(body))];
    VarintRoundTrip(0, []);
    EncodedMessage(fs);
    assert EncodeAll(fs[1..]) == [] && PbBytes(field, body) + [] == PbBytes(field, body);
    assert FieldMap(fs[1..]) == map[];
    assert FieldMap(fs) == map[field := Blob(body)];
  }

  ghost function Inner(message: bytes, number: nat): bytes {
    var fields := ParseFields(message, map[]);
    if fields.Some? && number in fields.value && fields.value[number].Blob? then fields.value[number].data else []
  }

  lemma Disjoint(a: bytes, b: bytes, first: Fields, second: Fields)
    requires ParseFields(a, map[]) == Some(first) && ParseFields(b, map[]) == Some(second)
    requires first.Keys !! second.Keys
    ensures ParseFields(a + b, map[]) == Some(first + second)
  {
    PbFieldsCompose(a, b);
  }

  lemma TwoFields(left: bytes, right: bytes, asset: bytes, digest: bytes)
    requires left == PbBytes(1, asset) && right == PbBytes(2, digest)
    requires |asset| < Pow128(MAX_VARINT) && |digest| < Pow128(MAX_VARINT)
    ensures ParseFields(left + right, map[]) == Some(map[1 := Blob(asset)] + map[2 := Blob(digest)])
  {
    var first: Fields, second: Fields := map[1 := Blob(asset)], map[2 := Blob(digest)];
    SingleField(1, asset);
    SingleField(2, digest);
    assert first.Keys == {1} && second.Keys == {2};
    Disjoint(left, right, first, second);
  }

  lemma VerifyRequestDecodes(receipt: bytes, words: seq<nat>)
    requires |VerifyRequest(receipt, words)| < Pow128(MAX_VARINT)
    ensures var verify := Inner(VerifyRequest(receipt, words), 9);
            && Inner(Inner(verify, 1), 1) == receipt
            && Inner(Inner(verify, 2), 1) == Packed(words)
  {
    var asset, digest := PbBytes(1, receipt), PbBytes(1, Packed(words));
    var left, right := PbBytes(1, asset), PbBytes(2, digest);
    SingleField(9, left + right);
    TwoFields(left, right, asset, digest);
    SingleField(1, receipt);
    SingleField(1, Packed(words));
  }

  // A verifier that decodes the request by the same rules recovers the receipt
  // and the packed image words, so two requests are equal only for the same
  // receipt and the same image.
  lemma VerifyRequestInjective(r1: bytes, w1: seq<nat>, r2: bytes, w2: seq<nat>)
    requires |VerifyRequest(r1, w1)| < Pow128(MAX_VARINT)
    requires VerifyRequest(r1, w1) == VerifyRequest(r2, w2)
    ensures r1 == r2 && w1 == w2
  {
    VerifyRequestDecodes(r1, w1);
    VerifyRequestDecodes(r2, w2);
    PackedInjective(w1, w2);
  }
}
