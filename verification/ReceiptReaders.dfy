// The cursor class of receipt.py, lines 86-144. Every method consumes exactly
// what the reading function of the same name in Receipts consumes, and fails
// exactly when it does.
module ReceiptReaders {
  import opened Options
  import opened Bytes
  import Receipts

  class ReceiptReader {
    const data: bytes
    var pos: nat

    constructor (contents: bytes)
      ensures data == contents && pos == 0
    {
      data, pos := contents, 0;
    }

    ghost predicate Valid()
      reads this
    {
      pos <= |data|
    }

    ghost function Rest(): bytes
      requires Valid()
      reads this
    {
      data[pos..]
    }

    // A method that yields a value agrees with the reading function's result.
    ghost predicate Yields<T(!new)>(r: Option<T>, spec: Receipts.Parsed<T>)
      reads this
    {
      && Valid()
      && if spec.Some? then r == Some(spec.value.0) && Rest() == spec.value.1 else r == None
    }

    // A method that only skips a value.
    ghost predicate Skips<T(!new)>(ok: bool, spec: Receipts.Parsed<T>)
      reads this
    {
      && Valid()
      && ok == spec.Some?
      && (ok ==> Rest() == spec.value.1)
    }

    method Take(n: nat) returns (r: Option<bytes>)
      requires Valid()
      modifies this`pos
      ensures Yields(r, Receipts.Take(old(Rest()), n))
    {
      if n > |data| - pos { return None; }
      r := Some(data[pos..pos + n]);
      assert data[pos..][..n] == data[pos..pos + n];
      assert data[pos..][n..] == data[pos + n..];
      pos := pos + n;
    }

    method Uint(size: nat) returns (r: Option<nat>)
      requires Valid()
      modifies this`pos
      ensures Yields(r, Receipts.ReadUint(old(Rest()), size))
    {
      var raw := Take(size);
      if raw == None { return None; }
      return Some(FromLittle(raw.value));
    }

    method Vector() returns (r: Option<bytes>)
      requires Valid()
      modifies this`pos
      ensures Yields(r, Receipts.ReadVector(old(Rest())))
    {
      var length := Uint(8);
      if length == None { return None; }
      r := Take(length.value);
    }

    // The choice that every maybe() starts with: true for a whole value.
    method Whole() returns (r: Option<bool>)
      requires Valid()
      modifies this`pos
      ensures var spec := Receipts.ReadUint(old(Rest()), 4);
              && Valid()
              && (r.Some? <==> spec.Some? && spec.value.0 <= 1)
              && (r.Some? ==> r.value == (spec.value.0 == 0) && Rest() == spec.value.1)
    {
      var kind := Uint(4);
      if kind == None || kind.value > 1 { return None; }
      return Some(kind.value == 0);
    }

    method MaybeTake(n: nat, ghost read: bytes -> Receipts.Parsed<bytes>) returns (ok: bool)
      requires Valid()
      requires forall d :: read(d) == Receipts.Take(d, n)
      modifies this`pos
      ensures Skips(ok, Receipts.ReadMaybe(old(Rest()), read))
    {
      var whole := Whole();
      if whole == None { return false; }
      var taken := Take(if whole.value then n else 32);
      return taken.Some?;
    }

    method MaybeVector() returns (ok: bool)
      requires Valid()
      modifies this`pos
      ensures Skips(ok, Receipts.ReadMaybe(old(Rest()), Receipts.ReadVector))
    {
      var whole := Whole();
      if whole == None { return false; }
      var taken;
      if whole.value { taken := Vector(); } else { taken := Take(32); }
      return taken.Some?;
    }

    method Assumptions() returns (ok: bool)
      requires Valid()
      modifies this`pos
      ensures Skips(ok, Receipts.ReadAssumptions(old(Rest())))
    {
      var count := Uint(8);
      if count == None || count.value > Receipts.MAX_ASSUMPTIONS { return false; }
      var i := 0;
      ghost var spec := Receipts.ReadAssumptions(old(Rest()));
      while i < count.value
        invariant i <= count.value && Valid()
        invariant var left := Receipts.ReadAssumptionList(Rest(), count.value - i);
                  spec.Some? == left.Some? && (spec.Some? ==> spec.value.1 == left.value.1)
      {
        ok := MaybeTake(Receipts.ASSUMPTION_BYTES, Receipts.ReadAssumption);
        if !ok { return false; }
        i := i + 1;
      }
      return true;
    }

    method MaybeAssumptions() returns (ok: bool)
      requires Valid()
      modifies this`pos
      ensures Skips(ok, Receipts.ReadMaybe(old(Rest()), Receipts.ReadAssumptions))
    {
      var whole := Whole();
      if whole == None { return false; }
      if whole.value {
        ok := Assumptions();
      } else {
        var digest := Take(32);
        ok := digest.Some?;
      }
    }

    method Output() returns (ok: bool)
      requires Valid()
      modifies this`pos
      ensures Skips(ok, Receipts.ReadOutput(old(Rest())))
    {
      var present := Uint(1);
      if present == None || present.value > 1 { return false; }
      if present.value == 0 { return true; }
      ok := MaybeVector();
      if ok { ok := MaybeAssumptions(); }
    }

    method MaybeOutput() returns (ok: bool)
      requires Valid()
      modifies this`pos
      ensures Skips(ok, Receipts.ReadMaybe(old(Rest()), Receipts.ReadOutput))
    {
      var whole := Whole();
      if whole == None { return false; }
      if whole.value {
        ok := Output();
      } else {
        var digest := Take(32);
        ok := digest.Some?;
      }
    }

    method MaybeInput() returns (ok: bool)
      requires Valid()
      modifies this`pos
      ensures Skips(ok, Receipts.ReadMaybe(old(Rest()), Receipts.ReadInput))
    {
      var whole := Whole();
      if whole == None { return false; }
      if whole.value {
        var present := Uint(1);
        ok := present == Some(0);
      } else {
        var digest := Take(32);
        ok := digest.Some?;
      }
    }

    method Claim() returns (ok: bool)
      requires Valid()
      modifies this`pos
      ensures Skips(ok, Receipts.ReadClaim(old(Rest())))
    {
      ok := MaybeTake(Receipts.SYSTEM_STATE_BYTES, Receipts.ReadSystemState);
      if !ok { return false; }
      ok := MaybeTake(Receipts.SYSTEM_STATE_BYTES, Receipts.ReadSystemState);
      if !ok { return false; }
      var system := Uint(4);
      if system != Some(0) { return false; }
      var user := Uint(4);
      if user != Some(0) { return false; }
      ok := MaybeInput();
      if !ok { return false; }
      ok := MaybeOutput();
    }

    method MaybeClaim() returns (ok: bool)
      requires Valid()
      modifies this`pos
      ensures Skips(ok, Receipts.ReadMaybe(old(Rest()), Receipts.ReadClaim))
    {
      var whole := Whole();
      if whole == None { return false; }
      if whole.value {
        ok := Claim();
      } else {
        var digest := Take(32);
        ok := digest.Some?;
      }
    }

    // The seal, parameters and journal of the one receipt the bytes encode.
    method Groth16() returns (r: Option<(bytes, bytes, bytes)>)
      requires pos == 0
      modifies this`pos
      ensures var spec := Receipts.Groth16(data);
              r == if spec.Some? then Some((spec.value.seal, spec.value.parameters, spec.value.journal)) else None
    {
      assert Rest() == data;
      var kind := Uint(4);
      if kind != Some(Receipts.GROTH16) { return None; }
      var seal := Vector();
      if seal == None || |seal.value| != Receipts.SEAL_BYTES { return None; }
      var claimed := MaybeClaim();
      if !claimed { return None; }
      var parameters := Take(32);
      if parameters == None { return None; }
      var journal := Vector();
      if journal == None { return None; }
      var metadata := Take(32);
      if metadata == None || pos != |data| { return None; }
      return Some((seal.value, parameters.value, journal.value));
    }
  }
}
