// Parsed JSON documents and Python's comparisons on them.
module JsonValues {
  import opened Options

  datatype Json =
    | Null
    | Bool(b: bool)
    | Int(n: int)
    | Float(r: real)
    | Str(s: string)
    | Arr(items: seq<Json>)
    | Obj(fields: map<string, Json>)

  function Get(j: Json, key: string): Option<Json> {
    if j.Obj? && key in j.fields then Some(j.fields[key]) else None
  }

  predicate Numeric(j: Json) {
    j.Bool? || j.Int? || j.Float?
  }

  function NumberOf(j: Json): real
    requires Numeric(j)
  {
    match j
    case Bool(b) => if b then 1.0 else 0.0
    case Int(n) => n as real
    case Float(r) => r
    case _ => assert false; 0.0
  }

  // The == of Python's dicts, lists and scalars: True, 1 and 1.0 are equal.
  predicate PyEq(a: Json, b: Json) {
    match (a, b)
    case (Arr(xs), Arr(ys)) =>
      |xs| == |ys| && forall i | 0 <= i < |xs| :: PyEq(xs[i], ys[i])
    case (Obj(f), Obj(g)) =>
      f.Keys == g.Keys && forall k | k in f :: PyEq(f[k], g[k])
    case (_, _) =>
      if Numeric(a) && Numeric(b) then NumberOf(a) == NumberOf(b) else a == b
  }

  lemma {:induction false} PyEqReflexive(a: Json)
    ensures PyEq(a, a)
  {
    match a
    case Arr(xs) =>
      forall i | 0 <= i < |xs| ensures PyEq(xs[i], xs[i]) { PyEqReflexive(xs[i]); }
    case Obj(f) =>
      forall k | k in f ensures PyEq(f[k], f[k]) { PyEqReflexive(f[k]); }
    case _ =>
  }
}
