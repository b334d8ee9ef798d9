// Sequences of any kind.
module Sequences {

  lemma Regroup<T>(a: seq<T>, b: seq<T>, c: seq<T>)
    ensures (a + b) + c == a + (b + c)
  {
  }

  lemma Rest<T>(a: seq<T>, b: seq<T>)
    ensures (a + b)[|a|..] == b
  {
  }

  lemma SliceOfSlice<T>(s: seq<T>, from: nat, to: nat, i: nat, j: nat)
    requires from <= to <= |s| && i <= j <= to - from
    ensures s[from..to][i..j] == s[from + i..from + j]
  {
    var block, a, b := s[from..to], s[from..to][i..j], s[from + i..from + j];
    assert |a| == |b|;
    forall n | 0 <= n < |a| ensures a[n] == b[n] {
      assert a[n] == block[i + n] == s[from + i + n];
    }
  }
}
