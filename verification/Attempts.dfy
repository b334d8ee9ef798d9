// Run attempts as text: what publish_request.py, lines 71-73, compares.
module Attempts {

  predicate Digits(s: string) {
    forall i | 0 <= i < |s| :: '0' <= s[i] <= '9'
  }

  predicate AttemptText(s: string) {
    1 <= |s| <= 6 && '1' <= s[0] <= '9' && Digits(s)
  }

  // int() of a text of digits.
  function DecimalValue(s: string): nat
    requires Digits(s)
  {
    if s == "" then 0 else 10 * DecimalValue(s[..|s| - 1]) + (s[|s| - 1] - '0') as nat
  }

  // int() of a run attempt; git_context refuses any text but an attempt.
  function AttemptNumber(s: string): nat {
    if AttemptText(s) then DecimalValue(s) else 0
  }

  // ---- What number a text is ----

  function DigitChar(d: nat): (c: char)
    requires d < 10
    ensures '0' <= c <= '9' && (c - '0') as nat == d
  {
    ['0', '1', '2', '3', '4', '5', '6', '7', '8', '9'][d]
  }

  // str() of a number.
  function Decimal(n: nat): (s: string)
    ensures s != ""
  {
    if n < 10 then [DigitChar(n)] else Decimal(n / 10) + [DigitChar(n % 10)]
  }

  function Pow10(k: nat): (p: nat)
    ensures p > 0
  {
    if k == 0 then 1 else 10 * Pow10(k - 1)
  }

  lemma DigitBehind(s: string, d: nat)
    requires Digits(s) && d < 10
    ensures Digits(s + [DigitChar(d)]) && DecimalValue(s + [DigitChar(d)]) == 10 * DecimalValue(s) + d
  {
    assert (s + [DigitChar(d)])[..|s|] == s;
  }

  // Reading what was written.
  lemma {:induction false} DecimalReads(n: nat)
    ensures var s := Decimal(n);
            Digits(s) && DecimalValue(s) == n && (n > 0 ==> s[0] != '0')
  {
    var high, d := n / 10, n % 10;
    if n >= 10 {
      DecimalReads(high);
      DigitBehind(Decimal(high), d);
    } else {
        DigitBehind("", d);
    }
  }

  lemma {:induction false} DecimalLength(n: nat, k: nat)
    requires k > 0
    ensures |Decimal(n)| <= k <==> n < Pow10(k)
  {
    if n < 10 {
      assert Pow10(k) == 10 * Pow10(k - 1);
    } else if k > 1 {
      DecimalLength(n / 10, k - 1);
    } else {
      assert Pow10(1) == 10 * Pow10(0);
    }
  }

  lemma DecimalBehind(n: nat, d: nat)
    requires d < 10
    ensures Decimal(10 * n + d) == if n == 0 then [DigitChar(d)] else Decimal(n) + [DigitChar(d)]
  {
    assert (10 * n + d) / 10 == n && (10 * n + d) % 10 == d;
  }

  lemma CharOfDigit(c: char)
    requires '0' <= c <= '9'
    ensures DigitChar((c - '0') as nat) == c
  {
  }

  // Writing what was read.
  lemma {:induction false} DecimalWrites(s: string)
    requires s != "" && Digits(s) && s[0] != '0'
    ensures DecimalValue(s) > 0 && Decimal(DecimalValue(s)) == s
  {
    var front, last := s[..|s| - 1], s[|s| - 1];
    assert s == front + [last];
    CharOfDigit(last);
    if front != "" { DecimalWrites(front); }
    DecimalBehind(DecimalValue(front), (last - '0') as nat);
  }

  // The attempts are the decimal texts of the numbers from 1 to 999999, each of its own.
  lemma AttemptsAreDecimals(s: string, n: nat)
    ensures AttemptText(s) && AttemptNumber(s) == n <==> 1 <= n <= 999999 && s == Decimal(n)
  {
    assert Pow10(6) == 1000000 by { assert Pow10(3) == 1000; }
    DecimalLength(n, 6);
    DecimalReads(n);
    if AttemptText(s) { DecimalWrites(s); }
  }

  lemma DecimalAttempt(n: nat)
    ensures AttemptText(Decimal(n)) <==> 1 <= n <= 999999
    ensures AttemptText(Decimal(n)) ==> AttemptNumber(Decimal(n)) == n
  {
    var s := Decimal(n);
    AttemptsAreDecimals(s, n);
    if AttemptText(s) {
      AttemptsAreDecimals(s, AttemptNumber(s));
      DecimalReads(n);
    }
  }

  // ---- Which text is the later attempt ----

  // A shorter text is earlier; among texts of one length the first difference decides.
  predicate EarlierText(s: string, t: string) {
    |s| < |t| || (|s| == |t| && exists k | 0 <= k < |s| :: s[..k] == t[..k] && s[k] < t[k])
  }

  lemma {:induction false} ValueBound(s: string)
    requires Digits(s)
    ensures DecimalValue(s) < Pow10(|s|)
    ensures s != "" && s[0] != '0' ==> DecimalValue(s) >= Pow10(|s| - 1)
  {
    if s != "" {
      ValueBound(s[..|s| - 1]);
    }
  }

  lemma {:induction false} PowersGrow(j: nat, k: nat)
    requires j <= k
    ensures Pow10(j) <= Pow10(k)
  {
    if j < k { PowersGrow(j, k - 1); }
  }

  lemma {:induction false} SameLengthOrder(s: string, t: string, k: nat)
    requires Digits(s) && Digits(t) && |s| == |t| && k < |s| && s[..k] == t[..k] && s[k] < t[k]
    ensures DecimalValue(s) < DecimalValue(t)
  {
    var n := |s| - 1;
    if k < n {
      assert s[..n][..k] == s[..k] && t[..n][..k] == t[..k];
      SameLengthOrder(s[..n], t[..n], k);
    } else {
      assert DecimalValue(s[..n]) == DecimalValue(t[..n]);
    }
  }

  lemma {:induction false} FirstDifference(s: string, t: string) returns (k: nat)
    requires |s| == |t| && s != t
    ensures k < |s| && s[..k] == t[..k] && s[k] != t[k]
  {
    if s[0] != t[0] {
      k := 0;
    } else {
      assert s == [s[0]] + s[1..] && t == [t[0]] + t[1..];
      k := FirstDifference(s[1..], t[1..]);
      k := k + 1;
      assert s[..k] == [s[0]] + s[1..][..k - 1] && t[..k] == [t[0]] + t[1..][..k - 1];
    }
  }

  lemma EarlierIsLess(s: string, t: string)
    requires AttemptText(s) && AttemptText(t) && EarlierText(s, t)
    ensures AttemptNumber(s) < AttemptNumber(t)
  {
    if |s| < |t| {
      ValueBound(s);
      ValueBound(t);
      PowersGrow(|s|, |t| - 1);
    } else {
      var k :| 0 <= k < |s| && s[..k] == t[..k] && s[k] < t[k];
      SameLengthOrder(s, t, k);
    }
  }

  // Comparing the numbers is comparing the texts.
  lemma AttemptOrder(s: string, t: string)
    requires AttemptText(s) && AttemptText(t)
    ensures AttemptNumber(s) < AttemptNumber(t) <==> EarlierText(s, t)
  {
    if EarlierText(s, t) {
      EarlierIsLess(s, t);
    } else if s != t {
      if |s| == |t| {
        var k := FirstDifference(s, t);
        assert t[..k] == s[..k] && t[k] < s[k];
      }
      EarlierIsLess(t, s);
    }
  }
}
