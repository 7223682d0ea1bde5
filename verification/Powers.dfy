// Multiplication by powers of two, which is also the left shift of a non-negative number, written
// as repeated doubling so that no product of two variables is needed.

module Powers {

  // d * 2^n
  function TimesPow2(d: nat, n: nat): (p: nat)
    ensures p >= d
    ensures d > 0 ==> p > 0
  {
    if n == 0 then d else 2 * TimesPow2(d, n - 1)
  }

  lemma {:induction false} TimesPow2Adds(a: nat, b: nat, n: nat)
    ensures TimesPow2(a + b, n) == TimesPow2(a, n) + TimesPow2(b, n)
  {
    if n > 0 {
      TimesPow2Adds(a, b, n - 1);
    }
  }

  lemma {:induction false} TimesPow2Grows(a: nat, b: nat, n: nat)
    requires a <= b
    ensures TimesPow2(a, n) <= TimesPow2(b, n)
  {
    if n > 0 {
      TimesPow2Grows(a, b, n - 1);
    }
  }

  lemma {:induction false} TimesPow2Doubles(d: nat, n: nat)
    ensures TimesPow2(2 * d, n) == TimesPow2(d, n + 1)
  {
    if n > 0 {
      TimesPow2Doubles(d, n - 1);
    }
  }

  // 128 is 2^7.
  lemma {:induction false} SevenMore(d: nat, n: nat)
    ensures TimesPow2(128 * d, n) == TimesPow2(d, n + 7)
  {
    TimesPow2Doubles(64 * d, n);
    TimesPow2Doubles(32 * d, n + 1);
    TimesPow2Doubles(16 * d, n + 2);
    TimesPow2Doubles(8 * d, n + 3);
    TimesPow2Doubles(4 * d, n + 4);
    TimesPow2Doubles(2 * d, n + 5);
    TimesPow2Doubles(d, n + 6);
  }
}
