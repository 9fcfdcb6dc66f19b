/** Remainders, and walking round a cycle. */
module Arith {

  function Min(a: int, b: int): int { if a <= b then a else b }

  function Max(a: int, b: int): int { if a >= b then a else b }

  lemma ModUnique(x: int, m: int, q: int, r: int)
    requires m > 0 && x == m * q + r && 0 <= r < m
    ensures x % m == r && x / m == q
  {
    var k := x / m - q;
    assert m * k == r - x % m;
    assert k >= 1 ==> m * k >= m;
    assert k <= -1 ==> m * k <= -m;
  }

  lemma ModPlus(x: int, m: int)
    requires m > 0
    ensures (x + m) % m == x % m
  {
    var q := x / m;
    assert x + m == m * (q + 1) + x % m;
    ModUnique(x + m, m, q + 1, x % m);
  }

  lemma ModSmall(x: int, m: int)
    requires 0 <= x < m
    ensures x % m == x
  {
  }

  /** The next place on a cycle of `m`. */
  function Succ(p: nat, m: nat): nat {
    if p + 1 == m then 0 else p + 1
  }

  function Advance(p: nat, n: nat, m: nat): nat
    decreases n
  {
    if n == 0 then p else Advance(Succ(p, m), n - 1, m)
  }

  lemma {:induction false} AdvanceIsMod(p: nat, n: nat, m: nat)
    requires p < m
    ensures Advance(p, n, m) == (p + n) % m
    decreases n
  {
    if n == 0 {
      ModSmall(p, m);
    } else {
      AdvanceIsMod(Succ(p, m), n - 1, m);
      if p + 1 == m {
        ModPlus(n - 1, m);
        assert n - 1 + m == p + n;
      }
    }
  }

  lemma {:induction false} AdvanceTwice(p: nat, a: nat, b: nat, m: nat)
    ensures Advance(Advance(p, a, m), b, m) == Advance(p, a + b, m)
    decreases a
  {
    if a > 0 {
      AdvanceTwice(Succ(p, m), a - 1, b, m);
    }
  }

  /** Python's `round` of a real: to the nearest integer, ties to the even one. */
  function Round(x: real): (r: int)
    ensures x - 0.5 <= r as real <= x + 0.5
    ensures r as real == x + 0.5 || r as real == x - 0.5 ==> r % 2 == 0
  {
    var f := x.Floor;
    var d := x - f as real;
    if d < 0.5 then f else if d > 0.5 then f + 1 else if f % 2 == 0 then f else f + 1
  }

  lemma Inhabited(s: set<int>)
    requires s != {}
    ensures exists x :: x in s
  {
    assert (forall x :: x !in s) ==> s == {};
  }
}
