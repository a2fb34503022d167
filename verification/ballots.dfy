/**
 * The ballot numbering scheme: in a run of `n` processes, process `i`
 * issues the ballots `i, i + n, i + 2n, ...`, so the issuer of a ballot
 * can be read back from its residue modulo `n`.
 */
module Ballots {

  /** The ballot process `i` issues in its `k`-th round (counting from 0). */
  function Nth(n: int, i: int, k: nat): int
  {
    i + k * n
  }

  /** The process that owns ballot `b` in a run of `n > 0` processes. */
  function Owner(n: int, b: int): (o: int)
    requires n > 0
    ensures 0 <= o < n
    ensures b - o == (b / n) * n
  {
    b % n
  }

  /** Every ballot of process `i` is owned by `i`. */
  lemma {:induction false} OwnerOfNth(n: int, i: int, k: nat)
    requires 0 <= i < n
    ensures Owner(n, Nth(n, i, k)) == i
    decreases k
  {
    if k > 0 {
      OwnerOfNth(n, i, k - 1);
      assert Nth(n, i, k) == Nth(n, i, k - 1) + n;
      ShiftKeepsOwner(n, Nth(n, i, k - 1));
    }
  }

  /** Adding `n` to a ballot keeps its owner. */
  lemma ShiftKeepsOwner(n: int, b: int)
    requires n > 0
    ensures Owner(n, b + n) == Owner(n, b)
  {
    var q, o := b / n, b % n;
    assert b + n == (q + 1) * n + o;
    OwnerUnique(n, b + n, q + 1, o);
  }

  /** The owner is the unique remainder `o` in `[0, n)` with `b == q * n + o`. */
  lemma OwnerUnique(n: int, b: int, q: int, o: int)
    requires n > 0 && 0 <= o < n
    requires b == q * n + o
    ensures Owner(n, b) == o
  {
    var q', o' := b / n, b % n;
    assert b == q' * n + o';
    assert (q - q') * n == o' - o;
    ZeroMultiple(q - q', n);
  }

  /** The only multiple of `n` strictly between `-n` and `n` is 0. */
  lemma ZeroMultiple(k: int, n: int)
    requires n > 0 && -n < k * n < n
    ensures k == 0
  {
    if k >= 1 {
      MulAtLeast(k, n);
      assert false;
    } else if k <= -1 {
      MulAtLeast(-k, n);
      assert false;
    }
  }

  lemma MulAtLeast(k: int, n: int)
    requires k >= 1 && n > 0
    ensures k * n >= n
  {
  }

  /** A process's ballots strictly increase from round to round. */
  lemma {:induction false} NthStrictlyIncreasing(n: int, i: int, a: nat, b: nat)
    requires n > 0
    requires a < b
    ensures Nth(n, i, a) < Nth(n, i, b)
    decreases b - a
  {
    assert Nth(n, i, a + 1) == Nth(n, i, a) + n;
    if a + 1 < b {
      NthStrictlyIncreasing(n, i, a + 1, b);
    }
  }

  /** Two distinct processes never issue the same ballot, whatever their rounds. */
  lemma NthUnique(n: int, i: int, j: int, a: nat, b: nat)
    requires 0 <= i < n && 0 <= j < n
    requires i != j
    ensures Nth(n, i, a) != Nth(n, j, b)
  {
    OwnerOfNth(n, i, a);
    OwnerOfNth(n, j, b);
  }
}
