/** Division and remainder by a variable divisor. */
module Arithmetic {

  lemma MulGrows(a: int, b: int, w: nat)
    requires a <= b
    ensures a * w <= b * w
  {
    assert b * w - a * w == (b - a) * w;
  }

  lemma DivModUnique(n: int, w: nat, q: int, r: int)
    requires w > 0 && n == q * w + r && 0 <= r < w
    ensures n / w == q && n % w == r
  {
    var q', r' := n / w, n % w;
    assert n == q' * w + r';
    assert (q + 1) * w == q * w + w && (q' + 1) * w == q' * w + w;
    if q < q' {
      MulGrows(q + 1, q', w);
    } else if q' < q {
      MulGrows(q' + 1, q, w);
    }
  }

  /** Adding one round adds one to the quotient and leaves the remainder. */
  lemma AddRound(n: int, w: nat)
    requires w > 0
    ensures (n + w) / w == n / w + 1 && (n + w) % w == n % w
  {
    assert (n / w + 1) * w == n / w * w + w;
    DivModUnique(n + w, w, n / w + 1, n % w);
  }

  lemma SmallDivMod(n: nat, w: nat)
    requires n < w
    ensures n / w == 0 && n % w == n
  {
    DivModUnique(n, w, 0, n);
  }

  function CeilDiv(n: nat, w: nat): nat
    requires w > 0
  {
    (n + w - 1) / w
  }

  /** Adding whole rounds leaves the remainder. */
  lemma AddRounds(n: int, k: int, w: nat)
    requires w > 0
    ensures (n + k * w) % w == n % w
  {
    assert (n / w + k) * w == n / w * w + k * w;
    DivModUnique(n + k * w, w, n / w + k, n % w);
  }

  /** The rounded-up quotient of a multiple is the quotient. */
  lemma CeilOfMultiple(n: nat, w: nat)
    requires w > 0 && n % w == 0
    ensures CeilDiv(n, w) == n / w
  {
    DivModUnique(n + w - 1, w, n / w, w - 1);
  }

  /** Within the first round the rounded-up quotient is one. */
  lemma CeilOfPart(n: nat, w: nat)
    requires 0 < n <= w
    ensures CeilDiv(n, w) == 1
  {
    DivModUnique(n + w - 1, w, 1, n - 1);
  }

  lemma Ratio(part: nat, whole: nat)
    requires part <= whole && whole > 0
    ensures var r := part as real / whole as real; 0.0 <= r <= 1.0 && r * whole as real == part as real
  {
    var r, w := part as real / whole as real, whole as real;
    assert r * w == part as real;
    assert r < 0.0 ==> r * w < 0.0;
    assert r > 1.0 ==> r * w > w;
  }
}
