/** Minima, maxima, and facts about division and remainder. */
module Arith {

  function Min(a: nat, b: nat): nat {
    if a < b then a else b
  }

  function Max(a: nat, b: nat): nat {
    if a < b then b else a
  }

  lemma RoundDown(m: nat, g: nat)
    requires g > 0
    ensures m / g * g % g == 0 && m - g < m / g * g <= m && (m / g * g > 0 ==> m / g * g >= g)
  {
    assert m == m / g * g + m % g;
    MultipleMod(m / g, g);
    if m / g >= 1 { MulAtLeast(m / g, g); }
  }

  lemma MulAtLeast(k: nat, g: nat)
    requires k >= 1
    ensures k * g >= g
  {
  }

  lemma {:induction false} MultipleMod(k: nat, g: nat)
    requires g > 0
    ensures k * g % g == 0
  {
    if k > 0 {
      MultipleMod(k - 1, g);
      assert k * g == (k - 1) * g + g;
      AddModulus((k - 1) * g, g);
    }
  }

  lemma AddModulus(x: nat, g: nat)
    requires g > 0
    ensures (x + g) % g == x % g
  {
    var k, m := x / g, x % g;
    assert x + g == (k + 1) * g + m by { assert x == k * g + m; assert (k + 1) * g == k * g + g; }
    DivModUnique(x + g, g, k + 1, m);
  }

  lemma DivModUnique(x: nat, g: nat, k: nat, m: nat)
    requires g > 0 && m < g && x == k * g + m
    ensures x / g == k && x % g == m
  {
    var k', m' := x / g, x % g;
    assert x == k' * g + m';
    if k' > k { MulGap(k, k', g); } else if k' < k { MulGap(k', k, g); }
  }

  lemma MulGap(a: nat, b: nat, g: nat)
    requires a < b
    ensures b * g >= a * g + g
  {
    assert b * g == a * g + (b - a) * g;
    MulAtLeast(b - a, g);
  }

  lemma Distribute(j: nat, k: nat, g: nat)
    ensures (j + k) * g == j * g + k * g
  {
  }
}
