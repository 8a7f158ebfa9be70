/** Facts about products and floor quotients that the solver needs spelled out. */
module Arithmetic {

  /** A floor quotient, pinned from both sides. */
  lemma Floor(a: nat, b: nat)
    requires 0 < b
    ensures 0 <= a / b && a / b * b <= a < a / b * b + b
  {
  }

  /** A floor quotient is the only integer between its two bounds. */
  lemma FloorIs(a: int, b: nat, q: int)
    requires 0 < b
    requires q * b <= a < q * b + b
    ensures a / b == q
  {
    var d := a / b - q;
    assert a / b * b <= a < a / b * b + b;
    assert (a / b) * b - q * b == d * b;
    if d >= 1 { MulMono(1, d, b); }
    if d <= -1 { MulMono(d, -1, b); }
  }

  lemma MulMono(x: int, y: int, c: nat)
    requires x <= y
    ensures x * c <= y * c
  {
  }

  lemma MulMono2(x: nat, x': nat, y: nat, y': nat)
    requires x <= x' && y <= y'
    ensures x * y <= x' * y'
  {
    MulMono(x, x', y);
    MulMono(y, y', x');
  }

  lemma MulAssoc(x: int, y: int, z: int)
    ensures x * (y * z) == x * y * z
  {
  }

  lemma MulSwap(x: int, y: int, z: int)
    ensures x * y * z == x * z * y
  {
  }

  lemma MulSucc(x: int, c: int)
    ensures (x + 1) * c == x * c + c
  {
  }

  lemma MulNat(x: nat, y: nat)
    ensures 0 <= x * y
  {
  }

  /** Cancelling a positive factor of a strict inequality. */
  lemma MulCancel(x: int, y: int, c: nat)
    requires 0 < c && x * c < y * c
    ensures x < y
  {
    if y <= x { MulMono(y, x, c); }
  }

  lemma FloorMono(a: nat, a': nat, b: nat)
    requires 0 < b && a <= a'
    ensures a / b <= a' / b
  {
    Floor(a, b);
    Floor(a', b);
    if a' / b < a / b { MulMono(a' / b + 1, a / b, b); }
  }

  /** A floor quotient never exceeds the dividend. */
  lemma FloorInRange(a: nat, b: nat)
    requires 0 < b
    ensures 0 <= a / b <= a
  {
    Floor(a, b);
    MulMono(1, b, a / b);
  }
}
