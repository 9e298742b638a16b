// Multiples and remainders of a group size, one fact at a time.
module Arithmetic {

  // Division is decided by any quotient and a remainder in range.
  lemma Divides(x: int, g: nat, q: int, r: nat)
    requires g > 0 && r < g && x == q * g + r
    ensures x / g == q && x % g == r
  {
    var q', r' := x / g, x % g;
    assert (q - q') * g == r' - r && (q' - q) * g == r - r';
    if q > q' {
      Grows(q - q', g);
    } else if q < q' {
      Grows(q' - q, g);
    }
  }

  lemma Grows(k: int, g: nat)
    requires k >= 1
    ensures k * g >= g
  {}

  lemma NotAbove(k: int, g: nat)
    requires k <= 0
    ensures k * g <= 0
  {}

  lemma Distributes(k: int, p: int, g: nat)
    ensures (k + p) * g == k * g + p * g
  {}

  // Multiples of `g` are equal or at least `g` apart.
  lemma Apart(q: int, p: int, g: nat)
    requires g > 0
    ensures q * g - p * g <= 0 || q * g - p * g >= g
  {
    Distributes(q - p, p, g);
    if q - p >= 1 { Grows(q - p, g); } else { NotAbove(q - p, g); }
  }
}
