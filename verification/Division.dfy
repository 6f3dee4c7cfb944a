/** Division by its defining property. */
module Division {
  lemma Quotient(x: int, d: int, k: int, r: int)
    requires d > 0 && x == k * d + r && 0 <= r < d
    ensures x / d == k && x % d == r
  {
    var q := x / d;
    assert (k - q) * d == x % d - r;
    Apart(k - q, d);
  }

  lemma Apart(z: int, d: int)
    requires d > 0
    ensures z >= 1 ==> z * d >= d
    ensures z <= -1 ==> z * d <= -d
  {
  }
}
