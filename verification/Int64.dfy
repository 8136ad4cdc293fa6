/** Go's `int64` arithmetic: what wraps, what truncates, and what does not.
    Database BIGINT columns never wrap (an out-of-range value aborts the
    statement), so only values computed in Go go through `Wrap`. */
module Int64 {

  const MAX: int := 0x7FFF_FFFF_FFFF_FFFF
  const MIN: int := -0x8000_0000_0000_0000
  const TWO_TO_64: int := 0x1_0000_0000_0000_0000

  type int64 = x: int | MIN <= x <= MAX witness 0

  /** Two's-complement reduction of an exact result. */
  function Wrap(x: int): (r: int64)
    ensures (x - r) % TWO_TO_64 == 0
  {
    var low := x % TWO_TO_64;
    if low > MAX then low - TWO_TO_64 else low
  }

  /** Go's `/`: truncation toward zero. */
  function Quot(a: int, b: int): int
    requires b > 0
  {
    if a >= 0 then a / b else -((-a) / b)
  }

  function Abs(x: int): nat {
    if x < 0 then -x else x
  }

  /** `r` is the only 64-bit value congruent to `x`. */
  lemma WrapUnique(x: int, r: int)
    requires MIN <= r <= MAX && (x - r) % TWO_TO_64 == 0
    ensures Wrap(x) == r
  {
    var k := (x - r) / TWO_TO_64;
    assert x == r + k * TWO_TO_64;
    var w := Wrap(x);
    var j := (x - w) / TWO_TO_64;
    assert x == w + j * TWO_TO_64;
    assert r - w == (j - k) * TWO_TO_64;
  }

  lemma WrapSum(a: int, b: int)
    ensures Wrap(Wrap(a) + b) == Wrap(a + b)
  {
    var k := (a - Wrap(a)) / TWO_TO_64;
    var s := Wrap(Wrap(a) + b);
    var j := (Wrap(a) + b - s) / TWO_TO_64;
    assert a + b - s == (k + j) * TWO_TO_64;
    WrapUnique(a + b, s);
  }

  lemma WrapDifference(a: int, b: int)
    ensures Wrap(a - Wrap(b)) == Wrap(a - b)
  {
    var k := (b - Wrap(b)) / TWO_TO_64;
    var s := Wrap(a - Wrap(b));
    var j := (a - Wrap(b) - s) / TWO_TO_64;
    assert a - b - s == (j - k) * TWO_TO_64;
    WrapUnique(a - b, s);
  }

  /** A wrapped non-negative value is never larger in magnitude than the exact
      one: overflow can only shrink an amount. */
  lemma WrapShrinks(x: int)
    requires x >= 0
    ensures Abs(Wrap(x)) <= x
    ensures Wrap(x) == x <==> x <= MAX
  {
    if x <= MAX {
      WrapUnique(x, x);
    }
  }
}
