/** Machine arithmetic of the contracts: the i128, u64 and u32 ranges, and the
    checked, saturating and truncating operations used on them. */
module Numbers {
  datatype Option<+T> = None | Some(value: T)

  const I128_MAX: int := 0x7fff_ffff_ffff_ffff_ffff_ffff_ffff_ffff
  const U64_MAX: nat := 0xffff_ffff_ffff_ffff
  const BPS: int := 10_000

  type U64 = x: nat | x <= U64_MAX

  function Min(a: int, b: int): int {
    if a <= b then a else b
  }

  function Max(a: int, b: int): int {
    if a <= b then b else a
  }

  predicate InI128(x: int) {
    -I128_MAX - 1 <= x <= I128_MAX
  }

  function SaturateI128(x: int): int {
    Max(-I128_MAX - 1, Min(x, I128_MAX))
  }

  function SaturateU64(x: int): nat {
    Max(0, Min(x, U64_MAX))
  }

  // `as u32` on an i128 keeps the low 32 bits.
  function AsU32(x: int): nat {
    x % 0x1_0000_0000
  }

  // Rust's `/` rounds toward zero.
  function TruncDiv(a: int, b: int): int
    requires b != 0
  {
    if a >= 0 then a / b else -((-a) / b)
  }

  // Checked `a * b / c`: None where the source reports an error.
  function MulDiv(a: int, b: int, c: int): Option<int> {
    if !InI128(a * b) || c == 0 || !InI128(TruncDiv(a * b, c)) then None else Some(TruncDiv(a * b, c))
  }

  // On the amounts the handler accepts, a share in basis points is a plain floor
  // division and no check fails.
  lemma ShareIsTotal(total: int, bps: int)
    requires 0 <= total && total * BPS <= I128_MAX
    requires 0 <= bps <= BPS
    ensures MulDiv(total, bps, BPS) == Some(total * bps / 10_000)
    ensures 0 <= total * bps / 10_000 <= total
  {
    assert 0 <= total * bps <= total * BPS;
  }

  lemma CancelFactor(x: int, y: int, d: int)
    requires d > 0
    ensures x * d <= y * d <==> x <= y
  {
    assert y * d - x * d == (y - x) * d;
  }

  // A non-negative product with a share fails only by being too large itself.
  lemma ProductFits(total: int, bps: int)
    requires total >= 0 && 0 <= bps <= BPS
    ensures MulDiv(total, bps, BPS) == if total * bps <= I128_MAX then Some(total * bps / 10_000) else None
    ensures total * bps >= 0
  {
    assert total * bps >= 0;
  }

  lemma FloorBounds(a: int, d: int)
    requires d > 0
    ensures a / d * d <= a < a / d * d + d
  {
    assert a == a / d * d + a % d;
  }

  lemma QuotientIs(a: int, d: int, q: int)
    requires d > 0 && q * d <= a < q * d + d
    ensures a / d == q
  {
    FloorBounds(a, d);
    assert (q + 1) * d == q * d + d && (a / d + 1) * d == a / d * d + d;
    CancelFactor(q + 1, a / d, d);
    CancelFactor(a / d + 1, q, d);
  }

  lemma QuotientStep(x: nat, d: nat)
    requires d > 0
    ensures (x + d) / d == x / d + 1
  {
    FloorBounds(x, d);
    assert (x / d + 1) * d == x / d * d + d;
    QuotientIs(x + d, d, x / d + 1);
  }

  lemma QuotientMonotone(x: nat, y: nat, d: nat)
    requires d > 0 && x <= y
    ensures x / d <= y / d
  {
    FloorBounds(x, d);
    FloorBounds(y, d);
    assert (y / d + 1) * d == y / d * d + d;
    CancelFactor(y / d + 1, x / d, d);
  }

  lemma ProductMonotone(x: nat, y: int, z: int)
    requires y <= z
    ensures x * y <= x * z
  {
    assert x * z - x * y == x * (z - y);
  }

  lemma QuotientBetween(a: int, d: int, low: int, high: int)
    requires d > 0 && low * d <= a <= high * d
    ensures low <= a / d <= high
  {
    FloorBounds(a, d);
    assert (a / d + 1) * d == a / d * d + d;
    CancelFactor(a / d + 1, low, d);
    CancelFactor(a / d, high, d);
  }
}
