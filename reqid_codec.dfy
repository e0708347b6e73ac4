/**
 * The request-ID codec: a Meson request ID is a 256-bit unsigned integer
 * whose bit fields carry the token index (bits 192..199), the amount
 * (bits 128..191) and the creation time (bits 208..247).  Every field is a
 * right shift followed by `Uint64()` (which keeps the low 64 bits) and a mask.
 */
module ReqIdCodec {

  const TWO_8: nat := 0x100
  const TWO_16: nat := 0x1_0000
  const TWO_24: nat := 0x100_0000
  const TWO_40: nat := 0x100_0000_0000
  const TWO_48: nat := 0x1_0000_0000_0000
  const TWO_56: nat := 0x100_0000_0000_0000
  const TWO_64: nat := 0x1_0000_0000_0000_0000
  const TWO_128: nat := 0x1_0000_0000_0000_0000_0000_0000_0000_0000
  const TWO_192: nat := 0x1_0000_0000_0000_0000_0000_0000_0000_0000_0000_0000_0000_0000
  const TWO_208: nat := 0x1_0000_0000_0000_0000_0000_0000_0000_0000_0000_0000_0000_0000_0000
  const TWO_200: nat := 0x100_0000_0000_0000_0000_0000_0000_0000_0000_0000_0000_0000_0000
  const TWO_248: nat := 0x100_0000_0000_0000_0000_0000_0000_0000_0000_0000_0000_0000_0000_0000_0000_0000
  const TWO_256: nat := 0x1_0000_0000_0000_0000_0000_0000_0000_0000_0000_0000_0000_0000_0000_0000_0000_0000

  /** The precision, in decimal digits, in which the request ID carries amounts. */
  const CANONICAL_DECIMALS: nat := 6

  /** A 256-bit word: the value of a `common.Hash` read as a big-endian integer. */
  type Word256 = x: nat | x < TWO_256

  /** Go's `uint8`. */
  type U8 = x: nat | x < 256

  /** Go's `uint64`. */
  type U64 = x: nat | x < TWO_64

  /** `(*big.Int).Uint64()`: the low 64 bits of a non-negative big integer. */
  function Low64(x: nat): (r: U64)
  {
    x % TWO_64
  }

  function Pow10(k: nat): (r: nat)
    ensures r >= 1
  {
    if k == 0 then 1 else 10 * Pow10(k - 1)
  }

  /** Bits 192..199 of the request ID (`isMyToken`, first step). */
  function TokenIndex(reqId: Word256): (r: U8)
    ensures r == (reqId / TWO_192) % TWO_8
  {
    LowLowBits(reqId / TWO_192);
    Low64(reqId / TWO_192) % TWO_8
  }

  /** `isMyToken`: does the request ID name the configured token? */
  predicate IsMyToken(reqId: Word256, myTokenIndex: U8): (mine: bool)
    ensures mine <==> (reqId / TWO_192) % TWO_8 == myTokenIndex
  {
    TokenIndex(reqId) == myTokenIndex
  }

  /** Bits 128..191 of the request ID, before rescaling (`getAmountFromReqID`, first step). */
  function RawAmount(reqId: Word256): (r: U64)
    ensures r == (reqId / TWO_128) % TWO_64
  {
    Low64(reqId / TWO_128) % TWO_64
  }

  /** `getCreatedTimeFromReqID`: bits 208..247 of the request ID. */
  function CreatedTime(reqId: Word256): (r: nat)
    ensures r == (reqId / TWO_208) % TWO_40
    ensures r < TWO_40
  {
    LowLowBits(reqId / TWO_208);
    Low64(reqId / TWO_208) % TWO_40
  }

  datatype AmountError = ZeroAmount

  datatype AmountResult = Amount(value: U64) | AmountFailure(error: AmountError)

  /**
   * `getAmountFromReqID`: the raw amount, rejected when zero, then rescaled
   * from the six decimals of the request ID to the token's `decimals`:
   * multiplied by `10^(decimals-6)` in wrapping `uint64` arithmetic when
   * `decimals > 6`, truncating-divided by `10^(6-decimals)` otherwise.  The
   * multiplier is itself the low 64 bits of the big-integer power.
   */
  function GetAmount(reqId: Word256, decimals: U8): (r: AmountResult)
    ensures r.AmountFailure? <==> RawAmount(reqId) == 0
  {
    var amount := RawAmount(reqId);
    if amount == 0 then AmountFailure(ZeroAmount) else Amount(Rescale(amount, decimals))
  }

  /** The rescaling step of `getAmountFromReqID`, in `uint64` arithmetic. */
  function Rescale(amount: U64, decimals: U8): (r: U64)
    ensures decimals == CANONICAL_DECIMALS ==> r == amount
  {
    if decimals > CANONICAL_DECIMALS then
      MulWrap64(amount, Low64(Pow10(decimals - CANONICAL_DECIMALS)))
    else
      var k := CANONICAL_DECIMALS - decimals;
      SmallPowerExact(k);
      var divisor := Low64(Pow10(k));
      DivU64(amount, divisor)
  }

  /** Go's `/` on `uint64` by a non-zero divisor. */
  function DivU64(a: U64, d: nat): (r: U64)
    requires d >= 1
    ensures r * d <= a < r * d + d
    ensures d == 1 ==> r == a
  {
    DivBounds(a, d);
    a / d
  }

  /** Go's `*` on `uint64`: the product modulo 2^64. */
  function MulWrap64(a: U64, b: U64): (r: U64)
    ensures a * b < TWO_64 ==> r == a * b
    ensures (a * b - r) % TWO_64 == 0
  {
    (a * b) % TWO_64
  }

  /** Below six decimals the amount is truncated to whole units of 10^(6-decimals):
      the remainder is dropped, never rounded up. */
  lemma RescaleDownTruncates(reqId: Word256, decimals: U8)
    requires RawAmount(reqId) != 0 && decimals < CANONICAL_DECIMALS
    ensures var unit := Pow10(CANONICAL_DECIMALS - decimals);
            var v := GetAmount(reqId, decimals).value;
            v * unit <= RawAmount(reqId) < v * unit + unit
  {
    var unit := Pow10(CANONICAL_DECIMALS - decimals);
    Pow10Below19(CANONICAL_DECIMALS - decimals);
    assert Low64(unit) == unit;
    DivBounds(RawAmount(reqId), unit);
  }

  /** Above six decimals the amount is multiplied by 10^(decimals-6) modulo 2^64;
      up to 25 decimals the multiplier itself is exact. */
  lemma RescaleUpWraps(reqId: Word256, decimals: U8)
    requires RawAmount(reqId) != 0 && CANONICAL_DECIMALS < decimals <= 25
    ensures GetAmount(reqId, decimals).value
              == (RawAmount(reqId) * Pow10(decimals - CANONICAL_DECIMALS)) % TWO_64
  {
    MultiplierExact(decimals);
  }

  /** Truncating division: the quotient times the divisor is at most the dividend,
      and one more divisor is more. */
  lemma DivBounds(x: nat, d: nat)
    requires d >= 1
    ensures x / d <= x
    ensures (x / d) * d <= x < (x / d) * d + d
  {
    MulOrders(d, 0, x / d);
    if x / d >= 1 {
      MulAtLeast(x / d, d);
    }
  }

  /** Masking the low 64 bits with a narrower mask is the narrower mask. */
  lemma LowLowBits(x: nat)
    ensures Low64(x) % TWO_8 == x % TWO_8
    ensures Low64(x) % TWO_40 == x % TWO_40
  {
    var q, r := x / TWO_64, x % TWO_64;
    DivModUnique(x, TWO_8, TWO_56 * q + r / TWO_8, r % TWO_8);
    DivModUnique(x, TWO_40, TWO_24 * q + r / TWO_40, r % TWO_40);
  }

  /** Euclidean division has a unique quotient and remainder. */
  lemma DivModUnique(x: nat, m: nat, q: nat, r: nat)
    requires m > 0 && r < m && x == m * q + r
    ensures x / m == q && x % m == r
  {
    var q', r' := x / m, x % m;
    assert x == m * q' + r';
    MulOrders(m, q, q');
    MulOrders(m, q', q);
  }

  lemma MulOrders(m: nat, a: nat, b: nat)
    requires m > 0
    ensures a < b ==> m * a + m <= m * b
  {
    if a < b {
      assert m * b == m * a + m * (b - a);
      MulAtLeast(m, b - a);
    }
  }

  lemma {:induction false} MulAtLeast(m: nat, d: nat)
    requires d >= 1
    ensures m * d >= m
  {
    if d > 1 {
      MulAtLeast(m, d - 1);
      assert m * d == m * (d - 1) + m;
    }
  }

  /** Powers of ten up to 10^19 survive `Uint64()` unchanged. */
  lemma SmallPowerExact(k: nat)
    requires k <= 19
    ensures Low64(Pow10(k)) == Pow10(k)
    ensures k == 0 ==> Pow10(k) == 1
  {
    Pow10Below19(k);
  }

  lemma Pow10Below19(k: nat)
    requires k <= 19
    ensures Pow10(k) < TWO_64
  {
    assert Pow10(10) == 10_000_000_000;
    assert Pow10(19) == 10_000_000_000_000_000_000;
    Pow10Monotone(k, 19);
  }

  lemma Pow10Monotone(j: nat, k: nat)
    requires j <= k
    ensures Pow10(j) <= Pow10(k)
    decreases k - j
  {
    if j < k {
      Pow10Monotone(j + 1, k);
    }
  }

  /** While the power of ten fits in 64 bits (decimals up to 25) the multiplier is exact. */
  lemma MultiplierExact(decimals: U8)
    requires CANONICAL_DECIMALS < decimals
    ensures decimals <= 25 ==>
              Low64(Pow10(decimals - CANONICAL_DECIMALS)) == Pow10(decimals - CANONICAL_DECIMALS)
  {
    if decimals <= 25 {
      Pow10Below19(decimals - CANONICAL_DECIMALS);
    }
  }

  /** The value of a request ID assembled from its fields; `low`, `mid` and `top`
      stand for the bits the monitor does not read. */
  function Pack(top: U8, createdTime: nat, mid: U8, tokenIndex: U8, amount: U64, low: nat): (r: Word256)
    requires createdTime < TWO_40 && low < TWO_128
  {
    top * TWO_248 + createdTime * TWO_208 + mid * TWO_200
      + tokenIndex * TWO_192 + amount * TWO_128 + low
  }

  /** Decoding a packed request ID gives back the token index, the raw amount and the creation time. */
  lemma {:induction false} DecodePack(top: U8, createdTime: nat, mid: U8, tokenIndex: U8, amount: U64, low: nat)
    requires createdTime < TWO_40 && low < TWO_128
    ensures TokenIndex(Pack(top, createdTime, mid, tokenIndex, amount, low)) == tokenIndex
    ensures RawAmount(Pack(top, createdTime, mid, tokenIndex, amount, low)) == amount
    ensures CreatedTime(Pack(top, createdTime, mid, tokenIndex, amount, low)) == createdTime
  {
    var id := Pack(top, createdTime, mid, tokenIndex, amount, low);
    var hi192 := top * TWO_56 + createdTime * TWO_16 + mid * TWO_8 + tokenIndex;
    DivModUnique(id, TWO_192, hi192, amount * TWO_128 + low);
    DivModUnique(hi192, TWO_8, top * TWO_48 + createdTime * TWO_8 + mid, tokenIndex);
    var hi128 := hi192 * TWO_64 + amount;
    DivModUnique(id, TWO_128, hi128, low);
    DivModUnique(hi128, TWO_64, hi192, amount);
    var hi208 := top * TWO_40 + createdTime;
    DivModUnique(id, TWO_208, hi208, mid * TWO_200 + tokenIndex * TWO_192 + amount * TWO_128 + low);
    DivModUnique(hi208, TWO_40, top, createdTime);
  }

  /** A listener configured for one token index accepts a request ID exactly when
      the ID was packed with that index, whatever its other fields. */
  lemma {:induction false} PackedTokenIsMine(top: U8, createdTime: nat, mid: U8, tokenIndex: U8, amount: U64,
                                             low: nat, myTokenIndex: U8)
    requires createdTime < TWO_40 && low < TWO_128
    ensures IsMyToken(Pack(top, createdTime, mid, tokenIndex, amount, low), myTokenIndex)
            <==> tokenIndex == myTokenIndex
  {
    DecodePack(top, createdTime, mid, tokenIndex, amount, low);
  }

  /** decimals = 6 is the identity on a non-zero raw amount. */
  lemma SixDecimalsIdentity(reqId: Word256)
    requires RawAmount(reqId) != 0
    ensures GetAmount(reqId, 6) == Amount(RawAmount(reqId))
  {
    assert Pow10(0) == 1;
  }

  /** Below six decimals the division truncates: raw 5 at 0 decimals becomes 0, not an error. */
  lemma ZeroDecimalsTruncates(reqId: Word256)
    requires RawAmount(reqId) == 5
    ensures GetAmount(reqId, 0) == Amount(0)
  {
    assert Pow10(6) == 1000000;
  }

  /** Above six decimals the product wraps modulo 2^64: raw 10^18 at 18 decimals
      gives 10^30 mod 2^64, not 10^30 and not 10^6. */
  lemma EighteenDecimalsWraps(reqId: Word256)
    requires RawAmount(reqId) == 1_000_000_000_000_000_000
    ensures GetAmount(reqId, 18) == Amount(5076944270305263616)
    ensures GetAmount(reqId, 18).value != RawAmount(reqId) * Pow10(12)
  {
    assert Pow10(12) == 1_000_000_000_000;
  }
}
