/** IPv4 addresses and CIDR containment, with the shifts and the bitwise conjunction on
    unbounded integers that the rule engine computes with. */
module Cidr {

  datatype Quad = Quad(a: nat, b: nat, c: nat, d: nat)

  type Address = q: Quad | q.a < 256 && q.b < 256 && q.c < 256 && q.d < 256 witness Quad(0, 0, 0, 0)

  const ALL_ONES := 0xFFFF_FFFF
  const SPACE := 0x1_0000_0000

  function ShiftLeft(x: nat, n: nat): nat {
    if n == 0 then x else 2 * ShiftLeft(x, n - 1)
  }

  function ShiftRight(x: nat, n: nat): nat {
    if n == 0 then x else ShiftRight(x / 2, n - 1)
  }

  /** The left shift, which goes right when its count is negative. */
  function Shift(x: nat, count: int): nat {
    if count >= 0 then ShiftLeft(x, count) else ShiftRight(x, -count)
  }

  function BitAnd(x: nat, y: nat): nat {
    if x == 0 || y == 0 then 0 else 2 * BitAnd(x / 2, y / 2) + (if x % 2 == 1 && y % 2 == 1 then 1 else 0)
  }

  function TupleToInt(q: Address): nat {
    Shift(q.a, 24) + Shift(q.b, 16) + Shift(q.c, 8) + q.d
  }

  function Mask(prefix: int): nat {
    BitAnd(Shift(ALL_ONES, 32 - prefix), ALL_ONES)
  }

  predicate Contains(net: Address, prefix: int, ip: Address) {
    BitAnd(TupleToInt(net), Mask(prefix)) == BitAnd(TupleToInt(ip), Mask(prefix))
  }

  // ---- powers, quotients and remainders, bit by bit ----

  function Pow2(n: nat): (r: nat)
    ensures r >= 1
  {
    if n == 0 then 1 else 2 * Pow2(n - 1)
  }

  /** The low n bits. */
  function Low(x: nat, n: nat): nat {
    if n == 0 then 0 else 2 * Low(x / 2, n - 1) + x % 2
  }

  lemma {:induction false} ShiftRightIsQuotient(x: nat, n: nat)
    ensures ShiftRight(x, n) == x / Pow2(n)
    decreases n
  {
    if n > 0 {
      ShiftRightIsQuotient(x / 2, n - 1);
      HalveThenDivide(x, Pow2(n - 1));
    }
  }

  lemma {:induction false} LowIsRemainder(x: nat, n: nat)
    ensures Low(x, n) == x % Pow2(n)
    decreases n
  {
    if n > 0 {
      LowIsRemainder(x / 2, n - 1);
      HalveThenDivide(x, Pow2(n - 1));
    }
  }

  lemma {:induction false} QuotientIs(x: int, d: int, q: int, r: int)
    requires 0 <= r < d && x == q * d + r
    ensures x / d == q && x % d == r
  {
    var q', r' := x / d, x % d;
    assert x == q' * d + r';
    assert (q - q') * d == r' - r;
    SmallMultiple(q - q', d);
  }

  /** A multiple of d strictly between -d and d is zero. */
  lemma SmallMultiple(a: int, d: int)
    requires d >= 1 && -d < a * d < d
    ensures a == 0
  {
  }

  lemma {:induction false} HalveThenDivide(x: nat, p: nat)
    requires p > 0
    ensures x / (2 * p) == x / 2 / p
    ensures x % (2 * p) == 2 * (x / 2 % p) + x % 2
  {
    var h, q := x / 2, x / 2 / p;
    var r := h % p;
    assert h == q * p + r;
    assert q * (2 * p) == 2 * (q * p);
    QuotientIs(x, 2 * p, q, 2 * r + x % 2);
  }

  lemma {:induction false} ShiftInjective(x: nat, y: nat, n: nat)
    ensures ShiftLeft(x, n) == ShiftLeft(y, n) <==> x == y
  {
    if n > 0 { ShiftInjective(x, y, n - 1); }
  }

  lemma {:induction false} ShiftRightSum(x: nat, m: nat, n: nat)
    ensures ShiftRight(ShiftRight(x, m), n) == ShiftRight(x, m + n)
  {
    if m > 0 { ShiftRightSum(x / 2, m - 1, n); }
  }

  /** Conjunction with n ones keeps the low n bits. */
  lemma {:induction false} AndOnes(x: nat, n: nat)
    ensures BitAnd(x, Pow2(n) - 1) == Low(x, n)
    decreases n
  {
    if n > 0 {
      AndOnes(x / 2, n - 1);
      assert (Pow2(n) - 1) / 2 == Pow2(n - 1) - 1 && (Pow2(n) - 1) % 2 == 1;
      if x == 0 { LowSmall(0, n); }
    }
  }

  lemma {:induction false} LowSmall(x: nat, n: nat)
    requires x < Pow2(n)
    ensures Low(x, n) == x
  {
    if n > 0 { LowSmall(x / 2, n - 1); }
  }

  /** Conjunction with a shifted mask sees only the shifted bits. */
  lemma {:induction false} AndShifted(x: nat, y: nat, n: nat)
    ensures BitAnd(x, ShiftLeft(y, n)) == ShiftLeft(BitAnd(ShiftRight(x, n), y), n)
    decreases n
  {
    if n > 0 {
      AndShifted(x / 2, y, n - 1);
      var z := ShiftLeft(y, n - 1);
      assert (2 * z) / 2 == z && (2 * z) % 2 == 0;
      if x == 0 { assert BitAnd(x / 2, z) == 0; }
      assert BitAnd(x, 2 * z) == 2 * BitAnd(x / 2, z);
    }
  }

  lemma {:induction false} LowShifted(x: nat, n: nat, k: nat)
    ensures Low(ShiftLeft(x, k), n) == if k <= n then ShiftLeft(Low(x, n - k), k) else 0
    decreases n
  {
    if n > 0 && k > 0 {
      assert ShiftLeft(x, k) / 2 == ShiftLeft(x, k - 1) && ShiftLeft(x, k) % 2 == 0;
      LowShifted(x, n - 1, k - 1);
      if k > n { assert Low(ShiftLeft(x, k - 1), n - 1) == 0; }
    }
  }

  lemma {:induction false} LowOnes(m: nat, n: nat)
    ensures Low(Pow2(m) - 1, n) == if n <= m then Pow2(n) - 1 else Pow2(m) - 1
    decreases n
  {
    if n > 0 {
      if m > 0 {
        assert (Pow2(m) - 1) / 2 == Pow2(m - 1) - 1 && (Pow2(m) - 1) % 2 == 1;
        LowOnes(m - 1, n - 1);
      } else {
        LowOnes(0, n - 1);
      }
    }
  }

  lemma {:induction false} OnesShiftedRight(m: nat, n: nat)
    ensures ShiftRight(Pow2(m) - 1, n) == if n <= m then Pow2(m - n) - 1 else 0
    decreases n
  {
    if n > 0 {
      if m > 0 {
        assert (Pow2(m) - 1) / 2 == Pow2(m - 1) - 1;
        OnesShiftedRight(m - 1, n - 1);
      } else {
        OnesShiftedRight(0, n - 1);
      }
    }
  }

  lemma {:induction false} ShiftRightSmall(x: nat, n: nat, k: nat)
    requires x < Pow2(n) && k <= n
    ensures ShiftRight(x, k) < Pow2(n - k)
  {
    if k > 0 { ShiftRightSmall(x / 2, n - 1, k - 1); }
  }

  lemma SpaceIs()
    ensures Pow2(32) == SPACE
  {
    assert Pow2(8) == 0x100;
    assert Pow2(16) == 0x1_0000;
    assert Pow2(24) == 0x100_0000;
  }

  /** A prefix in range masks all but its host bits; past 32 the mask is the low 64 - prefix bits;
      otherwise it is empty. */
  lemma {:induction false} MaskIs(prefix: int)
    ensures 0 <= prefix <= 32 ==> Mask(prefix) == ShiftLeft(Pow2(prefix) - 1, 32 - prefix)
    ensures 32 < prefix <= 64 ==> Mask(prefix) == Pow2(64 - prefix) - 1
    ensures prefix < 0 || prefix > 64 ==> Mask(prefix) == 0
  {
    SpaceIs();
    AndOnes(Shift(ALL_ONES, 32 - prefix), 32);
    if prefix <= 32 {
      LowShifted(ALL_ONES, 32, 32 - prefix);
      if prefix >= 0 { LowOnes(32, prefix); }
    } else {
      OnesShiftedRight(32, prefix - 32);
      if prefix <= 64 { LowOnes(64 - prefix, 32); } else { LowSmall(0, 32); }
    }
  }

  // ---- addresses as integers ----

  lemma TupleIs(q: Address)
    ensures TupleToInt(q) == q.a * 0x100_0000 + q.b * 0x1_0000 + q.c * 0x100 + q.d < SPACE
  {
    ShiftByEight(q.c);
    ShiftByEight(q.b);
    ShiftByEight(ShiftLeft(q.b, 8));
    ShiftLeftSum(q.b, 8, 8);
    ShiftByEight(q.a);
    ShiftByEight(ShiftLeft(q.a, 8));
    ShiftByEight(ShiftLeft(ShiftLeft(q.a, 8), 8));
    ShiftLeftSum(q.a, 8, 8);
    ShiftLeftSum(q.a, 16, 8);
  }

  lemma ShiftByEight(x: nat)
    ensures ShiftLeft(x, 8) == 256 * x
  {
    assert ShiftLeft(x, 1) == 2 * ShiftLeft(x, 0);
    assert ShiftLeft(x, 2) == 2 * ShiftLeft(x, 1);
    assert ShiftLeft(x, 3) == 2 * ShiftLeft(x, 2);
    assert ShiftLeft(x, 4) == 2 * ShiftLeft(x, 3);
    assert ShiftLeft(x, 5) == 2 * ShiftLeft(x, 4);
    assert ShiftLeft(x, 6) == 2 * ShiftLeft(x, 5);
    assert ShiftLeft(x, 7) == 2 * ShiftLeft(x, 6);
  }

  lemma {:induction false} ShiftLeftSum(x: nat, m: nat, n: nat)
    ensures ShiftLeft(ShiftLeft(x, m), n) == ShiftLeft(x, m + n)
  {
    if n > 0 { ShiftLeftSum(x, m, n - 1); }
  }

  function IntToTuple(n: nat): Address
    requires n < SPACE
  {
    var abc := n / 256;
    var ab := abc / 256;
    Quad(ab / 256, ab % 256, abc % 256, n % 256)
  }

  /** The conversion is a bijection between octet tuples and 32-bit values. */
  lemma {:induction false} TupleBijection(q: Address, n: nat)
    requires n < SPACE
    ensures TupleToInt(q) < SPACE && IntToTuple(TupleToInt(q)) == q
    ensures TupleToInt(IntToTuple(n)) == n
  {
    TupleIs(q);
    var ab := 256 * q.a + q.b;
    QuotientIs(TupleToInt(q), 256, 256 * ab + q.c, q.d);
    QuotientIs(256 * ab + q.c, 256, ab, q.c);
    QuotientIs(ab, 256, q.a, q.b);
    TupleIs(IntToTuple(n));
  }

  // ---- containment ----

  lemma MaskedIs(q: Address, prefix: int)
    requires 0 <= prefix <= 32
    ensures BitAnd(TupleToInt(q), Mask(prefix))
         == ShiftLeft(ShiftRight(TupleToInt(q), 32 - prefix), 32 - prefix)
  {
    var n, k := TupleToInt(q), 32 - prefix;
    MaskIs(prefix);
    TupleIs(q);
    SpaceIs();
    AndShifted(n, Pow2(prefix) - 1, k);
    AndOnes(ShiftRight(n, k), prefix);
    ShiftRightSmall(n, 32, k);
    LowSmall(ShiftRight(n, k), prefix);
  }

  /** For a prefix in range, the mask test compares the quotients by the block size. */
  lemma {:induction false} ContainsIffSameQuotient(net: Address, prefix: int, ip: Address)
    requires 0 <= prefix <= 32
    ensures Contains(net, prefix, ip)
       <==> TupleToInt(net) / Pow2(32 - prefix) == TupleToInt(ip) / Pow2(32 - prefix)
  {
    MaskedIs(net, prefix);
    MaskedIs(ip, prefix);
    ShiftInjective(ShiftRight(TupleToInt(net), 32 - prefix), ShiftRight(TupleToInt(ip), 32 - prefix), 32 - prefix);
    ShiftRightIsQuotient(TupleToInt(net), 32 - prefix);
    ShiftRightIsQuotient(TupleToInt(ip), 32 - prefix);
  }

  /** Prefixes outside 0..32 are not refused: past 32 the test compares low bits, and a negative
      prefix, or one past 64, contains every address. */
  lemma {:induction false} ContainsOutOfRange(net: Address, prefix: int, ip: Address)
    requires prefix < 0 || prefix > 32
    ensures Contains(net, prefix, ip)
       <==> prefix < 0 || prefix > 64
            || TupleToInt(net) % Pow2(64 - prefix) == TupleToInt(ip) % Pow2(64 - prefix)
  {
    MaskIs(prefix);
    if 32 < prefix <= 64 {
      AndOnes(TupleToInt(net), 64 - prefix);
      AndOnes(TupleToInt(ip), 64 - prefix);
      LowIsRemainder(TupleToInt(net), 64 - prefix);
      LowIsRemainder(TupleToInt(ip), 64 - prefix);
    }
  }

  /** Two CIDR blocks are nested or disjoint: once they share an address, the one with the longer
      prefix lies inside the other. */
  lemma {:induction false} NestedOrDisjoint(n1: Address, p1: int, n2: Address, p2: int, shared: Address, ip: Address)
    requires 0 <= p1 <= p2 <= 32
    requires Contains(n1, p1, shared) && Contains(n2, p2, shared)
    requires Contains(n2, p2, ip)
    ensures Contains(n1, p1, ip)
  {
    MaskedIs(n2, p2); MaskedIs(shared, p2); MaskedIs(ip, p2);
    var x, y := TupleToInt(shared), TupleToInt(ip);
    ShiftInjective(ShiftRight(x, 32 - p2), ShiftRight(y, 32 - p2), 32 - p2);
    ShiftRightSum(x, 32 - p2, p2 - p1);
    ShiftRightSum(y, 32 - p2, p2 - p1);
    MaskedIs(n1, p1); MaskedIs(shared, p1); MaskedIs(ip, p1);
  }
}
