/** The bitwise operators and shifts of C on unsigned words, bit by bit, and what masks of
    consecutive bits compute. */
module Words {

  function Pow(k: nat): (p: nat)
    ensures p >= 1
  {
    if k == 0 then 1 else 2 * Pow(k - 1)
  }

  predicate Bit(x: nat, i: nat) {
    if i == 0 then x % 2 == 1 else Bit(x / 2, i - 1)
  }

  function And(x: nat, y: nat): nat {
    if x == 0 || y == 0 then 0
    else (if x % 2 == 1 && y % 2 == 1 then 1 else 0) + 2 * And(x / 2, y / 2)
  }

  function Or(x: nat, y: nat): nat {
    if x == 0 then y else if y == 0 then x
    else (if x % 2 == 1 || y % 2 == 1 then 1 else 0) + 2 * Or(x / 2, y / 2)
  }

  function Shr(x: nat, k: nat): nat
    decreases k
  {
    if k == 0 then x else Shr(x / 2, k - 1)
  }

  function Shl(x: nat, k: nat): nat {
    if k == 0 then x else 2 * Shl(x, k - 1)
  }

  /** The bits below `k`. */
  function Low(x: nat, k: nat): (r: nat)
    ensures r < Pow(k)
    decreases k
  {
    if k == 0 then 0 else x % 2 + 2 * Low(x / 2, k - 1)
  }

  /** Bits `lo` up to, but not including, `hi`. */
  function Field(x: nat, lo: nat, hi: nat): (f: nat)
    requires lo <= hi
    ensures f < Pow(hi - lo)
  {
    Low(Shr(x, lo), hi - lo)
  }

  // ----- bits -----

  lemma {:induction false} ZeroBits(i: nat)
    ensures !Bit(0, i)
  {
    if i > 0 { ZeroBits(i - 1); }
  }

  lemma AndHalves(x: nat, y: nat)
    ensures And(x, y) == (if x % 2 == 1 && y % 2 == 1 then 1 else 0) + 2 * And(x / 2, y / 2)
  {
  }

  lemma OrHalves(x: nat, y: nat)
    ensures Or(x, y) == (if x % 2 == 1 || y % 2 == 1 then 1 else 0) + 2 * Or(x / 2, y / 2)
  {
  }

  /** `And` is the bitwise conjunction. */
  lemma {:induction false} BitAnd(x: nat, y: nat, i: nat)
    ensures Bit(And(x, y), i) <==> Bit(x, i) && Bit(y, i)
    decreases i
  {
    hide And;
    AndHalves(x, y);
    if i > 0 { BitAnd(x / 2, y / 2, i - 1); }
  }

  /** `Or` is the bitwise disjunction. */
  lemma {:induction false} BitOr(x: nat, y: nat, i: nat)
    ensures Bit(Or(x, y), i) <==> Bit(x, i) || Bit(y, i)
    decreases i
  {
    hide Or;
    OrHalves(x, y);
    if i > 0 { BitOr(x / 2, y / 2, i - 1); }
  }

  /** A single bit. */
  lemma {:induction false} AndBit(x: nat, i: nat)
    ensures And(x, Pow(i)) == if Bit(x, i) then Pow(i) else 0
    decreases i
  {
    AndHalves(x, Pow(i));
    if i > 0 {
      AndBit(x / 2, i - 1);
    } else {
      assert And(x / 2, 0) == 0;
    }
  }

  /** Disjoint masks may be taken one after the other. */
  lemma {:induction false} AndSplit(x: nat, y: nat, z: nat)
    requires And(y, z) == 0
    ensures And(x, y + z) == And(x, y) + And(x, z)
    decreases x
  {
    if x != 0 && y != 0 && z != 0 {
      assert (y + z) / 2 == y / 2 + z / 2;
      AndSplit(x / 2, y / 2, z / 2);
    }
  }

  // ----- a word is its high bits and its low bits -----

  lemma {:induction false} Split(x: nat, k: nat)
    ensures x == Shl(Shr(x, k), k) + Low(x, k)
    decreases k
  {
    if k > 0 { Split(x / 2, k - 1); }
  }

  lemma {:induction false} Unsplit(q: nat, r: nat, k: nat)
    requires r < Pow(k)
    ensures Shr(Shl(q, k) + r, k) == q && Low(Shl(q, k) + r, k) == r
    decreases k
  {
    if k > 0 {
      assert (Shl(q, k) + r) / 2 == Shl(q, k - 1) + r / 2;
      Unsplit(q, r / 2, k - 1);
    }
  }

  lemma {:induction false} ShlAdd(x: nat, y: nat, k: nat)
    ensures Shl(x + y, k) == Shl(x, k) + Shl(y, k)
  {
    if k > 0 { ShlAdd(x, y, k - 1); }
  }

  lemma {:induction false} ShlShl(x: nat, k: nat, n: nat)
    ensures Shl(Shl(x, k), n) == Shl(x, k + n)
  {
    if n > 0 { ShlShl(x, k, n - 1); }
  }

  lemma {:induction false} ShlZero(x: nat, k: nat)
    ensures Shl(x, k) == 0 <==> x == 0
  {
    if k > 0 { ShlZero(x, k - 1); }
  }

  lemma {:induction false} ShlPow(x: nat, k: nat)
    ensures Shl(x, k) == x * Pow(k)
  {
    if k > 0 { ShlPow(x, k - 1); }
  }

  lemma LowSmall(x: nat, k: nat)
    requires x < Pow(k)
    ensures Low(x, k) == x
  {
    ShlZero(0, k);
    Unsplit(0, x, k);
  }

  lemma {:induction false} ShlBound(x: nat, k: nat, n: nat)
    requires x < Pow(n)
    ensures Shl(x, k) + Pow(k) <= Pow(n + k)
  {
    if k > 0 { ShlBound(x, k - 1, n); }
  }

  lemma {:induction false} ShrShr(x: nat, k: nat, n: nat)
    ensures Shr(x, k + n) == Shr(Shr(x, k), n)
    decreases k
  {
    if k > 0 { ShrShr(x / 2, k - 1, n); }
  }

  lemma {:induction false} LowLow(x: nat, k: nat, n: nat)
    requires k <= n
    ensures Low(Low(x, n), k) == Low(x, k)
    decreases k
  {
    if k > 0 {
      assert Low(x, n) / 2 == Low(x / 2, n - 1);
      LowLow(x / 2, k - 1, n - 1);
    }
  }

  lemma {:induction false} PowSum(k: nat, n: nat)
    ensures Pow(k + n) == Pow(k) * Pow(n)
  {
    if k > 0 { PowSum(k - 1, n); }
  }

  // ----- masks -----

  /** Masking with the bits below `k`. */
  lemma {:induction false} AndLow(x: nat, k: nat)
    ensures And(x, Pow(k) - 1) == Low(x, k)
    decreases k
  {
    if k > 0 {
      AndLow(x / 2, k - 1);
      hide And;
      AndHalves(x, Pow(k) - 1);
    }
  }

  /** Only the low bits of a mask matter to a small word. */
  lemma {:induction false} AndSmall(x: nat, mask: nat, k: nat)
    requires x < Pow(k)
    ensures And(x, mask) == And(x, Low(mask, k))
    decreases k
  {
    if k > 0 {
      AndSmall(x / 2, mask / 2, k - 1);
      hide And;
      AndHalves(x, mask);
      AndHalves(x, Low(mask, k));
    }
  }

  lemma {:induction false} PowGrows(k: nat, n: nat)
    requires k <= n
    ensures Pow(k) <= Pow(n)
    decreases n - k
  {
    if k < n { PowGrows(k, n - 1); }
  }

  /** Masking with the bits from `k` up to, but not including, `n`. */
  lemma {:induction false} AndRange(x: nat, k: nat, n: nat)
    requires k <= n
    ensures Pow(k) <= Pow(n) && And(x, Pow(n) - Pow(k)) == Shl(Field(x, k, n), k)
    decreases k
  {
    hide And;
    PowGrows(k, n);
    if k == 0 {
      AndLow(x, n);
    } else {
      AndRange(x / 2, k - 1, n - 1);
      AndHalves(x, Pow(n) - Pow(k));
    }
  }

  /** A field in place is the difference between what is below its ends. */
  lemma {:induction false} FieldAt(x: nat, k: nat, n: nat)
    requires k <= n
    ensures Shl(Field(x, k, n), k) == Low(x, n) - Low(x, k)
    decreases k
  {
    if k > 0 { FieldAt(x / 2, k - 1, n - 1); }
  }

  /** Putting together high bits and low bits. */
  lemma {:induction false} OrDisjoint(q: nat, r: nat, k: nat)
    requires r < Pow(k)
    ensures Or(Shl(q, k), r) == Shl(q, k) + r
    decreases k
  {
    if k > 0 && r > 0 {
      OrDisjoint(q, r / 2, k - 1);
    }
  }
}
