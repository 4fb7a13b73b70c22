/** Bitwise operators on scoped enumerations. Every operator casts both
    operands to `unsigned` (32 bits), combines them and casts back, so an
    enumeration value is modelled by its 32-bit pattern. */
module EnumOp {

  /** The zero pattern: `NONE` of every flag enumeration in the program. */
  const NONE: bv32 := 0

  /** Bit `k` (0 = least significant) of `x` is set. */
  predicate HasBit(x: bv32, k: bv32)
    requires k < 32
  {
    (x >> k) & 1 == 1
  }

  /** `lhs | rhs` */
  function Or(lhs: bv32, rhs: bv32): (r: bv32)
    ensures forall k: bv32 | k < 32 :: HasBit(r, k) == (HasBit(lhs, k) || HasBit(rhs, k))
  {
    forall k: bv32 | k < 32
      ensures HasBit(lhs | rhs, k) == (HasBit(lhs, k) || HasBit(rhs, k))
    {
      OrBit(lhs, rhs, k);
    }
    lhs | rhs
  }

  lemma OrBit(a: bv32, b: bv32, k: bv32)
    requires k < 32
    ensures HasBit(a | b, k) == (HasBit(a, k) || HasBit(b, k))
  {
  }

  lemma AndBit(a: bv32, b: bv32, k: bv32)
    requires k < 32
    ensures HasBit(a & b, k) == (HasBit(a, k) && HasBit(b, k))
  {
  }

  /** `lhs & rhs` */
  function And(lhs: bv32, rhs: bv32): (r: bv32)
    ensures forall k: bv32 | k < 32 :: HasBit(r, k) == (HasBit(lhs, k) && HasBit(rhs, k))
  {
    forall k: bv32 | k < 32
      ensures HasBit(lhs & rhs, k) == (HasBit(lhs, k) && HasBit(rhs, k))
    {
      AndBit(lhs, rhs, k);
    }
    lhs & rhs
  }

  /** An enumeration lvalue, the target of a compound assignment. */
  class Lvalue {
    var value: bv32

    constructor (init: bv32)
      ensures value == init
    {
      value := init;
    }

    /** `lhs |= rhs`: stores `lhs | rhs` into `lhs` and returns the stored value. */
    method OrAssign(rhs: bv32) returns (r: bv32)
      modifies this
      ensures value == Or(old(value), rhs) && r == value
    {
      value := Or(value, rhs);
      r := value;
    }

    /** `lhs &= rhs`: stores `lhs & rhs` into `lhs` and returns the stored value. */
    method AndAssign(rhs: bv32) returns (r: bv32)
      modifies this
      ensures value == And(old(value), rhs) && r == value
    {
      value := And(value, rhs);
      r := value;
    }
  }

  /** `|` is commutative, associative and idempotent, with NONE as identity. */
  lemma OrLaws(a: bv32, b: bv32, c: bv32)
    ensures Or(a, b) == Or(b, a)
    ensures Or(Or(a, b), c) == Or(a, Or(b, c))
    ensures Or(a, a) == a
    ensures Or(a, NONE) == a && Or(NONE, a) == a
  {
  }

  /** `&` is commutative and idempotent, and NONE absorbs under it. */
  lemma AndLaws(a: bv32, b: bv32)
    ensures And(a, b) == And(b, a)
    ensures And(a, NONE) == NONE
    ensures And(a, a) == a
  {
  }
}
