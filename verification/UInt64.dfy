/** Unsigned 64-bit arithmetic as the daemon's amounts use it: every sum and difference wraps. */
module UInt64 {

  type u64 = x: int | 0 <= x < 0x1_0000_0000_0000_0000

  const TWO_63: int := 0x8000_0000_0000_0000
  const TWO_64: int := 0x1_0000_0000_0000_0000

  /** The value a uint64 variable holds after being assigned the mathematical integer `x`. */
  function U64(x: int): (r: u64)
    ensures 0 <= x < TWO_64 ==> r == x
    decreases if x < 0 then -x else x
  {
    if x < 0 then (if x + TWO_64 < 0 then U64(x + TWO_64) else x + TWO_64)
    else if x < TWO_64 then x
    else U64(x - TWO_64)
  }

  lemma Shift(x: int)
    ensures U64(x + TWO_64) == U64(x)
  {
    if x < 0 {
      assert x + TWO_64 < 0 ==> U64(x) == U64(x + TWO_64);
    }
  }

  /** Wrapping an operand first does not change a wrapped sum. */
  lemma {:induction false} WrapAdd(a: int, b: int)
    ensures U64(U64(a) + b) == U64(a + b)
    decreases if a < 0 then -a else a
  {
    if a < 0 {
      if a + TWO_64 < 0 { WrapAdd(a + TWO_64, b); }
      Shift(a + b);
    } else if a >= TWO_64 {
      WrapAdd(a - TWO_64, b);
      Shift(a - TWO_64 + b);
    }
  }

  lemma {:induction false} WrapSub(a: int, b: int)
    ensures U64(b - U64(a)) == U64(b - a)
    decreases if a < 0 then -a else a
  {
    if a < 0 {
      if a + TWO_64 < 0 { WrapSub(a + TWO_64, b); }
      Shift(b - a - TWO_64);
    } else if a >= TWO_64 {
      WrapSub(a - TWO_64, b);
      Shift(b - a);
    }
  }

  lemma WrapDiff(a: int, b: int)
    ensures U64(U64(a) - U64(b)) == U64(a - b)
  {
    WrapAdd(a, 0 - U64(b));
    WrapSub(b, a);
  }

  /** Adding an amount and taking it off again gives the value back, even across a wrap. */
  lemma WrapUndo(t: u64, f: u64, wrapped: bool)
    ensures U64(U64(t + f - (if wrapped then TWO_64 else 0)) - f) == t
  {
    var d := t + f - (if wrapped then TWO_64 else 0);
    WrapAdd(d, 0 - f);
    Shift(t - TWO_64);
  }

  /** `int64(x)` of a uint64. */
  function I64(x: u64): (r: int)
    ensures -TWO_63 <= r < TWO_63 && (r == x || r == x - TWO_64)
    ensures x < TWO_63 <==> r >= 0
  {
    if x < TWO_63 then x else x - TWO_64
  }
}
