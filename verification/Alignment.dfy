/** Rounding to multiples of the request alignment.  The source masks with a power of
    two (`x & ~(align - 1)`, ROUND_UP); nothing here needs more than `align > 0`. */
module Alignment {

  function Down(x: nat, align: nat): (d: nat)
    requires align > 0
    ensures d <= x < d + align && d % align == 0
  {
    DownIsMultiple(x, align);
    x - x % align
  }

  function RoundUp(x: nat, align: nat): (u: nat)
    requires align > 0
    ensures x <= u < x + align && u % align == 0
  {
    Down(x + align - 1, align)
  }

  lemma ModOf(q: nat, s: nat, r: nat)
    requires r < s
    ensures (q * s + r) % s == r
  {
    var x := q * s + r;
    assert x == (x / s) * s + x % s;
    if x / s < q {
      MulMonotone(x / s + 1, q, s);
    } else if x / s > q {
      MulMonotone(q + 1, x / s, s);
    }
  }

  lemma MulMonotone(a: nat, b: nat, s: nat)
    requires a <= b
    ensures a * s <= b * s
  {
  }

  lemma DownIsMultiple(x: nat, align: nat)
    requires align > 0
    ensures (x - x % align) % align == 0
  {
    assert x - x % align == (x / align) * align + 0;
    ModOf(x / align, align, 0);
  }

  /** Adding a multiple does not change the remainder. */
  lemma ModShift(m: nat, x: nat, align: nat)
    requires align > 0 && m % align == 0
    ensures (m + x) % align == x % align
  {
    var q := m / align;
    assert m == q * align;
    assert m + x == (q + x / align) * align + x % align;
    ModOf(q + x / align, align, x % align);
  }

  lemma RoundUpShift(m: nat, x: nat, align: nat)
    requires align > 0 && m % align == 0
    ensures RoundUp(m + x, align) == m + RoundUp(x, align)
    ensures Down(m + x, align) == m + Down(x, align)
  {
    ModShift(m, x + align - 1, align);
    ModShift(m, x, align);
  }

  lemma RoundUpOfMultiple(x: nat, align: nat)
    requires align > 0
    ensures x % align == 0 ==> RoundUp(x, align) == x
    ensures x % align != 0 ==> RoundUp(x, align) == Down(x, align) + align
  {
    ModShift(Down(x, align), x % align + align - 1, align);
    if x % align != 0 {
      assert x % align + align - 1 == align + (x % align - 1);
      ModOf(1, align, x % align - 1);
    } else {
      ModOf(0, align, align - 1);
    }
  }
}
