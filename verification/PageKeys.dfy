/** Page-number arithmetic of the physical page map (qemu/exec.c:110-118, 191-225).

    A page number is read nine bits at a time.  `Key(page, k)` is
    `page >> (k * P_L2_BITS)` and `Step(k)` is `1 << (k * P_L2_BITS)`. */
module PageKeys {
  import opened Alignment

  const P_L2_SIZE: nat := 512
  const P_L2_LEVELS: nat := 6

  function Key(page: nat, k: nat): nat
  {
    if k == 0 then page else Key(page, k - 1) / P_L2_SIZE
  }

  function Step(k: nat): (s: nat)
    ensures s > 0
  {
    if k == 0 then 1 else P_L2_SIZE * Step(k - 1)
  }

  /** The child slot of a page in a node of level `lev`. */
  function Slot(page: nat, lev: nat): (i: nat)
    ensures i < P_L2_SIZE
  {
    Key(page, lev) % P_L2_SIZE
  }

  lemma {:induction false} KeyCompose(page: nat, a: nat, b: nat)
    ensures Key(Key(page, a), b) == Key(page, a + b)
    decreases b
  {
    if b != 0 {
      KeyCompose(page, a, b - 1);
    }
  }

  /** Pages that share a key form one aligned interval of `Step(k)` pages. */
  lemma {:induction false} KeyInterval(page: nat, k: nat)
    ensures Key(page, k) * Step(k) <= page < (Key(page, k) + 1) * Step(k)
    decreases k
  {
    if k != 0 {
      KeyInterval(page, k - 1);
      IntervalUp(page, Key(page, k - 1), Step(k - 1));
    }
  }

  lemma IntervalUp(page: nat, q: nat, s: nat)
    requires q * s <= page < (q + 1) * s
    ensures q / P_L2_SIZE * (P_L2_SIZE * s) <= page < (q / P_L2_SIZE + 1) * (P_L2_SIZE * s)
  {
    var d := q / P_L2_SIZE;
    MulMonotone(d * P_L2_SIZE, q, s);
    MulMonotone(q + 1, (d + 1) * P_L2_SIZE, s);
    MulAssoc(d, P_L2_SIZE, s);
    MulAssoc(d + 1, P_L2_SIZE, s);
  }

  lemma MulAssoc(a: nat, b: nat, c: nat)
    ensures a * b * c == a * (b * c)
  {
  }

  lemma MulStrict(a: nat, b: nat, s: nat)
    requires s > 0 && a * s < b * s
    ensures a < b
  {
  }

  /** The interval of a key determines the key. */
  lemma KeyOfInterval(page: nat, q: nat, k: nat)
    requires q * Step(k) <= page < (q + 1) * Step(k)
    ensures Key(page, k) == q
  {
    KeyInterval(page, k);
    MulStrict(Key(page, k), q + 1, Step(k));
    MulStrict(q, Key(page, k) + 1, Step(k));
  }

  lemma KeyParent(page: nat, lev: nat)
    ensures Key(page, lev + 1) == Key(page, lev) / P_L2_SIZE
    ensures Key(page, lev) == Key(page, lev + 1) * P_L2_SIZE + Slot(page, lev)
  {
  }

  ghost predicate WithinKey(lo: nat, hi: nat, k: nat, key: nat)
  {
    forall p: nat :: lo <= p < hi ==> Key(p, k) == key
  }

  lemma IntervalWithinKey(lo: nat, hi: nat, k: nat)
    requires hi <= (Key(lo, k) + 1) * Step(k)
    ensures WithinKey(lo, hi, k, Key(lo, k))
  {
    forall p: nat | lo <= p < hi
      ensures Key(p, k) == Key(lo, k)
    {
      KeyInterval(lo, k);
      KeyOfInterval(p, Key(lo, k), k);
    }
  }

  /** `(index & (step - 1)) == 0`: the page starts its interval. */
  lemma AlignedKey(index: nat, k: nat)
    ensures index % Step(k) == 0 <==> index == Key(index, k) * Step(k)
  {
    KeyInterval(index, k);
    var q, s := Key(index, k), Step(k);
    var r := index - q * s;
    assert (q + 1) * s == q * s + s;
    ModOf(q, s, r);
  }

  /** Aligned for a subtree implies aligned for each of its slots. */
  lemma AlignedDown(index: nat, k: nat)
    requires index % Step(k + 1) == 0
    ensures index % Step(k) == 0
  {
    AlignedKey(index, k + 1);
    var q := Key(index, k + 1);
    assert index == q * (P_L2_SIZE * Step(k)) == (q * P_L2_SIZE) * Step(k);
    KeyOfInterval(index, q * P_L2_SIZE, k);
    AlignedKey(index, k);
  }

  lemma StepUp(pre: nat, i: nat, k: nat)
    requires i <= P_L2_SIZE
    ensures pre * Step(k + 1) == (pre * P_L2_SIZE) * Step(k)
    ensures (pre * P_L2_SIZE + i) * Step(k) <= (pre + 1) * Step(k + 1)
    ensures i == P_L2_SIZE ==> (pre * P_L2_SIZE + i) * Step(k) == (pre + 1) * Step(k + 1)
  {
    assert (pre + 1) * Step(k + 1) == ((pre + 1) * P_L2_SIZE) * Step(k);
    MulMonotone(pre * P_L2_SIZE + i, (pre + 1) * P_L2_SIZE, Step(k));
  }
}
