/** Bytes inside a 64-bit machine word. */
module MachineWords {
  import opened Bytes
  import opened Words

  predicate Fits(x: bv64, mask: bv64)
  {
    x & !mask == 0
  }

  function Push(x: bv64, bit: bool): bv64
  {
    (x << 1) | (if bit then 1 else 0)
  }

  /** The lowest `k` bits. */
  function Ones(k: nat): bv64
  {
    if k == 0 then 0 else Push(Ones(k - 1), true)
  }

  /** The lowest `k` bits of a number. */
  function Low(n: nat, k: nat): bv64
  {
    if k == 0 then 0 else Push(Low(n / 2, k - 1), n % 2 == 1)
  }

  lemma {:induction false} LowFits(n: nat, k: nat)
    ensures Fits(Low(n, k), Ones(k))
  {
    hide Push;
    if k > 0 {
      hide Fits;
      LowFits(n / 2, k - 1);
      PushFits(Low(n / 2, k - 1), Ones(k - 1), n % 2 == 1);
    }
  }

  lemma PushFits(x: bv64, mask: bv64, bit: bool)
    requires Fits(x, mask)
    ensures Fits(Push(x, bit), Push(mask, true))
  {
    hide Fits, Push;
    if bit {
      PushOneFits(x, mask);
    } else {
      PushZeroFits(x, mask);
    }
  }

  lemma PushOneFits(x: bv64, mask: bv64)
    requires Fits(x, mask)
    ensures Fits(Push(x, true), Push(mask, true))
  {
  }

  lemma PushZeroFits(x: bv64, mask: bv64)
    requires Fits(x, mask)
    ensures Fits(Push(x, false), Push(mask, true))
  {
  }

  lemma SmallOnes(k: nat)
    requires k <= 8
    ensures Fits(Ones(k), 0xff)
  {
    assert Ones(2) == 3 && Ones(3) == 7 && Ones(4) == 15 && Ones(5) == 31;
    assert Ones(6) == 63 && Ones(7) == 127 && Ones(8) == 255;
  }

  /** Numbers of at most eight bits are known by their bits. */
  lemma {:induction false} LowSame(m: nat, n: nat, k: nat, top: nat)
    requires k <= 8 && top == Power2(k) && m < top && n < top && Low(m, k) == Low(n, k)
    ensures m == n
    decreases k
  {
    hide Push, Fits, Ones;
    if k > 0 {
      LowFits(m / 2, k - 1);
      LowFits(n / 2, k - 1);
      SmallOnes(k - 1);
      PushSame(Low(m / 2, k - 1), Low(n / 2, k - 1), Ones(k - 1), m % 2 == 1, n % 2 == 1);
      LowSame(m / 2, n / 2, k - 1, top / 2);
    }
  }

  lemma PushSame(x: bv64, y: bv64, mask: bv64, a: bool, b: bool)
    requires Fits(x, mask) && Fits(y, mask) && Fits(mask, 0xff) && Push(x, a) == Push(y, b)
    ensures x == y && a == b
  {
  }

  lemma FitsByte(x: bv64, mask: bv64)
    requires Fits(x, mask) && Fits(mask, 0xff)
    ensures Fits(x, 0xff)
  {
  }

  /** A byte as the low byte of a word. */
  function Wide(b: Byte): (w: bv64)
    ensures Fits(w, 0xff)
  {
    LowFits(b as int, 8);
    SmallOnes(8);
    FitsByte(Low(b as int, 8), Ones(8));
    Low(b as int, 8)
  }

  lemma WideSame(b: Byte, c: Byte)
    ensures Wide(b) == Wide(c) <==> b == c
  {
    if Wide(b) == Wide(c) {
      LowSame(b as int, c as int, 8, 256);
    }
  }

  function LowByte(x: bv64): bv64
  {
    x & 0xff
  }

  function Drop(x: bv64): bv64
  {
    x >> 8
  }

  /** A byte put below a word. */
  function Put(b: bv64, x: bv64): bv64
  {
    b | (x << 8)
  }

  function Xor(x: bv64, y: bv64): bv64
  {
    x ^ y
  }

  /** The `k`-th byte of a word. */
  function Field(x: bv64, k: nat): bv64
  {
    if k == 0 then LowByte(x) else Field(Drop(x), k - 1)
  }

  lemma XorDrop(x: bv64, y: bv64)
    ensures Drop(Xor(x, y)) == Xor(Drop(x), Drop(y))
    ensures LowByte(Xor(x, y)) == 0 <==> LowByte(x) == LowByte(y)
  {
  }

  /** Two words have the same byte at a place exactly if their difference is zero there. */
  lemma {:induction false} XorField(x: bv64, y: bv64, k: nat)
    ensures Field(Xor(x, y), k) == 0 <==> Field(x, k) == Field(y, k)
    decreases k
  {
    hide Xor, Drop, LowByte;
    XorDrop(x, y);
    if k > 0 {
      XorField(Drop(x), Drop(y), k - 1);
    }
  }

  predicate TopClear(x: bv64)
  {
    x >> 56 == 0
  }

  predicate Clear(x: bv64)
  {
    x == 0
  }

  /** The word is zero from its `n`-th byte on. */
  predicate Room(x: bv64, n: nat)
  {
    if n == 0 then Clear(x) else Room(Drop(x), n - 1)
  }

  lemma PutBits(b: bv64, x: bv64)
    requires Fits(b, 0xff)
    ensures LowByte(Put(b, x)) == b
    ensures TopClear(x) ==> Drop(Put(b, x)) == x
  {
  }

  lemma ClearBits(x: bv64)
    ensures Clear(x) ==> Clear(Drop(x))
  {
  }

  lemma {:induction false} RoomMore(x: bv64, n: nat)
    requires Room(x, n)
    ensures Room(x, n + 1)
    decreases n
  {
    hide Drop, Clear;
    if n == 0 {
      ClearBits(x);
    } else {
      RoomMore(Drop(x), n - 1);
    }
  }

  lemma {:induction false} RoomTop(x: bv64, n: nat)
    requires n <= 7 && Room(x, n)
    ensures TopClear(x)
    decreases 7 - n
  {
    hide Drop, Clear, TopClear;
    if n == 7 {
      var y := Drop(Drop(Drop(Drop(x))));
      assert Room(x, 7) == Room(Drop(Drop(x)), 5);
      assert Room(Drop(Drop(x)), 5) == Room(y, 3);
      assert Room(y, 3) == Room(Drop(Drop(y)), 1);
      assert Room(Drop(Drop(Drop(y))), 0);
      assert Clear(Drop(Drop(Drop(y))));
      SevenDrops(x);
    } else {
      RoomMore(x, n);
      RoomTop(x, n + 1);
    }
  }

  lemma SevenDrops(x: bv64)
    ensures Clear(Drop(Drop(Drop(Drop(Drop(Drop(Drop(x)))))))) ==> TopClear(x)
  {
  }

  /** Up to eight bytes of memory, read as one word. */
  function Word(s: seq<Byte>): bv64
  {
    if s == [] then 0 else Put(Wide(s[0]), Word(s[1..]))
  }

  lemma {:induction false} WordField(s: seq<Byte>, k: nat)
    requires k < |s| <= 8
    ensures Field(Word(s), k) == Wide(s[k])
    ensures Room(Word(s), |s|)
    decreases |s|
  {
    hide Put, Drop, LowByte, Wide, Fits, TopClear, Clear;
    var x := Word(s[1..]);
    if |s| > 1 {
      WordField(s[1..], if k == 0 then 0 else k - 1);
    } else {
      NoBytes();
    }
    RoomTop(x, |s| - 1);
    PutBits(Wide(s[0]), x);
  }

  lemma NoBytes()
    ensures Word([]) == 0 && Clear(0)
  {
  }

  /** The test for a zero byte in a word, as the encoder makes it. */
  predicate HasZeroByte(x: bv64)
  {
    (x - 0x0101010101010101) & !x & 0x8080808080808080 != 0
  }

  ghost predicate ZeroField(x: bv64)
  {
    exists k: nat :: k < 8 && Field(x, k) == 0
  }

  /** The test holds exactly of the words with a zero byte. */
  lemma ZeroByteTest(x: bv64)
    ensures HasZeroByte(x) <==> ZeroField(x)
  {
    hide HasZeroByte, LowByte, Drop, Field;
    ZeroByteBits(x);
    FieldChain(x);
    if HasZeroByte(x) {
      assert Field(x, 0) == 0 || Field(x, 1) == 0 || Field(x, 2) == 0 || Field(x, 3) == 0 ||
             Field(x, 4) == 0 || Field(x, 5) == 0 || Field(x, 6) == 0 || Field(x, 7) == 0;
    }
  }

  lemma FieldChain(x: bv64)
    ensures Field(x, 0) == LowByte(x) && Field(x, 1) == LowByte(Drop(x))
    ensures Field(x, 2) == LowByte(Drop(Drop(x))) && Field(x, 3) == LowByte(Drop(Drop(Drop(x))))
    ensures var y := Drop(Drop(Drop(Drop(x))));
            && Field(x, 4) == LowByte(y) && Field(x, 5) == LowByte(Drop(y))
            && Field(x, 6) == LowByte(Drop(Drop(y))) && Field(x, 7) == LowByte(Drop(Drop(Drop(y))))
  {
    hide LowByte, Drop;
    var y := Drop(Drop(Drop(Drop(x))));
    FieldTwo(x, 2);
    FieldTwo(x, 3);
    FieldTwo(x, 4);
    FieldTwo(x, 5);
    FieldTwo(x, 6);
    FieldTwo(x, 7);
    FieldTwo(Drop(Drop(x)), 2);
    FieldTwo(Drop(Drop(x)), 3);
    FieldTwo(Drop(Drop(x)), 4);
    FieldTwo(Drop(Drop(x)), 5);
    FieldTwo(y, 2);
    FieldTwo(y, 3);
  }

  lemma FieldTwo(x: bv64, k: nat)
    requires k >= 2
    ensures Field(x, k) == Field(Drop(Drop(x)), k - 2)
  {
    hide LowByte, Drop;
  }

  lemma ZeroByteBits(x: bv64)
    ensures var y := Drop(Drop(Drop(Drop(x))));
            HasZeroByte(x) <==>
            (LowByte(x) == 0 || LowByte(Drop(x)) == 0 ||
             LowByte(Drop(Drop(x))) == 0 || LowByte(Drop(Drop(Drop(x)))) == 0 ||
             LowByte(y) == 0 || LowByte(Drop(y)) == 0 ||
             LowByte(Drop(Drop(y))) == 0 || LowByte(Drop(Drop(Drop(y)))) == 0)
  {
  }

  /** The test on the difference of two words finds a byte that they share. */
  lemma SharedByte(s: seq<Byte>, t: seq<Byte>)
    requires |s| == |t| == 8
    ensures HasZeroByte(Xor(Word(s), Word(t))) <==> exists k: nat :: k < 8 && s[k] == t[k]
  {
    hide HasZeroByte, Word, Drop, LowByte, Wide, Xor;
    var x := Xor(Word(s), Word(t));
    ZeroByteTest(x);
    forall k: nat | k < 8 ensures Field(x, k) == 0 <==> s[k] == t[k] {
      XorField(Word(s), Word(t), k);
      WordField(s, k);
      WordField(t, k);
      WideSame(s[k], t[k]);
    }
    if HasZeroByte(x) {
      var k: nat :| k < 8 && Field(x, k) == 0;
      assert s[k] == t[k];
    }
    if k: nat :| k < 8 && s[k] == t[k] {
      assert Field(x, k) == 0;
      assert ZeroField(x);
    }
  }
}
