/** Numbers as bytes, in both orders. */
module Words {
  import opened Bytes

  const WORD_MAX: nat := 0x1_0000_0000_0000_0000

  /** The last `k` bytes of a number, most significant first. */
  function Be(n: nat, k: nat): (s: seq<Byte>)
    ensures |s| == k
    decreases k
  {
    if k == 0 then [] else Be(n / 256, k - 1) + [(n % 256) as Byte]
  }

  function UnBe(s: seq<Byte>): nat
  {
    if s == [] then 0 else UnBe(s[..|s| - 1]) * 256 + s[|s| - 1] as int
  }

  lemma UnBeMore(s: seq<Byte>, b: Byte)
    ensures UnBe(s + [b]) == UnBe(s) * 256 + b as int
  {
    assert (s + [b])[..|s|] == s;
  }

  function Power2(k: nat): nat
    requires k <= 8
  {
    if k == 0 then 1 else if k == 1 then 2 else if k == 2 then 4 else if k == 3 then 8 else if k == 4 then 16
    else if k == 5 then 32 else if k == 6 then 64 else if k == 7 then 128 else 256
  }

  function Power256(k: nat): nat
  {
    if k == 0 then 1 else 256 * Power256(k - 1)
  }

  lemma {:induction false} BeRoundTrip(n: nat, k: nat)
    requires n < Power256(k)
    ensures UnBe(Be(n, k)) == n
    decreases k
  {
    if k > 0 {
      BeRoundTrip(n / 256, k - 1);
      assert Be(n, k)[..k - 1] == Be(n / 256, k - 1);
    }
  }

  lemma {:induction false} UnBeRoundTrip(s: seq<Byte>)
    ensures Be(UnBe(s), |s|) == s
    decreases |s|
  {
    if s != [] {
      UnBeRoundTrip(s[..|s| - 1]);
      var n, b := UnBe(s[..|s| - 1]), s[|s| - 1] as int;
      assert (n * 256 + b) / 256 == n && (n * 256 + b) % 256 == b;
    }
  }

  lemma WordRoundTrip(n: nat)
    requires n < WORD_MAX
    ensures UnBe(Be(n, 8)) == n
  {
    assert Power256(4) == 0x1_0000_0000;
    assert Power256(6) == 0x1_0000_0000_0000;
    assert Power256(8) == WORD_MAX;
    BeRoundTrip(n, 8);
  }

  lemma HalfRoundTrip(n: nat)
    requires n < 0x1_0000
    ensures UnBe(Be(n, 2)) == n
  {
    assert Power256(2) == 0x1_0000;
    BeRoundTrip(n, 2);
  }

  /** The same, least significant first. */
  function Le(n: nat, k: nat): (s: seq<Byte>)
    ensures |s| == k
    decreases k
  {
    if k == 0 then [] else [(n % 256) as Byte] + Le(n / 256, k - 1)
  }

  function UnLe(s: seq<Byte>): nat
  {
    if s == [] then 0 else s[0] as int + 256 * UnLe(s[1..])
  }

  lemma {:induction false} LeRoundTrip(n: nat, k: nat)
    requires n < Power256(k)
    ensures UnLe(Le(n, k)) == n
    decreases k
  {
    if k > 0 {
      LeRoundTrip(n / 256, k - 1);
      assert Le(n, k)[1..] == Le(n / 256, k - 1);
    }
  }

  function Number(n: nat, k: nat, big: bool): (s: seq<Byte>)
    ensures |s| == k
  {
    if big then Be(n, k) else Le(n, k)
  }

  function UnNumber(s: seq<Byte>, big: bool): nat
  {
    if big then UnBe(s) else UnLe(s)
  }

  lemma NumberRoundTrip(n: nat, k: nat, big: bool)
    requires n < Power256(k)
    ensures UnNumber(Number(n, k, big), big) == n
  {
    if big {
      BeRoundTrip(n, k);
    } else {
      LeRoundTrip(n, k);
    }
  }
}
