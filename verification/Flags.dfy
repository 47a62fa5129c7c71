/** The flags that are stored with a value. */
module Flags {
  import opened Text

  const SERIALIZED := 0
  const COMPRESSED := 1
  const COMPRESSED_LZO := 2
  const CHKSUM := 3
  const COMPRESSED_BZIP2 := 4
  const SERIALIZED_IGBINARY := 5

  /** Whether bit `k` is set, counted from the lowest. */
  predicate Bit(flags: nat, k: nat)
    decreases k
  {
    if k == 0 then flags % 2 == 1 else Bit(flags / 2, k - 1)
  }

  function With(flags: nat, k: nat): nat
    decreases k
  {
    if k == 0 then 2 * (flags / 2) + 1 else 2 * With(flags / 2, k - 1) + flags % 2
  }

  function Without(flags: nat, k: nat): nat
    decreases k
  {
    if k == 0 then 2 * (flags / 2) else 2 * Without(flags / 2, k - 1) + flags % 2
  }

  lemma Halves(half: nat, low: nat)
    requires low < 2
    ensures (2 * half + low) / 2 == half && (2 * half + low) % 2 == low
  {
  }

  lemma {:induction false} SetAndCleared(flags: nat, k: nat, j: nat)
    ensures Bit(With(flags, k), j) == (j == k || Bit(flags, j))
    ensures Bit(Without(flags, k), j) == (j != k && Bit(flags, j))
    decreases k
  {
    var half, low := flags / 2, flags % 2;
    if k == 0 {
      Halves(half, 1);
      Halves(half, 0);
    } else {
      Halves(With(half, k - 1), low);
      Halves(Without(half, k - 1), low);
      if j > 0 {
        SetAndCleared(half, k - 1, j - 1);
      }
    }
  }

  /** A bit is the place of a power of two. */
  lemma {:induction false} BitIs(flags: nat, k: nat)
    ensures Bit(flags, k) <==> flags / Power(2, k) % 2 == 1
    decreases k
  {
    if k == 0 {
      assert Power(2, 0) == 1;
    } else {
      BitIs(flags / 2, k - 1);
      HalfThenDivide(flags, Power(2, k - 1));
    }
  }

  /** A number is its bits. */
  lemma {:induction false} SameBits(a: nat, b: nat)
    requires forall j: nat :: Bit(a, j) == Bit(b, j)
    ensures a == b
    decreases a + b
  {
    assert Bit(a, 0) == Bit(b, 0);
    if a + b > 1 {
      forall j: nat ensures Bit(a / 2, j) == Bit(b / 2, j) {
        assert Bit(a, j + 1) == Bit(b, j + 1);
      }
      SameBits(a / 2, b / 2);
    }
  }

  /** Setting a bit that is clear adds its power of two, and clearing one that is clear does nothing. */
  lemma {:induction false} ClearBit(flags: nat, k: nat)
    requires !Bit(flags, k)
    ensures With(flags, k) == flags + Power(2, k) && Without(flags, k) == flags
    decreases k
  {
    if k > 0 {
      ClearBit(flags / 2, k - 1);
    }
  }

  /** Setting or clearing bit `k` changes no other. */
  lemma Bits(flags: nat, k: nat)
    ensures forall j: nat :: Bit(With(flags, k), j) == (j == k || Bit(flags, j))
    ensures forall j: nat :: Bit(Without(flags, k), j) == (j != k && Bit(flags, j))
  {
    forall j: nat
      ensures Bit(With(flags, k), j) == (j == k || Bit(flags, j))
      ensures Bit(Without(flags, k), j) == (j != k && Bit(flags, j))
    {
      SetAndCleared(flags, k, j);
    }
  }
}
