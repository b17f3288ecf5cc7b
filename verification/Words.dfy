/** Machine integers: what an int64 or an int32 holds after an operation that may overflow. */
module Words {
  const TWO_63 := 0x8000_0000_0000_0000
  const TWO_64 := 0x1_0000_0000_0000_0000

  predicate IsInt64(x: int) {
    -TWO_63 <= x < TWO_63
  }

  function Wrap64(x: int): int {
    (x + TWO_63) % TWO_64 - TWO_63
  }

  function Wrap32(x: int): int {
    (x + 0x8000_0000) % 0x1_0000_0000 - 0x8000_0000
  }

  /** Wrapping yields the int64 that differs by a multiple of the word size, and leaves every int64 alone. */
  lemma {:induction false} Wrap64Range(x: int)
    ensures IsInt64(Wrap64(x)) && (Wrap64(x) == x <==> IsInt64(x))
  {
  }

  lemma {:induction false} Congruent(x: int, y: int, k: int)
    requires x - y == k * TWO_64
    ensures Wrap64(x) == Wrap64(y)
  {
    Shifted(y + TWO_63, k);
  }

  lemma {:induction false} Shifted(x: int, k: int)
    ensures (x + k * TWO_64) % TWO_64 == x % TWO_64
    decreases if k < 0 then -k else k
  {
    if k > 0 {
      Shifted(x + TWO_64, k - 1);
    } else if k < 0 {
      Shifted(x - TWO_64, k + 1);
    }
  }

  /** Sums may wrap at every step or only once at the end. */
  lemma {:induction false} WrapSum(x: int, y: int)
    ensures Wrap64(Wrap64(x) + Wrap64(y)) == Wrap64(x + y)
    ensures Wrap64(Wrap64(x) + y) == Wrap64(x + y)
  {
    var i, j := (x + TWO_63) / TWO_64, (y + TWO_63) / TWO_64;
    assert Wrap64(x) == x - i * TWO_64 && Wrap64(y) == y - j * TWO_64;
    Congruent(x + y, Wrap64(x) + Wrap64(y), i + j);
    Congruent(x + y, Wrap64(x) + y, i);
  }
}
