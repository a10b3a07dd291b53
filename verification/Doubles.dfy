/** What becomes of an integer that is read as a double (IEEE 754, binary64): rounding to 53 significant bits, ties to even.
    Beyond the greatest double nothing is said. */
module Doubles {
  const TWO_53: int := 0x20_0000_0000_0000

  /** `Number.MAX_SAFE_INTEGER` */
  const MAX_SAFE: int := 0x1F_FFFF_FFFF_FFFF

  /** `q` units and a rest: 53 bits of a number and what is below them. */
  datatype Scaled = Scaled(q: nat, size: nat, rest: nat)

  function Scale(m: nat): (s: Scaled)
    ensures s.size > s.rest && s.rest <= m == s.q * s.size + s.rest && s.q < TWO_53
    ensures m < TWO_53 ==> s == Scaled(m, 1, 0)
    ensures m >= TWO_53 ==> s.size >= 2 && s.q * 2 >= TWO_53
  {
    if m < TWO_53 then Scaled(m, 1, 0)
    else
      var s := Scale(m / 2);
      assert m == 2 * (s.q * s.size + s.rest) + m % 2 == s.q * (2 * s.size) + (2 * s.rest + m % 2);
      Scaled(s.q, 2 * s.size, 2 * s.rest + m % 2)
  }

  /** The nearest double of a natural number; of two, the one with an even last bit. */
  function RoundNat(m: nat): nat {
    var s := Scale(m);
    if 2 * s.rest > s.size || (2 * s.rest == s.size && s.q % 2 == 1) then m - s.rest + s.size else m - s.rest
  }

  function Round(n: int): int {
    if n < 0 then -(RoundNat(-n) as int) else RoundNat(n)
  }

  function Abs(n: int): nat {
    if n < 0 then -n else n
  }

  /** `Number.isSafeInteger` of a number without fraction. */
  predicate IsSafeInteger(n: int) {
    Abs(n) <= MAX_SAFE
  }

  lemma RoundsSmall(m: nat)
    ensures m < TWO_53 ==> RoundNat(m) == m
    ensures m >= TWO_53 ==> RoundNat(m) >= TWO_53
  {
    var s := Scale(m);
    if m >= TWO_53 { AtLeast(s.q, s.size); }
  }

  lemma AtLeast(q: nat, size: nat)
    requires size >= 2
    ensures q * size >= q * 2
  {
  }

  /** A double between integers: `q` units with `q` of 53 bits at most. */
  ghost predicate IsDouble(x: nat, q: nat, size: nat) {
    q <= TWO_53 && x == q * size
  }

  /** The rounded number has 53 bits, the number lies between it and its neighbour, and it is the nearer one. */
  lemma RoundIsNearest(m: nat)
    ensures var s := Scale(m);
            && (IsDouble(RoundNat(m), s.q, s.size) || IsDouble(RoundNat(m), s.q + 1, s.size))
            && Abs(m - RoundNat(m)) * 2 <= s.size
  {
    var s := Scale(m);
    NextUnit(s.q, s.size);
    hide Scale;
  }

  lemma NextUnit(q: nat, size: nat)
    ensures (q + 1) * size == q * size + size
  {
  }

  /** Rounding takes no integer over the bound, so asking the rounded one is asking the integer itself. */
  lemma SafeAsRead(n: int)
    ensures IsSafeInteger(Round(n)) <==> IsSafeInteger(n)
    ensures IsSafeInteger(n) ==> Round(n) == n
  {
    RoundsSmall(Abs(n));
  }

  /** The two neighbours at the bound are read as the same number. */
  lemma NeighboursCollide()
    ensures Round(TWO_53) == Round(TWO_53 + 1) == TWO_53
    ensures Round(-TWO_53) == Round(-TWO_53 - 1) == -TWO_53
  {
    assert Scale(0x10_0000_0000_0000) == Scaled(0x10_0000_0000_0000, 1, 0);
    assert TWO_53 / 2 == (TWO_53 + 1) / 2 == 0x10_0000_0000_0000;
    assert Scale(TWO_53) == Scaled(0x10_0000_0000_0000, 2, 0);
    assert Scale(TWO_53 + 1) == Scaled(0x10_0000_0000_0000, 2, 1);
  }

  /** An integer is safe if and only if it and all integers up to one more than it, of both signs, are read exactly. */
  lemma SafeIff(n: int)
    ensures IsSafeInteger(n) <==> forall m: int :: Abs(m) <= Abs(n) + 1 ==> Round(m) == m
  {
    if IsSafeInteger(n) {
      forall m: int | Abs(m) <= Abs(n) + 1 ensures Round(m) == m {
        RoundsSmall(Abs(m));
        if Abs(m) == TWO_53 { NeighboursCollide(); }
      }
    } else {
      NeighboursCollide();
      assert Abs(TWO_53 + 1) <= Abs(n) + 1 && Round(TWO_53 + 1) != TWO_53 + 1;
    }
  }

  /** An id of seventeen digits that is read as another. */
  lemma LongIdIsLost()
    ensures Round(70067467908940524) != 70067467908940524
  {
    var m := 70067467908940524;
    assert Scale(m / 2 / 2 / 2) == Scaled(8758433488617565, 1, 0);
    assert Scale(m / 2 / 2) == Scaled(8758433488617565, 2, 1);
    assert Scale(m / 2) == Scaled(8758433488617565, 4, 2);
    assert Scale(m) == Scaled(8758433488617565, 8, 4);
  }
}
