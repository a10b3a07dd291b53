/** What the characters of a base64url text stand for: the bits of the bytes, six to a character. */
module Base64Bits {
  import opened Base64Url
  import opened Bytes
  import opened Places

  /** The lowest `n` bits of `v`, the highest first. */
  function Bits(v: nat, n: nat): (r: seq<bool>)
    ensures |r| == n
  {
    if n == 0 then [] else Bits(v / 2, n - 1) + [v % 2 == 1]
  }

  function BytesBits(x: seq<byte>, i: nat): (r: seq<bool>)
    requires i <= |x|
    ensures |r| == 8 * (|x| - i)
    decreases |x| - i
  {
    if i == |x| then [] else Bits(x[i] as nat, 8) + BytesBits(x, i + 1)
  }

  /** Six bits for every character. */
  function TextBits(s: string, i: nat): seq<bool>
    requires i <= |s| && forall k :: 0 <= k < |s| ==> Digit(s[k]).Some?
    decreases |s| - i
  {
    if i == |s| then [] else Bits(Digit(s[i]).value, 6) + TextBits(s, i + 1)
  }

  /** `hi` followed by the `n` bits of `lo`. */
  lemma {:induction false} BitsJoin(hi: nat, lo: nat, m: nat, n: nat, p: nat)
    requires lo < p && p == Two(n)
    ensures Bits(hi * p + lo, m + n) == Bits(hi, m) + Bits(lo, n)
  {
    if n == 0 {
      assert Bits(hi, m) + [] == Bits(hi, m);
    } else {
      var q := Two(n - 1);
      Halves(hi, q, lo);
      BitsJoin(hi, lo / 2, m, n - 1, q);
      assert Bits(hi, m) + Bits(lo / 2, n - 1) + [lo % 2 == 1] == Bits(hi, m) + (Bits(lo / 2, n - 1) + [lo % 2 == 1]);
    }
  }

  function Two(n: nat): nat {
    if n == 0 then 1 else 2 * Two(n - 1)
  }

  lemma Halves(hi: nat, q: nat, lo: nat)
    ensures (hi * (2 * q) + lo) / 2 == hi * q + lo / 2 && (hi * (2 * q) + lo) % 2 == lo % 2
  {
    assert hi * (2 * q) == 2 * (hi * q);
  }

  lemma {:induction false} Powers()
    ensures Two(2) == 4 && Two(4) == 16 && Two(6) == 64
  {
    assert Two(1) == 2 && Two(3) == 8 && Two(5) == 32;
  }

  /** The bits of two bytes over the characters that share them; `a` and `b` are `hi` and `lo` of a byte. */
  lemma {:induction false} Shared(a: nat, b: nat, c: nat, m: nat, n: nat, l: nat, p: nat, q: nat)
    requires p == Two(n) && b < p && q == Two(l) && c < q
    ensures Bits(a, m) + Bits(b * q + c, n + l) == Bits(a * p + b, m + n) + Bits(c, l)
  {
    hide Bits, Two;
    BitsJoin(a, b, m, n, p);
    BitsJoin(b, c, n, l, q);
    Assoc(Bits(a, m), Bits(b, n), Bits(c, l));
  }

  lemma {:induction false} FirstCharacters(a: nat, b: nat)
    requires a < 256 && b < 256
    ensures Bits(a / 4, 6) + Bits(a % 4 * 16 + b / 16, 6) == Bits(a, 8) + Bits(b / 16, 4)
  {
    Powers();
    hide Bits, Two;
    assert a / 4 * 4 + a % 4 == a;
    Shared(a / 4, a % 4, b / 16, 6, 2, 4, 4, 16);
  }

  lemma {:induction false} ThirdCharacter(b: nat, c: nat)
    requires b < 256 && c < 256
    ensures Bits(b / 16, 4) + Bits(b % 16 * 4 + c / 64, 6) == Bits(b, 8) + Bits(c / 64, 2)
  {
    Powers();
    hide Bits, Two;
    assert b / 16 * 16 + b % 16 == b;
    Shared(b / 16, b % 16, c / 64, 4, 4, 2, 16, 4);
  }

  lemma {:induction false} LastCharacter(c: nat)
    requires c < 256
    ensures Bits(c / 64, 2) + Bits(c % 64, 6) == Bits(c, 8)
  {
    Powers();
    hide Bits, Two;
    assert c / 64 * 64 + c % 64 == c;
    BitsJoin(c / 64, c % 64, 2, 6, 64);
  }

  lemma {:induction false} NoBits(n: nat)
    ensures Bits(0, n) == seq(n, _ => false)
  {
    if n > 0 { NoBits(n - 1); }
  }

  lemma Rejoin(p: seq<bool>, q: seq<bool>, r: seq<bool>, t: seq<bool>, a: seq<bool>, b: seq<bool>, c: seq<bool>,
                u: seq<bool>, v: seq<bool>, rest: seq<bool>)
    requires p + q == a + u && u + r == b + v && v + t == c
    ensures p + (q + (r + (t + rest))) == a + b + c + rest
  {
    Assoc(p, q, r + (t + rest));
    Assoc(a, u, r + (t + rest));
    Assoc(u, r, t + rest);
    Assoc(b, v, t + rest);
    Assoc(v, t, rest);
    Assoc(a, b, c + rest);
    Assoc(a + b, c, rest);
  }

  lemma {:induction false} TextStep(s: string, k: nat, d: nat)
    requires k < |s| && (forall j :: 0 <= j < |s| ==> Digit(s[j]).Some?) && d < 64 && s[k] == Letter(d)
    ensures TextBits(s, k) == Bits(d, 6) + TextBits(s, k + 1)
  {
    DigitOfLetter(d);
  }

  lemma {:induction false} FourBits(s: string, k: nat, a: nat, b: nat, c: nat)
    requires k + 4 <= |s| && forall j :: 0 <= j < |s| ==> Digit(s[j]).Some?
    requires a < 256 && b < 256 && c < 256
    requires s[k] == Letter(a / 4) && s[k + 1] == Letter(a % 4 * 16 + b / 16)
    requires s[k + 2] == Letter(b % 16 * 4 + c / 64) && s[k + 3] == Letter(c % 64)
    ensures TextBits(s, k) == Bits(a, 8) + Bits(b, 8) + Bits(c, 8) + TextBits(s, k + 4)
  {
    hide Bits, Letter, Digit;
    TextStep(s, k, a / 4);
    TextStep(s, k + 1, a % 4 * 16 + b / 16);
    TextStep(s, k + 2, b % 16 * 4 + c / 64);
    TextStep(s, k + 3, c % 64);
    hide TextBits;
    var p, q, r, t := Bits(a / 4, 6), Bits(a % 4 * 16 + b / 16, 6), Bits(b % 16 * 4 + c / 64, 6), Bits(c % 64, 6);
    var rest := TextBits(s, k + 4);
    assert TextBits(s, k) == p + (q + (r + (t + rest)));
    FirstCharacters(a, b);
    ThirdCharacter(b, c);
    LastCharacter(c);
    Rejoin(p, q, r, t, Bits(a, 8), Bits(b, 8), Bits(c, 8), Bits(b / 16, 4), Bits(c / 64, 2), rest);
  }

  /** The characters for the bytes from `i` on hold their bits and nothing else, in order; up to four zeros fill the last. */
  lemma {:induction false} SameBitsFrom(x: seq<byte>, i: nat, s: string, k: nat)
    requires i <= |x| && StandsAt(s, k, EncodedFrom(x, i)) && k + |EncodedFrom(x, i)| == |s|
    requires forall j :: 0 <= j < |s| ==> Digit(s[j]).Some?
    ensures var n := (|x| - i) % 3;
            TextBits(s, k) == BytesBits(x, i) + seq(if n == 0 then 0 else if n == 1 then 4 else 2, _ => false)
    decreases |x| - i
  {
    hide Bits, Letter, Digit;
    if i < |x| {
      GroupStands(x, i, s, k);
      ElementsAt(s, k, Group(x, i));
      var a, b, c := At8(x, i), At8(x, i + 1), At8(x, i + 2);
      assert s[k] == Group(x, i)[0] && s[k + 1] == Group(x, i)[1];
      hide EncodedFrom;
      if |x| - i >= 3 {
        assert s[k + 2] == Group(x, i)[2] && s[k + 3] == Group(x, i)[3];
        FourBits(s, k, a, b, c);
        SameBitsFrom(x, i + 3, s, k + 4);
        ThreeBytes(x, i);
        var rest, fill := BytesBits(x, i + 3), seq(if (|x| - i) % 3 == 0 then 0 else if (|x| - i) % 3 == 1 then 4 else 2, _ => false);
        assert (|x| - (i + 3)) % 3 == (|x| - i) % 3;
        Assoc(Bits(a, 8) + Bits(b, 8) + Bits(c, 8), rest, fill);
      } else {
        assert EncodedFrom(x, i + 3) == "" by { NothingLeft(x, i + 3, s); }
        if |x| - i == 2 { assert s[k + 2] == Group(x, i)[2]; }
        LastBits(x, i, s, k);
      }
    } else {
      assert TextBits(s, k) == [] && BytesBits(x, i) == [];
    }
  }

  lemma {:induction false} ThreeBytes(x: seq<byte>, i: nat)
    requires i + 3 <= |x|
    ensures BytesBits(x, i)
            == Bits(At8(x, i), 8) + Bits(At8(x, i + 1), 8) + Bits(At8(x, i + 2), 8) + BytesBits(x, i + 3)
  {
    hide Bits;
    var a, b, c, rest := Bits(At8(x, i), 8), Bits(At8(x, i + 1), 8), Bits(At8(x, i + 2), 8), BytesBits(x, i + 3);
    assert BytesBits(x, i) == a + BytesBits(x, i + 1) && BytesBits(x, i + 1) == b + BytesBits(x, i + 2);
    assert BytesBits(x, i + 2) == c + rest;
    hide BytesBits;
    Assoc(a, b, c + rest);
    Assoc(a + b, c, rest);
  }

  lemma {:induction false} LastBits(x: seq<byte>, i: nat, s: string, k: nat)
    requires i < |x| < i + 3 && k + (|x| - i) + 1 == |s| && forall j :: 0 <= j < |s| ==> Digit(s[j]).Some?
    requires var a, b := At8(x, i), At8(x, i + 1);
             && s[k] == Letter(a / 4) && s[k + 1] == Letter(a % 4 * 16 + b / 16)
             && (|x| - i == 2 ==> s[k + 2] == Letter(b % 16 * 4))
    ensures TextBits(s, k) == BytesBits(x, i) + seq(if |x| - i == 1 then 4 else 2, _ => false)
  {
    hide Bits, Letter, Digit;
    var a, b := At8(x, i), At8(x, i + 1);
    TextStep(s, k, a / 4);
    TextStep(s, k + 1, a % 4 * 16 + b / 16);
    FirstCharacters(a, b);
    var p, q := Bits(a / 4, 6), Bits(a % 4 * 16 + b / 16, 6);
    if |x| - i == 1 {
      NoBits(4);
      assert TextBits(s, k + 2) == [] && BytesBits(x, i + 1) == [];
      assert BytesBits(x, i) == Bits(a, 8) + [];
      assert p + (q + []) == p + q && Bits(a, 8) + [] == Bits(a, 8);
    } else {
      TextStep(s, k + 2, b % 16 * 4);
      ThirdCharacter(b, 0);
      NoBits(2);
      var r := Bits(b % 16 * 4, 6);
      assert TextBits(s, k + 3) == [] && BytesBits(x, i + 2) == [];
      assert BytesBits(x, i) == Bits(a, 8) + BytesBits(x, i + 1) && BytesBits(x, i + 1) == Bits(b, 8) + [];
      assert r + [] == r && Bits(b, 8) + [] == Bits(b, 8);
      Assoc(p, q, r);
      Assoc(Bits(a, 8), Bits(b / 16, 4), r);
      Assoc(Bits(a, 8), Bits(b, 8), Bits(0, 2));
    }
  }

  lemma {:induction false} AllDigits(x: seq<byte>, i: nat)
    requires i <= |x|
    ensures forall k :: 0 <= k < |EncodedFrom(x, i)| ==> Digit(EncodedFrom(x, i)[k]).Some?
    decreases |x| - i
  {
    if i < |x| {
      if i + 3 <= |x| { AllDigits(x, i + 3); }
      var a, b, c := At8(x, i), At8(x, i + 1), At8(x, i + 2);
      DigitOfLetter(a / 4);
      DigitOfLetter(a % 4 * 16 + b / 16);
      DigitOfLetter(b % 16 * 4 + c / 64);
      DigitOfLetter(c % 64);
      hide Letter, Digit;
    }
  }

  /** For every byte string: the text holds its bits, six to a character and the highest first, and zeros to fill the
      last character. */
  lemma {:induction false} SameBits(x: seq<byte>)
    ensures forall k :: 0 <= k < |Encoded(x)| ==> Digit(Encoded(x)[k]).Some?
    ensures TextBits(Encoded(x), 0) == BytesBits(x, 0) + seq(if |x| % 3 == 0 then 0 else if |x| % 3 == 1 then 4 else 2, _ => false)
  {
    AllDigits(x, 0);
    hide EncodedFrom, Digit;
    assert Encoded(x)[0..|Encoded(x)|] == Encoded(x);
    SameBitsFrom(x, 0, Encoded(x), 0);
  }
}
