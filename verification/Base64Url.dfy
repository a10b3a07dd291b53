/** base64url without padding (section 5 of RFC 4648): the encoder takes three bytes at a time, the decoder one character
    at a time with an accumulator that is never masked. */
module Base64Url {
  import opened Bytes
  import opened Options
  import opened Places
  import opened Words

  function Letter(d: nat): char
    requires d < 64
  {
    if d < 26 then ('A' as int + d) as char
    else if d < 52 then ('a' as int + d - 26) as char
    else if d < 62 then ('0' as int + d - 52) as char
    else if d == 62 then '-'
    else '_'
  }

  /** The decoding table: 0xff where it has no digit. */
  function Digit(c: char): (d: Option<nat>)
    ensures d.Some? ==> d.value < 64
  {
    if 'A' <= c <= 'Z' then Some(c as int - 'A' as int)
    else if 'a' <= c <= 'z' then Some(c as int - 'a' as int + 26)
    else if '0' <= c <= '9' then Some(c as int - '0' as int + 52)
    else if c == '-' then Some(62)
    else if c == '_' then Some(63)
    else None
  }

  lemma DigitOfLetter(d: nat)
    requires d < 64
    ensures Digit(Letter(d)) == Some(d) && Letter(d) != '='
  {
  }

  lemma LetterOfDigit(c: char)
    requires Digit(c).Some?
    ensures Letter(Digit(c).value) == c
  {
  }

  // ---------------------------------------------------------------- encoding

  function At8(x: seq<byte>, i: nat): nat {
    if i < |x| then x[i] as nat else 0
  }

  /** The characters for up to three bytes from `i` on: one more than there are bytes. */
  function Group(x: seq<byte>, i: nat): (g: string)
    requires i < |x|
    ensures |g| == if |x| - i >= 3 then 4 else |x| - i + 1
  {
    var a, b, c := At8(x, i), At8(x, i + 1), At8(x, i + 2);
    var g := [Letter(a / 4), Letter(a % 4 * 16 + b / 16), Letter(b % 16 * 4 + c / 64), Letter(c % 64)];
    g[..if |x| - i >= 3 then 4 else |x| - i + 1]
  }

  function EncodedFrom(x: seq<byte>, i: nat): string
    decreases |x| - i
  {
    if i >= |x| then "" else Group(x, i) + EncodedFrom(x, i + 3)
  }

  function Encoded(x: seq<byte>): string {
    EncodedFrom(x, 0)
  }

  // ---------------------------------------------------------------- decoding

  function Pow(bits: nat): (p: nat)
    ensures p > 0
  {
    if bits == 0 then 1 else if bits == 2 then 4 else if bits == 4 then 16 else 64
  }

  /** `pending` is the value of the `bits` bits that wait for more. */
  predicate Waiting(pending: nat, bits: nat) {
    bits in {0, 2, 4, 6} && pending < Pow(bits)
  }

  /** The byte that a character completes, if it does, and what waits then. */
  function Shift(pending: nat, bits: nat, d: nat): (r: (Option<byte>, nat, nat))
    requires Waiting(pending, bits) && d < 64
    ensures Waiting(r.1, r.2) && r.2 == (bits + 6) % 8
    ensures r.0.Some? <==> bits >= 2
  {
    var v := pending * 64 + d;
    if bits == 0 then (None, v, 6)
    else if bits == 2 then (Some(v as byte), 0, 0)
    else if bits == 4 then (Some((v / 4) as byte), v % 4, 2)
    else (Some((v / 16) as byte), v % 16, 4)
  }

  function DecodedFrom(s: string, i: nat, pending: nat, bits: nat): Option<seq<byte>>
    requires i <= |s| && Waiting(pending, bits)
    decreases |s| - i
  {
    if i == |s| then Some([])
    else
      var d := Digit(s[i]);
      if d.None? then None
      else
        var (b, p, n) := Shift(pending, bits, d.value);
        var rest := DecodedFrom(s, i + 1, p, n);
        if rest.None? || b.None? then rest else Some([b.value] + rest.value)
  }

  /** What waits at the end; it is dropped. */
  function Dropped(s: string, i: nat, pending: nat, bits: nat): (r: (nat, nat))
    requires i <= |s| && Waiting(pending, bits)
    decreases |s| - i
  {
    if i == |s| || Digit(s[i]).None? then (pending, bits)
    else
      var (_, p, n) := Shift(pending, bits, Digit(s[i]).value);
      Dropped(s, i + 1, p, n)
  }

  function Stripped(s: string): (t: string)
    ensures t <= s && (t != "" ==> t[|t| - 1] != '=')
    ensures forall k :: |t| <= k < |s| ==> s[k] == '='
  {
    if s != "" && s[|s| - 1] == '=' then Stripped(s[..|s| - 1]) else s
  }

  function Decoded(s: string): Option<seq<byte>> {
    DecodedFrom(Stripped(s), 0, 0, 0)
  }

  // ---------------------------------------------------------------- the round trip

  /** The four digits of three bytes give the bytes back. */
  lemma Shifts(a: nat, b: nat, c: nat)
    requires a < 256 && b < 256 && c < 256
    ensures Shift(0, 0, a / 4) == (None, a / 4, 6)
    ensures Waiting(a / 4, 6) && Shift(a / 4, 6, a % 4 * 16 + b / 16) == (Some(a as byte), b / 16, 4)
    ensures Waiting(b / 16, 4) && Shift(b / 16, 4, b % 16 * 4 + c / 64) == (Some(b as byte), c / 64, 2)
    ensures Waiting(c / 64, 2) && Shift(c / 64, 2, c % 64) == (Some(c as byte), 0, 0)
  {
  }

  lemma FourCharacters(s: string, i: nat, a: nat, b: nat, c: nat)
    requires a < 256 && b < 256 && c < 256 && i + 4 <= |s|
    requires s[i] == Letter(a / 4) && s[i + 1] == Letter(a % 4 * 16 + b / 16)
    requires s[i + 2] == Letter(b % 16 * 4 + c / 64) && s[i + 3] == Letter(c % 64)
    ensures var rest := DecodedFrom(s, i + 4, 0, 0);
            DecodedFrom(s, i, 0, 0) == if rest.None? then None else Some([a as byte, b as byte, c as byte] + rest.value)
    ensures Dropped(s, i, 0, 0) == Dropped(s, i + 4, 0, 0)
  {
    hide Digit, Letter, DecodedFrom, Dropped, Shift, Pow;
    DigitOfLetter(a / 4);
    DigitOfLetter(a % 4 * 16 + b / 16);
    DigitOfLetter(b % 16 * 4 + c / 64);
    DigitOfLetter(c % 64);
    assert Waiting(0, 0) by { PowNothing(); }
    Shifts(a, b, c);
    OneCharacter(s, i, 0, 0, a / 4);
    OneCharacter(s, i + 1, a / 4, 6, a % 4 * 16 + b / 16);
    OneCharacter(s, i + 2, b / 16, 4, b % 16 * 4 + c / 64);
    OneCharacter(s, i + 3, c / 64, 2, c % 64);
    var rest := DecodedFrom(s, i + 4, 0, 0);
    if rest.Some? {
      assert [a as byte] + ([b as byte] + ([c as byte] + rest.value)) == [a as byte, b as byte, c as byte] + rest.value;
    }
  }

  lemma PowNothing()
    ensures Pow(0) == 1
  {
  }

  lemma OneCharacter(s: string, i: nat, pending: nat, bits: nat, d: nat)
    requires i < |s| && Waiting(pending, bits) && Digit(s[i]) == Some(d)
    ensures var (b, p, n) := Shift(pending, bits, d);
            var rest := DecodedFrom(s, i + 1, p, n);
            && DecodedFrom(s, i, pending, bits) == (if rest.None? || b.None? then rest else Some([b.value] + rest.value))
            && Dropped(s, i, pending, bits) == Dropped(s, i + 1, p, n)
  {
  }

  lemma GroupStands(x: seq<byte>, i: nat, s: string, k: nat)
    requires i < |x| && StandsAt(s, k, EncodedFrom(x, i))
    ensures StandsAt(s, k, Group(x, i)) && StandsAt(s, k + |Group(x, i)|, EncodedFrom(x, i + 3))
    ensures |EncodedFrom(x, i)| == |Group(x, i)| + |EncodedFrom(x, i + 3)|
  {
    SplitAt(s, k, Group(x, i), EncodedFrom(x, i + 3));
  }

  /** Decoding what was encoded from byte `i` on gives those bytes; nothing but zero bits is dropped. */
  lemma {:induction false} DecodesGroups(x: seq<byte>, i: nat, s: string, k: nat)
    requires i <= |x| && StandsAt(s, k, EncodedFrom(x, i)) && k + |EncodedFrom(x, i)| == |s|
    ensures DecodedFrom(s, k, 0, 0) == Some(x[i..])
    ensures Dropped(s, k, 0, 0).0 == 0 && Dropped(s, k, 0, 0).1 < 6
    decreases |x| - i
  {
    hide Letter, Digit;
    if i < |x| {
      GroupStands(x, i, s, k);
      ElementsAt(s, k, Group(x, i));
      var a, b, c := At8(x, i), At8(x, i + 1), At8(x, i + 2);
      assert s[k] == Group(x, i)[0] && s[k + 1] == Group(x, i)[1];
      hide EncodedFrom, DecodedFrom, Dropped;
      if |x| - i >= 3 {
        assert s[k + 2] == Group(x, i)[2] && s[k + 3] == Group(x, i)[3];
        FourCharacters(s, k, a, b, c);
        DecodesGroups(x, i + 3, s, k + 4);
        assert x[i..] == [a as byte, b as byte, c as byte] + x[i + 3..];
      } else {
        assert EncodedFrom(x, i + 3) == "" by { NothingLeft(x, i + 3, s); }
        if |x| - i == 2 {
          assert s[k + 2] == Group(x, i)[2];
        }
        Tail(x, i, s, k);
      }
    } else {
      assert x[i..] == [];
    }
  }

  lemma NothingLeft(x: seq<byte>, i: nat, s: string)
    requires i >= |x|
    ensures EncodedFrom(x, i) == "" && DecodedFrom(s, |s|, 0, 0) == Some([])
  {
  }

  lemma AtEnd(s: string, pending: nat, bits: nat)
    requires Waiting(pending, bits)
    ensures DecodedFrom(s, |s|, pending, bits) == Some([]) && Dropped(s, |s|, pending, bits) == (pending, bits)
  {
  }

  /** The last one or two bytes. */
  lemma Tail(x: seq<byte>, i: nat, s: string, k: nat)
    requires i < |x| < i + 3 && k + (|x| - i) + 1 == |s| && StandsAt(s, k, Group(x, i))
    ensures DecodedFrom(s, k, 0, 0) == Some(x[i..])
    ensures Dropped(s, k, 0, 0).0 == 0 && Dropped(s, k, 0, 0).1 < 6
  {
    hide Letter, Digit, DecodedFrom, Dropped, Shift, Pow;
    var a, b := At8(x, i), At8(x, i + 1);
    var g := Group(x, i);
    ElementsAt(s, k, g);
    PowNothing();
    Shifts(a, b, 0);
    assert s[k] == g[0] == Letter(a / 4) && s[k + 1] == g[1] == Letter(a % 4 * 16 + b / 16);
    DigitOfLetter(a / 4);
    DigitOfLetter(a % 4 * 16 + b / 16);
    OneCharacter(s, k, 0, 0, a / 4);
    OneCharacter(s, k + 1, a / 4, 6, a % 4 * 16 + b / 16);
    if |x| - i == 2 {
      assert s[k + 2] == g[2] == Letter(b % 16 * 4);
      DigitOfLetter(b % 16 * 4);
      OneCharacter(s, k + 2, b / 16, 4, b % 16 * 4);
      AtEnd(s, 0, 2);
      assert Shift(b / 16, 4, b % 16 * 4) == (Some(b as byte), 0, 2);
      assert [b as byte] + [] == [b as byte];
      assert [a as byte] + [b as byte] == [a as byte, b as byte];
      assert x[i..] == [a as byte, b as byte];
    } else {
      AtEnd(s, 0, 4);
      assert b == 0;
      assert [a as byte] + [] == [a as byte] == x[i..];
    }
  }

  lemma GroupLetters(x: seq<byte>, i: nat, j: nat) returns (d: nat)
    requires i < |x| && j < |Group(x, i)|
    ensures d < 64 && Group(x, i)[j] == Letter(d)
  {
    hide Letter;
    var a, b, c := At8(x, i), At8(x, i + 1), At8(x, i + 2);
    var g := [Letter(a / 4), Letter(a % 4 * 16 + b / 16), Letter(b % 16 * 4 + c / 64), Letter(c % 64)];
    d := if j == 0 then a / 4 else if j == 1 then a % 4 * 16 + b / 16 else if j == 2 then b % 16 * 4 + c / 64 else c % 64;
    assert Group(x, i)[j] == g[j] == Letter(d);
  }

  lemma {:induction false} NoPadding(x: seq<byte>, i: nat, j: nat)
    requires j < |EncodedFrom(x, i)|
    ensures Digit(EncodedFrom(x, i)[j]).Some? && EncodedFrom(x, i)[j] != '='
    decreases |x| - i
  {
    hide Letter, Digit, Group;
    var g := Group(x, i);
    assert EncodedFrom(x, i) == g + EncodedFrom(x, i + 3);
    if j < |g| {
      var d := GroupLetters(x, i, j);
      DigitOfLetter(d);
    } else {
      NoPadding(x, i + 3, j - |g|);
    }
  }

  /** `decode(encode(x)) == x` */
  lemma DecodeEncode(x: seq<byte>)
    ensures Decoded(Encoded(x)) == Some(x)
  {
    var s := Encoded(x);
    if s != "" {
      NoPadding(x, 0, |s| - 1);
    }
    assert Stripped(s) == s;
    DecodesGroups(x, 0, s, 0);
    assert x[0..] == x;
  }

  /** The decoder writes three bytes for four characters, rounded down. */
  lemma {:induction false} DecodedSize(s: string, i: nat, pending: nat, bits: nat)
    requires i <= |s| && Waiting(pending, bits) && DecodedFrom(s, i, pending, bits).Some?
    ensures |DecodedFrom(s, i, pending, bits).value| == (6 * (|s| - i) + bits) / 8
    decreases |s| - i
  {
    hide Digit, Pow;
    if i < |s| {
      var (b, p, n) := Shift(pending, bits, Digit(s[i]).value);
      DecodedSize(s, i + 1, p, n);
    }
  }

  // ---------------------------------------------------------------- the other way round

  /** The bytes that four digits stand for, and the digits back. */
  lemma Regroup(d: nat, e: nat, f: nat, g: nat) returns (a: nat, b: nat, c: nat)
    requires d < 64 && e < 64 && f < 64 && g < 64
    ensures a == d * 4 + e / 16 < 256 && b == e % 16 * 16 + f / 4 < 256 && c == f % 4 * 64 + g < 256
    ensures a / 4 == d && a % 4 * 16 + b / 16 == e && b % 16 * 4 + c / 64 == f && c % 64 == g
  {
    a, b, c := d * 4 + e / 16, e % 16 * 16 + f / 4, f % 4 * 64 + g;
  }

  lemma DigitsThere(s: string, i: nat, pending: nat, bits: nat, k: nat)
    requires i <= k < |s| && Waiting(pending, bits) && DecodedFrom(s, i, pending, bits).Some?
    ensures Digit(s[k]).Some?
    decreases k - i
  {
    hide Digit, Pow;
    if i < k {
      var (b, p, n) := Shift(pending, bits, Digit(s[i]).value);
      DigitsThere(s, i + 1, p, n, k);
    }
  }

  /** Encoding what was decoded from character `i` on, if only zero bits were dropped, gives those characters. */
  lemma {:induction false} EncodesBack(s: string, i: nat, x: seq<byte>, k: nat)
    requires i <= |s| && k <= |x| && DecodedFrom(s, i, 0, 0) == Some(x[k..])
    requires Dropped(s, i, 0, 0).0 == 0 && Dropped(s, i, 0, 0).1 < 6
    ensures EncodedFrom(x, k) == s[i..]
    decreases |s| - i
  {
    hide Letter, Digit, DecodedFrom, Dropped, Shift, Pow, EncodedFrom;
    PowNothing();
    DecodedSize(s, i, 0, 0);
    if i == |s| {
      NothingLeft(x, k, s);
    } else {
      forall j | i <= j < |s| ensures Digit(s[j]).Some? {
        DigitsThere(s, i, 0, 0, j);
      }
      if |s| - i >= 4 {
        FourBack(s, i, x, k);
      } else {
        TailBack(s, i, x, k);
      }
    }
  }

  lemma {:induction false} FourBack(s: string, i: nat, x: seq<byte>, k: nat)
    requires i + 4 <= |s| && k <= |x| && DecodedFrom(s, i, 0, 0) == Some(x[k..])
    requires Dropped(s, i, 0, 0).0 == 0 && Dropped(s, i, 0, 0).1 < 6
    requires forall j :: i <= j < |s| ==> Digit(s[j]).Some?
    ensures EncodedFrom(x, k) == s[i..]
    decreases |s| - i, 0
  {
    hide Letter, Digit, DecodedFrom, Dropped, Shift, Pow, EncodedFrom;
    var a, b, c := Regroup(Digit(s[i]).value, Digit(s[i + 1]).value, Digit(s[i + 2]).value, Digit(s[i + 3]).value);
    LetterOfDigit(s[i]);
    LetterOfDigit(s[i + 1]);
    LetterOfDigit(s[i + 2]);
    LetterOfDigit(s[i + 3]);
    FourCharacters(s, i, a, b, c);
    var rest := DecodedFrom(s, i + 4, 0, 0).value;
    assert x[k..][..3] == [a as byte, b as byte, c as byte] && x[k..][3..] == rest == x[k + 3..];
    assert x[k] == x[k..][0] && x[k + 1] == x[k..][1] && x[k + 2] == x[k..][2];
    EncodesBack(s, i + 4, x, k + 3);
    EncodedStep(x, k);
    assert Group(x, k) == s[i..i + 4];
    assert s[i..] == s[i..i + 4] + s[i + 4..];
  }

  lemma EncodedStep(x: seq<byte>, k: nat)
    requires k < |x|
    ensures EncodedFrom(x, k) == Group(x, k) + EncodedFrom(x, k + 3)
    ensures k + 3 >= |x| ==> EncodedFrom(x, k) == Group(x, k)
  {
  }

  lemma TailBack(s: string, i: nat, x: seq<byte>, k: nat)
    requires i < |s| < i + 4 && k <= |x| && DecodedFrom(s, i, 0, 0) == Some(x[k..])
    requires Dropped(s, i, 0, 0).0 == 0 && Dropped(s, i, 0, 0).1 < 6
    requires forall j :: i <= j < |s| ==> Digit(s[j]).Some?
    ensures EncodedFrom(x, k) == s[i..]
  {
    hide Letter, Digit, DecodedFrom, Dropped, Pow, EncodedFrom;
    PowNothing();
    DecodedSize(s, i, 0, 0);
    var n := |s| - i;
    var d := Digit(s[i]).value;
    var e := if n > 1 then Digit(s[i + 1]).value else 0;
    var f := if n > 2 then Digit(s[i + 2]).value else 0;
    var a, b, c := Regroup(d, e, f, 0);
    Shifts(a, b, c);
    OneCharacter(s, i, 0, 0, d);
    assert n > 1 by {
      if n == 1 { AtEnd(s, d, 6); }
    }
    OneCharacter(s, i + 1, d, 6, e);
    LetterOfDigit(s[i]);
    LetterOfDigit(s[i + 1]);
    EncodedStep(x, k);
    assert x[k] == x[k..][0];
    if n == 2 {
      AtEnd(s, e % 16, 4);
      assert x[k..] == [a as byte] + [];
      assert Group(x, k) == [s[i], s[i + 1]] == s[i..];
    } else {
      LetterOfDigit(s[i + 2]);
      OneCharacter(s, i + 2, e % 16, 4, f);
      AtEnd(s, f % 4, 2);
      assert [b as byte] + [] == [b as byte];
      assert x[k..] == [a as byte] + [b as byte] && x[k + 1] == x[k..][1];
      assert Group(x, k) == [s[i], s[i + 1], s[i + 2]] == s[i..];
    }
  }

  /** `encode(decode(s))` is `s` without its padding, if and only if the bits that the decoder drops are zeros and fewer than
      six. */
  lemma EncodeDecode(s: string)
    requires Decoded(s).Some?
    ensures Encoded(Decoded(s).value) == Stripped(s)
            <==> Dropped(Stripped(s), 0, 0, 0).0 == 0 && Dropped(Stripped(s), 0, 0, 0).1 < 6
  {
    hide DecodedFrom, EncodedFrom, Dropped;
    var t, x := Stripped(s), Decoded(s).value;
    if Encoded(x) == t {
      DecodesGroups(x, 0, t, 0);
    }
    if Dropped(t, 0, 0, 0).0 == 0 && Dropped(t, 0, 0, 0).1 < 6 {
      assert x[0..] == x && t[0..] == t;
      EncodesBack(t, 0, x, 0);
    }
  }

  // ---------------------------------------------------------------- the functions of the library

  /** The characters of one group, at `j`. */
  method WriteGroup(input: seq<byte>, i: nat, output: array<char>, j: nat)
    requires i < |input| && j + 4 <= output.Length
    modifies output
    ensures j + |Group(input, i)| <= output.Length
    ensures output[..j + |Group(input, i)|] == old(output[..j]) + Group(input, i)
  {
    hide Letter;
    var val := input[i] as nat * 0x1_0000;
    if i + 1 < |input| { val := val + input[i + 1] as nat * 0x100; }
    if i + 2 < |input| { val := val + input[i + 2] as nat; }
    GroupOfWord(input, i, val);
    output[j] := Letter(val / 0x4_0000 % 64);
    output[j + 1] := Letter(val / 0x1000 % 64);
    if i + 1 < |input| {
      output[j + 2] := Letter(val / 64 % 64);
    }
    if i + 2 < |input| {
      output[j + 3] := Letter(val % 64);
    }
  }

  /** `lb64urlencode` */
  method Encode(input: seq<byte>) returns (r: string)
    ensures r == Encoded(input)
  {
    hide Group, EncodedFrom;
    var outputLen := (|input| + 2) / 3 * 4;
    var output := new char[outputLen + 1];
    var i, j := 0, 0;
    ghost var groups, done := 0, "";
    assert "" + EncodedFrom(input, 0) == EncodedFrom(input, 0);
    while i < |input|
      invariant 0 <= i == 3 * groups <= |input| + 2 && 0 <= j <= outputLen
      invariant i < |input| ==> j == 4 * groups
      invariant output[..j] == done && Encoded(input) == done + EncodedFrom(input, i)
    {
      EncodedStep(input, i);
      WriteGroup(input, i, output, j);
      Concat(done, Group(input, i), EncodedFrom(input, i + 3));
      done := done + Group(input, i);
      j := j + 2 + (if i + 1 < |input| then 1 else 0) + (if i + 2 < |input| then 1 else 0);
      i := i + 3;
      groups := groups + 1;
    }
    NothingLeft(input, i, "");
    output[j] := '\0';
    assert done + "" == done;
    r := output[..j];
  }

  lemma Concat(a: string, b: string, c: string)
    ensures a + (b + c) == a + b + c
  {
  }

  lemma GroupOfWord(x: seq<byte>, i: nat, val: nat)
    requires i < |x| && val == At8(x, i) * 0x1_0000 + At8(x, i + 1) * 0x100 + At8(x, i + 2)
    ensures var g := [Letter(val / 0x4_0000 % 64), Letter(val / 0x1000 % 64), Letter(val / 64 % 64), Letter(val % 64)];
            Group(x, i) == g[..|Group(x, i)|]
  {
    hide Letter;
    WordDigits(At8(x, i), At8(x, i + 1), At8(x, i + 2), val);
  }

  lemma WordDigits(a: nat, b: nat, c: nat, val: nat)
    requires a < 256 && b < 256 && c < 256 && val == a * 0x1_0000 + b * 0x100 + c
    ensures val / 0x4_0000 % 64 == a / 4 && val / 0x1000 % 64 == a % 4 * 16 + b / 16
    ensures val / 64 % 64 == b % 16 * 4 + c / 64 && val % 64 == c % 64
  {
    Quotient(val, 0x4_0000, a / 4, a % 4 * 0x1_0000 + b * 0x100 + c);
    Quotient(val, 0x1000, a * 16 + b / 16, b % 16 * 0x100 + c);
    Quotient(val, 64, a * 1024 + b * 4 + c / 64, c % 64);
    Quotient(a * 16 + b / 16, 64, a / 4, a % 4 * 16 + b / 16);
    Quotient(a * 1024 + b * 4 + c / 64, 64, a * 16 + b / 16, b % 16 * 4 + c / 64);
  }

  lemma Quotient(v: nat, m: nat, q: nat, r: nat)
    requires m > 0 && v == m * q + r && r < m
    ensures v / m == q && v % m == r
  {
    QuotientUnique(v, m, q, r);
    DivUnique(v, m, q, r);
  }

  /** The accumulator ends in the bits that wait. */
  ghost predicate Holds(val: nat, word: nat, pending: nat, bits: nat) {
    Waiting(pending, bits) && val < word && val % Pow(bits) == pending
  }

  lemma NothingHeld(word: nat)
    requires word > 0
    ensures Holds(0, word, 0, 0)
  {
  }

  lemma HoldsWaiting(val: nat, word: nat, pending: nat, bits: nat)
    requires Holds(val, word, pending, bits)
    ensures Waiting(pending, bits)
  {
  }

  /** One character into the accumulator, and a byte out of it when there are enough bits. */
  method Accumulate(val: nat, word: nat, bits: nat, d: nat, ghost pending: nat)
    returns (v: nat, n: nat, b: Option<byte>, ghost p: nat)
    requires word > 0 && word % 0x1_0000 == 0 && d < 64 && Holds(val, word, pending, bits) && Waiting(pending, bits)
    ensures b == Shift(pending, bits, d).0 && p == Shift(pending, bits, d).1 && n == Shift(pending, bits, d).2
    ensures Holds(v, word, p, n)
  {
    hide Pow, Shift;
    Accumulates(val, word, pending, bits, d);
    p := Shift(pending, bits, d).1;
    v := (val * 64 + d) % word;
    n, b := bits + 6, None;
    if n >= 8 {
      n := n - 8;
      b := Some((v / Pow(n) % 256) as byte);
    }
  }

  method Strip(input: string) returns (inputLen: nat)
    ensures inputLen <= |input| && input[..inputLen] == Stripped(input)
  {
    inputLen := |input|;
    assert input[..inputLen] == input;
    while inputLen > 0 && input[inputLen - 1] == '='
      invariant 0 <= inputLen <= |input| && Stripped(input[..inputLen]) == Stripped(input)
    {
      assert input[..inputLen][..inputLen - 1] == input[..inputLen - 1];
      inputLen := inputLen - 1;
    }
  }

  /** `lb64urldecode`. `word` is one more than the largest `unsigned long`. Every byte lands inside the buffer, which has
      room for three bytes for four characters and one more. */
  method Decode(input: string, word: nat) returns (r: Option<seq<byte>>)
    requires word > 0 && word % 0x1_0000 == 0
    ensures r == Decoded(input)
  {
    hide Digit, Pow, Shift, DecodedFrom, Waiting, After, Stripped, Holds;
    var inputLen := Strip(input);
    ghost var s := input[..inputLen];
    var outputLen := inputLen * 3 / 4;
    var output := new byte[outputLen + 1];
    var i, j, val, bits := 0, 0, 0, 0;
    ghost var pending, done: seq<byte> := 0, [];
    NothingHeld(word);
    HoldsWaiting(0, word, 0, 0);
    Behind([], DecodedFrom(s, 0, 0, 0));
    while i < inputLen
      invariant 0 <= i <= inputLen && j >= 0 && 0 <= bits < 8 && 8 * j + bits == 6 * i
      invariant val >= 0 && Holds(val, word, pending, bits) && Waiting(pending, bits)
      invariant output[..j] == done && Decoded(input) == After(done, DecodedFrom(s, i, pending, bits))
    {
      var d := Digit(input[i]);
      if d.None? {
        NoDigit(s, i, pending, bits, done);
        return None;
      }
      OneCharacterAfter(s, i, pending, bits, d.value, done);
      var b;
      val, bits, b, pending := Accumulate(val, word, bits, d.value, pending);
      HoldsWaiting(val, word, pending, bits);
      i := i + 1;
      if b.Some? {
        RoomFor(i, inputLen, j, bits);
        output[j] := b.value;
        j := j + 1;
        done := done + [b.value];
      }
    }
    AtEnd(s, pending, bits);
    output[j] := 0;
    Behind(done, Some([]));
    r := Some(output[..j]);
  }

  lemma RoomFor(i: nat, inputLen: nat, j: nat, bits: nat)
    requires i <= inputLen && 8 * (j + 1) + bits == 6 * i
    ensures j < inputLen * 3 / 4
  {
  }

  /** The bytes written and, if the rest can be decoded, those to come. */
  ghost function After(done: seq<byte>, rest: Option<seq<byte>>): Option<seq<byte>> {
    if rest.None? then None else Some(done + rest.value)
  }

  lemma Behind(done: seq<byte>, rest: Option<seq<byte>>)
    ensures After([], rest) == rest && After(done, Some([])) == Some(done)
  {
    assert done + [] == done;
    if rest.Some? {
      assert [] + rest.value == rest.value;
    }
  }

  lemma OneCharacterAfter(s: string, i: nat, pending: nat, bits: nat, d: nat, done: seq<byte>)
    requires i < |s| && Waiting(pending, bits) && Digit(s[i]) == Some(d)
    ensures var (b, p, n) := Shift(pending, bits, d);
            After(done, DecodedFrom(s, i, pending, bits))
            == After(if b.Some? then done + [b.value] else done, DecodedFrom(s, i + 1, p, n))
  {
    hide DecodedFrom, Shift, Waiting;
    OneCharacter(s, i, pending, bits, d);
    var (b, p, n) := Shift(pending, bits, d);
    var rest := DecodedFrom(s, i + 1, p, n);
    if b.Some? && rest.Some? {
      Assoc(done, [b.value], rest.value);
    }
  }

  lemma NoDigit(s: string, i: nat, pending: nat, bits: nat, done: seq<byte>)
    requires i < |s| && Waiting(pending, bits) && Digit(s[i]).None?
    ensures After(done, DecodedFrom(s, i, pending, bits)).None?
  {
  }

  /** Only the low bits of the accumulator matter, and wrapping around leaves those alone. */
  lemma Accumulates(val: nat, word: nat, pending: nat, bits: nat, d: nat)
    requires word > 0 && word % 0x1_0000 == 0 && d < 64 && Waiting(pending, bits) && val % Pow(bits) == pending
    ensures var v := (val * 64 + d) % word; var (b, p, n) := Shift(pending, bits, d);
            && v % Pow(n) == p
            && (b.Some? ==> v / Pow(n) % 256 == b.value as nat)
  {
    hide Shift, Pow;
    var u := val * 64 + d;
    var k := Wraps(u, word, word / 0x1_0000);
    LowBits(u, u % word, k, Shift(pending, bits, d).2);
    Shifted(val, pending, bits, d);
  }

  /** Without wrapping around. */
  lemma Shifted(val: nat, pending: nat, bits: nat, d: nat)
    requires d < 64 && Waiting(pending, bits) && val % Pow(bits) == pending
    ensures var u := val * 64 + d; var (b, p, n) := Shift(pending, bits, d);
            && u % Pow(n) == p
            && (b.Some? ==> u / Pow(n) % 256 == b.value as nat)
  {
    var u := val * 64 + d;
    var q := val / Pow(bits);
    if bits == 0 {
      Quotient(u, 64, val, d);
    } else if bits == 2 {
      Quotient(u, 256, q, pending * 64 + d);
    } else if bits == 4 {
      var r := pending * 64 + d;
      Quotient(u, 4, q * 256 + r / 4, r % 4);
      Quotient(q * 256 + r / 4, 256, q, r / 4);
    } else {
      var r := pending * 64 + d;
      Quotient(u, 16, q * 256 + r / 16, r % 16);
      Quotient(q * 256 + r / 16, 256, q, r / 16);
    }
  }

  lemma Euclid(u: nat, m: nat) returns (q: nat, r: nat)
    requires m > 0
    ensures u == m * q + r && r == u % m
  {
    q, r := u / m, u % m;
  }

  lemma Regrouped(m: nat, q: nat, word: nat)
    requires word == 0x1_0000 * m
    ensures word * q == 0x1_0000 * (m * q)
  {
  }

  lemma Wraps(u: nat, word: nat, m: nat) returns (k: nat)
    requires word > 0 && word == 0x1_0000 * m
    ensures u == 0x1_0000 * k + u % word
  {
    var q, r := Euclid(u, word);
    Regrouped(m, q, word);
    k := m * q;
    assert u == 0x1_0000 * k + r;
  }

  lemma LowBits(u: nat, v: nat, k: nat, n: nat)
    requires u == 0x1_0000 * k + v && n in {0, 2, 4, 6}
    ensures v % Pow(n) == u % Pow(n) && v / Pow(n) % 256 == u / Pow(n) % 256
  {
    if n == 0 {
      Quotient(u, 256, 0x100 * k + v / 256, v % 256);
    } else if n == 2 {
      Quotient(u, 4, 0x4000 * k + v / 4, v % 4);
      Quotient(u / 4, 256, 0x40 * k + v / 4 / 256, v / 4 % 256);
    } else if n == 4 {
      Quotient(u, 16, 0x1000 * k + v / 16, v % 16);
      Quotient(u / 16, 256, 0x10 * k + v / 16 / 256, v / 16 % 256);
    } else {
      Quotient(u, 64, 0x400 * k + v / 64, v % 64);
      Quotient(u / 64, 256, 4 * k + v / 64 / 256, v / 64 % 256);
    }
  }
}
