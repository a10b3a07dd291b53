/** Little-endian two's complement words. */
module Words {
  import opened Bytes

  const TWO_31: int := 0x8000_0000
  const TWO_32: int := 0x1_0000_0000
  const TWO_63: int := 0x8000_0000_0000_0000
  const TWO_64: int := 0x1_0000_0000_0000_0000

  predicate IsInt32(v: int) {
    -TWO_31 <= v < TWO_31
  }

  predicate IsInt64(v: int) {
    -TWO_63 <= v < TWO_63
  }

  function Pow256(n: nat): (p: nat)
    ensures p > 0
  {
    if n == 0 then 1 else 256 * Pow256(n - 1)
  }

  /** The low `n` bytes of `v`, least significant first; `/` and `%` round down as `uint64Rshift` and `&` do. */
  function LE(v: int, n: nat): (b: seq<byte>)
    ensures |b| == n
    decreases n
  {
    if n == 0 then [] else [(v % 256) as byte] + LE(v / 256, n - 1)
  }

  /** The unsigned word of `n` bytes from position `i` on. */
  function Word(s: seq<byte>, i: nat, n: nat): (v: nat)
    requires i + n <= |s|
    decreases n
  {
    if n == 0 then 0 else s[i] as nat + 256 * Word(s, i + 1, n - 1)
  }

  function Signed32(u: nat): int {
    if u >= TWO_31 then u - TWO_32 else u
  }

  function Signed64(u: nat): int {
    if u >= TWO_63 then u - TWO_64 else u
  }

  lemma ModStep(v: int, p: nat)
    requires p > 0
    ensures v % 256 + 256 * ((v / 256) % p) == v % (256 * p)
  {
    var q, r := v / 256, v % 256;
    var a, b := q / p, q % p;
    assert v == 256 * (p * a + b) + r;
    assert 256 * (p * a) == (256 * p) * a;
    assert 0 <= 256 * b + r < 256 * p;
    DivUnique(v, 256 * p, a, 256 * b + r);
  }

  lemma DivUnique(v: int, m: nat, q: int, r: nat)
    requires m > 0 && v == m * q + r && r < m
    ensures v % m == r
  {
    var d := v / m - q;
    assert m * d == r - v % m;
    MultipleBounds(m, d);
  }

  lemma QuotientUnique(v: int, m: nat, q: int, r: nat)
    requires m > 0 && v == m * q + r && r < m
    ensures v / m == q
  {
    var d := v / m - q;
    assert m * d == r - v % m;
    MultipleBounds(m, d);
  }

  lemma MultipleBounds(m: int, d: int)
    requires m > 0
    ensures d >= 1 ==> m * d >= m
    ensures d <= -1 ==> m * d <= -m
  {
  }

  /** Reading a written word gives it back modulo its width. */
  lemma {:induction false} WordOfLE(s: seq<byte>, i: nat, v: int, n: nat)
    requires i + n <= |s| && s[i..i + n] == LE(v, n)
    ensures Word(s, i, n) == v % Pow256(n)
    decreases n
  {
    if n > 0 {
      assert s[i] == s[i..i + n][0];
      assert s[i + 1..i + 1 + (n - 1)] == s[i..i + n][1..];
      WordOfLE(s, i + 1, v / 256, n - 1);
      ModStep(v, Pow256(n - 1));
    }
  }

  lemma Widths()
    ensures Pow256(2) == 0x1_0000 && Pow256(4) == TWO_32 && Pow256(8) == TWO_64
  {
    assert Pow256(3) == 0x100_0000;
    assert Pow256(5) == 0x100_0000_0000;
    assert Pow256(6) == 0x1_0000_0000_0000;
    assert Pow256(7) == 0x100_0000_0000_0000;
  }

  lemma ReadWord(s: seq<byte>, i: nat, v: int)
    requires i + 2 <= |s| && s[i..i + 2] == LE(v, 2) && 0 <= v < 0x1_0000
    ensures Word(s, i, 2) == v
  {
    hide Pow256, LE, Word;
    Widths();
    WordOfLE(s, i, v, 2);
  }

  lemma ReadDword(s: seq<byte>, i: nat, v: int)
    requires i + 4 <= |s| && s[i..i + 4] == LE(v, 4)
    ensures 0 <= v < TWO_32 ==> Word(s, i, 4) == v
    ensures IsInt32(v) ==> Signed32(Word(s, i, 4)) == v
  {
    hide Pow256, LE, Word;
    Widths();
    WordOfLE(s, i, v, 4);
  }

  lemma ReadQword(s: seq<byte>, i: nat, v: int)
    requires i + 8 <= |s| && s[i..i + 8] == LE(v, 8) && IsInt64(v)
    ensures Signed64(Word(s, i, 8)) == v
  {
    hide Pow256, LE, Word;
    Widths();
    WordOfLE(s, i, v, 8);
  }
}
