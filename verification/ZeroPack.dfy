/**
 The 0-packing of sproto messages: `api.pack` and `api.unpack`.

 A chunk of 8 bytes is written as one mask byte followed by its nonzero bytes. A chunk without zeros opens a
 "0xff run": the mask 0xff, a length byte and up to 256 raw chunks. Inside a run a chunk with 6 or 7 nonzero
 bytes is absorbed as well. The packer reserves the run's two bytes and writes the run only when it ends.
 */
module ZeroPack {
  import opened Bytes
  import opened Places

  // ---------------------------------------------------------------- chunks

  function ChunkCount(p: seq<byte>): (n: nat)
    ensures 8 * n <= |p| < 8 * n + 8
  {
    if |p| < 8 then 0 else 1 + ChunkCount(p[8..])
  }

  predicate Whole(p: seq<byte>) {
    |p| == 8 * ChunkCount(p)
  }

  /** `x` filled up with zeros to whole chunks. */
  function Padded(x: seq<byte>): (p: seq<byte>)
    ensures Whole(p) && |x| <= |p| < |x| + 8
  {
    if 8 * ChunkCount(x) == |x| then x else x + Zeros(8 * ChunkCount(x) + 8 - |x|)
  }

  function Chunk(p: seq<byte>, c: nat): (b: seq<byte>)
    requires Whole(p) && c < ChunkCount(p)
    ensures |b| == 8
  {
    p[8 * c..8 * c + 8]
  }

  function NonZero(b: seq<byte>): (r: seq<byte>)
    ensures |r| <= |b|
  {
    if b == [] then [] else (if b[0] != 0 then [b[0]] else []) + NonZero(b[1..])
  }

  /** Bit i is set exactly when byte i is nonzero. */
  function Mask(b: seq<byte>): (h: nat) {
    if b == [] then 0 else (if b[0] != 0 then 1 else 0) + 2 * Mask(b[1..])
  }

  function Pow2(k: nat): (p: nat)
    ensures p > 0
  {
    if k == 0 then 1 else 2 * Pow2(k - 1)
  }

  lemma {:induction false} MaskRange(b: seq<byte>)
    ensures Mask(b) < Pow2(|b|)
    ensures Mask(b) == Pow2(|b|) - 1 <==> |NonZero(b)| == |b|
  {
    if b != [] {
      MaskRange(b[1..]);
    }
  }

  predicate Full(b: seq<byte>) {
    |NonZero(b)| == 8
  }

  predicate Absorbed(b: seq<byte>) {
    |NonZero(b)| >= 6
  }

  // ---------------------------------------------------------------- the packed form

  function Low(b: seq<byte>): (l: seq<byte>)
    requires |b| == 8
    ensures |l| == 1 + |NonZero(b)|
  {
    MaskRange(b);
    assert Pow2(8) == 256;
    [Mask(b) as byte] + NonZero(b)
  }

  /** The run of the chunks from `d` up to `c`. */
  function Run(p: seq<byte>, d: nat, c: nat): (r: seq<byte>)
    requires Whole(p) && d < c <= ChunkCount(p) && c - d <= 256
    ensures |r| == 2 + 8 * (c - d)
  {
    [255, (c - d - 1) as byte] + p[8 * d..8 * c]
  }

  /** Whether chunk `c` only joins the run that starts at `d`, so that nothing can be written yet. */
  predicate Joins(p: seq<byte>, d: nat, c: nat)
    requires Whole(p) && d <= c < ChunkCount(p)
  {
    if d == c then Full(Chunk(p, c)) else Absorbed(Chunk(p, c)) && c + 1 - d < 256
  }

  /** What chunk `c` completes: itself, a run of 256 chunks, or the run before it and itself. */
  function Flush(p: seq<byte>, d: nat, c: nat): (out: seq<byte>)
    requires Whole(p) && d <= c < ChunkCount(p) && c - d < 256
  {
    var b := Chunk(p, c);
    if d == c then Low(b) else if Absorbed(b) then Run(p, d, c + 1) else Run(p, d, c) + Low(b)
  }

  /** What is still to be written when chunk `c` is reached and the chunks from `d` on wait in a run. */
  function Emit(p: seq<byte>, d: nat, c: nat): (out: seq<byte>)
    requires Whole(p) && d <= c <= ChunkCount(p) && c - d < 256
    decreases ChunkCount(p) - c
  {
    if c == ChunkCount(p) then (if d < c then Run(p, d, c) else [])
    else if Joins(p, d, c) then Emit(p, d, c + 1)
    else Flush(p, d, c) + Emit(p, c + 1, c + 1)
  }

  /** The first of the chunks that wait in a run when chunk `c` is reached; `c` itself when there is no run. */
  function RunStart(p: seq<byte>, c: nat): (d: nat)
    requires Whole(p) && c <= ChunkCount(p)
    ensures d <= c && c - d < 256
  {
    if c > 0 && Joins(p, RunStart(p, c - 1), c - 1) then RunStart(p, c - 1) else c
  }

  /** A full last chunk that joins a run leaves one byte beyond the packed form. */
  predicate Stray(p: seq<byte>)
    requires Whole(p)
  {
    var n := ChunkCount(p);
    n > 0 && Full(Chunk(p, n - 1)) && RunStart(p, n - 1) < n - 1
  }

  /** The array that `api.pack` returns. */
  function Packed(x: seq<byte>): seq<byte> {
    var p := Padded(x);
    Emit(p, 0, 0) + (if Stray(p) then [0] else [])
  }

  // ---------------------------------------------------------------- the unpacked form

  /** The 8 bytes of a masked chunk, from bit `j` of the mask on (the bits below `j` are shifted out of `h`). The
      source stops only once it has read more than one byte past the end. */
  function Expand(h: nat, s: seq<byte>, i: nat, j: nat): (b: seq<byte>)
    requires j <= 8
    decreases 8 - j
  {
    if j == 8 then []
    else if h % 2 == 0 then [0] + Expand(h / 2, s, i, j + 1)
    else if i > |s| then []
    else [At(s, i)] + Expand(h / 2, s, i + 1, j + 1)
  }

  function Ones(h: nat): nat {
    if h == 0 then 0 else h % 2 + Ones(h / 2)
  }

  /** What `api.unpack` writes for `s` from position `i` on. A record that is cut short ends the output. */
  function UnpackFrom(s: seq<byte>, i: nat): seq<byte>
    decreases |s| - i
  {
    if i >= |s| then []
    else if s[i] == 255 then
      if i + 1 == |s| || |s| < i + 2 + RunLength(s, i) then []
      else s[i + 2..i + 2 + RunLength(s, i)] + UnpackFrom(s, i + 2 + RunLength(s, i))
    else Expand(s[i] as nat, s, i + 1, 0) + UnpackFrom(s, i + 1 + Ones(s[i] as nat))
  }

  function RunLength(s: seq<byte>, i: nat): nat
    requires i + 1 < |s|
  {
    (s[i + 1] as nat + 1) * 8
  }

  function Unpacked(s: seq<byte>): seq<byte> {
    UnpackFrom(s, 0)
  }

  // ---------------------------------------------------------------- round trip

  lemma MaskStep(b: seq<byte>)
    requires b != []
    ensures Mask(b) / 2 == Mask(b[1..])
    ensures Mask(b) % 2 == if b[0] != 0 then 1 else 0
    ensures Ones(Mask(b)) == Mask(b) % 2 + Ones(Mask(b) / 2)
  {
  }

  lemma {:induction false} OnesNonZero(b: seq<byte>)
    ensures Ones(Mask(b)) == |NonZero(b)|
  {
    if b != [] {
      MaskStep(b);
      hide Mask, Ones;
      OnesNonZero(b[1..]);
    }
  }

  lemma ExpandStep(m: nat, s: seq<byte>, i: nat, j: nat)
    requires j < 8 && i <= |s|
    ensures Expand(m, s, i, j)
            == if m % 2 == 1 then [At(s, i)] + Expand(m / 2, s, i + 1, j + 1) else [0] + Expand(m / 2, s, i, j + 1)
  {
  }

  lemma NonZeroStep(b: seq<byte>)
    requires b != []
    ensures NonZero(b) == (if b[0] != 0 then [b[0]] else []) + NonZero(b[1..])
    ensures b == [b[0]] + b[1..]
  {
  }

  lemma {:induction false} ExpandNonZero(b: seq<byte>, s: seq<byte>, i: nat, j: nat)
    requires j <= 8 && |b| == 8 - j && StandsAt(s, i, NonZero(b))
    ensures Expand(Mask(b), s, i, j) == b
    decreases 8 - j
  {
    PlaceFits(s, i, NonZero(b));
    if b != [] {
      MaskStep(b);
      NonZeroStep(b);
      ExpandStep(Mask(b), s, i, j);
      hide Mask, Ones, Expand, NonZero, StandsAt;
      var rest := b[1..];
      if b[0] != 0 {
        SplitAt(s, i, [b[0]], NonZero(rest));
        ElementAt(s, i, [b[0]], 0);
        ExpandNonZero(rest, s, i + 1, j + 1);
      } else {
        assert [] + NonZero(rest) == NonZero(rest);
        ExpandNonZero(rest, s, i, j + 1);
      }
    }
  }

  lemma Peel(s: seq<byte>, i: nat, a: seq<byte>, b: seq<byte>)
    requires i <= |s| && s[i..] == a + b
    ensures i + |a| <= |s| && s[i..i + |a|] == a && s[i + |a|..] == b
  {
    assert s[i..i + |a|] == s[i..][..|a|] && s[i + |a|..] == s[i..][|a|..];
  }

  /** A chunk with a mask. */
  lemma MaskExpands(s: seq<byte>, i: nat)
    requires i < |s| && s[i] != 255
    ensures UnpackFrom(s, i) == Expand(s[i] as nat, s, i + 1, 0) + UnpackFrom(s, i + 1 + Ones(s[i] as nat))
  {
    hide Expand, Ones;
  }

  lemma UnpackLow(b: seq<byte>, s: seq<byte>, i: nat, t: seq<byte>)
    requires |b| == 8 && !Full(b) && i <= |s| && s[i..] == Low(b) + t
    ensures UnpackFrom(s, i) == b + UnpackFrom(s, i + |Low(b)|)
  {
    hide NonZero, Mask, Expand, Ones, UnpackFrom;
    MaskRange(b);
    assert Pow2(8) == 256;
    Peel(s, i, Low(b), t);
    assert s[i] == s[i..i + |Low(b)|][0];
    MaskExpands(s, i);
    assert s[i + 1..i + 1 + |NonZero(b)|] == s[i..i + |Low(b)|][1..];
    ExpandNonZero(b, s, i + 1, 0);
    OnesNonZero(b);
  }

  lemma RunExpands(s: seq<byte>, i: nat, n: nat)
    requires i + 2 + n <= |s| && s[i] == 255 && (s[i + 1] as nat + 1) * 8 == n
    ensures UnpackFrom(s, i) == s[i + 2..i + 2 + n] + UnpackFrom(s, i + 2 + n)
  {
    hide Expand, Ones;
    assert RunLength(s, i) == n;
    hide RunLength;
  }

  /** A run that is cut short, and the end. */
  lemma NothingExpands(s: seq<byte>, i: nat)
    requires i >= |s| || (s[i] == 255 && (i + 1 == |s| || |s| < i + 2 + (s[i + 1] as nat + 1) * 8))
    ensures UnpackFrom(s, i) == []
  {
    hide Expand, Ones;
  }

  lemma UnpackRun(p: seq<byte>, d: nat, c: nat, s: seq<byte>, i: nat, t: seq<byte>)
    requires Whole(p) && d < c <= ChunkCount(p) && c - d <= 256 && i <= |s| && s[i..] == Run(p, d, c) + t
    ensures UnpackFrom(s, i) == p[8 * d..8 * c] + UnpackFrom(s, i + |Run(p, d, c)|)
  {
    hide UnpackFrom, ChunkCount;
    var r := Run(p, d, c);
    Peel(s, i, r, t);
    assert s[i] == s[i..i + |r|][0] && s[i + 1] == s[i..i + |r|][1];
    assert s[i + 2..i + |r|] == s[i..i + |r|][2..];
    RunExpands(s, i, 8 * (c - d));
  }

  lemma UnpackFlush(p: seq<byte>, d: nat, c: nat, s: seq<byte>, i: nat, t: seq<byte>)
    requires Whole(p) && d <= c < ChunkCount(p) && c - d < 256 && !Joins(p, d, c)
    requires i <= |s| && s[i..] == Flush(p, d, c) + t
    ensures UnpackFrom(s, i) == p[8 * d..8 * (c + 1)] + UnpackFrom(s, i + |Flush(p, d, c)|)
  {
    hide UnpackFrom, NonZero, Mask, Low, Run;
    var b := Chunk(p, c);
    if d == c {
      UnpackLow(b, s, i, t);
    } else if Absorbed(b) {
      UnpackRun(p, d, c + 1, s, i, t);
    } else {
      var r := Run(p, d, c);
      Assoc(r, Low(b), t);
      Peel(s, i, r, Low(b) + t);
      UnpackRun(p, d, c, s, i, Low(b) + t);
      UnpackLow(b, s, i + |r|, t);
      assert p[8 * d..8 * (c + 1)] == p[8 * d..8 * c] + b;
      Assoc(p[8 * d..8 * c], b, UnpackFrom(s, i + |r| + |Low(b)|));
    }
  }

  /** Unpacking what is still to be written gives the chunks that are not yet out. */
  lemma {:induction false} UnpackEmit(p: seq<byte>, d: nat, c: nat, s: seq<byte>, i: nat, t: seq<byte>)
    requires Whole(p) && d <= c <= ChunkCount(p) && c - d < 256
    requires i <= |s| && s[i..] == Emit(p, d, c) + t
    ensures UnpackFrom(s, i) == p[8 * d..] + UnpackFrom(s, i + |Emit(p, d, c)|)
    decreases ChunkCount(p) - c
  {
    hide NonZero, Mask, UnpackFrom, Flush, Run, ChunkCount;
    if c == ChunkCount(p) {
      if d < c {
        UnpackRun(p, d, c, s, i, t);
      }
      assert p[8 * d..8 * c] == p[8 * d..];
    } else if Joins(p, d, c) {
      UnpackEmit(p, d, c + 1, s, i, t);
    } else {
      var f, e := Flush(p, d, c), Emit(p, c + 1, c + 1);
      Assoc(f, e, t);
      Peel(s, i, f, e + t);
      UnpackFlush(p, d, c, s, i, e + t);
      UnpackEmit(p, c + 1, c + 1, s, i + |f|, t);
      assert p[8 * d..] == p[8 * d..8 * (c + 1)] + p[8 * (c + 1)..];
      Assoc(p[8 * d..8 * (c + 1)], p[8 * (c + 1)..], UnpackFrom(s, i + |f| + |e|));
    }
  }

  lemma {:induction false} ZerosAreSparse(n: nat)
    ensures NonZero(Zeros(n)) == [] && Mask(Zeros(n)) == 0
  {
    if n > 0 {
      assert Zeros(n)[1..] == Zeros(n - 1);
      ZerosAreSparse(n - 1);
    }
  }

  lemma UnpackStray(s: seq<byte>, i: nat)
    requires i + 1 == |s| && s[i] == 0
    ensures UnpackFrom(s, i) == Zeros(8)
  {
    ZerosAreSparse(8);
    ExpandNonZero(Zeros(8), s, i + 1, 0);
    assert UnpackFrom(s, i + 1) == [];
  }

  lemma {:induction false} FullHasNoZero(b: seq<byte>)
    requires |NonZero(b)| == |b|
    ensures 0 !in b
  {
    if b != [] { FullHasNoZero(b[1..]); }
  }

  lemma StrayIsWhole(x: seq<byte>)
    requires Stray(Padded(x))
    ensures Padded(x) == x
  {
    var p := Padded(x);
    FullHasNoZero(Chunk(p, ChunkCount(p) - 1));
    assert p[|p| - 1] == Chunk(p, ChunkCount(p) - 1)[7];
  }

  /** For every byte array, unpacking the packed form gives it back followed only by zeros. */
  lemma UnpackPacked(x: seq<byte>)
    ensures var y := Unpacked(Packed(x));
            && |x| <= |y| <= |x| + 8 && |y| % 8 == 0
            && y == x + Zeros(|y| - |x|)
  {
    hide Emit, ChunkCount, Stray, Expand;
    var p := Padded(x);
    var s, n := Packed(x), |Emit(p, 0, 0)|;
    UnpackEmit(p, 0, 0, s, 0, if Stray(p) then [0] else []);
    if Stray(p) {
      UnpackStray(s, n);
      StrayIsWhole(x);
    }
  }

  // ---------------------------------------------------------------- size bound

  /** The number of runs that `n` chunks can need at most. */
  function Runs(n: nat): nat {
    (n + 255) / 256
  }

  /** Each run's two bytes are paid by the low-density chunk that ends it, by 256 chunks, or by the end of input. */
  lemma FlushSize(p: seq<byte>, d: nat, c: nat)
    requires Whole(p) && d <= c < ChunkCount(p) && c - d < 256 && !Joins(p, d, c)
    ensures |Flush(p, d, c)| <= 8 * (c + 1 - d) + (if c + 1 - d == 256 then 2 else 0)
  {
  }

  lemma RunsStep(n: nat, k: nat)
    requires k <= n
    ensures Runs(n - k) + (if k == 256 then 1 else 0) <= Runs(n)
  {
  }

  lemma {:induction false} EmitSize(p: seq<byte>, d: nat, c: nat)
    requires Whole(p) && d <= c <= ChunkCount(p) && c - d < 256
    ensures |Emit(p, d, c)| <= 8 * (ChunkCount(p) - d) + 2 * Runs(ChunkCount(p) - d)
    decreases ChunkCount(p) - c
  {
    hide NonZero, Mask, Flush, ChunkCount;
    if c == ChunkCount(p) {
    } else if Joins(p, d, c) {
      EmitSize(p, d, c + 1);
    } else {
      FlushSize(p, d, c);
      EmitSize(p, c + 1, c + 1);
      RunsStep(ChunkCount(p) - d, c + 1 - d);
    }
  }

  lemma PackedSize(x: seq<byte>)
    ensures |Packed(x)| <= 8 * ((|x| + 7) / 8) + 2 * ((|x| + 2047) / 2048) + (if Stray(Padded(x)) then 1 else 0)
  {
    hide Emit, Stray;
    EmitSize(Padded(x), 0, 0);
    assert ChunkCount(Padded(x)) == (|x| + 7) / 8;
  }

  // ---------------------------------------------------------------- the packer

  lemma {:induction false} MaskSnoc(b: seq<byte>, v: byte)
    ensures NonZero(b + [v]) == if v != 0 then NonZero(b) + [v] else NonZero(b)
    ensures Mask(b + [v]) == Mask(b) + (if v != 0 then Pow2(|b|) else 0)
  {
    if b == [] {
      assert [v][1..] == [];
    } else {
      assert (b + [v])[1..] == b[1..] + [v];
      MaskSnoc(b[1..], v);
    }
  }

  lemma WriteFirst(s: seq<byte>, i: nat, v: byte, bs: seq<byte>)
    ensures Store(Write(s, i + 1, bs), i, v) == Write(s, i, [v] + bs)
  {
    var a, b := Store(Write(s, i + 1, bs), i, v), Write(s, i, [v] + bs);
    forall k | 0 <= k < |a| ensures a[k] == b[k] {
      WriteAt(s, i + 1, bs, k);
      WriteAt(s, i, [v] + bs, k);
    }
  }

  /** `packSeg`: a low-density chunk is written at once; of a raw chunk only the bytes are, one place too late. */
  method PackSeg(src: seq<byte>, srcIdx: nat, buffer: ByteBuffer, bufferIdx: nat, n: nat) returns (r: nat)
    requires srcIdx + 8 <= |src|
    modifies buffer
    ensures var b := src[srcIdx..srcIdx + 8];
            var raw := Full(b) || (n > 0 && Absorbed(b));
            && r == (if !raw then 1 + |NonZero(b)| else if n > 0 then 8 else 10)
            && buffer.data == if raw then Write(old(buffer.data), bufferIdx + 1, NonZero(b))
                                     else Write(old(buffer.data), bufferIdx, Low(b))
  {
    hide Store, Write;
    var header, notzero := 0, 0;
    ghost var b := src[srcIdx..srcIdx + 8];
    var at := bufferIdx + 1;
    for i := 0 to 8
      invariant notzero == |NonZero(b[..i])| && at == bufferIdx + 1 + notzero
      invariant header == Mask(b[..i])
      invariant buffer.data == Write(old(buffer.data), bufferIdx + 1, NonZero(b[..i]))
    {
      var v := src[srcIdx + i];
      assert b[..i + 1] == b[..i] + [v];
      MaskSnoc(b[..i], v);
      WriteSnoc(old(buffer.data), bufferIdx + 1, NonZero(b[..i]), v);
      if v != 0 {
        notzero := notzero + 1;
        header := header + Pow2(i);
        buffer.Put(at, v);
        at := at + 1;
      }
    }
    assert b[..8] == b;
    MaskRange(b);
    if 6 <= notzero <= 7 && n > 0 {
      notzero := 8;
    }
    if notzero == 8 {
      return if n > 0 then 8 else 10;
    }
    assert Pow2(8) == 256;
    WriteFirst(old(buffer.data), bufferIdx, header as byte, NonZero(b));
    buffer.Put(bufferIdx, header as byte);
    return notzero + 1;
  }

  /** What `writeFf` writes for `n` bytes of `src`, which are `k` chunks, the last one filled up with zeros. */
  function FfBytes(src: seq<byte>, srcIdx: nat, n: nat, k: nat): (out: seq<byte>)
    requires 1 <= k <= 256
    ensures |out| == 2 + 8 * k && out[0] == 255 && out[1] == (k - 1) as byte
    ensures forall j :: 2 <= j < |out| ==> out[j] == if j < n + 2 then At(src, srcIdx + j - 2) else 0
  {
    [255, (k - 1) as byte] + seq(8 * k, j requires 0 <= j < 8 * k => if j < n then At(src, srcIdx + j) else 0)
  }

  method WriteFf(src: seq<byte>, srcIdx: nat, des: ByteBuffer, destIdx: nat, n: nat, ghost k: nat)
    requires 1 <= k <= 256 && 8 * (k - 1) < n <= 8 * k
    modifies des
    ensures des.data == Write(old(des.data), destIdx, FfBytes(src, srcIdx, n, k))
  {
    hide Write, Store, FfBytes;
    var align8N := (n + 7) / 8 * 8;
    assert align8N == 8 * k;
    ghost var out := FfBytes(src, srcIdx, n, k);
    ghost var was := des.data;
    WriteNext(was, destIdx, out, 0);
    WriteNext(was, destIdx, out, 1);
    des.Put(destIdx, 255);
    des.Put(destIdx + 1, (align8N / 8 - 1) as byte);
    for i := 0 to n
      invariant des.data == Write(was, destIdx, out[..i + 2])
    {
      WriteNext(was, destIdx, out, i + 2);
      des.Put(destIdx + i + 2, At(src, srcIdx + i));
    }
    for i := 0 to align8N - n
      invariant des.data == Write(was, destIdx, out[..n + i + 2])
    {
      WriteNext(was, destIdx, out, n + i + 2);
      des.Put(destIdx + n + 2 + i, 0);
    }
    assert out[..|out|] == out;
  }

  // The packer's loop, chunk by chunk: `done` is final, the run from chunk `d` on is only reserved.

  lemma FullChunkIsWhole(x: seq<byte>, c: nat)
    requires c < ChunkCount(Padded(x)) && Full(Chunk(Padded(x), c))
    ensures 8 * c + 8 <= |x|
  {
    FullHasNoZero(Chunk(Padded(x), c));
    assert Padded(x)[8 * c + 7] == Chunk(Padded(x), c)[7];
  }

  /** The bytes `writeFf` takes from the unpadded source are those of the run. */
  lemma FfBytesAreRun(x: seq<byte>, d: nat, c: nat, n: nat)
    requires var p := Padded(x); d < c <= ChunkCount(p) && c - d <= 256
    requires n == 8 * (c - d) || (8 * c >= |x| > 8 * d && n == |x| - 8 * d)
    ensures FfBytes(x, 8 * d, n, c - d) == Run(Padded(x), d, c)
  {
    var p := Padded(x);
    var a, b := FfBytes(x, 8 * d, n, c - d), Run(p, d, c);
    forall j | 0 <= j < |a| ensures a[j] == b[j] {
      if j >= 2 { assert b[j] == p[8 * d..8 * c][j - 2]; }
    }
  }

  lemma WriteKeepsPrefix(s: seq<byte>, done: seq<byte>, i: nat, bs: seq<byte>)
    requires done <= s && |done| <= i
    ensures done <= Write(s, i, bs)
  {
    var w := Write(s, i, bs);
    forall k | 0 <= k < |done| ensures w[k] == done[k] { WriteAt(s, i, bs, k); }
  }

  lemma WriteExtends(s: seq<byte>, done: seq<byte>, bs: seq<byte>)
    requires done <= s
    ensures done + bs <= Write(s, |done|, bs)
  {
    var w := Write(s, |done|, bs);
    WriteKeepsPrefix(s, done, |done|, bs);
    forall k | 0 <= k < |done + bs| ensures w[k] == (done + bs)[k] { WriteAt(s, |done|, bs, k); }
  }

  lemma WriteBehind(s: seq<byte>, done: seq<byte>, a: seq<byte>, b: seq<byte>)
    requires done <= s && a != [] && b != []
    ensures done + (a + b) <= Write(Write(s, |done| + |a|, b), |done|, a)
  {
    var v := Write(s, |done| + |a|, b);
    var w := Write(v, |done|, a);
    var r := done + (a + b);
    forall k | 0 <= k < |r| ensures w[k] == r[k] {
      WriteAt(s, |done| + |a|, b, k);
      WriteAt(v, |done|, a, k);
    }
  }

  predicate StrayAt(p: seq<byte>, c: nat)
    requires Whole(p) && c <= ChunkCount(p)
  {
    c > 0 && Full(Chunk(p, c - 1)) && RunStart(p, c - 1) < c - 1
  }

  /** The state between two chunks: `done` is final, the run of the chunks from `d` to `c` is only reserved. */
  ghost predicate PackInv(p: seq<byte>, c: nat, done: seq<byte>, data: seq<byte>, bufferIdx: nat)
    requires Whole(p) && c <= ChunkCount(p)
  {
    var d := RunStart(p, c);
    && done + Emit(p, d, c) == Emit(p, 0, 0)
    && done <= data
    && bufferIdx == |done| + (if d < c then 2 + 8 * (c - d) else 0)
    && (if StrayAt(p, c) then |data| == bufferIdx + 1 else if d < c then |data| <= bufferIdx else data == done)
  }

  lemma StepJoin(p: seq<byte>, c: nat, done: seq<byte>, data: seq<byte>, bufferIdx: nat)
    requires Whole(p) && c < ChunkCount(p) && Joins(p, RunStart(p, c), c)
    requires PackInv(p, c, done, data, bufferIdx)
    ensures RunStart(p, c + 1) == RunStart(p, c)
    ensures RunStart(p, c) == c ==> bufferIdx == |done|
    ensures PackInv(p, c + 1, done, Write(data, bufferIdx + 1, NonZero(Chunk(p, c))),
                    bufferIdx + if RunStart(p, c) == c then 10 else 8)
  {
    hide NonZero, Mask, Store, Write, Flush, ChunkCount;
    WriteKeepsPrefix(data, done, bufferIdx + 1, NonZero(Chunk(p, c)));
  }

  lemma StepLow(p: seq<byte>, c: nat, done: seq<byte>, data: seq<byte>, bufferIdx: nat)
    requires Whole(p) && c < ChunkCount(p) && RunStart(p, c) == c && !Full(Chunk(p, c))
    requires PackInv(p, c, done, data, bufferIdx)
    ensures RunStart(p, c + 1) == c + 1
    ensures var low := Low(Chunk(p, c));
            PackInv(p, c + 1, done + low, Write(data, bufferIdx, low), bufferIdx + |low|)
  {
    hide NonZero, Mask, Store, Write, ChunkCount;
    var low := Low(Chunk(p, c));
    WriteExtends(data, done, low);
    Assoc(done, low, Emit(p, c + 1, c + 1));
  }

  lemma StepFull(p: seq<byte>, c: nat, done: seq<byte>, data: seq<byte>, bufferIdx: nat)
    requires Whole(p) && c < ChunkCount(p) && c + 1 - RunStart(p, c) == 256 && Absorbed(Chunk(p, c))
    requires PackInv(p, c, done, data, bufferIdx)
    ensures RunStart(p, c + 1) == c + 1
    ensures var run := Run(p, RunStart(p, c), c + 1);
            var w := Write(data, bufferIdx + 1, NonZero(Chunk(p, c)));
            PackInv(p, c + 1, done + run, Write(w, |done|, run), bufferIdx + 8)
  {
    hide NonZero, Mask, Store, Write, ChunkCount;
    var run := Run(p, RunStart(p, c), c + 1);
    var w := Write(data, bufferIdx + 1, NonZero(Chunk(p, c)));
    WriteKeepsPrefix(data, done, bufferIdx + 1, NonZero(Chunk(p, c)));
    WriteExtends(w, done, run);
    Assoc(done, run, Emit(p, c + 1, c + 1));
  }

  lemma StepEnd(p: seq<byte>, c: nat, done: seq<byte>, data: seq<byte>, bufferIdx: nat)
    requires Whole(p) && c < ChunkCount(p) && RunStart(p, c) < c && !Absorbed(Chunk(p, c))
    requires PackInv(p, c, done, data, bufferIdx)
    ensures RunStart(p, c + 1) == c + 1
    ensures var low := Low(Chunk(p, c));
            var run := Run(p, RunStart(p, c), c);
            PackInv(p, c + 1, done + (run + low), Write(Write(data, bufferIdx, low), |done|, run), bufferIdx + |low|)
  {
    hide NonZero, Mask, Store, Write, ChunkCount;
    var low := Low(Chunk(p, c));
    var run := Run(p, RunStart(p, c), c);
    assert Flush(p, RunStart(p, c), c) == run + low;
    Assoc(done, run + low, Emit(p, c + 1, c + 1));
    WriteBehind(data, done, run, low);
  }

  /** After the last chunk the pending run is written, and only a stray byte can follow. */
  lemma PackEnds(p: seq<byte>, done: seq<byte>, data: seq<byte>, bufferIdx: nat)
    requires Whole(p) && PackInv(p, ChunkCount(p), done, data, bufferIdx)
    ensures var n := ChunkCount(p);
            var out := Emit(p, 0, 0);
            var w := if RunStart(p, n) < n then Write(data, |done|, Run(p, RunStart(p, n), n)) else data;
            && bufferIdx == |out| && out <= w
            && (Stray(p) <==> StrayAt(p, n))
            && |w| == |out| + (if Stray(p) then 1 else 0)
  {
    hide NonZero, Mask, Store, Write, ChunkCount;
    var n := ChunkCount(p);
    if RunStart(p, n) < n {
      WriteExtends(data, done, Run(p, RunStart(p, n), n));
    }
  }

  /** The packer's last loop: zeros over whatever was stored beyond the packed form. */
  method ClearTail(buffer: ByteBuffer, size: nat)
    requires size <= |buffer.data|
    modifies buffer
    ensures buffer.data == old(buffer.data)[..size] + Zeros(|old(buffer.data)| - size)
  {
    ghost var w := buffer.data;
    for k := size to |buffer.data|
      invariant buffer.data == w[..size] + Zeros(k - size) + w[k..]
    {
      buffer.Put(k, 0);
    }
  }

  lemma PackStarts(p: seq<byte>)
    requires Whole(p)
    ensures RunStart(p, 0) == 0 && PackInv(p, 0, [], [], 0)
  {
  }

  lemma ScratchChunk(x: seq<byte>, i: nat, c: nat)
    requires i == 8 * c < |x|
    ensures c < ChunkCount(Padded(x))
    ensures i + 8 <= |x| ==> x[i..i + 8] == Chunk(Padded(x), c)
    ensures i + 8 > |x| ==> (x[i..] + Zeros(i + 8 - |x|))[0..8] == Chunk(Padded(x), c)
  {
  }

  lemma ClearedIsPacked(x: seq<byte>, w: seq<byte>)
    requires var p := Padded(x); Emit(p, 0, 0) <= w && |w| == |Emit(p, 0, 0)| + (if Stray(p) then 1 else 0)
    ensures var n := |Emit(Padded(x), 0, 0)|; w[..n] + Zeros(|w| - n) == Packed(x)
  {
  }

  /** `sprotoPack` on a fresh buffer, as `api.pack` calls it. */
  method Pack(x: seq<byte>, buffer: ByteBuffer) returns (size: nat)
    requires buffer.data == []
    modifies buffer
    ensures buffer.data == Packed(x) && size == |Emit(Padded(x), 0, 0)|
  {
    hide NonZero, Mask, Store, Write, Low, Run, FfBytes, Emit, RunStart, Stray, Packed, PackInv, Chunk, ChunkCount, Zeros;
    var srcIdx, bufferIdx, ffN, ffSrcstartIdx, ffDesstartIdx := 0, 0, 0, 0, 0;
    size := 0;
    var src, ffSrcstart := x, [];
    ghost var p, done, c, d := Padded(x), [], 0, 0;
    var i := 0;
    PackStarts(p);
    while i < |x|
      invariant i == 8 * c && c <= ChunkCount(p) && size == bufferIdx
      invariant i < |x| ==> src == x && srcIdx == i
      invariant d == RunStart(p, c) && PackInv(p, c, done, buffer.data, bufferIdx)
      invariant ffN == c - d
      invariant ffN > 0 ==> ffSrcstart == x && ffSrcstartIdx == 8 * d && ffDesstartIdx == |done|
    {
      if i + 8 > |x| {
        // the last chunk is copied into a scratch array and filled up with zeros
        src := src[srcIdx..] + Zeros(i + 8 - |x|);
        srcIdx := 0;
      }
      ScratchChunk(x, i, c);
      ghost var b, data := Chunk(p, c), buffer.data;
      var n := PackSeg(src, srcIdx, buffer, bufferIdx, ffN);
      if n == 10 {
        StepJoin(p, c, done, data, bufferIdx);
        FullChunkIsWhole(x, c);
        ffSrcstart, ffSrcstartIdx, ffDesstartIdx := src, srcIdx, bufferIdx;
        ffN := 1;
      } else if n == 8 && ffN > 0 {
        ffN := ffN + 1;
        if ffN == 256 {
          WriteFf(ffSrcstart, ffSrcstartIdx, buffer, ffDesstartIdx, 256 * 8, 256);
          FfBytesAreRun(x, d, c + 1, 256 * 8);
          StepFull(p, c, done, data, bufferIdx);
          done := done + Run(p, d, c + 1);
          d := c + 1;
          ffN := 0;
        } else {
          StepJoin(p, c, done, data, bufferIdx);
        }
      } else {
        if ffN > 0 {
          WriteFf(ffSrcstart, ffSrcstartIdx, buffer, ffDesstartIdx, ffN * 8, ffN);
          FfBytesAreRun(x, d, c, ffN * 8);
          StepEnd(p, c, done, data, bufferIdx);
          done := done + (Run(p, d, c) + Low(b));
        } else {
          StepLow(p, c, done, data, bufferIdx);
          done := done + Low(b);
        }
        d := c + 1;
        ffN := 0;
      }
      srcIdx := srcIdx + 8;
      bufferIdx := bufferIdx + n;
      size := size + n;
      i := i + 8;
      c := c + 1;
    }
    PackEnds(p, done, buffer.data, bufferIdx);
    if ffN == 1 {
      FfBytesAreRun(x, d, c, 8);
      WriteFf(ffSrcstart, ffSrcstartIdx, buffer, ffDesstartIdx, 8, 1);
    } else if ffN > 1 {
      FfBytesAreRun(x, d, c, |x| - 8 * d);
      WriteFf(ffSrcstart, ffSrcstartIdx, buffer, ffDesstartIdx, |x| - ffSrcstartIdx, ffN);
    }
    ClearedIsPacked(x, buffer.data);
    ClearTail(buffer, size);
  }

  // ---------------------------------------------------------------- the unpacker

  /** `h >>> i`. */
  function Shr(h: nat, i: nat): nat {
    if i == 0 then h else Shr(h, i - 1) / 2
  }

  lemma {:induction false} ShrBound(h: nat, i: nat)
    requires i <= 8 && h < 256
    ensures Shr(h, i) < Pow2(8 - i)
  {
    if i == 0 { assert Pow2(8) == 256; } else { ShrBound(h, i - 1); }
  }

  lemma ExpandEnds(h: nat, src: seq<byte>, at: nat, i: nat)
    requires i <= 8
    requires i == 8 || (h % 2 == 1 && at > |src|)
    ensures Expand(h, src, at, i) == []
  {
  }

  lemma OnesOfZero()
    ensures Ones(0) == 0
  {
  }

  lemma MaskedStep(h: nat, src: seq<byte>, at: nat, i: nat, out: seq<byte>)
    requires i < 8 && h % 2 == 0
    ensures out + [0] + Expand(h / 2, src, at, i + 1) == out + Expand(h, src, at, i)
    ensures Ones(h / 2) == Ones(h)
  {
    Assoc(out, [0], Expand(h / 2, src, at, i + 1));
  }

  lemma MaskedByteStep(h: nat, src: seq<byte>, at: nat, i: nat, out: seq<byte>)
    requires i < 8 && h % 2 == 1 && at <= |src|
    ensures out + [At(src, at)] + Expand(h / 2, src, at + 1, i + 1) == out + Expand(h, src, at, i)
    ensures 1 + Ones(h / 2) == Ones(h)
  {
    Assoc(out, [At(src, at)], Expand(h / 2, src, at + 1, i + 1));
  }

  /** One masked chunk; it fails when a byte is due although the source was already read past its end. */
  method UnpackMasked(src: seq<byte>, srcIdx: nat, header: byte, buffer: ByteBuffer) returns (at: nat, ok: bool)
    requires srcIdx <= |src|
    modifies buffer
    ensures buffer.data == old(buffer.data) + Expand(header as nat, src, srcIdx, 0)
    ensures ok ==> at == srcIdx + Ones(header as nat)
    ensures !ok ==> srcIdx + Ones(header as nat) > |src|
  {
    hide Expand, Ones;
    at := srcIdx;
    ghost var h, was := header as nat, buffer.data;
    for i := 0 to 8
      invariant buffer.data + Expand(Shr(h, i), src, at, i) == was + Expand(h, src, srcIdx, 0)
      invariant at + Ones(Shr(h, i)) == srcIdx + Ones(h)
    {
      var nz := Shr(header as nat, i) % 2;
      if nz != 0 {
        if |src| - at < 0 {
          ExpandEnds(Shr(h, i), src, at, i);
          return at, false;
        }
        MaskedByteStep(Shr(h, i), src, at, i, buffer.data);
        buffer.Append(At(src, at));
        at := at + 1;
      } else {
        MaskedStep(Shr(h, i), src, at, i, buffer.data);
        buffer.Append(0);
      }
    }
    ShrBound(h, 8);
    OnesOfZero();
    ExpandEnds(Shr(h, 8), src, at, 8);
    ok := true;
  }

  /** `sprotoUnpack` on a fresh buffer, as `api.unpack` calls it: the output counts, not the returned size. */
  method Unpack(src: seq<byte>, buffer: ByteBuffer)
    requires buffer.data == []
    modifies buffer
    ensures buffer.data == Unpacked(src)
  {
    hide Expand, Ones, UnpackFrom;
    var srcIdx, srcsz: int := 0, |src|;
    while srcsz > 0
      invariant 0 <= srcIdx && srcIdx + srcsz == |src|
      invariant Unpacked(src) == buffer.data + UnpackFrom(src, srcIdx)
      decreases srcsz
    {
      var header := src[srcIdx];
      ghost var k, was := srcIdx, buffer.data;
      srcsz := srcsz - 1;
      srcIdx := srcIdx + 1;
      if header == 0xff {
        if srcsz == 0 || srcsz < (src[srcIdx] as nat + 1) * 8 + 1 {
          NothingExpands(src, k);
          return; // the count or some of the bytes are missing
        }
        var n := (src[srcIdx] as nat + 1) * 8;
        srcsz := srcsz - (n + 1);
        srcIdx := srcIdx + 1;
        for i := 0 to n
          invariant buffer.data == was + src[srcIdx..srcIdx + i]
        {
          buffer.Append(src[srcIdx + i]);
        }
        RunExpands(src, k, n);
        Assoc(was, src[srcIdx..srcIdx + n], UnpackFrom(src, srcIdx + n));
        srcIdx := srcIdx + n;
      } else {
        MaskExpands(src, k);
        Assoc(was, Expand(header as nat, src, k + 1, 0), UnpackFrom(src, k + 1 + Ones(header as nat)));
        var at, ok := UnpackMasked(src, srcIdx, header, buffer);
        if !ok {
          NothingExpands(src, k + 1 + Ones(header as nat));
          return;
        }
        srcsz := srcsz - (at - srcIdx);
        srcIdx := at;
      }
    }
    NothingExpands(src, srcIdx);
  }
}
