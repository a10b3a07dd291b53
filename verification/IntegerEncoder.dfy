/** Integers and integer arrays, written byte by byte into the encoder's buffer. */
module IntegerEncoder {
  import opened Bytes
  import opened Options
  import opened Words
  import opened SprotoSpec
  import opened Placing

  lemma LENext(v: int, n: nat, p: nat)
    requires p == Pow256(n)
    ensures LE(v, n + 1) == LE(v, n) + [(v / p % 256) as byte]
    decreases n
  {
    if n > 0 {
      var q := Pow256(n - 1);
      LENext(v / 256, n - 1, q);
      DivDiv(v, q);
    }
  }

  lemma DivDiv(v: int, q: nat)
    requires q > 0
    ensures v / 256 / q == v / (256 * q)
  {
    var a, r := v / 256, v % 256;
    var b, t := a / q, a % q;
    assert v == 256 * (q * b + t) + r;
    assert 256 * (q * b) == (256 * q) * b;
    assert 0 <= 256 * t + r < 256 * q;
    QuotientUnique(v, 256 * q, b, 256 * t + r);
  }

  lemma ShiftNext(v: int, p: nat)
    requires p > 0
    ensures v / p / 256 == v / (256 * p)
  {
    var u, r := v / p, v % p;
    var b, t := u / 256, u % 256;
    Regroup(p, b, t);
    QuotientUnique(v, 256 * p, b, p * t + r);
  }

  lemma Regroup(p: nat, b: int, t: nat)
    requires p > 0 && t < 256
    ensures p * (256 * b + t) == 256 * p * b + p * t
    ensures 0 <= p * t <= 256 * p - p
  {
    assert p * (256 * b + t) == p * (256 * b) + p * t;
    assert p * (255 - t) >= 0;
  }

  lemma LE4(v: int)
    ensures LE(v, 4) == [(v % 256) as byte, (v / 0x100 % 256) as byte, (v / 0x1_0000 % 256) as byte, (v / 0x100_0000 % 256) as byte]
  {
    assert v / 256 / 256 == v / 0x1_0000;
    assert v / 256 / 256 / 256 == v / 0x100_0000;
    assert LE(v / 0x100_0000, 1) == [(v / 0x100_0000 % 256) as byte] + LE(v / 0x100_0000 / 256, 0);
    assert LE(v / 0x1_0000, 2) == [(v / 0x1_0000 % 256) as byte] + LE(v / 0x1_0000 / 256, 1);
    assert LE(v / 0x100, 3) == [(v / 0x100 % 256) as byte] + LE(v / 0x100 / 256, 2);
  }

  function Sign(v: int): byte {
    if v < 0 then 0xff else 0
  }

  /** Widening: the wide form of an int32 is its narrow form and four sign bytes. */
  lemma SignExtends(v: int)
    requires IsInt32(v)
    ensures LE(v, 8) == LE(v, 4) + [Sign(v), Sign(v), Sign(v), Sign(v)]
    ensures LE(v, 4)[3] >= 0x80 <==> v < 0
  {
    hide LE, Pow256;
    LE4(v);
    var h := v / TWO_32;
    assert h == if v < 0 then -1 else 0;
    LE4(h);
    Widths();
    LESplit(v, 4, 4, TWO_32);
  }

  lemma {:induction false} LESplit(v: int, n: nat, m: nat, p: nat)
    requires p == Pow256(n)
    ensures LE(v, n + m) == LE(v, n) + LE(v / p, m)
    decreases n
  {
    if n == 0 {
      assert v / 1 == v;
    } else {
      var q := Pow256(n - 1);
      LESplit(v / 256, n - 1, m, q);
      DivDiv(v, q);
      Assoc([(v % 256) as byte], LE(v / 256, n - 1), LE(v / p, m));
    }
  }

  lemma {:induction false} WrapsAround(v: int, n: nat, p: nat)
    requires p == Pow256(n)
    ensures LE(v + p, n) == LE(v, n)
    decreases n
  {
    if n > 0 {
      var q := Pow256(n - 1);
      assert (v + 256 * q) % 256 == v % 256 && (v + 256 * q) / 256 == v / 256 + q;
      WrapsAround(v / 256, n - 1, q);
    }
  }

  lemma UnsignedSame(v: int)
    requires IsInt32(v)
    ensures LE(v % TWO_32, 4) == LE(v, 4)
    ensures v % TWO_32 >= TWO_31 <==> v < 0
  {
    hide LE, Pow256;
    assert v % TWO_32 == if v < 0 then v + TWO_32 else v;
    Widths();
    WrapsAround(v, 4, TWO_32);
  }

  // ---------------------------------------------------------------- words

  /** The byte stores of an integer, lowest byte first. */
  method PutLE(buf: ByteBuffer, i: nat, v: int, n: nat)
    modifies buf
    ensures buf.data == Write(old(buf.data), i, LE(v, n))
  {
    var k, u, p := 0, v, 1;
    assert v / 1 == v;
    while k < n
      invariant 0 <= k <= n
      invariant p == Pow256(k) && u == v / p
      invariant buf.data == Write(old(buf.data), i, LE(v, k))
    {
      LENext(v, k, p);
      WriteSnoc(old(buf.data), i, LE(v, k), (u % 256) as byte);
      buf.Put(i + k, (u % 256) as byte);
      ShiftNext(v, p);
      u := u / 256;
      p := 256 * p;
      k := k + 1;
    }
  }

  /** `fillSize` */
  method FillSize(buf: ByteBuffer, i: nat, sz: nat) returns (r: nat)
    modifies buf
    ensures buf.data == Write(old(buf.data), i, LE(sz, 4)) && r == sz + 4
  {
    PutLE(buf, i, sz, 4);
    r := sz + 4;
  }

  /** `encodeInteger` and `encodeUint64`: the integer first, its size in front of it. */
  method EncodeInteger(v: int, buf: ByteBuffer, i: nat, n: nat) returns (sz: nat)
    requires |buf.data| <= i
    modifies buf
    ensures buf.data == Placed(old(buf.data), i, Sized(LE(v, n))) && sz == 4 + n
  {
    PutLE(buf, i + 4, v, n);
    WritePlaces(old(buf.data), i + 4, LE(v, n));
    sz := FillSize(buf, i, n);
    WriteBack(old(buf.data), i, LE(n, 4), LE(v, n));
  }

  // ---------------------------------------------------------------- integer arrays

  /** `uint32ToUint64` */
  method Uint32ToUint64(negative: bool, buf: ByteBuffer, i: nat)
    modifies buf
    ensures var s: byte := if negative then 0xff else 0; buf.data == Write(old(buf.data), i + 4, [s, s, s, s])
  {
    var s: byte := if negative then 0xff else 0;
    ghost var bs := [s, s, s, s];
    buf.Put(i + 4, s);
    WriteNext(old(buf.data), i + 4, bs, 0);
    buf.Put(i + 5, s);
    WriteNext(old(buf.data), i + 4, bs, 1);
    buf.Put(i + 6, s);
    WriteNext(old(buf.data), i + 4, bs, 2);
    buf.Put(i + 7, s);
    WriteNext(old(buf.data), i + 4, bs, 3);
    assert bs[..4] == bs;
  }

  /** One step of the widening: four bytes move up, four sign bytes follow them. */
  method WidenWord(buf: ByteBuffer, h: nat, i: nat, ghost v: int)
    requires IsInt32(v) && Read(buf.data, h + 1 + 4 * i, 4) == LE(v, 4)
    modifies buf
    ensures buf.data == Write(old(buf.data), h + 1 + 8 * i, LE(v, 8))
  {
    hide LE, Write;
    ghost var s, q, p := buf.data, h + 1 + 4 * i, h + 1 + 8 * i;
    ghost var w := LE(v, 4);
    SignExtends(v);
    NothingWritten(s, p);
    var j := 0;
    while j < 4
      invariant 0 <= j <= 4
      invariant buf.data == Write(s, p, w[..j])
    {
      WriteAt(s, p, w[..j], q + j);
      assert At(buf.data, q + j) == Read(s, q, 4)[j] == w[j];
      WriteNext(s, p, w, j);
      buf.Put(h + 1 + i * 8 + j, At(buf.data, h + 1 + i * 4 + j));
      j := j + 1;
    }
    assert w[..4] == w;
    WriteAt(s, p, w, p + 3);
    var negative := At(buf.data, h + 1 + i * 8 + 3) >= 0x80;
    Uint32ToUint64(negative, buf, h + 1 + i * 8);
    WriteWrite(s, p, w, [Sign(v), Sign(v), Sign(v), Sign(v)]);
  }

  lemma NothingWritten(s: seq<byte>, p: nat)
    ensures Write(s, p, []) == s
  {
  }

  lemma {:induction false} WriteWrite(s: seq<byte>, p: nat, a: seq<byte>, b: seq<byte>)
    ensures Write(Write(s, p, a), p + |a|, b) == Write(s, p, a + b)
    decreases |b|
  {
    if b == [] {
      assert a + b == a;
    } else {
      var c := b[..|b| - 1];
      WriteWrite(s, p, a, c);
      assert a + b == a + c + [b[|b| - 1]];
      WriteSnoc(s, p, a + c, b[|b| - 1]);
    }
  }

  lemma {:induction false} ReadIntWords(d: seq<byte>, p: nat, vs: seq<Value>, n: nat, w: nat)
    requires AllInts(vs) && n <= |vs| && (w == 4 || w == 8)
    requires forall k {:trigger vs[k]} :: 0 <= k < n ==> Read(d, p + w * k, w) == LE(vs[k].i, w)
    ensures Read(d, p, n * w) == IntWords(vs, n, w)
  {
    if n > 0 {
      ReadIntWords(d, p, vs, n - 1, w);
      ReadSplit(d, p, (n - 1) * w, w);
      assert Read(d, p + w * (n - 1), w) == LE(vs[n - 1].i, w);
    }
  }

  lemma {:induction false} ReadWord4(d: seq<byte>, p: nat, vs: seq<Value>, n: nat, k: nat)
    requires AllInts(vs) && k < n <= |vs| && Read(d, p, 4 * n) == IntWords(vs, n, 4)
    ensures Read(d, p + 4 * k, 4) == LE(vs[k].i, 4)
  {
    hide LE, Read;
    ReadSplit(d, p, 4 * (n - 1), 4);
    var a, b := Read(d, p, 4 * (n - 1)), Read(d, p + 4 * (n - 1), 4);
    var x, y := IntWords(vs, n - 1, 4), LE(vs[n - 1].i, 4);
    assert a == (a + b)[..|a|] && x == (x + y)[..|a|];
    assert b == (a + b)[|a|..] && y == (x + y)[|a|..];
    if k < n - 1 {
      ReadWord4(d, p, vs, n - 1, k);
    }
  }

  /** Widens the `n` integers behind the header byte in place, the last one first. */
  method Widen(buf: ByteBuffer, h: nat, n: nat, ghost pre: seq<byte>, ghost vs: seq<Value>)
    requires AllInts(vs) && n <= |vs| && forall k :: 0 <= k < n ==> IsInt32(vs[k].i)
    requires |pre| <= h + 1 && buf.data == Placed(pre, h + 1, IntWords(vs, n, 4))
    modifies buf
    ensures buf.data == Placed(pre, h + 1, IntWords(vs, n, 8))
  {
    hide LE, IntWords, Write, Placed, Read, IsInt32;
    ReadPlaced(pre, h + 1, IntWords(vs, n, 4));
    forall k | 0 <= k < n ensures Read(buf.data, h + 1 + 4 * k, 4) == LE(vs[k].i, 4) {
      ReadWord4(buf.data, h + 1, vs, n, k);
    }
    PlacedLength(pre, h + 1, IntWords(vs, n, 4));
    var i: int := n - 1;
    while i >= 0
      invariant -1 <= i < n
      invariant n > 0 ==> |buf.data| == h + 1 + if i == n - 1 then 4 * n else 8 * n
      invariant Read(buf.data, 0, h + 1) == Read(pre, 0, h + 1)
      invariant forall k {:trigger vs[k]} :: 0 <= k <= i ==> Read(buf.data, h + 1 + 4 * k, 4) == LE(vs[k].i, 4)
      invariant forall k {:trigger vs[k]} :: i < k < n ==> Read(buf.data, h + 1 + 8 * k, 8) == LE(vs[k].i, 8)
      invariant n == 0 ==> buf.data == old(buf.data)
    {
      ghost var s, w := buf.data, LE(vs[i].i, 8);
      WidenWord(buf, h, i, vs[i].i);
      ReadBeside(s, h + 1 + 8 * i, w, 0, h + 1);
      ReadWritten(s, h + 1 + 8 * i, w);
      forall k | 0 <= k < i ensures Read(buf.data, h + 1 + 4 * k, 4) == LE(vs[k].i, 4) {
        ReadBeside(s, h + 1 + 8 * i, w, h + 1 + 4 * k, 4);
      }
      forall k | i < k < n ensures Read(buf.data, h + 1 + 8 * k, 8) == LE(vs[k].i, 8) {
        ReadBeside(s, h + 1 + 8 * i, w, h + 1 + 8 * k, 8);
      }
      i := i - 1;
    }
    if n > 0 {
      ReadIntWords(buf.data, h + 1, vs, n, 8);
      PlacedFromReads(buf.data, pre, h + 1, IntWords(vs, n, 8));
    } else {
      NoWords(vs);
    }
  }

  lemma NoWords(vs: seq<Value>)
    requires AllInts(vs)
    ensures IntWords(vs, 0, 4) == [] && IntWords(vs, 0, 8) == []
  {
  }

  /** The next integer goes behind the words there are. */
  method AppendInteger(buf: ByteBuffer, h: nat, i: nat, v: int, intlen: nat, ghost pre: seq<byte>, ghost vs: seq<Value>, ghost n: nat)
    requires AllInts(vs) && n < |vs| && vs[n].i == v && |pre| <= h + 1 && (intlen == 4 || intlen == 8)
    requires intlen == 4 ==> IsInt32(v)
    requires buf.data == Placed(pre, h + 1, IntWords(vs, n, intlen)) && i == h + 1 + n * intlen
    modifies buf
    ensures buf.data == Placed(pre, h + 1, IntWords(vs, n + 1, intlen))
  {
    hide LE, Write, Placed, IsInt32;
    ghost var s, b := buf.data, IntWords(vs, n, intlen);
    assert |b| == n * intlen;
    if IsInt32(v) {
      var u := v % TWO_32;
      UnsignedSame(v);
      PutLE(buf, i, u, 4);
      if intlen == 8 {
        SignExtends(v);
        Uint32ToUint64(u >= TWO_31, buf, i);
        WriteWrite(s, i, LE(v, 4), [Sign(v), Sign(v), Sign(v), Sign(v)]);
      }
    } else {
      PutLE(buf, i, v, 8);
    }
    PlacedLength(pre, h + 1, b);
    WritePlaces(s, i, LE(v, intlen));
    PlacedNext(pre, h + 1, b, LE(v, intlen));
  }

  lemma WidthOf(vs: seq<Value>, w: nat)
    requires AllInts(vs) && (w == 4 || w == 8)
    requires w == 4 <==> forall k :: 0 <= k < |vs| ==> IsInt32(vs[k].i)
    ensures Width(vs) == w
  {
  }

  /** `encodeIntegerArray`: four bytes an element until an element needs eight; then all have eight. */
  method EncodeIntegerArray(es: seq<Option<Value>>, buf: ByteBuffer, h: nat) returns (bufferIdx: nat)
    requires AllInts(Prefix(es)) && |buf.data| <= h
    modifies buf
    ensures buf.data == Placed(old(buf.data), h, EncInts(Prefix(es))) && bufferIdx == h + |EncInts(Prefix(es))|
  {
    hide LE, Write, Placed, IntWords, Width, IsInt32, Prefix;
    ghost var pre, vs := buf.data, Prefix(es);
    bufferIdx := h + 1;
    var intlen, index := 4, 1;
    NoWords(vs);
    NothingPlaced(pre, h + 1);
    while index <= |es| && es[index - 1].Some?
      invariant 1 <= index <= |vs| + 1
      invariant intlen == 4 || intlen == 8
      invariant intlen == 4 <==> forall k :: 0 <= k < index - 1 ==> IsInt32(vs[k].i)
      invariant bufferIdx == h + 1 + (index - 1) * intlen
      invariant buf.data == Placed(pre, h + 1, IntWords(vs, index - 1, intlen))
    {
      var v := es[index - 1].value.i;
      if !IsInt32(v) && intlen == 4 {
        bufferIdx := bufferIdx + (index - 1) * 4;
        Widen(buf, h, index - 1, pre, vs);
        intlen := 8;
      }
      AppendInteger(buf, h, bufferIdx, v, intlen, pre, vs, index - 1);
      bufferIdx := bufferIdx + intlen;
      index := index + 1;
    }
    assert index - 1 == |vs|;
    if bufferIdx == h + 1 {
      assert vs == [];
      NothingPlaced(pre, h);
      return h;
    }
    WidthOf(vs, intlen);
    ghost var s := buf.data;
    buf.Put(h, intlen as byte);
    OneByte(s, h, intlen as byte);
    WriteBack(pre, h, [intlen as byte], IntWords(vs, |vs|, intlen));
  }

  lemma OneByte(s: seq<byte>, i: nat, v: byte)
    ensures Write(s, i, [v]) == Store(s, i, v)
  {
  }
}
