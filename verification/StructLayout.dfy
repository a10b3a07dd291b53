/** The struct encoder's buffer: header space for every record that can occur, the data behind it, and the final move of
    the data up to the records that did occur. */
module StructLayout {
  import opened Bytes
  import opened Words
  import opened SprotoSpec
  import opened Placing
  import opened IntegerEncoder

  function DataStart(h: nat, maxn: nat): nat {
    h + 2 + 2 * maxn
  }

  /** `ws` and `d` are the records and the data so far; the words in between and the two bytes at `h` are free. */
  ghost predicate Layout(data: seq<byte>, pre: seq<byte>, h: nat, maxn: nat, ws: seq<nat>, d: seq<byte>) {
    && Read(data, 0, h) == Read(pre, 0, h)
    && Read(data, h + 2, 2 * |ws|) == WordBytes(ws)
    && Read(data, DataStart(h, maxn), |d|) == d
    && |data| <= DataStart(h, maxn) + |d|
    && (d != [] ==> |data| == DataStart(h, maxn) + |d|)
    && (ws != [] ==> |data| >= h + 2 + 2 * |ws|)
    && |ws| <= maxn
  }

  lemma LayoutStart(pre: seq<byte>, h: nat, maxn: nat)
    requires |pre| <= h
    ensures Layout(pre, pre, h, maxn, [], [])
  {
  }

  lemma LayoutData(data: seq<byte>, pre: seq<byte>, h: nat, maxn: nat, ws: seq<nat>, d: seq<byte>, b: seq<byte>)
    requires Layout(data, pre, h, maxn, ws, d) && b != []
    ensures Layout(Placed(data, DataStart(h, maxn) + |d|, b), pre, h, maxn, ws, d + b)
  {
    hide WordBytes, Write, Placed, Read;
    var p := DataStart(h, maxn) + |d|;
    WritePlaces(data, p, b);
    PlacedLength(data, p, b);
    ReadBeside(data, p, b, 0, h);
    ReadBeside(data, p, b, h + 2, 2 * |ws|);
    ReadBeside(data, p, b, DataStart(h, maxn), |d|);
    ReadWritten(data, p, b);
    ReadSplit(Placed(data, p, b), DataStart(h, maxn), |d|, |b|);
  }

  lemma LayoutWord(data: seq<byte>, pre: seq<byte>, h: nat, maxn: nat, ws: seq<nat>, d: seq<byte>, w: nat)
    requires Layout(data, pre, h, maxn, ws, d) && |ws| < maxn
    ensures Layout(Write(data, h + 2 + 2 * |ws|, LE(w, 2)), pre, h, maxn, ws + [w], d)
  {
    hide Write, Placed, Read, LE;
    var p, b := h + 2 + 2 * |ws|, LE(w, 2);
    var r := Write(data, p, b);
    ReadBeside(data, p, b, 0, h);
    ReadBeside(data, p, b, h + 2, 2 * |ws|);
    ReadBeside(data, p, b, DataStart(h, maxn), |d|);
    ReadWritten(data, p, b);
    ReadSplit(r, h + 2, 2 * |ws|, 2);
    assert (ws + [w])[..|ws|] == ws;
    hide WordBytes;
  }

  /** The records for one field: one for the tags passed over, if any, and its own. */
  method PutRecord(buf: ByteBuffer, h: nat, index: nat, lasttag: int, tag: nat, value: nat,
                   ghost pre: seq<byte>, ghost maxn: nat, ghost ws: seq<nat>, ghost d: seq<byte>)
    returns (next: nat)
    requires -1 <= lasttag < tag && index == |ws| && Layout(buf.data, pre, h, maxn, ws, d)
    requires |ws| + |TagWords(lasttag, tag, value)| <= maxn
    modifies buf
    ensures Layout(buf.data, pre, h, maxn, ws + TagWords(lasttag, tag, value), d)
    ensures next == |ws + TagWords(lasttag, tag, value)|
  {
    hide Layout, LE, Write;
    next := index;
    var recordIdx := h + 2 + 2 * next;
    var skip := tag - lasttag - 1;
    if skip > 0 {
      skip := (skip - 1) * 2 + 1;
      LayoutWord(buf.data, pre, h, maxn, ws, d, skip);
      PutLE(buf, recordIdx, skip, 2);
      next := next + 1;
      recordIdx := recordIdx + 2;
      LayoutWord(buf.data, pre, h, maxn, ws + [skip], d, value);
      assert ws + [skip] + [value] == ws + TagWords(lasttag, tag, value);
    } else {
      LayoutWord(buf.data, pre, h, maxn, ws, d, value);
    }
    next := next + 1;
    PutLE(buf, recordIdx, value, 2);
  }

  // ---------------------------------------------------------------- compaction

  /** `buffer.slice(from, to)` */
  function Slice(s: seq<byte>, from: nat, to: nat): seq<byte>
    requires from <= to
  {
    s[if from < |s| then from else |s|..if to < |s| then to else |s|]
  }

  lemma ReadCut(s: seq<byte>, m: nat, p: nat, n: nat)
    requires m <= |s| && p + n <= m
    ensures Read(s[..m], p, n) == Read(s, p, n)
  {
  }

  lemma SliceReads(s: seq<byte>, p: nat, d: seq<byte>)
    requires Read(s, p, |d|) == d && (d != [] ==> |s| == p + |d|)
    ensures Slice(s, p, p + |d|) == d
  {
    if d != [] {
      forall k | 0 <= k < |d| ensures s[p..p + |d|][k] == d[k] {
        assert Read(s, p, |d|)[k] == d[k];
      }
    }
  }

  /** Header count, records and data side by side are the struct. */
  lemma AssembledReads(r: seq<byte>, pre: seq<byte>, h: nat, ws: seq<nat>, d: seq<byte>)
    requires |pre| <= h && |r| == h + 2 + 2 * |ws| + |d|
    requires Read(r, 0, h) == Read(pre, 0, h) && Read(r, h, 2) == LE(|ws|, 2)
    requires Read(r, h + 2, 2 * |ws|) == WordBytes(ws) && Read(r, h + 2 + 2 * |ws|, |d|) == d
    ensures r == Placed(pre, h, Assembled(Parts(ws, d)))
  {
    hide Read, LE, WordBytes, Placed;
    var b := Assembled(Parts(ws, d));
    ReadSplit(r, h, 2, 2 * |ws|);
    ReadSplit(r, h, 2 + 2 * |ws|, |d|);
    assert |b| == 2 + 2 * |ws| + |d|;
    PlacedFromReads(r, pre, h, b);
  }

  lemma CountedReads(data: seq<byte>, pre: seq<byte>, h: nat, maxn: nat, ws: seq<nat>, d: seq<byte>)
    requires Layout(data, pre, h, maxn, ws, d)
    ensures var r := Write(data, h, LE(|ws|, 2));
            && Read(r, 0, h) == Read(pre, 0, h) && Read(r, h, 2) == LE(|ws|, 2)
            && Read(r, h + 2, 2 * |ws|) == WordBytes(ws) && Read(r, DataStart(h, maxn), |d|) == d
            && h + 2 + 2 * |ws| <= |r| <= DataStart(h, maxn) + |d|
            && (d != [] ==> |r| == DataStart(h, maxn) + |d|)
  {
    hide Read, LE, WordBytes, Write;
    var b := LE(|ws|, 2);
    ReadBeside(data, h, b, 0, h);
    ReadBeside(data, h, b, h + 2, 2 * |ws|);
    ReadBeside(data, h, b, DataStart(h, maxn), |d|);
    ReadWritten(data, h, b);
  }

  /** The end of `sprotoEncode`: the count, then the data moves up unless all reserved records were used. */
  method Finish(buf: ByteBuffer, h: nat, maxn: nat, index: nat, dataEnd: nat,
                ghost pre: seq<byte>, ghost ws: seq<nat>, ghost d: seq<byte>)
    returns (r: nat)
    requires |pre| <= h && index == |ws| && dataEnd == DataStart(h, maxn) + |d|
    requires Layout(buf.data, pre, h, maxn, ws, d)
    modifies buf
    ensures buf.data == Placed(pre, h, Assembled(Parts(ws, d))) && r == |Assembled(Parts(ws, d))|
  {
    hide Read, LE, WordBytes, Write, Placed;
    CountedReads(buf.data, pre, h, maxn, ws, d);
    PutLE(buf, h, index, 2);
    var datasz := dataEnd - DataStart(h, maxn);
    r := 2 + index * 2 + datasz;
    if index == maxn {
      AssembledReads(buf.data, pre, h, ws, d);
      return;
    }
    var v := Slice(buf.data, DataStart(h, maxn), DataStart(h, maxn) + datasz);
    ghost var s := buf.data;
    SliceReads(s, DataStart(h, maxn), d);
    assert v == d;
    var t := h + 2 + index * 2;
    PutBytes(buf, t, v);
    ReadBeside(s, t, v, 0, h);
    ReadBeside(s, t, v, h, 2);
    ReadBeside(s, t, v, h + 2, 2 * |ws|);
    ReadWritten(s, t, v);
    assert |buf.data| >= t + |v|;
    ghost var w := buf.data;
    buf.data := buf.data[..t + |v|];
    ReadCut(w, t + |v|, 0, h);
    ReadCut(w, t + |v|, h, 2);
    ReadCut(w, t + |v|, h + 2, 2 * |ws|);
    ReadCut(w, t + |v|, t, |v|);
    AssembledReads(buf.data, pre, h, ws, d);
  }

  /** Bytes stored one after the other from `i` on. */
  method PutBytes(buf: ByteBuffer, i: nat, bs: seq<byte>)
    modifies buf
    ensures buf.data == Write(old(buf.data), i, bs)
  {
    hide Write;
    NothingWritten(buf.data, i);
    var k := 0;
    while k < |bs|
      invariant 0 <= k <= |bs|
      invariant buf.data == Write(old(buf.data), i, bs[..k])
    {
      WriteNext(old(buf.data), i, bs, k);
      buf.Put(i + k, bs[k]);
      k := k + 1;
    }
    assert bs[..|bs|] == bs;
  }
}
