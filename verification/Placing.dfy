/** Writing at or behind the end of a buffer, the way the encoder does: content first, its size in front of it later. */
module Placing {
  import opened Bytes

  /** `s` with a gap up to `i`. */
  function Pad(s: seq<byte>, i: nat): (r: seq<byte>)
    requires |s| <= i
    ensures |r| == i
    ensures forall k :: 0 <= k < i ==> r[k] == At(s, k)
  {
    s + Zeros(i - |s|)
  }

  /** `b` placed at `i`: no gap is made for nothing. */
  function Placed(s: seq<byte>, i: nat, b: seq<byte>): (r: seq<byte>)
    requires |s| <= i
    ensures |r| <= i + |b| && (b != [] ==> |r| == i + |b|)
  {
    if b == [] then s else Pad(s, i) + b
  }

  lemma PlacedAt(s: seq<byte>, i: nat, b: seq<byte>, k: nat)
    requires |s| <= i
    ensures At(Placed(s, i, b), k) == if i <= k < i + |b| then b[k - i] else At(s, k)
  {
  }

  /** The buffer is `Placed(s, i, b)` when it has that length and those bytes. */
  lemma IsPlaced(r: seq<byte>, s: seq<byte>, i: nat, b: seq<byte>)
    requires |s| <= i && b != [] && |r| == i + |b|
    requires forall k :: 0 <= k < i ==> At(r, k) == At(s, k)
    requires forall k :: 0 <= k < |b| ==> At(r, i + k) == b[k]
    ensures r == Placed(s, i, b)
  {
    forall k | 0 <= k < |r| ensures r[k] == Placed(s, i, b)[k] {
      assert r[k] == At(r, k);
      if k >= i {
        assert At(r, i + (k - i)) == b[k - i];
      }
    }
  }

  lemma WritePlaces(s: seq<byte>, i: nat, b: seq<byte>)
    requires |s| <= i
    ensures Write(s, i, b) == Placed(s, i, b)
  {
    hide Write, Placed;
    if b == [] {
      NothingPlaced(s, i);
    } else {
      var r := Write(s, i, b);
      forall k: nat | k < i + |b| ensures At(r, k) == if i <= k then b[k - i] else At(s, k) {
        WriteAt(s, i, b, k);
      }
      IsPlaced(r, s, i, b);
    }
  }

  lemma NothingPlaced(s: seq<byte>, i: nat)
    requires |s| <= i
    ensures Write(s, i, []) == s && Placed(s, i, []) == s
  {
  }

  lemma PlacedNext(s: seq<byte>, i: nat, a: seq<byte>, b: seq<byte>)
    requires |s| <= i
    ensures Placed(Placed(s, i, a), i + |a|, b) == Placed(s, i, a + b)
  {
    if a == [] {
      assert a + b == b;
    } else if b == [] {
      assert a + b == a;
    } else {
      assert Pad(Placed(s, i, a), i + |a|) == Placed(s, i, a);
      Assoc(Pad(s, i), a, b);
    }
  }

  /** The content `b` first, then `a` in front of it. */
  lemma WriteBack(s: seq<byte>, i: nat, a: seq<byte>, b: seq<byte>)
    requires |s| <= i && a != []
    ensures Write(Placed(s, i + |a|, b), i, a) == Placed(s, i, a + b)
  {
    hide Write, Placed;
    var t := Placed(s, i + |a|, b);
    var r := Write(t, i, a);
    forall k: nat | k < i + |a + b| ensures At(r, k) == if i <= k then (a + b)[k - i] else At(s, k) {
      WriteAt(t, i, a, k);
      PlacedAt(s, i + |a|, b, k);
    }
    PlacedLength(s, i + |a|, b);
    IsPlaced(r, s, i, a + b);
  }

  lemma PlacedLength(s: seq<byte>, i: nat, b: seq<byte>)
    requires |s| <= i
    ensures |Placed(s, i, b)| == if b == [] then |s| else i + |b|
  {
  }

  // ---------------------------------------------------------------- reading

  function Read(s: seq<byte>, p: nat, n: nat): (r: seq<byte>)
    ensures |r| == n
    ensures forall k :: 0 <= k < n ==> r[k] == At(s, p + k)
  {
    seq(n, k requires 0 <= k < n => At(s, p + k))
  }

  lemma ReadWritten(s: seq<byte>, i: nat, b: seq<byte>)
    ensures Read(Write(s, i, b), i, |b|) == b
  {
    forall k | 0 <= k < |b| ensures At(Write(s, i, b), i + k) == b[k] {
      WriteAt(s, i, b, i + k);
    }
  }

  lemma ReadBeside(s: seq<byte>, i: nat, b: seq<byte>, p: nat, n: nat)
    requires p + n <= i || i + |b| <= p
    ensures Read(Write(s, i, b), p, n) == Read(s, p, n)
  {
    hide Write;
    var x, y := Read(Write(s, i, b), p, n), Read(s, p, n);
    forall k | 0 <= k < n ensures x[k] == y[k] {
      WriteAt(s, i, b, p + k);
    }
    Extensional(x, y);
  }

  lemma ReadSplit(s: seq<byte>, p: nat, m: nat, n: nat)
    ensures Read(s, p, m + n) == Read(s, p, m) + Read(s, p + m, n)
  {
  }

  lemma ReadPlaced(s: seq<byte>, i: nat, b: seq<byte>)
    requires |s| <= i
    ensures Read(Placed(s, i, b), i, |b|) == b && Read(Placed(s, i, b), 0, i) == Read(s, 0, i)
  {
  }

  lemma PlacedFromReads(r: seq<byte>, s: seq<byte>, i: nat, b: seq<byte>)
    requires |s| <= i && b != [] && |r| == i + |b|
    requires Read(r, 0, i) == Read(s, 0, i) && Read(r, i, |b|) == b
    ensures r == Placed(s, i, b)
  {
    hide Placed;
    forall k: nat | k < i ensures At(r, k) == At(s, k) {
      assert Read(r, 0, i)[k] == Read(s, 0, i)[k];
    }
    forall k {:trigger b[k]} | 0 <= k < |b| ensures At(r, i + k) == b[k] {
      assert Read(r, i, |b|)[k] == b[k];
    }
    IsPlaced(r, s, i, b);
  }
}
