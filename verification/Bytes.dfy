/** Bytes, growable byte buffers and little-endian words, shared by the codec modules. */
module Bytes {
  newtype byte = b: int | 0 <= b < 256

  function Zeros(n: nat): (z: seq<byte>)
    ensures |z| == n
    ensures forall k :: 0 <= k < n ==> z[k] == 0
  {
    seq(n, _ => 0)
  }

  /** `s[k]`, where a read past the end gives 0: the source's `undefined` is coerced to 0 by `Uint8Array.from`. */
  function At(s: seq<byte>, k: nat): byte {
    if k < |s| then s[k] else 0
  }

  /** `s[i] = v` on a JavaScript array: a store past the end leaves a gap, which reads as 0. */
  function Store(s: seq<byte>, i: nat, v: byte): (r: seq<byte>)
    ensures |r| == if i < |s| then |s| else i + 1
  {
    if i < |s| then s[i := v] else s + Zeros(i - |s|) + [v]
  }

  /** The consecutive stores of `bs` at `i`, `i + 1`, and so on. */
  function Write(s: seq<byte>, i: nat, bs: seq<byte>): (r: seq<byte>)
    ensures bs != [] ==> |r| == if i + |bs| < |s| then |s| else i + |bs|
    ensures bs == [] ==> r == s
    decreases |bs|
  {
    if bs == [] then s else
      var w := Write(s, i, bs[..|bs| - 1]);
      Store(w, i + |bs| - 1, bs[|bs| - 1])
  }

  lemma {:induction false} WriteAt(s: seq<byte>, i: nat, bs: seq<byte>, k: nat)
    ensures At(Write(s, i, bs), k) == if i <= k < i + |bs| then bs[k - i] else At(s, k)
    decreases |bs|
  {
    if bs != [] {
      WriteAt(s, i, bs[..|bs| - 1], k);
    }
  }

  lemma WriteSnoc(s: seq<byte>, i: nat, bs: seq<byte>, v: byte)
    ensures Write(s, i, bs + [v]) == Store(Write(s, i, bs), i + |bs|, v)
  {
    assert (bs + [v])[..|bs|] == bs;
  }

  lemma WriteNext(s: seq<byte>, i: nat, bs: seq<byte>, k: nat)
    requires k < |bs|
    ensures Write(s, i, bs[..k + 1]) == Store(Write(s, i, bs[..k]), i + k, bs[k])
  {
    assert bs[..k + 1] == bs[..k] + [bs[k]];
    WriteSnoc(s, i, bs[..k], bs[k]);
  }

  /** A byte string is determined by its length and its bytes. */
  lemma Extensional(a: seq<byte>, b: seq<byte>)
    requires |a| == |b| && forall k :: 0 <= k < |a| ==> a[k] == b[k]
    ensures a == b
  {
  }

  lemma Assoc<T>(a: seq<T>, b: seq<T>, c: seq<T>)
    ensures a + b + c == a + (b + c)
  {
  }

  /** The buffer that the encoder and the packer write in place. */
  class ByteBuffer {
    var data: seq<byte>

    constructor ()
      ensures data == []
    {
      data := [];
    }

    method Put(i: nat, v: byte)
      modifies this
      ensures data == Store(old(data), i, v)
    {
      data := Store(data, i, v);
    }

    method Append(v: byte)
      modifies this
      ensures data == old(data) + [v]
    {
      data := data + [v];
    }
  }
}
