/** Decoding what was encoded: every typed value comes back, whatever follows it. */
module SprotoRoundTrip {
  import opened Bytes
  import opened Options
  import opened Places
  import opened Words
  import opened Schema
  import opened SprotoSpec

  // ---------------------------------------------------------------- what comes back

  /** Arrays end at their first null and missing arrays become empty; fields the schema does not have are dropped. */
  function Norm(s: seq<Type>, kind: Kind, v: Value): Value
    requires SchemaOk(s) && Typed(s, kind, v)
    decreases v, 3
  {
    if kind.TStruct? then VStruct(NormFields(s, kind.tid, v, 0, map[])) else v
  }

  function NormElems(s: seq<Type>, f: Field, v: Value, n: nat): (es: seq<Option<Value>>)
    requires SchemaOk(s) && f.isArray && TypedField(s, f, v) && n <= |Prefix(v.es)|
    ensures |es| == n
    decreases v, 0, n
  {
    if n == 0 then [] else NormElems(s, f, v, n - 1) + [Some(Norm(s, f.kind, v.es[n - 1].value))]
  }

  /** What the decoder stores for a field, if anything. */
  function NormField(s: seq<Type>, f: Field, v: Value): Option<Value>
    requires SchemaOk(s) && v.VStruct? && (f.name in v.m ==> TypedField(s, f, v.m[f.name]))
    decreases v, 1
  {
    if f.name !in v.m then (if f.isArray then Some(VArray([])) else None)
    else if f.isArray then Some(VArray(NormElems(s, f, v.m[f.name], |Prefix(v.m[f.name].es)|)))
    else Some(Norm(s, f.kind, v.m[f.name]))
  }

  /** `acc` and the fields from `k` on. */
  function NormFields(s: seq<Type>, tid: nat, v: Value, k: nat, acc: map<string, Value>): map<string, Value>
    requires SchemaOk(s) && tid < |s| && Typed(s, TStruct(tid), v) && k <= |s[tid].fields|
    decreases v, 2, |s[tid].fields| - k
  {
    if k == |s[tid].fields| then acc
    else
      var f := s[tid].fields[k];
      var x := NormField(s, f, v);
      NormFields(s, tid, v, k + 1, if x.Some? then acc[f.name := x.value] else acc)
  }

  // ---------------------------------------------------------------- fields

  /** A value in a header word is an even, nonzero 16-bit word that decodes to the value. */
  lemma InlineRoundTrip(s: seq<Type>, f: Field, v: Value, deep: nat)
    requires SchemaOk(s) && v.VStruct? && (f.name in v.m ==> TypedField(s, f, v.m[f.name]))
    requires EncField(s, f, v, deep).Some? && EncField(s, f, v, deep).value.Inline?
    ensures var w := EncField(s, f, v, deep).value.word;
            && 2 <= w < 0x1_0000 && w % 2 == 0
            && NormField(s, f, v).Some? && DecInline(f, w / 2 - 1, deep) == Got(NormField(s, f, v).value)
  {
    var x := v.m[f.name];
    assert EncField(s, f, v, deep) == EncScalar(s, f.kind, x, deep);
    if f.kind.TInteger? {
      assert EncInt(x.i).Inline?;
    } else {
      assert f.kind.TBoolean?;
    }
  }

  lemma IntsSplit(vs: seq<Value>, n: nat, w: nat, d: seq<byte>, p: nat, q: nat)
    requires AllInts(vs) && 0 < n <= |vs| && q == p + (n - 1) * w && q + w <= |d|
    requires q + w == p + n * w && d[p..q + w] == IntWords(vs, n, w)
    ensures d[p..q] == IntWords(vs, n - 1, w) && d[q..q + w] == LE(vs[n - 1].i, w)
  {
    hide LE;
    assert d[p..q + w] == d[p..q] + d[q..q + w];
    Halves(d[p..q], d[q..q + w], IntWords(vs, n - 1, w), LE(vs[n - 1].i, w));
  }

  lemma {:induction false} IntsRoundTrip(vs: seq<Value>, n: nat, w: nat, d: seq<byte>, p: nat)
    requires AllInts(vs) && n <= |vs| && (w == 4 || w == 8)
    requires w == 4 ==> forall i :: 0 <= i < |vs| ==> IsInt32(vs[i].i)
    requires p + n * w <= |d| && d[p..p + n * w] == IntWords(vs, n, w)
    ensures |DecInts(d, p, n, w)| == n && forall i :: 0 <= i < n ==> DecInts(d, p, n, w)[i] == Some(vs[i])
  {
    hide LE, Word, IntWords;
    if n > 0 {
      var q := p + (n - 1) * w;
      assert q + w == p + n * w by { if w == 4 { } else { } }
      IntsSplit(vs, n, w, d, p, q);
      IntsRoundTrip(vs, n - 1, w, d, p);
      if w == 4 { ReadDword(d, q, vs[n - 1].i); } else { ReadQword(d, q, vs[n - 1].i); }
    }
  }

  lemma Halves(a: seq<byte>, b: seq<byte>, x: seq<byte>, y: seq<byte>)
    requires a + b == x + y && |a| == |x|
    ensures a == x && b == y
  {
    assert a == (a + b)[..|a|] && x == (x + y)[..|a|];
    assert b == (a + b)[|a|..] && y == (x + y)[|a|..];
  }

  /** `encodeIntegerArray` and `decodeArray` agree on every sequence of int64 values, whatever their width. */
  lemma IntArrayRoundTrip(vs: seq<Value>, d: seq<byte>, p: nat, deep: nat)
    requires AllInts(vs) && vs != [] && deep < DEEP_LEVEL
    requires p + |EncInts(vs)| <= |d| && d[p..p + |EncInts(vs)|] == EncInts(vs)
    ensures var got := DecIntArray(d, p, |EncInts(vs)|, deep);
            && got.Got? && got.value.VArray? && |got.value.es| == |vs|
            && forall i :: 0 <= i < |vs| ==> got.value.es[i] == Some(vs[i])
  {
    hide LE, Word, IntWords, DecInts;
    var w, b := Width(vs), EncInts(vs);
    var body := |vs| * w;
    assert |b| == 1 + body && b[1..] == IntWords(vs, |vs|, w) && b[0] == w as byte;
    assert d[p] == d[p..p + |b|][0];
    assert d[p + 1..p + 1 + body] == d[p..p + |b|][1..];
    assert body > 0 && body % w == 0 && body / w == |vs| by { if w == 4 { } else { assert w == 8; } }
    IntsRoundTrip(vs, |vs|, w, d, p + 1);
  }

  // ---------------------------------------------------------------- header records

  lemma {:induction false} RecordsBound(fields: seq<Field>, types: nat, k: nat)
    requires FieldsOk(fields, types) && k <= |fields|
    ensures Records(fields, k) <= TagBefore(fields, k) + 1
  {
    if k > 0 {
      RecordsBound(fields, types, k - 1);
    }
  }

  /** The records written never exceed the space reserved for them. */
  lemma {:induction false} WordsFit(s: seq<Type>, tid: nat, v: Value, deep: nat, k: nat, lasttag: int)
    requires SchemaOk(s) && tid < |s| && Typed(s, TStruct(tid), v)
    requires k <= |s[tid].fields| && -1 <= lasttag <= TagBefore(s[tid].fields, k)
    requires EncFields(s, tid, v, deep, k, lasttag).Some?
    ensures var t := s[tid];
            |EncFields(s, tid, v, deep, k, lasttag).value.words| <=
              t.maxn - Records(t.fields, k) + (if lasttag < TagBefore(t.fields, k) then 1 else 0)
    ensures forall j :: 0 <= j < |EncFields(s, tid, v, deep, k, lasttag).value.words| ==>
              EncFields(s, tid, v, deep, k, lasttag).value.words[j] < 0x1_0000
    decreases |s[tid].fields| - k
  {
    var t := s[tid];
    if k < |t.fields| {
      var f := t.fields[k];
      var slot := EncField(s, f, v, deep).value;
      WordsFit(s, tid, v, deep, k + 1, if slot.Absent? then lasttag else f.tag);
      if slot.Inline? { InlineRoundTrip(s, f, v, deep); }
    }
  }

  lemma StructWordsFit(s: seq<Type>, tid: nat, v: Value, deep: nat)
    requires SchemaOk(s) && tid < |s| && Typed(s, TStruct(tid), v)
    requires EncFields(s, tid, v, deep, 0, -1).Some?
    ensures var ws := EncFields(s, tid, v, deep, 0, -1).value.words;
            |ws| <= s[tid].maxn < 0x1_0000 && forall j :: 0 <= j < |ws| ==> ws[j] < 0x1_0000
  {
    WordsFit(s, tid, v, deep, 0, -1);
    RecordsBound(s[tid].fields, |s|, |s[tid].fields|);
  }

  lemma {:induction false} WordBytesAt(ws: seq<nat>, j: nat)
    requires j < |ws|
    ensures WordBytes(ws)[2 * j..2 * j + 2] == LE(ws[j], 2)
  {
    var n := |ws| - 1;
    var b := WordBytes(ws[..n]);
    if j < n {
      WordBytesAt(ws[..n], j);
      assert (b + LE(ws[n], 2))[2 * j..2 * j + 2] == b[2 * j..2 * j + 2];
    }
  }

  // ---------------------------------------------------------------- the round trip

  lemma SizedAt(d: seq<byte>, p: nat, b: seq<byte>)
    requires StandsAt(d, p, Sized(b)) && |b| < TWO_32
    ensures p + 4 + |b| <= |d| && Word(d, p, 4) == |b| && StandsAt(d, p + 4, b)
  {
    SplitAt(d, p, LE(|b|, 4), b);
    ReadDword(d, p, |b|);
  }

  lemma {:induction false} NormElemsOfPlain(s: seq<Type>, f: Field, v: Value, n: nat)
    requires SchemaOk(s) && f.isArray && TypedField(s, f, v) && n <= |Prefix(v.es)| && !f.kind.TStruct?
    ensures NormElems(s, f, v, n) == seq(n, i requires 0 <= i < n => v.es[i])
  {
    hide Prefix;
    if n > 0 {
      NormElemsOfPlain(s, f, v, n - 1);
    }
  }

  lemma IntegerArrayRoundTrip(s: seq<Type>, f: Field, v: Value, deep: nat, d: seq<byte>, p: nat)
    requires SchemaOk(s) && f.isArray && TypedField(s, f, v) && deep < DEEP_LEVEL && f.kind.TInteger?
    requires StandsAt(d, p, EncArray(s, f, v, deep).value)
    ensures DecData(s, f, d, p, |EncArray(s, f, v, deep).value|, deep)
            == Got(VArray(NormElems(s, f, v, |Prefix(v.es)|)))
  {
    hide LE, Word, IntWords, DecInts, Width, NormElems, DecIntArray, Pow256, IsInt32;
    var vs := Prefix(v.es);
    NormElemsOfPlain(s, f, v, |vs|);
    if vs != [] {
      IntArrayRoundTrip(vs, d, p, deep);
      assert DecIntArray(d, p, |EncInts(vs)|, deep).value.es == NormElems(s, f, v, |vs|);
    }
  }

  lemma BoolsRoundTrip(vs: seq<Value>, d: seq<byte>, p: nat, i: nat)
    requires forall j :: 0 <= j < |vs| ==> vs[j].VBool?
    requires StandsAt(d, p, EncBools(vs)) && i < |vs|
    ensures DecBools(d, p, |vs|)[i] == Some(vs[i])
  {
    var b := EncBools(vs);
    assert d[p + i] == d[p..p + |b|][i] == b[i] == if vs[i].b then 1 else 0;
    assert DecBools(d, p, |vs|)[i] == DecBool(d[p + i] as int);
    assert vs[i] == VBool(vs[i].b);
  }

  lemma BooleanArrayRoundTrip(s: seq<Type>, f: Field, v: Value, deep: nat, d: seq<byte>, p: nat)
    requires SchemaOk(s) && f.isArray && TypedField(s, f, v) && deep < DEEP_LEVEL && f.kind.TBoolean?
    requires StandsAt(d, p, EncArray(s, f, v, deep).value)
    ensures DecData(s, f, d, p, |EncArray(s, f, v, deep).value|, deep)
            == Got(VArray(NormElems(s, f, v, |Prefix(v.es)|)))
  {
    hide NormElems, DecBool, EncBools, StandsAt;
    var vs := Prefix(v.es);
    NormElemsOfPlain(s, f, v, |vs|);
    assert forall i :: 0 <= i < |vs| ==> v.es[i].Some? && Typed(s, f.kind, vs[i]);
    assert p + |vs| <= |d| && DecBools(d, p, |vs|) == NormElems(s, f, v, |vs|) by {
      PlaceFits(d, p, EncBools(vs));
      forall i | 0 <= i < |vs| ensures DecBools(d, p, |vs|)[i] == v.es[i] {
        BoolsRoundTrip(vs, d, p, i);
      }
    }
  }

  lemma {:induction false} ElemRoundTrip(s: seq<Type>, kind: Kind, v: Value, deep: nat, d: seq<byte>, p: nat)
    requires SchemaOk(s) && Typed(s, kind, v) && deep < DEEP_LEVEL && (kind.TString? || kind.TStruct?)
    requires EncElem(s, kind, v, deep).Some? && StandsAt(d, p, EncElem(s, kind, v, deep).value)
    requires |EncElem(s, kind, v, deep).value| < TWO_32
    ensures DecElem(s, kind, d, p, |EncElem(s, kind, v, deep).value|, deep) == Got(Norm(s, kind, v))
    decreases v, 4
  {
    hide DecStruct, EncStruct, NormFields;
    if kind.TStruct? {
      StructRoundTrip(s, kind.tid, v, deep + 1, d, p, |EncElem(s, kind, v, deep).value|);
    }
  }

  lemma EncElemsStep(s: seq<Type>, f: Field, v: Value, i: nat, deep: nat)
    requires SchemaOk(s) && f.isArray && TypedField(s, f, v) && (f.kind.TString? || f.kind.TStruct?)
    requires i <= |Prefix(v.es)| && EncElems(s, f, v, i, deep).Some?
    ensures i == |Prefix(v.es)| ==> EncElems(s, f, v, i, deep) == Some([])
    ensures i < |Prefix(v.es)| ==>
              && EncElem(s, f.kind, v.es[i].value, deep).Some? && EncElems(s, f, v, i + 1, deep).Some?
              && EncElems(s, f, v, i, deep).value
                 == Sized(EncElem(s, f.kind, v.es[i].value, deep).value) + EncElems(s, f, v, i + 1, deep).value
  {
  }

  lemma DecElemsStep(s: seq<Type>, kind: Kind, d: seq<byte>, p: nat, sz: nat, deep: nat, es: seq<Option<Value>>, h: nat)
    requires SchemaOk(s) && (kind.TString? || (kind.TStruct? && kind.tid < |s|)) && p + sz <= |d|
    requires sz >= 4 + h && Word(d, p, 4) == h && DecElem(s, kind, d, p + 4, h, deep).Got?
    ensures DecElems(s, kind, d, p, sz, deep, es)
            == DecElems(s, kind, d, p + 4 + h, sz - 4 - h, deep, es + [Some(DecElem(s, kind, d, p + 4, h, deep).value)])
  {
  }

  /** Arrays of strings and structs, from element `i` on. */
  lemma {:induction false} ElemsRoundTrip(s: seq<Type>, f: Field, v: Value, i: nat, deep: nat, d: seq<byte>, p: nat)
    requires SchemaOk(s) && f.isArray && TypedField(s, f, v) && (f.kind.TString? || f.kind.TStruct?)
    requires f.kind.TStruct? ==> f.kind.tid < |s|
    requires i <= |Prefix(v.es)| && deep < DEEP_LEVEL
    requires EncElems(s, f, v, i, deep).Some? && StandsAt(d, p, EncElems(s, f, v, i, deep).value)
    requires |EncElems(s, f, v, i, deep).value| < TWO_32
    ensures DecElems(s, f.kind, d, p, |EncElems(s, f, v, i, deep).value|, deep, NormElems(s, f, v, i))
            == Got(VArray(NormElems(s, f, v, |Prefix(v.es)|)))
    decreases v, 0, |v.es| - i
  {
    hide EncElems, EncElem, DecElem, LE, Word, Norm, StandsAt, Width, Pow256;
    EncElemsStep(s, f, v, i, deep);
    PlaceFits(d, p, EncElems(s, f, v, i, deep).value);
    if i < |Prefix(v.es)| {
      var b, rest := EncElem(s, f.kind, v.es[i].value, deep).value, EncElems(s, f, v, i + 1, deep).value;
      SplitAt(d, p, Sized(b), rest);
      SizedAt(d, p, b);
      hide DecElems;
      ElemRoundTrip(s, f.kind, v.es[i].value, deep, d, p + 4);
      DecElemsStep(s, f.kind, d, p, |Sized(b) + rest|, deep, NormElems(s, f, v, i), |b|);
      ElemsRoundTrip(s, f, v, i + 1, deep, d, p + 4 + |b|);
    }
  }

  /** A field with data decodes to its normal form. */
  lemma {:induction false} DataRoundTrip(s: seq<Type>, f: Field, v: Value, deep: nat, d: seq<byte>, p: nat)
    requires SchemaOk(s) && v.VStruct? && (f.name in v.m ==> TypedField(s, f, v.m[f.name]))
    requires f.kind.TStruct? ==> f.kind.tid < |s|
    requires EncField(s, f, v, deep).Some? && EncField(s, f, v, deep).value.Data?
    requires var b := EncField(s, f, v, deep).value.bytes; StandsAt(d, p, b) && |b| < TWO_32
    ensures var b := EncField(s, f, v, deep).value.bytes;
            && |b| >= 4 && Word(d, p, 4) == |b| - 4
            && NormField(s, f, v).Some? && DecData(s, f, d, p + 4, |b| - 4, deep) == Got(NormField(s, f, v).value)
    decreases v, 1
  {
    hide EncElems, EncElem, DecElem, DecElems, LE, Word, Norm, EncInts, EncBools, DecIntArray, DecBools;
    if f.name !in v.m {
      SizedAt(d, p, []);
    } else if f.isArray {
      var x := v.m[f.name];
      var b := EncArray(s, f, x, deep).value;
      SizedAt(d, p, b);
      if f.kind.TInteger? {
        IntegerArrayRoundTrip(s, f, x, deep, d, p + 4);
      } else if f.kind.TBoolean? {
        BooleanArrayRoundTrip(s, f, x, deep, d, p + 4);
      } else {
        ElemsRoundTrip(s, f, x, 0, deep, d, p + 4);
        EncElemsStep(s, f, x, 0, deep);
      }
    } else {
      ScalarRoundTrip(s, f, v.m[f.name], deep, d, p);
    }
  }

  lemma SmallIntRoundTrip(i: int, d: seq<byte>, p: nat)
    requires IsInt32(i) && StandsAt(d, p, Sized(LE(i % TWO_32, 4)))
    ensures Word(d, p, 4) == 4 && p + 8 <= |d| && Signed32(Word(d, p + 4, 4)) == i
  {
    hide LE, Word;
    SizedAt(d, p, LE(i % TWO_32, 4));
    Widths();
    WordOfLE(d, p + 4, i % TWO_32, 4);
  }

  lemma BigIntRoundTrip(i: int, d: seq<byte>, p: nat)
    requires IsInt64(i) && StandsAt(d, p, Sized(LE(i, 8)))
    ensures Word(d, p, 4) == 8 && p + 12 <= |d| && Signed64(Word(d, p + 4, 8)) == i
  {
    hide LE, Word;
    SizedAt(d, p, LE(i, 8));
    ReadQword(d, p + 4, i);
  }

  lemma {:induction false} ScalarRoundTrip(s: seq<Type>, f: Field, x: Value, deep: nat, d: seq<byte>, p: nat)
    requires SchemaOk(s) && TypedField(s, f, x) && !f.isArray && deep < DEEP_LEVEL
    requires f.kind.TStruct? ==> f.kind.tid < |s|
    requires EncScalar(s, f.kind, x, deep).Some? && EncScalar(s, f.kind, x, deep).value.Data?
    requires var b := EncScalar(s, f.kind, x, deep).value.bytes; StandsAt(d, p, b) && |b| < TWO_32
    ensures var b := EncScalar(s, f.kind, x, deep).value.bytes;
            && |b| >= 4 && Word(d, p, 4) == |b| - 4
            && DecData(s, f, d, p + 4, |b| - 4, deep) == Got(Norm(s, f.kind, x))
    decreases x, 5
  {
    hide EncElem, DecElem, LE, Word, NormFields;
    if f.kind.TInteger? {
      if IsInt32(x.i) { SmallIntRoundTrip(x.i, d, p); } else { BigIntRoundTrip(x.i, d, p); }
    } else {
      var b := EncElem(s, f.kind, x, deep).value;
      SizedAt(d, p, b);
      ElemRoundTrip(s, f.kind, x, deep, d, p + 4);
    }
  }

  // Unfolding the encoder and the decoder by one field.

  lemma EncFieldsStep(s: seq<Type>, tid: nat, v: Value, deep: nat, k: nat, lasttag: int)
    requires SchemaOk(s) && tid < |s| && Typed(s, TStruct(tid), v)
    requires k < |s[tid].fields| && -1 <= lasttag <= TagBefore(s[tid].fields, k)
    requires EncFields(s, tid, v, deep, k, lasttag).Some?
    ensures var f := s[tid].fields[k];
            && EncField(s, f, v, deep).Some? && lasttag < f.tag
            && var slot := EncField(s, f, v, deep).value;
               if slot.Absent? then EncFields(s, tid, v, deep, k + 1, lasttag) == EncFields(s, tid, v, deep, k, lasttag)
               else
                 && EncFields(s, tid, v, deep, k + 1, f.tag).Some?
                 && var parts, rest := EncFields(s, tid, v, deep, k, lasttag).value, EncFields(s, tid, v, deep, k + 1, f.tag).value;
                    && parts.words == TagWords(lasttag, f.tag, if slot.Inline? then slot.word else 0) + rest.words
                    && parts.data == (if slot.Data? then slot.bytes else []) + rest.data
  {
  }

  lemma AbsentIsNothing(s: seq<Type>, f: Field, v: Value, deep: nat)
    requires SchemaOk(s) && v.VStruct? && (f.name in v.m ==> TypedField(s, f, v.m[f.name]))
    requires EncField(s, f, v, deep).Some? && EncField(s, f, v, deep).value.Absent?
    ensures NormField(s, f, v).None?
  {
  }

  lemma DecSkip(s: seq<Type>, tid: nat, d: seq<byte>, p0: nat, size: nat, deep: nat,
                fn: nat, i: nat, tag: int, p: nat, res: map<string, Value>, g: nat)
    requires SchemaOk(s) && tid < |s| && p0 + size <= |d|
    requires i < fn && tag >= -1 && p0 + 2 + 2 * fn <= p <= p0 + size
    requires Word(d, p0 + 2 + 2 * i, 2) == 2 * g + 1
    ensures DecFields(s, tid, d, p0, size, deep, fn, i, tag, p, res)
            == DecFields(s, tid, d, p0, size, deep, fn, i + 1, tag + 1 + g, p, res)
  {
    hide DecData, DecInline, Find, Word;
  }

  lemma DecFound(s: seq<Type>, tid: nat, d: seq<byte>, p0: nat, size: nat, deep: nat,
                 fn: nat, i: nat, tag: int, p: nat, res: map<string, Value>, k: nat, w: nat, sz: nat)
    requires SchemaOk(s) && tid < |s| && p0 + size <= |d|
    requires i < fn && tag >= -1 && p0 + 2 + 2 * fn <= p <= p0 + size
    requires Word(d, p0 + 2 + 2 * i, 2) == w && w % 2 == 0 && Find(s[tid], tag + 1) == Found(k)
    requires w == 0 ==> p + 4 + sz <= p0 + size && Word(d, p, 4) == sz
    requires (if w == 0 then DecData(s, s[tid].fields[k], d, p + 4, sz, deep)
              else DecInline(s[tid].fields[k], w / 2 - 1, deep)).Got?
    ensures var f := s[tid].fields[k];
            var got := if w == 0 then DecData(s, f, d, p + 4, sz, deep) else DecInline(f, w / 2 - 1, deep);
            DecFields(s, tid, d, p0, size, deep, fn, i, tag, p, res)
            == DecFields(s, tid, d, p0, size, deep, fn, i + 1, tag + 1, if w == 0 then p + 4 + sz else p, res[f.name := got.value])
  {
    hide DecData, DecInline, Find, Word;
  }

  /** The header words of `parts` stand in `d` from the `i`-th on, its data at `p`. */
  ghost predicate PartsAt(d: seq<byte>, p0: nat, size: nat, fn: nat, i: nat, p: nat, parts: Parts) {
    && fn == i + |parts.words| && |parts.data| < TWO_32
    && p0 + 2 + 2 * fn <= p && p + |parts.data| <= p0 + size <= |d|
    && StandsAt(d, p, parts.data)
    && forall j :: i <= j < fn ==> Word(d, p0 + 2 + 2 * j, 2) == parts.words[j - i]
  }

  /** The header words from the `i`-th on are those of the fields from `k` on. */
  lemma {:induction false} FieldsRoundTrip(s: seq<Type>, tid: nat, v: Value, deep: nat, k: nat, lasttag: int,
                                           d: seq<byte>, p0: nat, size: nat, fn: nat, i: nat, p: nat, acc: map<string, Value>)
    requires SchemaOk(s) && tid < |s| && Typed(s, TStruct(tid), v)
    requires k <= |s[tid].fields| && -1 <= lasttag <= TagBefore(s[tid].fields, k)
    requires EncFields(s, tid, v, deep, k, lasttag).Some?
    requires PartsAt(d, p0, size, fn, i, p, EncFields(s, tid, v, deep, k, lasttag).value)
    ensures DecFields(s, tid, d, p0, size, deep, fn, i, lasttag, p, acc)
            == Decoded(VStruct(NormFields(s, tid, v, k, acc)), p + |EncFields(s, tid, v, deep, k, lasttag).value.data| - p0)
    decreases v, 2, |s[tid].fields| - k
  {
    hide EncField, NormField, DecData, DecInline, Find, Word;
    var t := s[tid];
    if k < |t.fields| {
      EncFieldsStep(s, tid, v, deep, k, lasttag);
      hide EncFields, DecFields;
      if EncField(s, t.fields[k], v, deep).value.Absent? {
        AbsentIsNothing(s, t.fields[k], v, deep);
        FieldsRoundTrip(s, tid, v, deep, k + 1, lasttag, d, p0, size, fn, i, p, acc);
      } else {
        FieldRoundTrip(s, tid, v, deep, k, lasttag, d, p0, size, fn, i, p, acc);
      }
    }
  }

  lemma RestAt(d: seq<byte>, p0: nat, size: nat, fn: nat, i: nat, p: nat, parts: Parts, ws: seq<nat>, b: seq<byte>, rest: Parts)
    requires PartsAt(d, p0, size, fn, i, p, parts)
    requires parts.words == ws + rest.words && parts.data == b + rest.data
    ensures StandsAt(d, p, b) && PartsAt(d, p0, size, fn, i + |ws|, p + |b|, rest)
    ensures forall j :: i <= j < i + |ws| ==> Word(d, p0 + 2 + 2 * j, 2) == ws[j - i]
  {
    hide Word;
    SplitAt(d, p, b, rest.data);
  }

  /** One written field: past its skip word the lookup finds it and its value is read. */
  lemma {:induction false} FieldRoundTrip(s: seq<Type>, tid: nat, v: Value, deep: nat, k: nat, lasttag: int,
                                          d: seq<byte>, p0: nat, size: nat, fn: nat, i: nat, p: nat, acc: map<string, Value>)
    requires SchemaOk(s) && tid < |s| && Typed(s, TStruct(tid), v)
    requires k < |s[tid].fields| && -1 <= lasttag <= TagBefore(s[tid].fields, k)
    requires EncFields(s, tid, v, deep, k, lasttag).Some? && !EncField(s, s[tid].fields[k], v, deep).value.Absent?
    requires PartsAt(d, p0, size, fn, i, p, EncFields(s, tid, v, deep, k, lasttag).value)
    ensures DecFields(s, tid, d, p0, size, deep, fn, i, lasttag, p, acc)
            == Decoded(VStruct(NormFields(s, tid, v, k, acc)), p + |EncFields(s, tid, v, deep, k, lasttag).value.data| - p0)
    decreases v, 2, |s[tid].fields| - k, 0
  {
    hide EncField, EncFields, NormField, DecData, DecInline, DecFields, Find, Word, StandsAt, PartsAt;
    EncFieldsStep(s, tid, v, deep, k, lasttag);
    var t := s[tid];
    var f := t.fields[k];
    var slot := EncField(s, f, v, deep).value;
    var parts, rest := EncFields(s, tid, v, deep, k, lasttag).value, EncFields(s, tid, v, deep, k + 1, f.tag).value;
    var w := if slot.Inline? then slot.word else 0;
    var b := if slot.Data? then slot.bytes else [];
    var ws := TagWords(lasttag, f.tag, w);
    RestAt(d, p0, size, fn, i, p, parts, ws, b, rest);
    PartsBounds(d, p0, size, fn, i, p, parts);
    PartsBounds(d, p0, size, fn, i + |ws|, p + |b|, rest);
    var i' := i + |ws| - 1;
    if |ws| == 2 {
      DecSkip(s, tid, d, p0, size, deep, fn, i, lasttag, p, acc, f.tag - lasttag - 2);
    }
    FindsEveryField(t, |s|, k);
    if slot.Inline? {
      InlineRoundTrip(s, f, v, deep);
    } else {
      DataRoundTrip(s, f, v, deep, d, p);
    }
    DecFound(s, tid, d, p0, size, deep, fn, i', f.tag - 1, p, acc, k, w, if slot.Data? then |b| - 4 else 0);
    FieldsRoundTrip(s, tid, v, deep, k + 1, f.tag, d, p0, size, fn, i' + 1, p + |b|, acc[f.name := NormField(s, f, v).value]);
  }

  lemma PartsBounds(d: seq<byte>, p0: nat, size: nat, fn: nat, i: nat, p: nat, parts: Parts)
    requires PartsAt(d, p0, size, fn, i, p, parts)
    ensures fn == i + |parts.words| && |parts.data| < TWO_32 && p0 + 2 + 2 * fn <= p && p + |parts.data| <= p0 + size <= |d|
  {
  }

  lemma {:induction false} StructAt(parts: Parts, d: seq<byte>, p0: nat, size: nat)
    requires StandsAt(d, p0, Assembled(parts)) && |Assembled(parts)| <= size && p0 + size <= |d| && |parts.data| < TWO_32
    requires |parts.words| < 0x1_0000 && forall j :: 0 <= j < |parts.words| ==> parts.words[j] < 0x1_0000
    ensures Word(d, p0, 2) == |parts.words|
    ensures PartsAt(d, p0, size, |parts.words|, 0, p0 + 2 + 2 * |parts.words|, parts)
  {
    hide LE, Word, WordBytes;
    var fn := |parts.words|;
    SplitAt(d, p0, LE(fn, 2) + WordBytes(parts.words), parts.data);
    SplitAt(d, p0, LE(fn, 2), WordBytes(parts.words));
    ReadWord(d, p0, fn);
    forall j | 0 <= j < fn ensures Word(d, p0 + 2 + 2 * j, 2) == parts.words[j] {
      var q := p0 + 2 + 2 * j;
      WordBytesAt(parts.words, j);
      PartAt(d, p0 + 2, WordBytes(parts.words), 2 * j, 2 * j + 2);
      ReadWord(d, q, parts.words[j]);
    }
  }

  /** For every typed value that can be encoded: its bytes decode to its normal form and are used up exactly, whatever
      follows them. */
  lemma {:induction false} StructRoundTrip(s: seq<Type>, tid: nat, v: Value, deep: nat, d: seq<byte>, p0: nat, size: nat)
    requires SchemaOk(s) && tid < |s| && Typed(s, TStruct(tid), v)
    requires EncStruct(s, tid, v, deep).Some?
    requires var b := EncStruct(s, tid, v, deep).value; |b| < TWO_32 && StandsAt(d, p0, b) && |b| <= size && p0 + size <= |d|
    ensures DecStruct(s, tid, d, p0, size, deep) == Decoded(Norm(s, TStruct(tid), v), |EncStruct(s, tid, v, deep).value|)
    decreases v, 3
  {
    hide EncFields, DecFields, NormFields, Word, LE, StandsAt, PartsAt;
    var parts := EncFields(s, tid, v, deep, 0, -1).value;
    StructWordsFit(s, tid, v, deep);
    StructAt(parts, d, p0, size);
    FieldsRoundTrip(s, tid, v, deep, 0, -1, d, p0, size, |parts.words|, 0, p0 + 2 + 2 * |parts.words|, map[]);
  }
}
