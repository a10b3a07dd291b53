/** Whatever bytes a peer sends: what comes out of the decoder has the types of the schema. */
module SprotoSafety {
  import opened Bytes
  import opened Options
  import opened Words
  import opened Schema
  import opened SprotoSpec

  lemma {:induction false} WordRange(d: seq<byte>, i: nat, n: nat)
    requires i + n <= |d|
    ensures Word(d, i, n) < Pow256(n)
    decreases n
  {
    if n > 0 { WordRange(d, i + 1, n - 1); }
  }

  lemma SignedInRange(d: seq<byte>, i: nat)
    ensures i + 4 <= |d| ==> IsInt64(Signed32(Word(d, i, 4)))
    ensures i + 8 <= |d| ==> IsInt64(Signed64(Word(d, i, 8)))
  {
    assert Pow256(2) == 0x1_0000 && Pow256(4) == TWO_32 && Pow256(6) == 0x1_0000 * TWO_32 && Pow256(8) == TWO_64;
    if i + 4 <= |d| { WordRange(d, i, 4); }
    if i + 8 <= |d| { WordRange(d, i, 8); }
  }

  lemma {:induction false} IntsTyped(s: seq<Type>, d: seq<byte>, p: nat, n: nat, w: nat)
    requires w in {4, 8} && p + n * w <= |d|
    ensures forall i :: 0 <= i < n ==> DecInts(d, p, n, w)[i].Some? && Typed(s, TInteger, DecInts(d, p, n, w)[i].value)
  {
    hide Word;
    if n > 0 {
      IntsTyped(s, d, p, n - 1, w);
      SignedInRange(d, p + (n - 1) * w);
    }
  }

  ghost predicate AllTyped(s: seq<Type>, kind: Kind, es: seq<Option<Value>>) {
    forall i :: 0 <= i < |es| && es[i].Some? ==> Typed(s, kind, es[i].value)
  }

  lemma BoolsTyped(s: seq<Type>, d: seq<byte>, p: nat, n: nat)
    requires p + n <= |d|
    ensures AllTyped(s, TBoolean, DecBools(d, p, n))
  {
    assert forall b :: DecBool(b).Some? ==> DecBool(b).value.VBool?;
  }

  lemma {:induction false} ElemTyped(s: seq<Type>, kind: Kind, d: seq<byte>, p: nat, sz: nat, deep: nat)
    requires SchemaOk(s) && (kind.TString? || (kind.TStruct? && kind.tid < |s|)) && p + sz <= |d|
    ensures var e := DecElem(s, kind, d, p, sz, deep); e.Got? ==> Typed(s, kind, e.value)
    decreases sz, 3, 0
  {
    hide DecStruct, TypedField;
    if kind.TStruct? { StructTyped(s, kind.tid, d, p, sz, deep + 1); }
  }

  lemma {:induction false} ElemsTyped(s: seq<Type>, kind: Kind, d: seq<byte>, p: nat, sz: nat, deep: nat, es: seq<Option<Value>>)
    requires SchemaOk(s) && (kind.TString? || (kind.TStruct? && kind.tid < |s|)) && p + sz <= |d| && AllTyped(s, kind, es)
    ensures var e := DecElems(s, kind, d, p, sz, deep, es); e.Got? ==> e.value.VArray? && AllTyped(s, kind, e.value.es)
    decreases sz, 4, 0
  {
    hide DecElem, Word, Typed;
    if sz >= 4 && Word(d, p, 4) <= sz - 4 {
      var h := Word(d, p, 4);
      ElemTyped(s, kind, d, p + 4, h, deep);
      var e := DecElem(s, kind, d, p + 4, h, deep);
      if e.Got? { ElemsTyped(s, kind, d, p + 4 + h, sz - 4 - h, deep, es + [Some(e.value)]); }
    }
  }

  lemma {:induction false} DataTyped(s: seq<Type>, f: Field, d: seq<byte>, p: nat, sz: nat, deep: nat)
    requires SchemaOk(s) && (f.kind.TStruct? ==> f.kind.tid < |s|) && p + sz <= |d|
    ensures var e := DecData(s, f, d, p, sz, deep); e.Got? ==> TypedField(s, f, e.value)
    decreases sz, 5, 0
  {
    hide DecElem, DecElems, Word, DecInts;
    if f.isArray {
      if sz > 0 && f.kind.TInteger? {
        var w, rest := d[p] as nat, sz - 1;
        if (w == 4 || w == 8) && rest % w == 0 {
          assert rest / w * w == rest;
          IntsTyped(s, d, p + 1, rest / w, w);
        }
      } else if f.kind.TBoolean? {
        BoolsTyped(s, d, p, sz);
      } else if sz > 0 {
        ElemsTyped(s, f.kind, d, p, sz, deep, []);
      }
    } else if f.kind.TInteger? {
      SignedInRange(d, p);
    } else if !f.kind.TBoolean? {
      ElemTyped(s, f.kind, d, p, sz, deep);
    }
  }

  lemma InlineTyped(s: seq<Type>, f: Field, value: nat, deep: nat)
    requires SchemaOk(s) && value < 0x1_0000
    ensures var e := DecInline(f, value, deep); e.Got? ==> TypedField(s, f, e.value)
  {
  }

  lemma StoredTyped(s: seq<Type>, tid: nat, res: map<string, Value>, k: nat, got: Got)
    requires SchemaOk(s) && tid < |s| && Typed(s, TStruct(tid), VStruct(res)) && k < |s[tid].fields|
    requires got.Got? ==> TypedField(s, s[tid].fields[k], got.value)
    ensures Typed(s, TStruct(tid), VStruct(Stored(res, s[tid].fields[k].name, got)))
  {
    hide TypedField;
    assert TypeOk(s[tid], |s|);
  }

  lemma {:induction false} FieldsTyped(s: seq<Type>, tid: nat, d: seq<byte>, p0: nat, size: nat, deep: nat,
                                       fn: nat, i: nat, tag: int, p: nat, res: map<string, Value>)
    requires SchemaOk(s) && tid < |s| && p0 + size <= |d|
    requires i <= fn && tag >= -1 && p0 + 2 + 2 * fn <= p <= p0 + size
    requires Typed(s, TStruct(tid), VStruct(res))
    ensures var r := DecFields(s, tid, d, p0, size, deep, fn, i, tag, p, res);
            r.Decoded? ==> Typed(s, TStruct(tid), r.value) && p - p0 <= r.used <= size
    decreases size, 1, fn - i
  {
    hide Typed, TypedField, Word, DecData, DecInline, Find, Stored;
    if i < fn {
      var w := Word(d, p0 + 2 + 2 * i, 2);
      assert w < 0x1_0000 by { WordRange(d, p0 + 2 + 2 * i, 2); TwoBytes(); }
      if w % 2 == 1 {
        FieldsTyped(s, tid, d, p0, size, deep, fn, i + 1, tag + 1 + w / 2, p, res);
      } else if w != 0 || (p + 4 <= p0 + size && p + 4 + Word(d, p, 4) <= p0 + size) {
        var sz := if w == 0 then Word(d, p, 4) else 0;
        var next := if w == 0 then p + 4 + sz else p;
        match Find(s[tid], tag + 1)
        case Unknown => FieldsTyped(s, tid, d, p0, size, deep, fn, i + 1, tag + 1, next, res);
        case Crash =>
        case Found(k) =>
          var f := s[tid].fields[k];
          KindOk(s, tid, k);
          if w == 0 { DataTyped(s, f, d, p + 4, sz, deep); } else { InlineTyped(s, f, w / 2 - 1, deep); }
          var got := if w == 0 then DecData(s, f, d, p + 4, sz, deep) else DecInline(f, w / 2 - 1, deep);
          StoredTyped(s, tid, res, k, got);
          FieldsTyped(s, tid, d, p0, size, deep, fn, i + 1, tag + 1, next, Stored(res, f.name, got));
      }
    }
  }

  lemma KindOk(s: seq<Type>, tid: nat, k: nat)
    requires SchemaOk(s) && tid < |s| && k < |s[tid].fields|
    ensures s[tid].fields[k].kind.TStruct? ==> s[tid].fields[k].kind.tid < |s|
  {
  }

  lemma TwoBytes()
    ensures Pow256(2) == 0x1_0000
  {
    assert Pow256(1) == 256;
  }

  /** For every byte string: what is decoded has the types of the schema, at every depth, and no more bytes were used than
      there were. */
  lemma {:induction false} StructTyped(s: seq<Type>, tid: nat, d: seq<byte>, p0: nat, size: nat, deep: nat)
    requires SchemaOk(s) && tid < |s| && p0 + size <= |d|
    ensures var r := DecStruct(s, tid, d, p0, size, deep);
            r.Decoded? ==> Typed(s, TStruct(tid), r.value) && 2 <= r.used <= size
    decreases size, 2, 0
  {
    hide DecFields, Word, TypedField;
    if size >= 2 && 2 * Word(d, p0, 2) <= size - 2 {
      FieldsTyped(s, tid, d, p0, size, deep, Word(d, p0, 2), 0, -1, p0 + 2 + 2 * Word(d, p0, 2), map[]);
    }
  }
}
