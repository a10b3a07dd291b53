/** What normal forms are: exactly the values that encoding and decoding give back unchanged. */
module SprotoNormal {
  import opened Options
  import opened Words
  import opened Schema
  import opened SprotoSpec
  import opened SprotoRoundTrip

  /** Every array is there and holds no null, and there is no key but the fields'. */
  predicate Complete(s: seq<Type>, kind: Kind, v: Value)
    requires SchemaOk(s) && Typed(s, kind, v)
    decreases v, 0
  {
    kind.TStruct? ==>
      && (forall n :: n in v.m ==> exists k :: 0 <= k < |s[kind.tid].fields| && s[kind.tid].fields[k].name == n)
      && forall k :: 0 <= k < |s[kind.tid].fields| ==>
           var f := s[kind.tid].fields[k];
           if f.name in v.m then CompleteField(s, f, v.m[f.name]) else !f.isArray
  }

  predicate CompleteField(s: seq<Type>, f: Field, v: Value)
    requires SchemaOk(s) && TypedField(s, f, v)
    decreases v, 1
  {
    if f.isArray then forall i :: 0 <= i < |v.es| ==> v.es[i].Some? && Complete(s, f.kind, v.es[i].value)
    else Complete(s, f.kind, v)
  }

  /** The field `k` of a normal form is that field's normal form. */
  lemma {:induction false} NormFieldsAt(s: seq<Type>, tid: nat, v: Value, i: nat, acc: map<string, Value>, k: nat)
    requires SchemaOk(s) && tid < |s| && Typed(s, TStruct(tid), v) && i <= |s[tid].fields| && k < |s[tid].fields|
    ensures var r, n := NormFields(s, tid, v, i, acc), s[tid].fields[k].name;
            var x := NormField(s, s[tid].fields[k], v);
            if k >= i && x.Some? then n in r && r[n] == x.value
            else (n in r <==> n in acc) && (n in acc ==> r[n] == acc[n])
    decreases |s[tid].fields| - i
  {
    hide NormField, TypedField;
    if i < |s[tid].fields| {
      var f := s[tid].fields[i];
      var x := NormField(s, f, v);
      NormFieldsAt(s, tid, v, i + 1, if x.Some? then acc[f.name := x.value] else acc, k);
      assert i != k ==> f.name != s[tid].fields[k].name;
    }
  }

  /** A normal form has no key that is not a field's. */
  lemma {:induction false} NormFieldsOnly(s: seq<Type>, tid: nat, v: Value, i: nat, acc: map<string, Value>, n: string)
    requires SchemaOk(s) && tid < |s| && Typed(s, TStruct(tid), v) && i <= |s[tid].fields|
    requires forall k :: 0 <= k < |s[tid].fields| ==> s[tid].fields[k].name != n
    ensures n in NormFields(s, tid, v, i, acc) <==> n in acc
    decreases |s[tid].fields| - i
  {
    hide NormField, TypedField;
    if i < |s[tid].fields| {
      var f := s[tid].fields[i];
      var x := NormField(s, f, v);
      NormFieldsOnly(s, tid, v, i + 1, if x.Some? then acc[f.name := x.value] else acc, n);
    }
  }

  lemma {:induction false} CompleteElems(s: seq<Type>, f: Field, v: Value, n: nat)
    requires SchemaOk(s) && f.isArray && TypedField(s, f, v) && CompleteField(s, f, v) && n <= |Prefix(v.es)|
    ensures NormElems(s, f, v, n) == v.es[..n]
    decreases v, 0, n
  {
    if n > 0 {
      CompleteElems(s, f, v, n - 1);
      CompleteIsNormal(s, f.kind, v.es[n - 1].value);
    }
  }

  lemma {:induction false} CompleteFieldIsNormal(s: seq<Type>, f: Field, v: Value)
    requires SchemaOk(s) && v.VStruct? && f.name in v.m && TypedField(s, f, v.m[f.name]) && CompleteField(s, f, v.m[f.name])
    ensures NormField(s, f, v) == Some(v.m[f.name])
    decreases v, 1
  {
    hide Norm, Complete;
    var x := v.m[f.name];
    if f.isArray {
      CompleteElems(s, f, x, |Prefix(x.es)|);
      assert |Prefix(x.es)| == |x.es|;
      assert x.es[..|x.es|] == x.es;
    } else {
      CompleteIsNormal(s, f.kind, x);
    }
  }

  /** A complete value is its own normal form. */
  lemma {:induction false} CompleteIsNormal(s: seq<Type>, kind: Kind, v: Value)
    requires SchemaOk(s) && Typed(s, kind, v) && Complete(s, kind, v)
    ensures Norm(s, kind, v) == v
    decreases v, 2
  {
    hide NormFields, CompleteField, TypedField;
    if kind.TStruct? {
      var fields, r := s[kind.tid].fields, NormFields(s, kind.tid, v, 0, map[]);
      forall n ensures (n in r <==> n in v.m) && (n in v.m ==> r[n] == v.m[n]) {
        if k :| 0 <= k < |fields| && fields[k].name == n {
          NormFieldsAt(s, kind.tid, v, 0, map[], k);
          if n in v.m {
            CompleteFieldIsNormal(s, fields[k], v);
          }
        } else {
          NormFieldsOnly(s, kind.tid, v, 0, map[], n);
        }
      }
      assert r == v.m;
    }
  }

  // ---------------------------------------------------------------- normal forms are complete

  lemma {:induction false} NormElemsComplete(s: seq<Type>, f: Field, v: Value, n: nat, i: nat)
    requires SchemaOk(s) && f.isArray && TypedField(s, f, v) && i < n <= |Prefix(v.es)|
    ensures var e := NormElems(s, f, v, n)[i]; e.Some? && Typed(s, f.kind, e.value) && Complete(s, f.kind, e.value)
    decreases v, 0, n
  {
    hide Complete, Norm, Prefix;
    if i < n - 1 {
      NormElemsComplete(s, f, v, n - 1, i);
    } else {
      NormIsComplete(s, f.kind, v.es[i].value);
    }
  }

  lemma {:induction false} NormFieldComplete(s: seq<Type>, f: Field, v: Value)
    requires SchemaOk(s) && v.VStruct? && (f.name in v.m ==> TypedField(s, f, v.m[f.name]))
    ensures var x := NormField(s, f, v);
            if x.Some? then TypedField(s, f, x.value) && CompleteField(s, f, x.value) else !f.isArray
    decreases v, 1
  {
    hide Norm, NormElems, Complete;
    if f.name in v.m {
      var x := v.m[f.name];
      if f.isArray {
        var n := |Prefix(x.es)|;
        forall i | 0 <= i < n
          ensures var e := NormElems(s, f, x, n)[i]; e.Some? && Typed(s, f.kind, e.value) && Complete(s, f.kind, e.value)
        {
          NormElemsComplete(s, f, x, n, i);
        }
      } else {
        NormIsComplete(s, f.kind, x);
      }
    }
  }

  /** Normal forms are typed and complete, so normalising twice is normalising once. */
  lemma {:induction false} NormIsComplete(s: seq<Type>, kind: Kind, v: Value)
    requires SchemaOk(s) && Typed(s, kind, v)
    ensures Typed(s, kind, Norm(s, kind, v)) && Complete(s, kind, Norm(s, kind, v))
    decreases v, 2
  {
    hide NormFields, CompleteField, TypedField, NormField;
    if kind.TStruct? {
      var fields, r := s[kind.tid].fields, NormFields(s, kind.tid, v, 0, map[]);
      forall k | 0 <= k < |fields|
        ensures if fields[k].name in r then TypedField(s, fields[k], r[fields[k].name])
                                            && CompleteField(s, fields[k], r[fields[k].name])
                else !fields[k].isArray
      {
        assert fields[k].name in v.m ==> TypedField(s, fields[k], v.m[fields[k].name]);
        NormFieldsAt(s, kind.tid, v, 0, map[], k);
        NormFieldComplete(s, fields[k], v);
      }
      forall n | n in r ensures exists k :: 0 <= k < |fields| && fields[k].name == n {
        if forall k :: 0 <= k < |fields| ==> fields[k].name != n {
          NormFieldsOnly(s, kind.tid, v, 0, map[], n);
        }
      }
    }
  }

  /** The values that come back unchanged are the complete ones. */
  lemma UnchangedIffComplete(s: seq<Type>, kind: Kind, v: Value)
    requires SchemaOk(s) && Typed(s, kind, v)
    ensures Norm(s, kind, v) == v <==> Complete(s, kind, v)
  {
    hide Norm, Complete;
    NormIsComplete(s, kind, v);
    if Complete(s, kind, v) {
      CompleteIsNormal(s, kind, v);
    }
  }

  /** `decode(encode(v))` is the normal form of `v`; it is `v` exactly when `v` is complete. */
  lemma DecodeEncode(s: seq<Type>, tid: nat, v: Value)
    requires SchemaOk(s) && tid < |s| && Typed(s, TStruct(tid), v)
    requires EncStruct(s, tid, v, 0).Some? && |EncStruct(s, tid, v, 0).value| < TWO_32
    ensures var b := EncStruct(s, tid, v, 0).value;
            var r := DecStruct(s, tid, b, 0, |b|, 0);
            && r == Decoded(Norm(s, TStruct(tid), v), |b|)
            && (r.value == v <==> Complete(s, TStruct(tid), v))
  {
    hide EncStruct, DecStruct, Norm, Complete;
    var b := EncStruct(s, tid, v, 0).value;
    assert b[0..0 + |b|] == b;
    StructRoundTrip(s, tid, v, 0, b, 0, |b|);
    UnchangedIffComplete(s, TStruct(tid), v);
  }
}
