/** Which values can be encoded at all: those nested less than 64 levels deep. */
module SprotoDepth {
  import opened Schema
  import opened SprotoSpec

  function Max(a: nat, b: nat): nat {
    if a >= b then a else b
  }

  /** Levels of nested structs, not counting a struct without fields, nor anything behind a null. */
  function Levels(s: seq<Type>, kind: Kind, v: Value): nat
    requires SchemaOk(s) && Typed(s, kind, v)
    decreases v, 2
  {
    if kind.TStruct? && s[kind.tid].fields != [] then 1 + LevelsBelow(s, kind.tid, v, 0) else 0
  }

  function LevelsBelow(s: seq<Type>, tid: nat, v: Value, k: nat): nat
    requires SchemaOk(s) && tid < |s| && Typed(s, TStruct(tid), v) && k <= |s[tid].fields|
    decreases v, 1, |s[tid].fields| - k
  {
    if k == |s[tid].fields| then 0
    else
      var f := s[tid].fields[k];
      Max(LevelsOf(s, f, v), LevelsBelow(s, tid, v, k + 1))
  }

  function LevelsOf(s: seq<Type>, f: Field, v: Value): nat
    requires SchemaOk(s) && v.VStruct? && (f.name in v.m ==> TypedField(s, f, v.m[f.name]))
    decreases v, 0
  {
    if f.name !in v.m then 0
    else if f.isArray then LevelsFrom(s, f, v.m[f.name], 0)
    else Levels(s, f.kind, v.m[f.name])
  }

  function LevelsFrom(s: seq<Type>, f: Field, v: Value, i: nat): nat
    requires SchemaOk(s) && f.isArray && TypedField(s, f, v) && i <= |v.es|
    decreases v, 0, |v.es| - i
  {
    if i == |v.es| || v.es[i].None? then 0
    else Max(Levels(s, f.kind, v.es[i].value), LevelsFrom(s, f, v, i + 1))
  }

  lemma {:induction false} PlainHasNoLevels(s: seq<Type>, f: Field, v: Value, i: nat)
    requires SchemaOk(s) && f.isArray && TypedField(s, f, v) && i <= |v.es| && !f.kind.TStruct?
    ensures LevelsFrom(s, f, v, i) == 0
    decreases |v.es| - i
  {
    if i < |v.es| && v.es[i].Some? {
      PlainHasNoLevels(s, f, v, i + 1);
    }
  }

  lemma {:induction false} ElemsEncode(s: seq<Type>, f: Field, v: Value, i: nat, deep: nat)
    requires SchemaOk(s) && f.isArray && TypedField(s, f, v) && (f.kind.TString? || f.kind.TStruct?) && i <= |v.es|
    requires deep < DEEP_LEVEL
    ensures EncElems(s, f, v, i, deep).Some? <==> deep + 1 + LevelsFrom(s, f, v, i) <= DEEP_LEVEL
    decreases v, 0, |v.es| - i
  {
    hide EncStruct, Levels;
    if i < |v.es| && v.es[i].Some? {
      ElemsEncode(s, f, v, i + 1, deep);
      if f.kind.TStruct? {
        StructEncodes(s, f.kind.tid, v.es[i].value, deep + 1);
      } else {
        assert Levels(s, f.kind, v.es[i].value) == 0 by { NoLevels(s, f.kind, v.es[i].value); }
      }
    }
  }

  lemma NoLevels(s: seq<Type>, kind: Kind, v: Value)
    requires SchemaOk(s) && Typed(s, kind, v) && !kind.TStruct?
    ensures Levels(s, kind, v) == 0
  {
  }

  lemma {:induction false} FieldEncodes(s: seq<Type>, f: Field, v: Value, deep: nat)
    requires SchemaOk(s) && v.VStruct? && (f.name in v.m ==> TypedField(s, f, v.m[f.name]))
    ensures EncField(s, f, v, deep).Some? <==> deep + 1 + LevelsOf(s, f, v) <= DEEP_LEVEL
    decreases v, 1
  {
    hide EncStruct, EncElems, LevelsFrom, Levels, EncInts, EncBools, EncInt;
    if f.name in v.m && deep < DEEP_LEVEL {
      var x := v.m[f.name];
      if f.isArray {
        if f.kind.TString? || f.kind.TStruct? {
          ElemsEncode(s, f, x, 0, deep);
        } else {
          PlainHasNoLevels(s, f, x, 0);
        }
      } else if f.kind.TStruct? {
        StructEncodes(s, f.kind.tid, x, deep + 1);
        assert f.kind == TStruct(f.kind.tid);
        assert EncElem(s, f.kind, x, deep) == EncStruct(s, f.kind.tid, x, deep + 1);
      } else {
        NoLevels(s, f.kind, x);
        assert f.kind.TString? ==> EncElem(s, f.kind, x, deep).Some?;
        assert EncScalar(s, f.kind, x, deep).Some?;
      }
    }
  }

  lemma {:induction false} FieldsEncode(s: seq<Type>, tid: nat, v: Value, deep: nat, k: nat, lasttag: int)
    requires SchemaOk(s) && tid < |s| && Typed(s, TStruct(tid), v)
    requires k <= |s[tid].fields| && lasttag <= TagBefore(s[tid].fields, k)
    ensures EncFields(s, tid, v, deep, k, lasttag).Some?
            <==> k == |s[tid].fields| || deep + 1 + LevelsBelow(s, tid, v, k) <= DEEP_LEVEL
    decreases v, 2, |s[tid].fields| - k
  {
    hide EncField, LevelsOf;
    if k < |s[tid].fields| {
      var f := s[tid].fields[k];
      FieldEncodes(s, f, v, deep);
      var slot := EncField(s, f, v, deep);
      if slot.Some? {
        FieldsEncode(s, tid, v, deep, k + 1, if slot.value.Absent? then lasttag else f.tag);
      }
    }
  }

  /** A typed value fails to encode exactly when its structs nest deeper than the limit. */
  lemma {:induction false} StructEncodes(s: seq<Type>, tid: nat, v: Value, deep: nat)
    requires SchemaOk(s) && tid < |s| && Typed(s, TStruct(tid), v)
    ensures deep <= DEEP_LEVEL ==> (EncStruct(s, tid, v, deep).Some? <==> deep + Levels(s, TStruct(tid), v) <= DEEP_LEVEL)
    decreases v, 3
  {
    hide EncFields, LevelsBelow;
    FieldsEncode(s, tid, v, deep, 0, -1);
  }
}
