/** Messages between two versions of a protocol: what a reader with one set of types makes of what a writer with another
    one encoded. */
module SprotoVersions {
  import opened Bytes
  import opened Options
  import opened Places
  import opened Words
  import opened Schema
  import opened SprotoSpec
  import opened SprotoRoundTrip

  // ---------------------------------------------------------------- versions of a type

  predicate SameKind(r: set<(nat, nat)>, a: Kind, b: Kind) {
    if b.TStruct? then a.TStruct? && (a.tid, b.tid) in r else a == b
  }

  predicate SameField(r: set<(nat, nat)>, a: Field, b: Field) {
    a.tag == b.tag && a.name == b.name && a.isArray == b.isArray && SameKind(r, a.kind, b.kind)
  }

  /** Each pair of `r` is two versions of a type, the reader's and the writer's: a tag that both have means the same field.
      Either may have fields that the other does not have. */
  ghost predicate Versions(s: seq<Type>, r: set<(nat, nat)>) {
    forall t, u :: (t, u) in r ==> t < |s| && u < |s| && Agree(r, s[t].fields, s[u].fields)
  }

  ghost predicate Agree(r: set<(nat, nat)>, fs: seq<Field>, gs: seq<Field>) {
    forall j, k :: 0 <= j < |fs| && 0 <= k < |gs| && fs[j].tag == gs[k].tag ==> SameField(r, fs[j], gs[k])
  }

  lemma Paired(s: seq<Type>, r: set<(nat, nat)>, t: nat, u: nat)
    requires Versions(s, r) && (t, u) in r
    ensures t < |s| && u < |s|
  {
  }

  /** The reader's field for the writer's field `k`. */
  ghost function Shared(s: seq<Type>, r: set<(nat, nat)>, t: nat, u: nat, k: nat): (l: Lookup)
    requires SchemaOk(s) && Versions(s, r) && (t, u) in r && k < |s[u].fields|
    ensures l == Find(s[t], s[u].fields[k].tag)
    ensures l.Found? ==> l.index < |s[t].fields| && SameField(r, s[t].fields[l.index], s[u].fields[k])
  {
    FindIff(s[t], |s|, s[u].fields[k].tag);
    Find(s[t], s[u].fields[k].tag)
  }

  // ---------------------------------------------------------------- what is read

  /** The writer's value as the reader sees it: without the fields it does not know. */
  ghost function Read(s: seq<Type>, r: set<(nat, nat)>, a: Kind, b: Kind, v: Value): Value
    requires SchemaOk(s) && Versions(s, r) && SameKind(r, a, b) && Typed(s, b, v)
    decreases v, 3
  {
    if b.TStruct? then VStruct(ReadFields(s, r, a.tid, b.tid, v, 0, map[])) else v
  }

  ghost function ReadElems(s: seq<Type>, r: set<(nat, nat)>, a: Kind, g: Field, v: Value, n: nat): (es: seq<Option<Value>>)
    requires SchemaOk(s) && Versions(s, r) && SameKind(r, a, g.kind) && g.isArray && TypedField(s, g, v) && n <= |Prefix(v.es)|
    ensures |es| == n
    decreases v, 0, n
  {
    if n == 0 then [] else ReadElems(s, r, a, g, v, n - 1) + [Some(Read(s, r, a, g.kind, v.es[n - 1].value))]
  }

  ghost function ReadField(s: seq<Type>, r: set<(nat, nat)>, a: Kind, g: Field, v: Value): Option<Value>
    requires SchemaOk(s) && Versions(s, r) && SameKind(r, a, g.kind)
    requires v.VStruct? && (g.name in v.m ==> TypedField(s, g, v.m[g.name]))
    decreases v, 1
  {
    if g.name !in v.m then (if g.isArray then Some(VArray([])) else None)
    else if g.isArray then Some(VArray(ReadElems(s, r, a, g, v.m[g.name], |Prefix(v.m[g.name].es)|)))
    else Some(Read(s, r, a, g.kind, v.m[g.name]))
  }

  ghost function ReadFields(s: seq<Type>, r: set<(nat, nat)>, t: nat, u: nat, v: Value, k: nat, acc: map<string, Value>)
    : map<string, Value>
    requires SchemaOk(s) && Versions(s, r) && (t, u) in r && Typed(s, TStruct(u), v) && k <= |s[u].fields|
    decreases v, 2, |s[u].fields| - k
  {
    if k == |s[u].fields| then acc
    else
      var g := s[u].fields[k];
      match Shared(s, r, t, u, k)
      case Found(j) =>
        var x := ReadField(s, r, s[t].fields[j].kind, g, v);
        ReadFields(s, r, t, u, v, k + 1, if x.Some? then acc[g.name := x.value] else acc)
      case _ => ReadFields(s, r, t, u, v, k + 1, acc)
  }

  // ---------------------------------------------------------------- what is not

  /** Somewhere in the value is a field that was written with the tag just behind a table without gaps of the reader. */
  ghost predicate Trips(s: seq<Type>, r: set<(nat, nat)>, a: Kind, b: Kind, v: Value)
    requires SchemaOk(s) && Versions(s, r) && SameKind(r, a, b) && Typed(s, b, v)
    decreases v, 3
  {
    b.TStruct? && TripsFrom(s, r, a.tid, b.tid, v, 0)
  }

  ghost predicate TripsElem(s: seq<Type>, r: set<(nat, nat)>, a: Kind, g: Field, v: Value, i: nat)
    requires SchemaOk(s) && Versions(s, r) && SameKind(r, a, g.kind) && g.isArray && TypedField(s, g, v) && i <= |Prefix(v.es)|
    decreases v, 0, |Prefix(v.es)| - i
  {
    i < |Prefix(v.es)| && (Trips(s, r, a, g.kind, v.es[i].value) || TripsElem(s, r, a, g, v, i + 1))
  }

  ghost predicate TripsInside(s: seq<Type>, r: set<(nat, nat)>, a: Kind, g: Field, v: Value)
    requires SchemaOk(s) && Versions(s, r) && SameKind(r, a, g.kind)
    requires v.VStruct? && (g.name in v.m ==> TypedField(s, g, v.m[g.name]))
    decreases v, 1
  {
    g.name in v.m && if g.isArray then TripsElem(s, r, a, g, v.m[g.name], 0) else Trips(s, r, a, g.kind, v.m[g.name])
  }

  ghost predicate TripsFrom(s: seq<Type>, r: set<(nat, nat)>, t: nat, u: nat, v: Value, k: nat)
    requires SchemaOk(s) && Versions(s, r) && (t, u) in r && Typed(s, TStruct(u), v) && k <= |s[u].fields|
    decreases v, 2, |s[u].fields| - k
  {
    k < |s[u].fields|
    && var g := s[u].fields[k];
       || (match Shared(s, r, t, u, k)
           case Crash => g.isArray || g.name in v.m
           case Found(j) => TripsInside(s, r, s[t].fields[j].kind, g, v)
           case Unknown => false)
       || TripsFrom(s, r, t, u, v, k + 1)
  }

  // ---------------------------------------------------------------- elements and values

  function Outcome(trips: bool, v: Value): Got {
    if trips then Thrown else Got(v)
  }

  lemma {:induction false} ElemReads(s: seq<Type>, r: set<(nat, nat)>, a: Kind, b: Kind, v: Value, deep: nat, d: seq<byte>, p: nat)
    requires SchemaOk(s) && Versions(s, r) && SameKind(r, a, b) && Typed(s, b, v)
    requires deep < DEEP_LEVEL && (b.TString? || b.TStruct?)
    requires EncElem(s, b, v, deep).Some? && StandsAt(d, p, EncElem(s, b, v, deep).value)
    requires |EncElem(s, b, v, deep).value| < TWO_32
    ensures DecElem(s, a, d, p, |EncElem(s, b, v, deep).value|, deep) == Outcome(Trips(s, r, a, b, v), Read(s, r, a, b, v))
    decreases v, 4
  {
    hide DecStruct, EncStruct, ReadFields, TripsFrom, Versions;
    if b.TStruct? {
      StructReads(s, r, a.tid, b.tid, v, deep + 1, d, p, |EncElem(s, b, v, deep).value|);
    }
  }

  lemma DecElemsStops(s: seq<Type>, kind: Kind, d: seq<byte>, p: nat, sz: nat, deep: nat, es: seq<Option<Value>>, h: nat)
    requires SchemaOk(s) && (kind.TString? || (kind.TStruct? && kind.tid < |s|)) && p + sz <= |d|
    requires sz >= 4 + h && Word(d, p, 4) == h && DecElem(s, kind, d, p + 4, h, deep).Thrown?
    ensures DecElems(s, kind, d, p, sz, deep, es) == Thrown
  {
  }

  lemma ReadStep(s: seq<Type>, r: set<(nat, nat)>, a: Kind, g: Field, v: Value, i: nat)
    requires SchemaOk(s) && Versions(s, r) && SameKind(r, a, g.kind) && g.isArray && TypedField(s, g, v) && i <= |Prefix(v.es)|
    ensures i == |Prefix(v.es)| ==> !TripsElem(s, r, a, g, v, i)
    ensures i < |Prefix(v.es)| ==>
              var x := v.es[i].value;
              && ReadElems(s, r, a, g, v, i + 1) == ReadElems(s, r, a, g, v, i) + [Some(Read(s, r, a, g.kind, x))]
              && TripsElem(s, r, a, g, v, i) == (Trips(s, r, a, g.kind, x) || TripsElem(s, r, a, g, v, i + 1))
  {
    hide Versions, Prefix, Read, Trips;
  }

  /** Arrays of strings and structs, from element `i` on. */
  lemma {:induction false} ElemsRead(s: seq<Type>, r: set<(nat, nat)>, a: Kind, g: Field, v: Value, i: nat, deep: nat,
                                     d: seq<byte>, p: nat)
    requires SchemaOk(s) && Versions(s, r) && SameKind(r, a, g.kind) && g.isArray && TypedField(s, g, v)
    requires a.TString? || (a.TStruct? && a.tid < |s|)
    requires (g.kind.TString? || g.kind.TStruct?) && i <= |Prefix(v.es)| && deep < DEEP_LEVEL
    requires EncElems(s, g, v, i, deep).Some? && StandsAt(d, p, EncElems(s, g, v, i, deep).value)
    requires |EncElems(s, g, v, i, deep).value| < TWO_32
    ensures DecElems(s, a, d, p, |EncElems(s, g, v, i, deep).value|, deep, ReadElems(s, r, a, g, v, i))
            == Outcome(TripsElem(s, r, a, g, v, i), VArray(ReadElems(s, r, a, g, v, |Prefix(v.es)|)))
    decreases v, 0, |v.es| - i
  {
    hide EncElems, EncElem, DecElem, LE, Word, Read, ReadElems, StandsAt, Versions, SameKind, Trips, TripsElem, Typed;
    EncElemsStep(s, g, v, i, deep);
    ReadStep(s, r, a, g, v, i);
    PlaceFits(d, p, EncElems(s, g, v, i, deep).value);
    if i < |Prefix(v.es)| {
      var x, b, rest := v.es[i].value, EncElem(s, g.kind, v.es[i].value, deep).value, EncElems(s, g, v, i + 1, deep).value;
      SplitAt(d, p, Sized(b), rest);
      SizedAt(d, p, b);
      hide DecElems;
      ElemReads(s, r, a, g.kind, x, deep, d, p + 4);
      if Trips(s, r, a, g.kind, x) {
        DecElemsStops(s, a, d, p, |Sized(b) + rest|, deep, ReadElems(s, r, a, g, v, i), |b|);
      } else {
        DecElemsStep(s, a, d, p, |Sized(b) + rest|, deep, ReadElems(s, r, a, g, v, i), |b|);
        ElemsRead(s, r, a, g, v, i + 1, deep, d, p + 4 + |b|);
      }
    }
  }

  lemma {:induction false} PlainElems(s: seq<Type>, r: set<(nat, nat)>, g: Field, v: Value, n: nat)
    requires SchemaOk(s) && Versions(s, r) && g.isArray && TypedField(s, g, v) && n <= |Prefix(v.es)| && !g.kind.TStruct?
    ensures ReadElems(s, r, g.kind, g, v, n) == NormElems(s, g, v, n)
  {
    hide Versions, Prefix;
    if n > 0 { PlainElems(s, r, g, v, n - 1); }
  }

  lemma {:induction false} PlainNeverTrips(s: seq<Type>, r: set<(nat, nat)>, g: Field, v: Value, i: nat)
    requires SchemaOk(s) && Versions(s, r) && g.isArray && TypedField(s, g, v) && i <= |Prefix(v.es)| && !g.kind.TStruct?
    ensures !TripsElem(s, r, g.kind, g, v, i)
    decreases |Prefix(v.es)| - i
  {
    hide Versions, Prefix;
    if i < |Prefix(v.es)| { PlainNeverTrips(s, r, g, v, i + 1); }
  }

  /** Of integers, booleans and strings both versions see the same. */
  lemma PlainReads(s: seq<Type>, r: set<(nat, nat)>, g: Field, v: Value)
    requires SchemaOk(s) && Versions(s, r) && !g.kind.TStruct?
    requires v.VStruct? && (g.name in v.m ==> TypedField(s, g, v.m[g.name]))
    ensures ReadField(s, r, g.kind, g, v) == NormField(s, g, v) && !TripsInside(s, r, g.kind, g, v)
  {
    hide Versions, Prefix;
    if g.name in v.m && g.isArray {
      PlainElems(s, r, g, v.m[g.name], |Prefix(v.m[g.name].es)|);
      PlainNeverTrips(s, r, g, v.m[g.name], 0);
    }
  }

  /** A field with data. */
  lemma {:induction false} DataReads(s: seq<Type>, r: set<(nat, nat)>, f: Field, g: Field, v: Value, deep: nat, d: seq<byte>, p: nat)
    requires SchemaOk(s) && Versions(s, r) && SameField(r, f, g)
    requires v.VStruct? && (g.name in v.m ==> TypedField(s, g, v.m[g.name]))
    requires (f.kind.TStruct? ==> f.kind.tid < |s|) && (g.kind.TStruct? ==> g.kind.tid < |s|)
    requires EncField(s, g, v, deep).Some? && EncField(s, g, v, deep).value.Data?
    requires var b := EncField(s, g, v, deep).value.bytes; StandsAt(d, p, b) && |b| < TWO_32
    ensures var b := EncField(s, g, v, deep).value.bytes;
            && |b| >= 4 && Word(d, p, 4) == |b| - 4 && ReadField(s, r, f.kind, g, v).Some?
            && DecData(s, f, d, p + 4, |b| - 4, deep)
               == Outcome(TripsInside(s, r, f.kind, g, v), ReadField(s, r, f.kind, g, v).value)
    decreases v, 1
  {
    hide EncElems, EncElem, DecElem, DecElems, LE, Word, Read, ReadElems, Trips, TripsElem, Versions, Typed, StandsAt;
    if !g.kind.TStruct? {
      assert f == g;
      PlainReads(s, r, g, v);
      hide DecData, EncField, NormField, TripsInside, ReadField;
      DataRoundTrip(s, g, v, deep, d, p);
    } else if g.name !in v.m {
      SizedAt(d, p, []);
    } else if g.isArray {
      var x := v.m[g.name];
      var b := EncArray(s, g, x, deep).value;
      SizedAt(d, p, b);
      ElemsRead(s, r, f.kind, g, x, 0, deep, d, p + 4);
      NoElems(s, r, f.kind, g, x, deep);
    } else {
      var b := EncElem(s, g.kind, v.m[g.name], deep).value;
      SizedAt(d, p, b);
      ElemReads(s, r, f.kind, g.kind, v.m[g.name], deep, d, p + 4);
    }
  }

  lemma NoElems(s: seq<Type>, r: set<(nat, nat)>, a: Kind, g: Field, v: Value, deep: nat)
    requires SchemaOk(s) && Versions(s, r) && SameKind(r, a, g.kind) && g.isArray && TypedField(s, g, v) && g.kind.TStruct?
    requires EncElems(s, g, v, 0, deep).Some?
    ensures ReadElems(s, r, a, g, v, 0) == []
    ensures EncElems(s, g, v, 0, deep).value == [] ==>
              ReadElems(s, r, a, g, v, |Prefix(v.es)|) == [] && !TripsElem(s, r, a, g, v, 0)
  {
    hide Versions, EncElem;
    EncElemsStep(s, g, v, 0, deep);
  }

  // ---------------------------------------------------------------- fields

  lemma DecUnknown(s: seq<Type>, tid: nat, d: seq<byte>, p0: nat, size: nat, deep: nat,
                   fn: nat, i: nat, tag: int, p: nat, res: map<string, Value>, w: nat, sz: nat)
    requires SchemaOk(s) && tid < |s| && p0 + size <= |d|
    requires i < fn && tag >= -1 && p0 + 2 + 2 * fn <= p <= p0 + size
    requires Word(d, p0 + 2 + 2 * i, 2) == w && w % 2 == 0 && !Find(s[tid], tag + 1).Found?
    requires w == 0 ==> p + 4 + sz <= p0 + size && Word(d, p, 4) == sz
    ensures DecFields(s, tid, d, p0, size, deep, fn, i, tag, p, res)
            == if Find(s[tid], tag + 1).Crash? then Throws
               else DecFields(s, tid, d, p0, size, deep, fn, i + 1, tag + 1, if w == 0 then p + 4 + sz else p, res)
  {
    hide DecData, DecInline, Find, Word;
  }

  lemma DecThrows(s: seq<Type>, tid: nat, d: seq<byte>, p0: nat, size: nat, deep: nat,
                  fn: nat, i: nat, tag: int, p: nat, res: map<string, Value>, k: nat, sz: nat)
    requires SchemaOk(s) && tid < |s| && p0 + size <= |d|
    requires i < fn && tag >= -1 && p0 + 2 + 2 * fn <= p <= p0 + size
    requires Word(d, p0 + 2 + 2 * i, 2) == 0 && Find(s[tid], tag + 1) == Found(k)
    requires p + 4 + sz <= p0 + size && Word(d, p, 4) == sz && DecData(s, s[tid].fields[k], d, p + 4, sz, deep).Thrown?
    ensures DecFields(s, tid, d, p0, size, deep, fn, i, tag, p, res) == Throws
  {
    hide DecData, DecInline, Find, Word;
  }

  function Ending(trips: bool, m: map<string, Value>, used: nat): Decoded {
    if trips then Throws else Decoded(VStruct(m), used)
  }

  lemma Unwritten(s: seq<Type>, r: set<(nat, nat)>, t: nat, u: nat, v: Value, deep: nat, k: nat, acc: map<string, Value>)
    requires SchemaOk(s) && Versions(s, r) && (t, u) in r && Typed(s, TStruct(u), v) && k < |s[u].fields|
    requires EncField(s, s[u].fields[k], v, deep).Some? && EncField(s, s[u].fields[k], v, deep).value.Absent?
    ensures TripsFrom(s, r, t, u, v, k) == TripsFrom(s, r, t, u, v, k + 1)
    ensures ReadFields(s, r, t, u, v, k, acc) == ReadFields(s, r, t, u, v, k + 1, acc)
  {
    hide Versions, EncElem, EncArray;
  }

  lemma Written(s: seq<Type>, r: set<(nat, nat)>, t: nat, u: nat, v: Value, deep: nat, k: nat, acc: map<string, Value>)
    requires SchemaOk(s) && Versions(s, r) && (t, u) in r && Typed(s, TStruct(u), v) && k < |s[u].fields|
    requires EncField(s, s[u].fields[k], v, deep).Some? && !EncField(s, s[u].fields[k], v, deep).value.Absent?
    ensures var l, g := Shared(s, r, t, u, k), s[u].fields[k];
            && (l.Crash? ==> TripsFrom(s, r, t, u, v, k))
            && (l.Unknown? ==>
                  && TripsFrom(s, r, t, u, v, k) == TripsFrom(s, r, t, u, v, k + 1)
                  && ReadFields(s, r, t, u, v, k, acc) == ReadFields(s, r, t, u, v, k + 1, acc))
            && (l.Found? ==>
                  var a := s[t].fields[l.index].kind;
                  && TripsFrom(s, r, t, u, v, k) == (TripsInside(s, r, a, g, v) || TripsFrom(s, r, t, u, v, k + 1))
                  && (ReadField(s, r, a, g, v).Some? ==>
                        ReadFields(s, r, t, u, v, k, acc)
                        == ReadFields(s, r, t, u, v, k + 1, acc[g.name := ReadField(s, r, a, g, v).value])))
  {
    hide Versions, EncElem, EncArray, TripsInside, ReadField;
  }

  /** The header words from the `i`-th on are those of the writer's fields from `k` on. */
  lemma {:induction false} FieldsRead(s: seq<Type>, r: set<(nat, nat)>, t: nat, u: nat, v: Value, deep: nat, k: nat, lasttag: int,
                                      d: seq<byte>, p0: nat, size: nat, fn: nat, i: nat, p: nat, acc: map<string, Value>)
    requires SchemaOk(s) && Versions(s, r) && (t, u) in r && Typed(s, TStruct(u), v)
    requires k <= |s[u].fields| && -1 <= lasttag <= TagBefore(s[u].fields, k)
    requires EncFields(s, u, v, deep, k, lasttag).Some?
    requires PartsAt(d, p0, size, fn, i, p, EncFields(s, u, v, deep, k, lasttag).value)
    ensures DecFields(s, t, d, p0, size, deep, fn, i, lasttag, p, acc)
            == Ending(TripsFrom(s, r, t, u, v, k), ReadFields(s, r, t, u, v, k, acc),
                      p + |EncFields(s, u, v, deep, k, lasttag).value.data| - p0)
    decreases v, 2, |s[u].fields| - k
  {
    hide EncField, ReadField, TripsInside, DecData, DecInline, Find, Word, Versions;
    if k < |s[u].fields| {
      EncFieldsStep(s, u, v, deep, k, lasttag);
      hide EncFields, DecFields;
      if EncField(s, s[u].fields[k], v, deep).value.Absent? {
        Unwritten(s, r, t, u, v, deep, k, acc);
        hide TripsFrom, ReadFields;
        FieldsRead(s, r, t, u, v, deep, k + 1, lasttag, d, p0, size, fn, i, p, acc);
      } else {
        FieldReads(s, r, t, u, v, deep, k, lasttag, d, p0, size, fn, i, p, acc);
      }
    }
  }

  /** One written field: past its skip word the reader knows it, passes over it or trips. */
  lemma {:induction false} FieldReads(s: seq<Type>, r: set<(nat, nat)>, t: nat, u: nat, v: Value, deep: nat, k: nat, lasttag: int,
                                      d: seq<byte>, p0: nat, size: nat, fn: nat, i: nat, p: nat, acc: map<string, Value>)
    requires SchemaOk(s) && Versions(s, r) && (t, u) in r && Typed(s, TStruct(u), v)
    requires k < |s[u].fields| && -1 <= lasttag <= TagBefore(s[u].fields, k)
    requires EncFields(s, u, v, deep, k, lasttag).Some? && !EncField(s, s[u].fields[k], v, deep).value.Absent?
    requires PartsAt(d, p0, size, fn, i, p, EncFields(s, u, v, deep, k, lasttag).value)
    ensures DecFields(s, t, d, p0, size, deep, fn, i, lasttag, p, acc)
            == Ending(TripsFrom(s, r, t, u, v, k), ReadFields(s, r, t, u, v, k, acc),
                      p + |EncFields(s, u, v, deep, k, lasttag).value.data| - p0)
    decreases v, 2, |s[u].fields| - k, 0
  {
    hide EncField, EncFields, ReadField, ReadFields, TripsInside, TripsFrom, DecData, DecInline, DecFields, Find, Word, StandsAt;
    hide PartsAt, Versions;
    Paired(s, r, t, u);
    EncFieldsStep(s, u, v, deep, k, lasttag);
    var g := s[u].fields[k];
    var slot := EncField(s, g, v, deep).value;
    var parts, rest := EncFields(s, u, v, deep, k, lasttag).value, EncFields(s, u, v, deep, k + 1, g.tag).value;
    var w, b := if slot.Inline? then slot.word else 0, if slot.Data? then slot.bytes else [];
    var ws := TagWords(lasttag, g.tag, w);
    RestAt(d, p0, size, fn, i, p, parts, ws, b, rest);
    PartsBounds(d, p0, size, fn, i, p, parts);
    PartsBounds(d, p0, size, fn, i + |ws|, p + |b|, rest);
    if |ws| == 2 {
      DecSkip(s, t, d, p0, size, deep, fn, i, lasttag, p, acc, g.tag - lasttag - 2);
    }
    Written(s, r, t, u, v, deep, k, acc);
    var l := Shared(s, r, t, u, k);
    var next := if l.Found? && ReadField(s, r, s[t].fields[l.index].kind, g, v).Some?
                then acc[g.name := ReadField(s, r, s[t].fields[l.index].kind, g, v).value] else acc;
    WordReads(s, r, t, u, v, deep, k, d, p0, size, fn, i + |ws| - 1, p, acc);
    if !l.Crash? && !(l.Found? && TripsInside(s, r, s[t].fields[l.index].kind, g, v)) {
      FieldsRead(s, r, t, u, v, deep, k + 1, g.tag, d, p0, size, fn, i + |ws|, p + |b|, next);
    }
  }

  /** The word of one written field, with its data. */
  lemma {:induction false} WordReads(s: seq<Type>, r: set<(nat, nat)>, t: nat, u: nat, v: Value, deep: nat, k: nat,
                                     d: seq<byte>, p0: nat, size: nat, fn: nat, i: nat, p: nat, acc: map<string, Value>)
    requires SchemaOk(s) && Versions(s, r) && (t, u) in r && Typed(s, TStruct(u), v) && k < |s[u].fields|
    requires t < |s|
    requires EncField(s, s[u].fields[k], v, deep).Some? && !EncField(s, s[u].fields[k], v, deep).value.Absent?
    requires p0 + size <= |d| && i < fn && p0 + 2 + 2 * fn <= p <= p0 + size
    requires var slot := EncField(s, s[u].fields[k], v, deep).value;
             if slot.Inline? then Word(d, p0 + 2 + 2 * i, 2) == slot.word
             else Word(d, p0 + 2 + 2 * i, 2) == 0 && StandsAt(d, p, slot.bytes) && |slot.bytes| < TWO_32
                  && p + |slot.bytes| <= p0 + size
    ensures var g, l, slot := s[u].fields[k], Shared(s, r, t, u, k), EncField(s, s[u].fields[k], v, deep).value;
            var dec := DecFields(s, t, d, p0, size, deep, fn, i, g.tag - 1, p, acc);
            var next := if slot.Data? then p + |slot.bytes| else p;
            next <= p0 + size
            && match l
               case Crash => dec == Throws
               case Unknown => dec == DecFields(s, t, d, p0, size, deep, fn, i + 1, g.tag, next, acc)
               case Found(j) =>
                 var a := s[t].fields[j].kind;
                 && ReadField(s, r, a, g, v).Some?
                 && (if TripsInside(s, r, a, g, v) then dec == Throws
                     else dec == DecFields(s, t, d, p0, size, deep, fn, i + 1, g.tag, next,
                                           acc[g.name := ReadField(s, r, a, g, v).value]))
    decreases v, 2, 0
  {
    hide EncField, ReadField, TripsInside, DecData, DecInline, DecFields, Find, Word, StandsAt, Versions, NormField;
    var g, l, slot := s[u].fields[k], Shared(s, r, t, u, k), EncField(s, s[u].fields[k], v, deep).value;
    var tag := g.tag - 1;
    if slot.Inline? {
      InlineRoundTrip(s, g, v, deep);
      if l.Found? {
        InlineIsPlain(s, g, v, deep);
        PlainReads(s, r, g, v);
        DecFound(s, t, d, p0, size, deep, fn, i, tag, p, acc, l.index, slot.word, 0);
      } else {
        DecUnknown(s, t, d, p0, size, deep, fn, i, tag, p, acc, slot.word, 0);
      }
    } else {
      DataRoundTrip(s, g, v, deep, d, p);
      var sz := |slot.bytes| - 4;
      if l.Found? {
        DataReads(s, r, s[t].fields[l.index], g, v, deep, d, p);
        if TripsInside(s, r, s[t].fields[l.index].kind, g, v) {
          DecThrows(s, t, d, p0, size, deep, fn, i, tag, p, acc, l.index, sz);
        } else {
          DecFound(s, t, d, p0, size, deep, fn, i, tag, p, acc, l.index, 0, sz);
        }
      } else {
        DecUnknown(s, t, d, p0, size, deep, fn, i, tag, p, acc, 0, sz);
      }
    }
  }

  lemma InlineIsPlain(s: seq<Type>, g: Field, v: Value, deep: nat)
    requires SchemaOk(s) && v.VStruct? && (g.name in v.m ==> TypedField(s, g, v.m[g.name]))
    requires EncField(s, g, v, deep).Some? && EncField(s, g, v, deep).value.Inline?
    ensures !g.kind.TStruct?
  {
  }

  /** For every value the writer can encode: the reader gets what it knows of it and uses exactly its bytes, or trips. */
  lemma {:induction false} StructReads(s: seq<Type>, r: set<(nat, nat)>, t: nat, u: nat, v: Value, deep: nat,
                                       d: seq<byte>, p0: nat, size: nat)
    requires SchemaOk(s) && Versions(s, r) && (t, u) in r && Typed(s, TStruct(u), v)
    requires EncStruct(s, u, v, deep).Some?
    requires var b := EncStruct(s, u, v, deep).value; |b| < TWO_32 && StandsAt(d, p0, b) && |b| <= size && p0 + size <= |d|
    ensures DecStruct(s, t, d, p0, size, deep)
            == Ending(TripsFrom(s, r, t, u, v, 0), ReadFields(s, r, t, u, v, 0, map[]), |EncStruct(s, u, v, deep).value|)
    decreases v, 3
  {
    hide EncFields, DecFields, ReadFields, TripsFrom, Word, LE, StandsAt, PartsAt, Versions;
    var parts := EncFields(s, u, v, deep, 0, -1).value;
    StructWordsFit(s, u, v, deep);
    StructAt(parts, d, p0, size);
    FieldsRead(s, r, t, u, v, deep, 0, -1, d, p0, size, |parts.words|, 0, p0 + 2 + 2 * |parts.words|, map[]);
  }

  /** Between any two versions of a type, whatever fields either has of its own: of every value that the writer can encode
      the reader gets what it knows of it, deep inside too, and uses exactly its bytes; unless some written field has the
      tag just behind a table without gaps of the reader, which throws. */
  lemma VersionsRead(s: seq<Type>, r: set<(nat, nat)>, t: nat, u: nat, v: Value)
    requires SchemaOk(s) && Versions(s, r) && (t, u) in r && u < |s| && t < |s| && Typed(s, TStruct(u), v)
    requires EncStruct(s, u, v, 0).Some? && |EncStruct(s, u, v, 0).value| < TWO_32
    ensures var b := EncStruct(s, u, v, 0).value;
            DecStruct(s, t, b, 0, |b|, 0)
            == if Trips(s, r, TStruct(t), TStruct(u), v) then Throws
               else Decoded(Read(s, r, TStruct(t), TStruct(u), v), |b|)
  {
    hide EncStruct, DecStruct, ReadFields, TripsFrom, Versions;
    var b := EncStruct(s, u, v, 0).value;
    assert b[0..0 + |b|] == b;
    StructReads(s, r, t, u, v, 0, b, 0, |b|);
  }

  // ---------------------------------------------------------------- when nothing trips

  /** The tag is the one just behind a table without gaps. */
  ghost predicate RightBehind(t: Type, tag: nat) {
    var n := |t.fields|;
    Contiguous(t.fields) && tag == if n == 0 then 0 else t.fields[n - 1].tag + 1
  }

  /** No field of a writer stands right behind the table of its reader. */
  ghost predicate Apart(s: seq<Type>, r: set<(nat, nat)>)
    requires Versions(s, r)
  {
    forall t, u, k :: (t, u) in r && 0 <= k < |s[u].fields| ==> !RightBehind(s[t], s[u].fields[k].tag)
  }

  lemma ApartNeverCrashes(s: seq<Type>, r: set<(nat, nat)>, t: nat, u: nat, k: nat)
    requires SchemaOk(s) && Versions(s, r) && (t, u) in r && k < |s[u].fields|
    ensures Apart(s, r) ==> !Shared(s, r, t, u, k).Crash?
  {
    FindIff(s[t], |s|, s[u].fields[k].tag);
  }

  lemma {:induction false} ElemsPass(s: seq<Type>, r: set<(nat, nat)>, a: Kind, g: Field, v: Value, i: nat)
    requires SchemaOk(s) && Versions(s, r) && SameKind(r, a, g.kind) && g.isArray && TypedField(s, g, v) && i <= |Prefix(v.es)|
    requires Apart(s, r)
    ensures !TripsElem(s, r, a, g, v, i)
    decreases v, 0, |Prefix(v.es)| - i
  {
    hide Versions, Apart, Prefix, Trips;
    if i < |Prefix(v.es)| {
      Passes(s, r, a, g.kind, v.es[i].value);
      ElemsPass(s, r, a, g, v, i + 1);
    }
  }

  lemma {:induction false} FieldsPass(s: seq<Type>, r: set<(nat, nat)>, t: nat, u: nat, v: Value, k: nat)
    requires SchemaOk(s) && Versions(s, r) && (t, u) in r && Typed(s, TStruct(u), v) && k <= |s[u].fields|
    requires Apart(s, r)
    ensures !TripsFrom(s, r, t, u, v, k)
    decreases v, 2, |s[u].fields| - k
  {
    hide Versions, Apart, Trips, TripsElem;
    Paired(s, r, t, u);
    if k < |s[u].fields| {
      var g := s[u].fields[k];
      ApartNeverCrashes(s, r, t, u, k);
      FieldsPass(s, r, t, u, v, k + 1);
      if Shared(s, r, t, u, k).Found? && g.name in v.m {
        var a := s[t].fields[Shared(s, r, t, u, k).index].kind;
        if g.isArray { ElemsPass(s, r, a, g, v.m[g.name], 0); } else { Passes(s, r, a, g.kind, v.m[g.name]); }
      }
    }
  }

  lemma {:induction false} Passes(s: seq<Type>, r: set<(nat, nat)>, a: Kind, b: Kind, v: Value)
    requires SchemaOk(s) && Versions(s, r) && SameKind(r, a, b) && Typed(s, b, v) && Apart(s, r)
    ensures !Trips(s, r, a, b, v)
    decreases v, 3
  {
    hide Versions, Apart, TripsFrom;
    if b.TStruct? { FieldsPass(s, r, a.tid, b.tid, v, 0); }
  }

  /** Some value of the kind. */
  function Sample(f: Field): Value {
    if f.isArray then VArray([])
    else match f.kind
      case TInteger => VInt(0)
      case TBoolean => VBool(false)
      case TString => VBytes([])
      case TStruct(_) => VStruct(map[])
  }

  lemma {:induction false} TripsBefore(s: seq<Type>, r: set<(nat, nat)>, t: nat, u: nat, v: Value, i: nat, k: nat)
    requires SchemaOk(s) && Versions(s, r) && (t, u) in r && Typed(s, TStruct(u), v) && i <= k < |s[u].fields|
    requires Shared(s, r, t, u, k).Crash? && s[u].fields[k].name in v.m
    ensures TripsFrom(s, r, t, u, v, i)
    decreases k - i
  {
    hide Versions, TripsInside;
    if i < k { TripsBefore(s, r, t, u, v, i + 1, k); }
  }

  /** A value with the one field `k`. */
  lemma SampleTrips(s: seq<Type>, r: set<(nat, nat)>, t: nat, u: nat, k: nat) returns (v: Value)
    requires SchemaOk(s) && Versions(s, r) && (t, u) in r && k < |s[u].fields| && Shared(s, r, t, u, k).Crash?
    ensures Typed(s, TStruct(u), v) && Trips(s, r, TStruct(t), TStruct(u), v)
  {
    hide Versions, TripsInside;
    Paired(s, r, t, u);
    var g := s[u].fields[k];
    v := VStruct(map[g.name := Sample(g)]);
    assert g.kind.TStruct? ==> g.kind.tid < |s|;
    TripsBefore(s, r, t, u, v, 0, k);
  }

  /** The versions can be mixed at will, whatever the values, if and only if no writer has a field right behind a table
      without gaps of its reader: a field appended to a type without gaps breaks every reader that does not know it. */
  lemma MixIff(s: seq<Type>, r: set<(nat, nat)>)
    requires SchemaOk(s) && Versions(s, r)
    ensures Apart(s, r)
            <==> forall t, u, v :: (t, u) in r && Typed(s, TStruct(u), v) ==> !Trips(s, r, TStruct(t), TStruct(u), v)
  {
    hide Versions, Trips;
    if Apart(s, r) {
      forall t, u, v | (t, u) in r && Typed(s, TStruct(u), v) ensures !Trips(s, r, TStruct(t), TStruct(u), v) {
        Passes(s, r, TStruct(t), TStruct(u), v);
      }
    } else {
      var t, u, k := NotApart(s, r);
      var v := SampleTrips(s, r, t, u, k);
    }
  }

  lemma NotApart(s: seq<Type>, r: set<(nat, nat)>) returns (t: nat, u: nat, k: nat)
    requires SchemaOk(s) && Versions(s, r) && !Apart(s, r)
    ensures (t, u) in r && t < |s| && u < |s| && k < |s[u].fields| && Shared(s, r, t, u, k).Crash?
  {
    t, u, k :| (t, u) in r && 0 <= k < |s[u].fields| && RightBehind(s[t], s[u].fields[k].tag);
    FindIff(s[t], |s|, s[u].fields[k].tag);
  }

  // ---------------------------------------------------------------- what older and newer readers get

  /** The reader has every field of the writer. */
  ghost predicate Newer(s: seq<Type>, r: set<(nat, nat)>)
    requires SchemaOk(s) && Versions(s, r)
  {
    forall t, u, k :: (t, u) in r && 0 <= k < |s[u].fields| ==> Shared(s, r, t, u, k).Found?
  }

  lemma {:induction false} NewerElems(s: seq<Type>, r: set<(nat, nat)>, a: Kind, g: Field, v: Value, n: nat)
    requires SchemaOk(s) && Versions(s, r) && SameKind(r, a, g.kind) && g.isArray && TypedField(s, g, v) && n <= |Prefix(v.es)|
    requires Newer(s, r)
    ensures ReadElems(s, r, a, g, v, n) == NormElems(s, g, v, n)
    decreases v, 0, n
  {
    hide Versions, Newer, Prefix, Read, Norm;
    if n > 0 {
      NewerElems(s, r, a, g, v, n - 1);
      NewerSees(s, r, a, g.kind, v.es[n - 1].value);
    }
  }

  lemma {:induction false} NewerFields(s: seq<Type>, r: set<(nat, nat)>, t: nat, u: nat, v: Value, k: nat, acc: map<string, Value>)
    requires SchemaOk(s) && Versions(s, r) && (t, u) in r && Typed(s, TStruct(u), v) && k <= |s[u].fields| && Newer(s, r)
    ensures ReadFields(s, r, t, u, v, k, acc) == NormFields(s, u, v, k, acc)
    decreases v, 2, |s[u].fields| - k
  {
    hide Versions, Read, Norm, ReadElems, NormElems;
    Paired(s, r, t, u);
    if k < |s[u].fields| {
      var g := s[u].fields[k];
      assert Shared(s, r, t, u, k).Found?;
      hide Newer;
      var a := s[t].fields[Shared(s, r, t, u, k).index].kind;
      if g.name in v.m {
        if g.isArray { NewerElems(s, r, a, g, v.m[g.name], |Prefix(v.m[g.name].es)|); }
        else { NewerSees(s, r, a, g.kind, v.m[g.name]); }
      }
      assert ReadField(s, r, a, g, v) == NormField(s, g, v);
      var x := NormField(s, g, v);
      NewerFields(s, r, t, u, v, k + 1, if x.Some? then acc[g.name := x.value] else acc);
    }
  }

  /** A reader that knows all fields sees the writer's value, in its normal form. */
  lemma {:induction false} NewerSees(s: seq<Type>, r: set<(nat, nat)>, a: Kind, b: Kind, v: Value)
    requires SchemaOk(s) && Versions(s, r) && SameKind(r, a, b) && Typed(s, b, v) && Newer(s, r)
    ensures Read(s, r, a, b, v) == Norm(s, b, v)
    decreases v, 3
  {
    hide Versions, Newer, ReadFields, NormFields;
    if b.TStruct? { NewerFields(s, r, a.tid, b.tid, v, 0, map[]); }
  }
}
