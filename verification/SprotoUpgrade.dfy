/** What upgrading one end of a connection does: an older reader sees a newer message as its own types would have written
    it, a newer reader sees an older message as it was written; and a field appended to a type without gaps ends that. */
module SprotoUpgrade {
  import opened Words
  import opened Schema
  import opened SprotoSpec
  import opened SprotoRoundTrip
  import opened SprotoNormal
  import opened SprotoVersions

  // ---------------------------------------------------------------- field by field

  /** The field `k` of the writer in what is read. */
  lemma {:induction false} ReadFieldsAt(s: seq<Type>, r: set<(nat, nat)>, t: nat, u: nat, v: Value, i: nat,
                                        acc: map<string, Value>, k: nat)
    requires SchemaOk(s) && Versions(s, r) && (t, u) in r && Typed(s, TStruct(u), v)
    requires u < |s| && t < |s| && i <= |s[u].fields| && k < |s[u].fields|
    ensures var m, n, l := ReadFields(s, r, t, u, v, i, acc), s[u].fields[k].name, Shared(s, r, t, u, k);
            if k >= i && l.Found? && ReadField(s, r, s[t].fields[l.index].kind, s[u].fields[k], v).Some?
            then n in m && m[n] == ReadField(s, r, s[t].fields[l.index].kind, s[u].fields[k], v).value
            else (n in m <==> n in acc) && (n in acc ==> m[n] == acc[n])
    decreases |s[u].fields| - i
  {
    hide ReadField, TypedField, Versions;
    if i < |s[u].fields| {
      assert i != k ==> s[u].fields[i].name != s[u].fields[k].name;
      ReadFieldsAt(s, r, t, u, v, i + 1, Next(s, r, t, u, v, i, acc), k);
    }
  }

  /** What is read when the writer's field `i` is behind the reader. */
  ghost function Next(s: seq<Type>, r: set<(nat, nat)>, t: nat, u: nat, v: Value, i: nat, acc: map<string, Value>)
    : map<string, Value>
    requires SchemaOk(s) && Versions(s, r) && (t, u) in r && Typed(s, TStruct(u), v) && i < |s[u].fields|
  {
    var l := Shared(s, r, t, u, i);
    if l.Found? && ReadField(s, r, s[t].fields[l.index].kind, s[u].fields[i], v).Some?
    then acc[s[u].fields[i].name := ReadField(s, r, s[t].fields[l.index].kind, s[u].fields[i], v).value] else acc
  }

  /** Nothing else is read. */
  lemma {:induction false} ReadFieldsOnly(s: seq<Type>, r: set<(nat, nat)>, t: nat, u: nat, v: Value, i: nat,
                                          acc: map<string, Value>, n: string)
    requires SchemaOk(s) && Versions(s, r) && (t, u) in r && Typed(s, TStruct(u), v)
    requires u < |s| && t < |s| && i <= |s[u].fields|
    requires forall j :: 0 <= j < |s[t].fields| ==> s[t].fields[j].name != n
    ensures n in ReadFields(s, r, t, u, v, i, acc) <==> n in acc
    decreases |s[u].fields| - i
  {
    hide ReadField, TypedField, Versions;
    if i < |s[u].fields| {
      ReadFieldsOnly(s, r, t, u, v, i + 1, Next(s, r, t, u, v, i, acc), n);
    }
  }

  // ---------------------------------------------------------------- older readers

  /** The writer has every field of the reader. */
  ghost predicate Older(s: seq<Type>, r: set<(nat, nat)>)
    requires SchemaOk(s) && Versions(s, r)
  {
    forall t, u :: (t, u) in r ==> Kept(s, r, t, u)
  }

  ghost predicate Kept(s: seq<Type>, r: set<(nat, nat)>, t: nat, u: nat)
    requires SchemaOk(s) && Versions(s, r) && (t, u) in r
  {
    forall j :: 0 <= j < |s[t].fields| ==> Has(s, r, t, u, j)
  }

  /** The writer has the reader's field `j`. */
  ghost predicate Has(s: seq<Type>, r: set<(nat, nat)>, t: nat, u: nat, j: nat)
    requires SchemaOk(s) && Versions(s, r) && (t, u) in r
  {
    exists k :: 0 <= k < |s[u].fields| && Shared(s, r, t, u, k) == Found(j)
  }

  /** The writer's field for the reader's field `j`. */
  lemma Counterpart(s: seq<Type>, r: set<(nat, nat)>, t: nat, u: nat, j: nat) returns (k: nat)
    requires SchemaOk(s) && Versions(s, r) && (t, u) in r && Older(s, r) && t < |s| && u < |s| && j < |s[t].fields|
    ensures k < |s[u].fields| && Shared(s, r, t, u, k) == Found(j) && SameField(r, s[t].fields[j], s[u].fields[k])
  {
    assert Kept(s, r, t, u) && Has(s, r, t, u, j);
    k :| 0 <= k < |s[u].fields| && Shared(s, r, t, u, k) == Found(j);
  }

  lemma {:induction false} OlderTypedField(s: seq<Type>, r: set<(nat, nat)>, f: Field, g: Field, v: Value)
    requires SchemaOk(s) && Versions(s, r) && SameField(r, f, g) && TypedField(s, g, v) && Older(s, r)
    ensures TypedField(s, f, v)
    decreases v, 1
  {
    hide Versions, Older, Typed;
    if f.isArray {
      forall i | 0 <= i < |v.es| && v.es[i].Some? ensures Typed(s, f.kind, v.es[i].value) {
        OlderTyped(s, r, f.kind, g.kind, v.es[i].value);
      }
    } else {
      OlderTyped(s, r, f.kind, g.kind, v);
    }
  }

  /** What the newer types allow, the older ones do. */
  lemma {:induction false} OlderTyped(s: seq<Type>, r: set<(nat, nat)>, a: Kind, b: Kind, v: Value)
    requires SchemaOk(s) && Versions(s, r) && SameKind(r, a, b) && Typed(s, b, v) && Older(s, r)
    ensures Typed(s, a, v)
    decreases v, 0
  {
    hide Versions, Older, TypedField;
    if b.TStruct? {
      Paired(s, r, a.tid, b.tid);
      forall j | 0 <= j < |s[a.tid].fields| && s[a.tid].fields[j].name in v.m
        ensures TypedField(s, s[a.tid].fields[j], v.m[s[a.tid].fields[j].name])
      {
        var k := Counterpart(s, r, a.tid, b.tid, j);
        OlderTypedField(s, r, s[a.tid].fields[j], s[b.tid].fields[k], v.m[s[a.tid].fields[j].name]);
      }
    }
  }

  lemma {:induction false} OlderElems(s: seq<Type>, r: set<(nat, nat)>, f: Field, g: Field, v: Value, n: nat)
    requires SchemaOk(s) && Versions(s, r) && SameField(r, f, g) && g.isArray && Older(s, r)
    requires TypedField(s, g, v) && TypedField(s, f, v) && n <= |Prefix(v.es)|
    ensures ReadElems(s, r, f.kind, g, v, n) == NormElems(s, f, v, n)
    decreases v, 0, n
  {
    hide Versions, Older, Prefix, Read, Norm;
    if n > 0 {
      OlderElems(s, r, f, g, v, n - 1);
      OlderSees(s, r, f.kind, g.kind, v.es[n - 1].value);
    }
  }

  lemma {:induction false} OlderField(s: seq<Type>, r: set<(nat, nat)>, f: Field, g: Field, v: Value)
    requires SchemaOk(s) && Versions(s, r) && SameField(r, f, g) && Older(s, r)
    requires v.VStruct? && (g.name in v.m ==> TypedField(s, g, v.m[g.name]) && TypedField(s, f, v.m[f.name]))
    ensures ReadField(s, r, f.kind, g, v) == NormField(s, f, v)
    decreases v, 1
  {
    hide Versions, Older, Read, Norm, ReadElems, NormElems;
    if g.name in v.m {
      if g.isArray {
        OlderElems(s, r, f, g, v.m[g.name], |Prefix(v.m[g.name].es)|);
      } else {
        OlderSees(s, r, f.kind, g.kind, v.m[g.name]);
      }
    }
  }

  /** An older reader sees the normal form that its own types give the value. */
  lemma {:induction false} OlderSees(s: seq<Type>, r: set<(nat, nat)>, a: Kind, b: Kind, v: Value)
    requires SchemaOk(s) && Versions(s, r) && SameKind(r, a, b) && Typed(s, b, v) && Typed(s, a, v) && Older(s, r)
    ensures Read(s, r, a, b, v) == Norm(s, a, v)
    decreases v, 2
  {
    hide Versions, Older, ReadFields, NormFields, ReadField, NormField, TypedField;
    if b.TStruct? {
      Paired(s, r, a.tid, b.tid);
      var t, u := a.tid, b.tid;
      var m, n := ReadFields(s, r, t, u, v, 0, map[]), NormFields(s, t, v, 0, map[]);
      forall name ensures (name in m <==> name in n) && (name in n ==> m[name] == n[name]) {
        if j :| 0 <= j < |s[t].fields| && s[t].fields[j].name == name {
          var k := Counterpart(s, r, t, u, j);
          NormFieldsAt(s, t, v, 0, map[], j);
          ReadFieldsAt(s, r, t, u, v, 0, map[], k);
          OlderField(s, r, s[t].fields[j], s[u].fields[k], v);
        } else {
          NormFieldsOnly(s, t, v, 0, map[], name);
          ReadFieldsOnly(s, r, t, u, v, 0, map[], name);
        }
      }
      assert m == n;
    }
  }

  // ---------------------------------------------------------------- upgrades

  /** A reader with older types and a writer with newer ones: whatever was added anywhere, the reader gets what its own
      types would have made of the value, if nothing written stands right behind one of its tables. */
  lemma OlderReads(s: seq<Type>, r: set<(nat, nat)>, t: nat, u: nat, v: Value)
    requires SchemaOk(s) && Versions(s, r) && (t, u) in r && t < |s| && u < |s| && Older(s, r) && Typed(s, TStruct(u), v)
    requires EncStruct(s, u, v, 0).Some? && |EncStruct(s, u, v, 0).value| < TWO_32
    ensures Typed(s, TStruct(t), v)
    ensures var b := EncStruct(s, u, v, 0).value;
            DecStruct(s, t, b, 0, |b|, 0)
            == if Trips(s, r, TStruct(t), TStruct(u), v) then Throws else Decoded(Norm(s, TStruct(t), v), |b|)
  {
    hide EncStruct, DecStruct, Read, Norm, Trips, Versions, Older, Typed;
    OlderTyped(s, r, TStruct(t), TStruct(u), v);
    OlderSees(s, r, TStruct(t), TStruct(u), v);
    VersionsRead(s, r, t, u, v);
  }

  /** A reader with newer types gets every value of an older writer, in the writer's normal form: of the fields the writer
      does not know it has none, arrays included. */
  lemma NewerReads(s: seq<Type>, r: set<(nat, nat)>, t: nat, u: nat, v: Value)
    requires SchemaOk(s) && Versions(s, r) && (t, u) in r && t < |s| && u < |s| && Newer(s, r) && Typed(s, TStruct(u), v)
    requires EncStruct(s, u, v, 0).Some? && |EncStruct(s, u, v, 0).value| < TWO_32
    ensures var b := EncStruct(s, u, v, 0).value; DecStruct(s, t, b, 0, |b|, 0) == Decoded(Norm(s, TStruct(u), v), |b|)
  {
    hide EncStruct, DecStruct, Read, Norm, Trips, Versions, Newer, Typed;
    NewerApart(s, r);
    Passes(s, r, TStruct(t), TStruct(u), v);
    NewerSees(s, r, TStruct(t), TStruct(u), v);
    VersionsRead(s, r, t, u, v);
  }

  lemma NewerApart(s: seq<Type>, r: set<(nat, nat)>)
    requires SchemaOk(s) && Versions(s, r) && Newer(s, r)
    ensures Apart(s, r)
  {
    forall t, u, k | (t, u) in r && 0 <= k < |s[u].fields| ensures !RightBehind(s[t], s[u].fields[k].tag) {
      assert Shared(s, r, t, u, k).Found?;
      FindIff(s[t], |s|, s[u].fields[k].tag);
    }
  }

  // ---------------------------------------------------------------- one more field

  /** Every type and itself. */
  ghost predicate Selves(s: seq<Type>, r: set<(nat, nat)>) {
    forall k :: 0 <= k < |s| ==> (k, k) in r
  }

  lemma {:induction false} SelfElems(s: seq<Type>, r: set<(nat, nat)>, g: Field, v: Value, i: nat)
    requires SchemaOk(s) && Versions(s, r) && Selves(s, r) && SameKind(r, g.kind, g.kind) && g.isArray && TypedField(s, g, v)
    requires i <= |Prefix(v.es)|
    ensures !TripsElem(s, r, g.kind, g, v, i)
    decreases v, 0, |Prefix(v.es)| - i
  {
    hide Versions, Selves, Prefix, Trips;
    if i < |Prefix(v.es)| {
      SelfPasses(s, r, g.kind, v.es[i].value);
      SelfElems(s, r, g, v, i + 1);
    }
  }

  lemma {:induction false} SelfInside(s: seq<Type>, r: set<(nat, nat)>, g: Field, v: Value)
    requires SchemaOk(s) && Versions(s, r) && Selves(s, r) && SameKind(r, g.kind, g.kind)
    requires v.VStruct? && (g.name in v.m ==> TypedField(s, g, v.m[g.name]))
    ensures !TripsInside(s, r, g.kind, g, v)
    decreases v, 1
  {
    hide Versions, Selves, Trips, TripsElem;
    if g.name in v.m {
      if g.isArray { SelfElems(s, r, g, v.m[g.name], 0); } else { SelfPasses(s, r, g.kind, v.m[g.name]); }
    }
  }

  lemma {:induction false} SelfFields(s: seq<Type>, r: set<(nat, nat)>, u: nat, v: Value, k: nat)
    requires SchemaOk(s) && Versions(s, r) && Selves(s, r) && u < |s| && Typed(s, TStruct(u), v) && k <= |s[u].fields|
    ensures !TripsFrom(s, r, u, u, v, k)
    decreases v, 2, |s[u].fields| - k
  {
    hide Versions, TripsInside;
    if k < |s[u].fields| {
      FindsEveryField(s[u], |s|, k);
      SelfInside(s, r, s[u].fields[k], v);
      SelfFields(s, r, u, v, k + 1);
    }
  }

  /** Among themselves the readers of one version never trip. */
  lemma {:induction false} SelfPasses(s: seq<Type>, r: set<(nat, nat)>, a: Kind, v: Value)
    requires SchemaOk(s) && Versions(s, r) && Selves(s, r) && SameKind(r, a, a) && Typed(s, a, v)
    ensures !Trips(s, r, a, a, v)
    decreases v, 3
  {
    hide Versions, Selves, TripsFrom;
    if a.TStruct? {
      Paired(s, r, a.tid, a.tid);
      SelfFields(s, r, a.tid, v, 0);
    }
  }

  /** `u` is `t` and one field more. */
  ghost predicate OneMore(s: seq<Type>, t: nat, u: nat) {
    t < |s| && u < |s| && |s[u].fields| == |s[t].fields| + 1 && s[u].fields[..|s[t].fields|] == s[t].fields
  }

  ghost function WithSelves(s: seq<Type>, t: nat, u: nat): set<(nat, nat)> {
    (set k: nat | k < |s| :: (k, k)) + {(t, u)}
  }

  lemma OneMoreVersions(s: seq<Type>, t: nat, u: nat)
    requires SchemaOk(s) && OneMore(s, t, u)
    ensures var r := WithSelves(s, t, u); Versions(s, r) && Selves(s, r) && (t, u) in r
  {
    var r := WithSelves(s, t, u);
    forall a, b | (a, b) in r ensures a < |s| && b < |s| && Agree(r, s[a].fields, s[b].fields) {
      assert TypeOk(s[a], |s|) && TypeOk(s[b], |s|);
      assert a == b || (a == t && b == u);
      forall j | 0 <= j < |s[a].fields| ensures s[a].fields[j] == s[b].fields[j] {
        if a != b { assert s[u].fields[..|s[t].fields|][j] == s[t].fields[j]; }
      }
    }
  }

  lemma PrefixKept(s: seq<Type>, r: set<(nat, nat)>, a: nat, b: nat)
    requires SchemaOk(s) && Versions(s, r) && (a, b) in r && a < |s| && b < |s| && s[a].fields <= s[b].fields
    ensures Kept(s, r, a, b)
  {
    hide Versions;
    forall j | 0 <= j < |s[a].fields| ensures Has(s, r, a, b, j) {
      FindsEveryField(s[a], |s|, j);
      assert Shared(s, r, a, b, j) == Found(j);
    }
  }

  lemma OneMoreOlder(s: seq<Type>, t: nat, u: nat)
    requires SchemaOk(s) && OneMore(s, t, u) && Versions(s, WithSelves(s, t, u))
    ensures Older(s, WithSelves(s, t, u))
  {
    hide Versions, Kept;
    var r := WithSelves(s, t, u);
    forall a, b | (a, b) in r ensures Kept(s, r, a, b) {
      assert a == b || (a == t && b == u);
      PrefixKept(s, r, a, b);
    }
  }

  lemma SharedPrefix(s: seq<Type>, t: nat, u: nat, k: nat)
    requires SchemaOk(s) && OneMore(s, t, u) && k <= |s[t].fields|
    ensures k < |s[t].fields| ==> s[u].fields[k] == s[t].fields[k] && Find(s[t], s[u].fields[k].tag) == Found(k)
    ensures k == |s[t].fields| ==>
              Find(s[t], s[u].fields[k].tag) == if RightBehind(s[t], s[u].fields[k].tag) then Crash else Unknown
  {
    var n, tag := |s[t].fields|, s[u].fields[k].tag;
    assert forall j :: 0 <= j < n ==> s[t].fields[j] == s[u].fields[..n][j];
    assert TypeOk(s[u], |s|);
    FindIff(s[t], |s|, tag);
  }

  lemma {:induction false} OneMoreTrips(s: seq<Type>, t: nat, u: nat, v: Value, k: nat)
    requires SchemaOk(s) && OneMore(s, t, u) && Versions(s, WithSelves(s, t, u)) && Typed(s, TStruct(u), v)
    requires k <= |s[t].fields| && (t, u) in WithSelves(s, t, u) && Selves(s, WithSelves(s, t, u))
    ensures var g := s[u].fields[|s[t].fields|];
            TripsFrom(s, WithSelves(s, t, u), t, u, v, k) <==> RightBehind(s[t], g.tag) && (g.isArray || g.name in v.m)
    decreases |s[t].fields| - k
  {
    hide Versions, TripsInside, WithSelves, RightBehind, Find;
    var r := WithSelves(s, t, u);
    SharedPrefix(s, t, u, k);
    if k < |s[t].fields| {
      OneMoreTrips(s, t, u, v, k + 1);
      var kind := s[t].fields[k].kind;
      assert kind.TStruct? ==> kind.tid < |s| && (kind.tid, kind.tid) in r;
      hide Selves;
      SelfInside(s, r, s[t].fields[k], v);
    }
  }

  /** A field appended to a type: a reader without it gets its own normal form of every value, and throws exactly at the
      messages that carry the field if the type had no gaps and the field stands right behind it. */
  lemma AppendedField(s: seq<Type>, t: nat, u: nat, v: Value)
    requires SchemaOk(s) && OneMore(s, t, u) && Typed(s, TStruct(u), v)
    requires EncStruct(s, u, v, 0).Some? && |EncStruct(s, u, v, 0).value| < TWO_32
    ensures Typed(s, TStruct(t), v)
    ensures var b, g := EncStruct(s, u, v, 0).value, s[u].fields[|s[t].fields|];
            DecStruct(s, t, b, 0, |b|, 0)
            == if RightBehind(s[t], g.tag) && (g.isArray || g.name in v.m) then Throws
               else Decoded(Norm(s, TStruct(t), v), |b|)
  {
    hide EncStruct, DecStruct, Norm, TripsFrom, Versions, Older, Typed, Selves, WithSelves, RightBehind;
    OneMoreVersions(s, t, u);
    OneMoreOlder(s, t, u);
    OneMoreTrips(s, t, u, v, 0);
    OlderReads(s, WithSelves(s, t, u), t, u, v);
  }
}
