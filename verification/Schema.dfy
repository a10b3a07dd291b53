/** Imported sproto types: field layout and the lookup of a field by its tag. */
module Schema {
  import opened Options

  datatype Kind = TInteger | TBoolean | TString | TStruct(tid: nat)

  datatype Field = Field(tag: nat, name: string, isArray: bool, kind: Kind)

  /** `maxn` bounds the header records of a value; `base` is the first tag when the tags are contiguous, else -1. */
  datatype Type = Type(fields: seq<Field>, maxn: nat, base: int)

  /** Tags come out of a header word, so they stay below this. */
  const MAX_TAG: nat := 0x7ffe

  /** The fields in an imported type: increasing tags, and names that tell them apart. */
  predicate FieldsOk(fields: seq<Field>, types: nat) {
    && (forall i, j :: 0 <= i < j < |fields| ==> fields[i].tag < fields[j].tag)
    && (forall i, j :: 0 <= i < j < |fields| ==> fields[i].name != fields[j].name)
    && (forall i :: 0 <= i < |fields| ==> fields[i].tag <= MAX_TAG)
    && (forall i :: 0 <= i < |fields| && fields[i].kind.TStruct? ==> fields[i].kind.tid < types)
  }

  function TagBefore(fields: seq<Field>, k: nat): int
    requires k <= |fields|
  {
    if k == 0 then -1 else fields[k - 1].tag
  }

  /** Header records for the first `k` fields when all are present: one each, and one for every gap before them. */
  function Records(fields: seq<Field>, k: nat): (n: nat)
    requires k <= |fields|
  {
    if k == 0 then 0
    else Records(fields, k - 1) + (if fields[k - 1].tag as int > TagBefore(fields, k - 1) + 1 then 2 else 1)
  }

  predicate TypeOk(t: Type, types: nat) {
    && FieldsOk(t.fields, types)
    && t.maxn == Records(t.fields, |t.fields|)
    && t.base == (if t.fields == [] then 0
                  else if t.fields[|t.fields| - 1].tag - t.fields[0].tag + 1 == |t.fields| then t.fields[0].tag else -1)
  }

  predicate SchemaOk(s: seq<Type>) {
    forall k :: 0 <= k < |s| ==> TypeOk(s[k], |s|)
  }

  /** The end of `importType`; it refuses tags that do not increase. */
  method ImportType(fields: seq<Field>) returns (t: Option<Type>)
    ensures t.None? <==> exists i, j :: 0 <= i < j < |fields| && fields[i].tag >= fields[j].tag
    ensures t.Some? ==> t.value.fields == fields
    ensures forall types :: t.Some? && FieldsOk(fields, types) ==> TypeOk(t.value, types)
  {
    if fields == [] {
      return Some(Type([], 0, 0));
    }
    var maxn, last: int := |fields|, -1;
    var i := 0;
    while i < |fields|
      invariant 0 <= i <= |fields|
      invariant last == TagBefore(fields, i)
      invariant maxn == |fields| - i + Records(fields, i)
      invariant forall a, b :: 0 <= a < b < i ==> fields[a].tag < fields[b].tag
    {
      var tag := fields[i].tag;
      if tag as int <= last {
        return None;
      }
      if tag as int > last + 1 {
        maxn := maxn + 1;
      }
      last := tag;
      i := i + 1;
    }
    var n := fields[|fields| - 1].tag as int - fields[0].tag as int + 1;
    t := Some(Type(fields, maxn, if n != |fields| then -1 else fields[0].tag));
  }

  // ---------------------------------------------------------------- lookup

  datatype Lookup = Found(index: nat) | Unknown | Crash

  /** `findTag`. A tag just behind a contiguous table yields `undefined`, which its caller does not expect. */
  method FindTag(t: Type, tag: nat) returns (r: Lookup)
    ensures r == Find(t, tag)
  {
    if t.base >= 0 {
      var k := tag as int - t.base;
      if k < 0 || k > |t.fields| {
        return Unknown;
      }
      return if k == |t.fields| then Crash else Found(k);
    }
    var begin, end := 0, |t.fields|;
    while begin < end
      invariant 0 <= begin <= end <= |t.fields|
      invariant Find(t, tag) == Search(t.fields, tag, begin, end)
    {
      var mid := (begin + end) / 2;
      if t.fields[mid].tag == tag {
        return Found(mid);
      }
      if tag > t.fields[mid].tag {
        begin := mid + 1;
      } else {
        end := mid;
      }
    }
    return Unknown;
  }

  function Search(fields: seq<Field>, tag: nat, begin: nat, end: nat): (r: Lookup)
    requires begin <= end <= |fields|
    ensures r.Found? ==> r.index < |fields| && fields[r.index].tag == tag
    decreases end - begin
  {
    if begin == end then Unknown
    else
      var mid := (begin + end) / 2;
      if fields[mid].tag == tag then Found(mid)
      else if tag > fields[mid].tag then Search(fields, tag, mid + 1, end)
      else Search(fields, tag, begin, mid)
  }

  function Find(t: Type, tag: nat): (r: Lookup)
    ensures r.Found? ==> r.index < |t.fields|
  {
    if t.base >= 0 then
      var k := tag as int - t.base;
      if k < 0 || k > |t.fields| then Unknown else if k == |t.fields| then Crash else Found(k)
    else Search(t.fields, tag, 0, |t.fields|)
  }

  lemma {:induction false} SearchFinds(fields: seq<Field>, k: nat, begin: nat, end: nat)
    requires forall i, j :: 0 <= i < j < |fields| ==> fields[i].tag < fields[j].tag
    requires begin <= k < end <= |fields|
    ensures Search(fields, fields[k].tag, begin, end) == Found(k)
    decreases end - begin
  {
    var mid := (begin + end) / 2;
    if k > mid {
      SearchFinds(fields, k, mid + 1, end);
    } else if k < mid {
      SearchFinds(fields, k, begin, mid);
    }
  }

  lemma {:induction false} ContiguousTags(fields: seq<Field>, i: nat, j: nat)
    requires forall a, b :: 0 <= a < b < |fields| ==> fields[a].tag < fields[b].tag
    requires i <= j < |fields|
    ensures fields[j].tag >= fields[i].tag + (j - i)
    decreases j - i
  {
    if i < j {
      ContiguousTags(fields, i, j - 1);
    }
  }

  /** Either form of the lookup finds every field by its tag. */
  lemma FindsEveryField(t: Type, types: nat, k: nat)
    requires TypeOk(t, types) && k < |t.fields|
    ensures Find(t, t.fields[k].tag) == Found(k)
  {
    if t.base >= 0 {
      ContiguousTags(t.fields, 0, k);
      ContiguousTags(t.fields, k, |t.fields| - 1);
    } else {
      SearchFinds(t.fields, k, 0, |t.fields|);
    }
  }

  /** The tags have no gaps between them. */
  predicate Contiguous(fields: seq<Field>) {
    forall k :: 0 <= k < |fields| ==> fields[k].tag == fields[0].tag + k
  }

  lemma {:induction false} SearchMisses(fields: seq<Field>, tag: nat, begin: nat, end: nat)
    requires begin <= end <= |fields| && forall k :: 0 <= k < |fields| ==> fields[k].tag != tag
    ensures Search(fields, tag, begin, end) == Unknown
    decreases end - begin
  {
    if begin < end {
      var mid := (begin + end) / 2;
      SearchMisses(fields, tag, mid + 1, end);
      SearchMisses(fields, tag, begin, mid);
    }
  }

  lemma BaseIsFirst(t: Type, types: nat)
    requires TypeOk(t, types)
    ensures t.base >= 0 <==> Contiguous(t.fields)
    ensures t.base >= 0 && t.fields != [] ==> t.base == t.fields[0].tag
  {
    var n := |t.fields|;
    forall k | 0 <= k < n && t.base >= 0 ensures t.fields[k].tag == t.fields[0].tag + k {
      ContiguousTags(t.fields, 0, k);
      ContiguousTags(t.fields, k, n - 1);
    }
  }

  /** What the lookup answers, for every type and tag: the field with that tag; an error for the tag right behind a table
      without gaps; and for every other tag that it is unknown. */
  lemma FindIff(t: Type, types: nat, tag: nat)
    requires TypeOk(t, types)
    ensures var n := |t.fields|; var behind := if n == 0 then 0 else t.fields[n - 1].tag + 1;
            && (forall k: nat :: Find(t, tag) == Found(k) <==> k < n && t.fields[k].tag == tag)
            && (Find(t, tag) == Crash <==> Contiguous(t.fields) && tag == behind)
            && (Find(t, tag) == Unknown
                <==> (forall k :: 0 <= k < n ==> t.fields[k].tag != tag) && !(Contiguous(t.fields) && tag == behind))
  {
    BaseIsFirst(t, types);
    var n := |t.fields|;
    if t.base >= 0 {
      var j := tag as int - t.base;
      if 0 <= j < n {
        assert t.fields[j].tag == tag;
        FindsEveryField(t, types, j);
      }
    } else if k :| 0 <= k < n && t.fields[k].tag == tag {
      FindsEveryField(t, types, k);
    } else {
      SearchMisses(t.fields, tag, 0, n);
    }
  }
}
