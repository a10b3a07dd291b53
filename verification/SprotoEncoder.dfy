/** `sprotoEncode` and its callback: the encoder writes into one growing buffer, and what it writes is the wire form. */
module SprotoEncoder {
  import opened Bytes
  import opened Options
  import opened Words
  import opened Schema
  import opened SprotoSpec
  import opened Placing
  import opened IntegerEncoder
  import opened StructLayout

  /** The boolean case of `encodeArray`. */
  method EncodeBooleans(es: seq<Option<Value>>, buf: ByteBuffer, i: nat) returns (end: nat)
    requires |buf.data| <= i && forall k :: 0 <= k < |Prefix(es)| ==> Prefix(es)[k].VBool?
    modifies buf
    ensures buf.data == Placed(old(buf.data), i, EncBools(Prefix(es))) && end == i + |Prefix(es)|
  {
    hide Write, Placed;
    ghost var pre, vs := buf.data, Prefix(es);
    ghost var b := EncBools(vs);
    end := i;
    var index := 1;
    NothingWritten(pre, i);
    while index <= |es| && es[index - 1].Some?
      invariant 1 <= index <= |vs| + 1 && end == i + index - 1
      invariant buf.data == Write(pre, i, b[..index - 1])
    {
      WriteNext(pre, i, b, index - 1);
      buf.Put(end, if es[index - 1].value.b then 1 else 0);
      end := end + 1;
      index := index + 1;
    }
    assert index - 1 == |vs| && b[..|vs|] == b;
    WritePlaces(pre, i, b);
  }

  /** What is still to come behind `d` is the elements from `k` on. */
  ghost predicate ElemsLeft(s: seq<Type>, f: Field, v: Value, k: nat, deep: nat, d: seq<byte>)
    requires SchemaOk(s) && f.isArray && TypedField(s, f, v) && (f.kind.TString? || f.kind.TStruct?) && k <= |v.es|
  {
    var all, rest := EncElems(s, f, v, 0, deep), EncElems(s, f, v, k, deep);
    all.Some? == rest.Some? && (rest.Some? ==> all.value == d + rest.value)
  }

  lemma ElemsNext(s: seq<Type>, f: Field, v: Value, k: nat, deep: nat, d: seq<byte>)
    requires SchemaOk(s) && f.isArray && TypedField(s, f, v) && (f.kind.TString? || f.kind.TStruct?)
    requires k < |v.es| && v.es[k].Some? && ElemsLeft(s, f, v, k, deep, d)
    ensures var b := EncElem(s, f.kind, v.es[k].value, deep);
            if b.None? then EncElems(s, f, v, 0, deep).None? else ElemsLeft(s, f, v, k + 1, deep, d + Sized(b.value))
  {
    hide EncElem, Sized;
    var b, rest := EncElem(s, f.kind, v.es[k].value, deep), EncElems(s, f, v, k + 1, deep);
    if b.Some? && rest.Some? {
      Assoc(d, Sized(b.value), rest.value);
    }
  }

  lemma ElemsEnd(s: seq<Type>, f: Field, v: Value, k: nat, deep: nat, d: seq<byte>)
    requires SchemaOk(s) && f.isArray && TypedField(s, f, v) && (f.kind.TString? || f.kind.TStruct?) && k <= |v.es|
    requires (k == |v.es| || v.es[k].None?) && ElemsLeft(s, f, v, k, deep, d)
    ensures EncElems(s, f, v, 0, deep) == Some(d)
  {
    assert d + [] == d;
  }

  /** The string and struct case of `encodeArray`: every element behind its size. */
  method EncodeElems(s: seq<Type>, f: Field, v: Value, deep: nat, buf: ByteBuffer, i: nat) returns (end: int)
    requires SchemaOk(s) && f.isArray && TypedField(s, f, v) && (f.kind.TString? || f.kind.TStruct?) && |buf.data| <= i
    modifies buf
    ensures match EncElems(s, f, v, 0, deep)
            case None => end == -1
            case Some(b) => end == i + |b| && buf.data == Placed(old(buf.data), i, b)
    decreases v, 0
  {
    hide EncElems, EncElem, Placed, LE, Write, ElemsLeft;
    ghost var pre, d: seq<byte> := buf.data, [];
    var bufferIdx, index := i, 1;
    assert ElemsLeft(s, f, v, 0, deep, []) by { ElemsLeftStart(s, f, v, deep); }
    NothingPlaced(pre, i);
    while index <= |v.es| && v.es[index - 1].Some?
      invariant 1 <= index <= |v.es| + 1
      invariant ElemsLeft(s, f, v, index - 1, deep, d)
      invariant bufferIdx == i + |d| && buf.data == Placed(pre, i, d)
    {
      ElemsNext(s, f, v, index - 1, deep, d);
      PlacedLength(pre, i, d);
      ghost var t := buf.data;
      var sz := EncodeElem(s, f.kind, v.es[index - 1].value, deep, buf, bufferIdx + 4);
      if sz < 0 {
        return -1;
      }
      ghost var b := EncElem(s, f.kind, v.es[index - 1].value, deep).value;
      var _ := FillSize(buf, bufferIdx, sz);
      WriteBack(t, bufferIdx, LE(sz, 4), b);
      PlacedNext(pre, i, d, Sized(b));
      d := d + Sized(b);
      bufferIdx := bufferIdx + 4 + sz;
      index := index + 1;
    }
    ElemsEnd(s, f, v, index - 1, deep, d);
    end := bufferIdx;
  }

  lemma ElemsLeftStart(s: seq<Type>, f: Field, v: Value, deep: nat)
    requires SchemaOk(s) && f.isArray && TypedField(s, f, v) && (f.kind.TString? || f.kind.TStruct?)
    ensures ElemsLeft(s, f, v, 0, deep, [])
  {
    hide EncElems;
    var all := EncElems(s, f, v, 0, deep);
    if all.Some? {
      assert [] + all.value == all.value;
    }
  }

  /** `encodeArray` of an array that is there; its size goes in front at the end. */
  method EncodeArray(s: seq<Type>, f: Field, v: Value, deep: nat, buf: ByteBuffer, i: nat) returns (sz: int)
    requires SchemaOk(s) && f.isArray && TypedField(s, f, v) && |buf.data| <= i
    modifies buf
    ensures match EncArray(s, f, v, deep)
            case None => sz == -1
            case Some(b) => sz == 4 + |b| && buf.data == Placed(old(buf.data), i, Sized(b))
    decreases v, 1
  {
    hide EncElems, Placed, LE, Write, EncInts, EncBools;
    ghost var pre, b := buf.data, EncArray(s, f, v, deep);
    assert forall k :: 0 <= k < |Prefix(v.es)| ==> v.es[k].Some? && Typed(s, f.kind, Prefix(v.es)[k]);
    var end: int;
    if f.kind.TInteger? {
      end := EncodeIntegerArray(v.es, buf, i + 4);
    } else if f.kind.TBoolean? {
      end := EncodeBooleans(v.es, buf, i + 4);
    } else {
      end := EncodeElems(s, f, v, deep, buf, i + 4);
      if end < 0 {
        return -1;
      }
    }
    sz := FillSize(buf, i, end - (i + 4));
    WriteBack(pre, i, LE(|b.value|, 4), b.value);
  }

  /** The callback's string and struct cases: the content without its size. */
  method EncodeElem(s: seq<Type>, kind: Kind, v: Value, deep: nat, buf: ByteBuffer, i: nat) returns (sz: int)
    requires SchemaOk(s) && Typed(s, kind, v) && (kind.TString? || kind.TStruct?) && |buf.data| <= i
    modifies buf
    ensures match EncElem(s, kind, v, deep)
            case None => sz == -1
            case Some(b) => sz == |b| && buf.data == Placed(old(buf.data), i, b)
    decreases v, 3
  {
    hide EncStruct, Placed, Write;
    if kind.TString? {
      WritePlaces(buf.data, i, v.s);
      PutBytes(buf, i, v.s);
      sz := |v.s|;
    } else {
      sz := EncodeStruct(s, kind.tid, v, deep + 1, buf, i);
    }
  }

  /** One field: its size in the data section, or 2 and the header word that holds it, or 0 when it is missing. */
  method EncodeField(s: seq<Type>, f: Field, v: Value, deep: nat, buf: ByteBuffer, i: nat) returns (sz: int, value: nat)
    requires SchemaOk(s) && v.VStruct? && (f.name in v.m ==> TypedField(s, f, v.m[f.name])) && |buf.data| <= i
    modifies buf
    ensures match EncField(s, f, v, deep)
            case None => sz == -1
            case Some(Absent) => sz == 0 && buf.data == old(buf.data)
            case Some(Inline(word)) => sz == 2 && value == word && value != 0 && buf.data == old(buf.data)
            case Some(Data(b)) => sz == |b| && sz > 0 && value == 0 && buf.data == Placed(old(buf.data), i, b)
    decreases v, 1
  {
    hide EncArray, EncScalar, Placed, LE, Write;
    ghost var pre := buf.data;
    value := 0;
    if deep >= DEEP_LEVEL {
      return -1, 0;
    }
    if f.name !in v.m {
      if f.isArray {
        sz := FillSize(buf, i, 0);
        NothingPlaced(pre, i + 4);
        WriteBack(pre, i, LE(0, 4), []);
      } else {
        sz := 0;
      }
      return;
    }
    var x := v.m[f.name];
    if f.isArray {
      sz := EncodeArray(s, f, x, deep, buf, i);
      return;
    }
    sz, value := EncodeScalar(s, f.kind, x, deep, buf, i);
  }

  method EncodeScalar(s: seq<Type>, kind: Kind, x: Value, deep: nat, buf: ByteBuffer, i: nat) returns (sz: int, value: nat)
    requires SchemaOk(s) && Typed(s, kind, x) && |buf.data| <= i
    modifies buf
    ensures match EncScalar(s, kind, x, deep)
            case None => sz == -1
            case Some(Absent) => false
            case Some(Inline(word)) => sz == 2 && value == word && value != 0 && buf.data == old(buf.data)
            case Some(Data(b)) => sz == |b| && sz > 0 && value == 0 && buf.data == Placed(old(buf.data), i, b)
    decreases x, 4
  {
    hide EncElem, Placed, LE, Write, EncInt;
    ghost var pre := buf.data;
    value := 0;
    match kind
    case TInteger =>
      sz, value := EncodeNumber(x.i, buf, i);
    case TBoolean =>
      sz, value := 2, (if x.b then 1 + 1 else 0 + 1) * 2;
    case _ =>
      sz := EncodeElem(s, kind, x, deep, buf, i + 4);
      if sz >= 0 {
        ghost var b := EncElem(s, kind, x, deep).value;
        sz := FillSize(buf, i, sz);
        WriteBack(pre, i, LE(|b|, 4), b);
      }
  }

  method EncodeNumber(v: int, buf: ByteBuffer, i: nat) returns (sz: nat, value: nat)
    requires |buf.data| <= i
    modifies buf
    ensures !EncInt(v).Absent?
    ensures match EncInt(v)
            case Inline(word) => sz == 2 && value == word && value != 0 && buf.data == old(buf.data)
            case Data(b) => sz == |b| && sz > 0 && value == 0 && buf.data == Placed(old(buf.data), i, b)
  {
    hide Placed, LE, Write;
    value := 0;
    if IsInt32(v) {
      var u := v % TWO_32;
      if u < 0x7fff {
        sz, value := 2, (u + 1) * 2;
      } else {
        sz := EncodeInteger(u, buf, i, 4);
      }
    } else {
      sz := EncodeInteger(v, buf, i, 8);
    }
  }

  // ---------------------------------------------------------------- structs

  /** What is still to come behind the records `ws` and the data `d` is the fields from `k` on. */
  ghost predicate FieldsLeft(s: seq<Type>, tid: nat, v: Value, deep: nat, k: nat, lasttag: int, ws: seq<nat>, d: seq<byte>)
    requires SchemaOk(s) && tid < |s| && Typed(s, TStruct(tid), v)
    requires k <= |s[tid].fields| && lasttag <= TagBefore(s[tid].fields, k)
  {
    var all, rest := EncFields(s, tid, v, deep, 0, -1), EncFields(s, tid, v, deep, k, lasttag);
    all.Some? == rest.Some? && (rest.Some? ==> all.value == Parts(ws + rest.value.words, d + rest.value.data))
  }

  lemma FieldsLeftStart(s: seq<Type>, tid: nat, v: Value, deep: nat)
    requires SchemaOk(s) && tid < |s| && Typed(s, TStruct(tid), v)
    ensures FieldsLeft(s, tid, v, deep, 0, -1, [], [])
  {
    hide EncFields;
    var all := EncFields(s, tid, v, deep, 0, -1);
    if all.Some? {
      assert [] + all.value.words == all.value.words && [] + all.value.data == all.value.data;
    }
  }

  lemma FieldsNext(s: seq<Type>, tid: nat, v: Value, deep: nat, k: nat, lasttag: int, ws: seq<nat>, d: seq<byte>)
    requires SchemaOk(s) && tid < |s| && Typed(s, TStruct(tid), v)
    requires k < |s[tid].fields| && lasttag <= TagBefore(s[tid].fields, k) && FieldsLeft(s, tid, v, deep, k, lasttag, ws, d)
    ensures lasttag < s[tid].fields[k].tag
    ensures var f := s[tid].fields[k];
            match EncField(s, f, v, deep)
            case None => EncStruct(s, tid, v, deep).None?
            case Some(Absent) => FieldsLeft(s, tid, v, deep, k + 1, lasttag, ws, d)
            case Some(Inline(w)) => FieldsLeft(s, tid, v, deep, k + 1, f.tag, ws + TagWords(lasttag, f.tag, w), d)
            case Some(Data(b)) => FieldsLeft(s, tid, v, deep, k + 1, f.tag, ws + TagWords(lasttag, f.tag, 0), d + b)
  {
    hide EncField, TagWords;
    var f := s[tid].fields[k];
    var slot := EncField(s, f, v, deep);
    if slot.Some? && !slot.value.Absent? {
      var rest := EncFields(s, tid, v, deep, k + 1, f.tag);
      if rest.Some? {
        var w := TagWords(lasttag, f.tag, if slot.value.Inline? then slot.value.word else 0);
        assert ws + w + rest.value.words == ws + (w + rest.value.words);
        if slot.value.Data? {
          Assoc(d, slot.value.bytes, rest.value.data);
        }
      }
    }
  }

  lemma FieldsEnd(s: seq<Type>, tid: nat, v: Value, deep: nat, lasttag: int, ws: seq<nat>, d: seq<byte>)
    requires SchemaOk(s) && tid < |s| && Typed(s, TStruct(tid), v)
    requires lasttag <= TagBefore(s[tid].fields, |s[tid].fields|)
    requires FieldsLeft(s, tid, v, deep, |s[tid].fields|, lasttag, ws, d)
    ensures EncStruct(s, tid, v, deep) == Some(Assembled(Parts(ws, d)))
  {
    hide Assembled;
    assert ws + [] == ws && d + [] == d;
  }

  lemma {:induction false} RecordsGrow(fields: seq<Field>, k: nat)
    requires k <= |fields|
    ensures Records(fields, k) <= Records(fields, |fields|)
    decreases |fields| - k
  {
    if k < |fields| {
      RecordsGrow(fields, k + 1);
    }
  }

  /** One more field, written or not, stays within the records counted for it. */
  lemma RecordsSuffice(s: seq<Type>, tid: nat, k: nat, lasttag: int, index: nat, value: nat)
    requires SchemaOk(s) && tid < |s| && k < |s[tid].fields| && -1 <= lasttag <= TagBefore(s[tid].fields, k)
    requires index + (if lasttag < TagBefore(s[tid].fields, k) then 1 else 0) <= Records(s[tid].fields, k)
    ensures var f := s[tid].fields[k];
            && lasttag < f.tag == TagBefore(s[tid].fields, k + 1)
            && index + |TagWords(lasttag, f.tag, value)| <= Records(s[tid].fields, k + 1) <= s[tid].maxn
            && index + 1 <= Records(s[tid].fields, k + 1)
  {
    RecordsGrow(s[tid].fields, k + 1);
  }

  /** `sprotoEncode`: the records and the data are written side by side; they never meet. */
  method EncodeStruct(s: seq<Type>, tid: nat, v: Value, deep: nat, buf: ByteBuffer, headerIdx: nat) returns (r: int)
    requires SchemaOk(s) && tid < |s| && Typed(s, TStruct(tid), v) && |buf.data| <= headerIdx
    modifies buf
    ensures match EncStruct(s, tid, v, deep)
            case None => r == -1
            case Some(b) => r == |b| && buf.data == Placed(old(buf.data), headerIdx, b)
    decreases v, 2
  {
    hide EncField, EncFields, EncStruct, FieldsLeft, Layout, Placed, Assembled, Typed, Records, TagWords;
    var t := s[tid];
    ghost var pre, ws: seq<nat>, d: seq<byte> := buf.data, [], [];
    var dataIdx, index, lasttag: int := DataStart(headerIdx, t.maxn), 0, -1;
    FieldsLeftStart(s, tid, v, deep);
    LayoutStart(pre, headerIdx, t.maxn);
    var i := 0;
    assert Records(t.fields, 0) == 0 by { NoRecords(t.fields); }
    while i < |t.fields|
      invariant 0 <= i <= |t.fields| && -1 <= lasttag <= TagBefore(t.fields, i)
      invariant FieldsLeft(s, tid, v, deep, i, lasttag, ws, d)
      invariant Layout(buf.data, pre, headerIdx, t.maxn, ws, d)
      invariant index == |ws| && dataIdx == DataStart(headerIdx, t.maxn) + |d|
      invariant index + (if lasttag < TagBefore(t.fields, i) then 1 else 0) <= Records(t.fields, i)
    {
      var f := t.fields[i];
      FieldsNext(s, tid, v, deep, i, lasttag, ws, d);
      LayoutLength(buf.data, pre, headerIdx, t.maxn, ws, d);
      ghost var s0 := buf.data;
      FieldTyped(s, tid, v, i);
      var sz, value := EncodeField(s, f, v, deep, buf, dataIdx);
      if sz < 0 {
        return -1;
      }
      RecordsSuffice(s, tid, i, lasttag, index, value);
      if sz > 0 {
        if value == 0 {
          ghost var b := EncField(s, f, v, deep).value.bytes;
          LayoutData(s0, pre, headerIdx, t.maxn, ws, d, b);
          d := d + b;
          dataIdx := dataIdx + sz;
        }
        index := PutRecord(buf, headerIdx, index, lasttag, f.tag, value, pre, t.maxn, ws, d);
        ws := ws + TagWords(lasttag, f.tag, value);
        lasttag := f.tag;
      }
      i := i + 1;
    }
    FieldsEnd(s, tid, v, deep, lasttag, ws, d);
    r := Finish(buf, headerIdx, t.maxn, index, dataIdx, pre, ws, d);
  }

  lemma NoRecords(fields: seq<Field>)
    ensures Records(fields, 0) == 0
  {
  }

  lemma FieldTyped(s: seq<Type>, tid: nat, v: Value, k: nat)
    requires SchemaOk(s) && tid < |s| && Typed(s, TStruct(tid), v) && k < |s[tid].fields|
    ensures v.VStruct? && (s[tid].fields[k].name in v.m ==> TypedField(s, s[tid].fields[k], v.m[s[tid].fields[k].name]))
  {
  }

  lemma LayoutLength(data: seq<byte>, pre: seq<byte>, h: nat, maxn: nat, ws: seq<nat>, d: seq<byte>)
    requires Layout(data, pre, h, maxn, ws, d)
    ensures |data| <= DataStart(h, maxn) + |d| && |ws| <= maxn
  {
  }

  /** `sp.encode` of a typed value into a fresh buffer. */
  method Encode(s: seq<Type>, tid: nat, v: Value) returns (b: Option<seq<byte>>)
    requires SchemaOk(s) && tid < |s| && Typed(s, TStruct(tid), v)
    ensures b == EncStruct(s, tid, v, 0)
  {
    hide EncStruct;
    var buf := new ByteBuffer();
    var r := EncodeStruct(s, tid, v, 0, buf, 0);
    b := if r < 0 then None else Some(buf.data);
    PlacedAtStart(EncStruct(s, tid, v, 0));
  }

  lemma PlacedAtStart(b: Option<seq<byte>>)
    ensures b.Some? ==> Placed([], 0, b.value) == b.value
  {
    if b.Some? {
      assert [] + b.value == b.value;
    }
  }
}
