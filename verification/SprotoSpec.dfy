/** The sproto wire form of a typed value, and what decoding makes of a byte string. */
module SprotoSpec {
  import opened Bytes
  import opened Options
  import opened Words
  import opened Schema

  /** Values as the codec sees them: numbers and bigints are one integer type, strings and binaries are bytes. A missing
      array element is a null, a missing field is missing from the map. */
  datatype Value =
    | VInt(i: int)
    | VBool(b: bool)
    | VBytes(s: seq<byte>)
    | VStruct(m: map<string, Value>)
    | VArray(es: seq<Option<Value>>)

  const DEEP_LEVEL: nat := 64

  // ---------------------------------------------------------------- typed values

  predicate Typed(s: seq<Type>, kind: Kind, v: Value)
    decreases v, 0
  {
    match kind
    case TInteger => v.VInt? && IsInt64(v.i)
    case TBoolean => v.VBool?
    case TString => v.VBytes?
    case TStruct(tid) =>
      && v.VStruct? && tid < |s|
      && forall k :: 0 <= k < |s[tid].fields| && s[tid].fields[k].name in v.m ==>
           TypedField(s, s[tid].fields[k], v.m[s[tid].fields[k].name])
  }

  predicate TypedField(s: seq<Type>, f: Field, v: Value)
    decreases v, 1
  {
    if f.isArray then v.VArray? && forall i :: 0 <= i < |v.es| && v.es[i].Some? ==> Typed(s, f.kind, v.es[i].value)
    else Typed(s, f.kind, v)
  }

  // ---------------------------------------------------------------- the wire form

  /** What one field contributes: nothing, a header word that holds its value, or a header word 0 and data. */
  datatype Slot = Absent | Inline(word: nat) | Data(bytes: seq<byte>)

  datatype Parts = Parts(words: seq<nat>, data: seq<byte>)

  function Sized(b: seq<byte>): seq<byte> {
    LE(|b|, 4) + b
  }

  /** The elements before the first null. */
  function Prefix(es: seq<Option<Value>>): (r: seq<Value>)
    ensures |r| <= |es| && forall i :: 0 <= i < |r| ==> es[i] == Some(r[i])
    ensures |r| < |es| ==> es[|r|].None?
  {
    if es == [] || es[0].None? then [] else [es[0].value] + Prefix(es[1..])
  }

  predicate AllInts(vs: seq<Value>) {
    forall i :: 0 <= i < |vs| ==> vs[i].VInt? && IsInt64(vs[i].i)
  }

  function Width(vs: seq<Value>): nat
    requires AllInts(vs)
  {
    if exists i :: 0 <= i < |vs| && !IsInt32(vs[i].i) then 8 else 4
  }

  /** The integers `vs[..n]` in words of `w` bytes. */
  function IntWords(vs: seq<Value>, n: nat, w: nat): (b: seq<byte>)
    requires AllInts(vs) && n <= |vs|
    ensures |b| == n * w
  {
    if n == 0 then [] else IntWords(vs, n - 1, w) + LE(vs[n - 1].i, w)
  }

  function EncInts(vs: seq<Value>): seq<byte>
    requires AllInts(vs)
  {
    if vs == [] then [] else [Width(vs) as byte] + IntWords(vs, |vs|, Width(vs))
  }

  function EncBools(vs: seq<Value>): (b: seq<byte>)
    requires forall i :: 0 <= i < |vs| ==> vs[i].VBool?
    ensures |b| == |vs| && forall i :: 0 <= i < |vs| ==> b[i] == if vs[i].b then 1 else 0
  {
    seq(|vs|, i requires 0 <= i < |vs| => if vs[i].b then 1 else 0)
  }

  function EncElem(s: seq<Type>, kind: Kind, v: Value, deep: nat): Option<seq<byte>>
    requires SchemaOk(s) && Typed(s, kind, v) && (kind.TString? || kind.TStruct?)
    decreases v, 3
  {
    if kind.TString? then Some(v.s) else EncStruct(s, kind.tid, v, deep + 1)
  }

  /** Strings or structs of an array from element `i` to the first null, each behind its size. */
  function EncElems(s: seq<Type>, f: Field, v: Value, i: nat, deep: nat): Option<seq<byte>>
    requires SchemaOk(s) && f.isArray && TypedField(s, f, v) && (f.kind.TString? || f.kind.TStruct?) && i <= |v.es|
    decreases v, 0, |v.es| - i
  {
    if i == |v.es| || v.es[i].None? then Some([])
    else
      var b := EncElem(s, f.kind, v.es[i].value, deep);
      if b.None? then None
      else
        var rest := EncElems(s, f, v, i + 1, deep);
        if rest.None? then None else Some(Sized(b.value) + rest.value)
  }

  function EncArray(s: seq<Type>, f: Field, v: Value, deep: nat): Option<seq<byte>>
    requires SchemaOk(s) && f.isArray && TypedField(s, f, v)
    decreases v, 1
  {
    assert forall i :: 0 <= i < |Prefix(v.es)| ==> v.es[i].Some? && Typed(s, f.kind, Prefix(v.es)[i]);
    match f.kind
    case TInteger => Some(EncInts(Prefix(v.es)))
    case TBoolean => Some(EncBools(Prefix(v.es)))
    case _ => EncElems(s, f, v, 0, deep)
  }

  function EncInt(i: int): Slot {
    if IsInt32(i) then
      var u := i % TWO_32;
      if u < 0x7fff then Inline((u + 1) * 2) else Data(Sized(LE(u, 4)))
    else Data(Sized(LE(i, 8)))
  }

  function EncScalar(s: seq<Type>, kind: Kind, v: Value, deep: nat): Option<Slot>
    requires SchemaOk(s) && Typed(s, kind, v)
    decreases v, 4
  {
    match kind
    case TInteger => Some(EncInt(v.i))
    case TBoolean => Some(Inline(if v.b then 4 else 2))
    case _ =>
      var b := EncElem(s, kind, v, deep);
      if b.None? then None else Some(Data(Sized(b.value)))
  }

  /** One field of the struct `v`; nothing is encoded below the depth limit. */
  function EncField(s: seq<Type>, f: Field, v: Value, deep: nat): Option<Slot>
    requires SchemaOk(s) && v.VStruct? && (f.name in v.m ==> TypedField(s, f, v.m[f.name]))
    decreases v, 0
  {
    if deep >= DEEP_LEVEL then None
    else if f.name !in v.m then Some(if f.isArray then Data(Sized([])) else Absent)
    else if f.isArray then
      var b := EncArray(s, f, v.m[f.name], deep);
      if b.None? then None else Some(Data(Sized(b.value)))
    else EncScalar(s, f.kind, v.m[f.name], deep)
  }

  /** A skip word for the tags passed over, then the field's own word. */
  function TagWords(lasttag: int, tag: int, word: nat): (w: seq<nat>)
    requires lasttag < tag
  {
    if tag - lasttag - 1 > 0 then [(tag - lasttag - 2) * 2 + 1, word] else [word]
  }

  /** Header words and data of the fields from `k` on, `lasttag` being the last tag written. */
  function EncFields(s: seq<Type>, tid: nat, v: Value, deep: nat, k: nat, lasttag: int): Option<Parts>
    requires SchemaOk(s) && tid < |s| && Typed(s, TStruct(tid), v)
    requires k <= |s[tid].fields| && lasttag <= TagBefore(s[tid].fields, k)
    decreases v, 1, |s[tid].fields| - k
  {
    if k == |s[tid].fields| then Some(Parts([], []))
    else
      var f := s[tid].fields[k];
      var slot := EncField(s, f, v, deep);
      if slot.None? then None
      else
        var written := !slot.value.Absent?;
        var rest := EncFields(s, tid, v, deep, k + 1, if written then f.tag else lasttag);
        if rest.None? then None
        else match slot.value
          case Absent => rest
          case Inline(word) => Some(Parts(TagWords(lasttag, f.tag, word) + rest.value.words, rest.value.data))
          case Data(bytes) => Some(Parts(TagWords(lasttag, f.tag, 0) + rest.value.words, bytes + rest.value.data))
  }

  function WordBytes(ws: seq<nat>): (b: seq<byte>)
    ensures |b| == 2 * |ws|
  {
    if ws == [] then [] else WordBytes(ws[..|ws| - 1]) + LE(ws[|ws| - 1], 2)
  }

  function Assembled(parts: Parts): seq<byte> {
    LE(|parts.words|, 2) + WordBytes(parts.words) + parts.data
  }

  /** The bytes of a struct, or none when it is too deep. */
  function EncStruct(s: seq<Type>, tid: nat, v: Value, deep: nat): Option<seq<byte>>
    requires SchemaOk(s) && tid < |s| && Typed(s, TStruct(tid), v)
    decreases v, 2
  {
    var parts := EncFields(s, tid, v, deep, 0, -1);
    if parts.None? then None else Some(Assembled(parts.value))
  }

  // ---------------------------------------------------------------- decoding

  /** A decoded field: a negative return code, an exception, nothing to store, or a value. */
  datatype Got = Bad | Thrown | Nothing | Got(value: Value)

  /** A decoded struct and how many bytes it used, or the two ways to fail. */
  datatype Decoded = Fails | Throws | Decoded(value: Value, used: nat)

  function DecBool(b: int): Option<Value> {
    if b == 1 then Some(VBool(true)) else if b == 0 then Some(VBool(false)) else None
  }

  /** `n` integers of `w` bytes from position `p` on. */
  function DecInts(d: seq<byte>, p: nat, n: nat, w: nat): (es: seq<Option<Value>>)
    requires w in {4, 8} && p + n * w <= |d|
    ensures |es| == n
  {
    if n == 0 then []
    else
      DecInts(d, p, n - 1, w)
      + [Some(VInt(if w == 4 then Signed32(Word(d, p + (n - 1) * 4, 4)) else Signed64(Word(d, p + (n - 1) * 8, 8))))]
  }

  function DecBools(d: seq<byte>, p: nat, n: nat): (es: seq<Option<Value>>)
    requires p + n <= |d|
  {
    seq(n, i requires 0 <= i < n => DecBool(d[p + i] as int))
  }

  /** `decodeArray` for integers, whose first byte is their width. */
  function DecIntArray(d: seq<byte>, p: nat, sz: nat, deep: nat): Got
    requires sz > 0 && p + sz <= |d|
  {
    var w, rest := d[p] as nat, sz - 1;
    if w != 4 && w != 8 then Bad
    else if rest % w != 0 then Bad
    else if rest == 0 then Nothing
    else if deep >= DEEP_LEVEL then Thrown
    else Got(VArray(DecInts(d, p + 1, rest / w, w)))
  }

  /** A string or a struct of exactly `sz` bytes. */
  function DecElem(s: seq<Type>, kind: Kind, d: seq<byte>, p: nat, sz: nat, deep: nat): Got
    requires SchemaOk(s) && (kind.TString? || (kind.TStruct? && kind.tid < |s|)) && p + sz <= |d|
    decreases sz, 3, 0
  {
    if deep >= DEEP_LEVEL then Thrown
    else if kind.TString? then Got(VBytes(d[p..p + sz]))
    else match DecStruct(s, kind.tid, d, p, sz, deep + 1)
      case Fails => Bad
      case Throws => Thrown
      case Decoded(v, used) => if used != sz then Bad else Got(v)
  }

  /** `decodeArrayObject`: elements behind their sizes, until `sz` bytes are used up. */
  function DecElems(s: seq<Type>, kind: Kind, d: seq<byte>, p: nat, sz: nat, deep: nat, es: seq<Option<Value>>): Got
    requires SchemaOk(s) && (kind.TString? || (kind.TStruct? && kind.tid < |s|)) && p + sz <= |d|
    decreases sz, 4, 0
  {
    if sz == 0 then Got(VArray(es))
    else if sz < 4 then Bad
    else
      var h := Word(d, p, 4);
      if h > sz - 4 then Bad
      else
        var e := DecElem(s, kind, d, p + 4, h, deep);
        if !e.Got? then e
        else DecElems(s, kind, d, p + 4 + h, sz - 4 - h, deep, es + [Some(e.value)])
  }

  /** A field whose value is the `sz` bytes of data from `p` on. */
  function DecData(s: seq<Type>, f: Field, d: seq<byte>, p: nat, sz: nat, deep: nat): Got
    requires SchemaOk(s) && (f.kind.TStruct? ==> f.kind.tid < |s|) && p + sz <= |d|
    decreases sz, 5, 0
  {
    if f.isArray then
      if sz == 0 then (if deep >= DEEP_LEVEL then Thrown else Got(VArray([])))
      else match f.kind
        case TInteger => DecIntArray(d, p, sz, deep)
        case TBoolean => if deep >= DEEP_LEVEL then Thrown else Got(VArray(DecBools(d, p, sz)))
        case _ => DecElems(s, f.kind, d, p, sz, deep, [])
    else match f.kind
      case TInteger =>
        if sz != 4 && sz != 8 then Bad
        else if deep >= DEEP_LEVEL then Thrown
        else if sz == 4 then Got(VInt(Signed32(Word(d, p, 4))))
        else Got(VInt(Signed64(Word(d, p, 8))))
      case TBoolean => Bad
      case _ => DecElem(s, f.kind, d, p, sz, deep)
  }

  /** A field whose value stands in its header word. */
  function DecInline(f: Field, value: nat, deep: nat): Got {
    if f.isArray || !(f.kind.TInteger? || f.kind.TBoolean?) then Bad
    else if deep >= DEEP_LEVEL then Thrown
    else if f.kind.TInteger? then Got(VInt(value))
    else match DecBool(value) case None => Nothing case Some(b) => Got(b)
  }

  function Stored(res: map<string, Value>, name: string, got: Got): map<string, Value> {
    if got.Got? then res[name := got.value] else res
  }

  /** The header words from the `i`-th on. The data of the next word that has some is at `p`, `tag` is the last tag. */
  function DecFields(s: seq<Type>, tid: nat, d: seq<byte>, p0: nat, size: nat, deep: nat,
                     fn: nat, i: nat, tag: int, p: nat, res: map<string, Value>): Decoded
    requires SchemaOk(s) && tid < |s| && p0 + size <= |d|
    requires i <= fn && tag >= -1 && p0 + 2 + 2 * fn <= p <= p0 + size
    decreases size, 1, fn - i
  {
    if i == fn then Decoded(VStruct(res), p - p0)
    else
      var w := Word(d, p0 + 2 + 2 * i, 2);
      if w % 2 == 1 then DecFields(s, tid, d, p0, size, deep, fn, i + 1, tag + 1 + w / 2, p, res)
      else if w == 0 && p + 4 > p0 + size then Fails
      else
        var sz := if w == 0 then Word(d, p, 4) else 0;
        if w == 0 && p + 4 + sz > p0 + size then Fails
        else
          var next := if w == 0 then p + 4 + sz else p;
          match Find(s[tid], tag + 1)
          case Unknown => DecFields(s, tid, d, p0, size, deep, fn, i + 1, tag + 1, next, res)
          case Crash => Throws
          case Found(k) =>
            var f := s[tid].fields[k];
            var got := if w == 0 then DecData(s, f, d, p + 4, sz, deep) else DecInline(f, w / 2 - 1, deep);
            if got.Bad? then Fails
            else if got.Thrown? then Throws
            else DecFields(s, tid, d, p0, size, deep, fn, i + 1, tag + 1, next, Stored(res, f.name, got))
  }

  /** `sprotoDecode`: the struct in the `size` bytes from `p0` on, and how many of them it used. */
  function DecStruct(s: seq<Type>, tid: nat, d: seq<byte>, p0: nat, size: nat, deep: nat): Decoded
    requires SchemaOk(s) && tid < |s| && p0 + size <= |d|
    decreases size, 2, 0
  {
    if size < 2 then Fails
    else
      var fn := Word(d, p0, 2);
      if size - 2 < 2 * fn then Fails
      else DecFields(s, tid, d, p0, size, deep, fn, 0, -1, p0 + 2 + 2 * fn, map[])
  }
}
