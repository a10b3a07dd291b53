/** `sprotoDecode` and its callback. The source cuts its input with `slice` as it goes; here a position moves instead. */
module SprotoDecoder {
  import opened Bytes
  import opened Options
  import opened Words
  import opened Schema
  import opened SprotoSpec

  method ToWord(d: seq<byte>, p: nat) returns (w: nat)
    requires p + 2 <= |d|
    ensures w == Word(d, p, 2)
  {
    w := d[p] as nat + d[p + 1] as nat * 0x100;
    assert Word(d, p + 1, 1) == d[p + 1] as nat + 256 * Word(d, p + 2, 0);
  }

  method ToDword(d: seq<byte>, p: nat) returns (w: nat)
    requires p + 4 <= |d|
    ensures w == Word(d, p, 4)
  {
    w := d[p] as nat + d[p + 1] as nat * 0x100 + d[p + 2] as nat * 0x1_0000 + d[p + 3] as nat * 0x100_0000;
    assert Word(d, p + 3, 1) == d[p + 3] as nat + 256 * Word(d, p + 4, 0);
    assert Word(d, p + 2, 2) == d[p + 2] as nat + 256 * Word(d, p + 3, 1);
    assert Word(d, p + 1, 3) == d[p + 1] as nat + 256 * Word(d, p + 2, 2);
  }

  lemma {:induction false} WordSplit(d: seq<byte>, p: nat, m: nat, n: nat)
    requires p + m + n <= |d|
    ensures Word(d, p, m + n) == Word(d, p, m) + Pow256(m) * Word(d, p + m, n)
    decreases m
  {
    if m > 0 {
      WordSplit(d, p + 1, m - 1, n);
      Times(Pow256(m - 1), Word(d, p + m, n));
    }
  }

  lemma Times(q: nat, w: nat)
    ensures 256 * (q * w) == 256 * q * w
  {
  }

  lemma {:induction false} WordBound(d: seq<byte>, p: nat, n: nat)
    requires p + n <= |d|
    ensures Word(d, p, n) < Pow256(n)
    decreases n
  {
    if n > 0 {
      WordBound(d, p + 1, n - 1);
    }
  }

  /** `int64`: the high word is sign-extended, the low word is added to it. */
  method Int64(d: seq<byte>, p: nat) returns (v: int)
    requires p + 8 <= |d|
    ensures v == Signed64(Word(d, p, 8))
  {
    hide Word, Pow256;
    var low := ToDword(d, p);
    var hi := ToDword(d, p + 4);
    WordSplit(d, p, 4, 4);
    Widths();
    WordBound(d, p, 4);
    WordBound(d, p + 4, 4);
    v := Signed32(hi) * TWO_32 + low;
  }

  /** The integer case of `decodeArray`. */
  method DecodeIntArray(d: seq<byte>, p: nat, sz: nat, deep: nat) returns (r: Got)
    requires sz > 0 && p + sz <= |d|
    ensures r == DecIntArray(d, p, sz, deep)
  {
    hide Word, DecInts;
    var w, rest := d[p] as nat, sz - 1;
    if (w != 4 && w != 8) || rest % w != 0 {
      return Bad;
    }
    if rest == 0 {
      return Nothing;
    }
    if deep >= DEEP_LEVEL {
      return Thrown;
    }
    var n, i, es := rest / w, 0, [];
    assert n * w == rest by { if w == 4 { } else { } }
    DecIntsStart(d, p + 1, w);
    while i < n
      invariant 0 <= i <= n
      invariant p + 1 + i * w <= |d|
      invariant es == DecInts(d, p + 1, i, w)
    {
      var v;
      if w == 4 {
        var u := ToDword(d, p + 1 + i * 4);
        v := Signed32(u);
      } else {
        v := Int64(d, p + 1 + i * 8);
      }
      DecIntsNext(d, p + 1, i, w);
      es := es + [Some(VInt(v))];
      i := i + 1;
    }
    r := Got(VArray(es));
  }

  lemma DecIntsStart(d: seq<byte>, p: nat, w: nat)
    requires w in {4, 8} && p <= |d|
    ensures DecInts(d, p, 0, w) == []
  {
  }

  lemma DecIntsNext(d: seq<byte>, p: nat, i: nat, w: nat)
    requires w in {4, 8} && p + (i + 1) * w <= |d|
    ensures p + i * w + w <= |d|
    ensures DecInts(d, p, i + 1, w) ==
            DecInts(d, p, i, w)
            + [Some(VInt(if w == 4 then Signed32(Word(d, p + i * 4, 4)) else Signed64(Word(d, p + i * 8, 8))))]
  {
    assert p + i * w + w == p + (i + 1) * w;
  }

  /** The boolean case of `decodeArray`; a byte other than 0 and 1 becomes a null. */
  method DecodeBools(d: seq<byte>, p: nat, sz: nat) returns (es: seq<Option<Value>>)
    requires p + sz <= |d|
    ensures es == DecBools(d, p, sz)
  {
    es := [];
    var i := 0;
    while i < sz
      invariant 0 <= i <= sz && es == DecBools(d, p, i)
    {
      es := es + [DecBool(d[p + i] as int)];
      i := i + 1;
    }
  }

  /** `decodeArrayObject` */
  method DecodeElems(s: seq<Type>, kind: Kind, d: seq<byte>, p0: nat, size: nat, deep: nat) returns (r: Got)
    requires SchemaOk(s) && (kind.TString? || (kind.TStruct? && kind.tid < |s|)) && p0 + size <= |d|
    ensures r == DecElems(s, kind, d, p0, size, deep, [])
    decreases size, 4, 0
  {
    hide Word, DecElem, DecElems;
    var p, sz, es := p0, size, [];
    while sz > 0
      invariant p + sz == p0 + size
      invariant DecElems(s, kind, d, p, sz, deep, es) == DecElems(s, kind, d, p0, size, deep, [])
    {
      DecElemsNext(s, kind, d, p, sz, deep, es);
      if sz < 4 {
        return Bad;
      }
      var hsz := ToDword(d, p);
      p, sz := p + 4, sz - 4;
      if hsz > sz {
        return Bad;
      }
      var e := DecodeElem(s, kind, d, p, hsz, deep);
      if !e.Got? {
        return e;
      }
      es := es + [Some(e.value)];
      p, sz := p + hsz, sz - hsz;
    }
    DecElemsEnd(s, kind, d, p, deep, es);
    r := Got(VArray(es));
  }

  lemma DecElemsNext(s: seq<Type>, kind: Kind, d: seq<byte>, p: nat, sz: nat, deep: nat, es: seq<Option<Value>>)
    requires SchemaOk(s) && (kind.TString? || (kind.TStruct? && kind.tid < |s|)) && p + sz <= |d| && sz > 0
    ensures DecElems(s, kind, d, p, sz, deep, es) ==
            if sz < 4 then Bad
            else
              var h := Word(d, p, 4);
              if h > sz - 4 then Bad
              else
                var e := DecElem(s, kind, d, p + 4, h, deep);
                if !e.Got? then e else DecElems(s, kind, d, p + 4 + h, sz - 4 - h, deep, es + [Some(e.value)])
  {
  }

  lemma DecElemsEnd(s: seq<Type>, kind: Kind, d: seq<byte>, p: nat, deep: nat, es: seq<Option<Value>>)
    requires SchemaOk(s) && (kind.TString? || (kind.TStruct? && kind.tid < |s|)) && p <= |d|
    ensures DecElems(s, kind, d, p, 0, deep, es) == Got(VArray(es))
  {
  }

  method DecodeElem(s: seq<Type>, kind: Kind, d: seq<byte>, p: nat, sz: nat, deep: nat) returns (r: Got)
    requires SchemaOk(s) && (kind.TString? || (kind.TStruct? && kind.tid < |s|)) && p + sz <= |d|
    ensures r == DecElem(s, kind, d, p, sz, deep)
    decreases sz, 3, 0
  {
    hide DecStruct;
    if deep >= DEEP_LEVEL {
      return Thrown;
    }
    if kind.TString? {
      var arr, i := [], 0;
      while i < sz
        invariant 0 <= i <= sz && arr == d[p..p + i]
      {
        arr := arr + [d[p + i]];
        i := i + 1;
      }
      return Got(VBytes(arr));
    }
    var x := DecodeStruct(s, kind.tid, d, p, sz, deep + 1);
    match x
    case Fails => r := Bad;
    case Throws => r := Thrown;
    case Decoded(v, used) => r := if used != sz then Bad else Got(v);
  }

  /** A field with data: `decodeArray`, or the cases of `sprotoDecode` for a single value. */
  method DecodeData(s: seq<Type>, f: Field, d: seq<byte>, p: nat, sz: nat, deep: nat) returns (r: Got)
    requires SchemaOk(s) && (f.kind.TStruct? ==> f.kind.tid < |s|) && p + sz <= |d|
    ensures r == DecData(s, f, d, p, sz, deep)
    decreases sz, 5, 0
  {
    hide Word, DecElem, DecElems, DecIntArray, DecBools;
    if f.isArray {
      if sz == 0 {
        return if deep >= DEEP_LEVEL then Thrown else Got(VArray([]));
      }
      match f.kind {
        case TInteger => r := DecodeIntArray(d, p, sz, deep);
        case TBoolean =>
          var es := DecodeBools(d, p, sz);
          r := if deep >= DEEP_LEVEL then Thrown else Got(VArray(es));
        case _ => r := DecodeElems(s, f.kind, d, p, sz, deep);
      }
      return;
    }
    match f.kind
    case TInteger =>
      if sz != 4 && sz != 8 {
        return Bad;
      }
      if deep >= DEEP_LEVEL {
        return Thrown;
      }
      var v;
      if sz == 4 {
        var u := ToDword(d, p);
        v := Signed32(u);
      } else {
        v := Int64(d, p);
      }
      r := Got(VInt(v));
    case TBoolean => r := Bad;
    case _ => r := DecodeElem(s, f.kind, d, p, sz, deep);
  }

  lemma DecFieldsNext(s: seq<Type>, tid: nat, d: seq<byte>, p0: nat, size: nat, deep: nat,
                      fn: nat, i: nat, tag: int, p: nat, res: map<string, Value>, w: nat, sz: nat)
    requires SchemaOk(s) && tid < |s| && p0 + size <= |d|
    requires i < fn && tag >= -1 && p0 + 2 + 2 * fn <= p <= p0 + size && w == Word(d, p0 + 2 + 2 * i, 2)
    requires w == 0 && p + 4 <= p0 + size ==> sz == Word(d, p, 4)
    ensures DecFields(s, tid, d, p0, size, deep, fn, i, tag, p, res) ==
            if w % 2 == 1 then DecFields(s, tid, d, p0, size, deep, fn, i + 1, tag + 1 + w / 2, p, res)
            else if w == 0 && (p + 4 > p0 + size || p + 4 + sz > p0 + size) then Fails
            else
              var next := if w == 0 then p + 4 + sz else p;
              match Find(s[tid], tag + 1)
              case Unknown => DecFields(s, tid, d, p0, size, deep, fn, i + 1, tag + 1, next, res)
              case Crash => Throws
              case Found(k) =>
                var f := s[tid].fields[k];
                var got := if w == 0 then DecData(s, f, d, p + 4, sz, deep) else DecInline(f, w / 2 - 1, deep);
                if got.Bad? then Fails
                else if got.Thrown? then Throws
                else DecFields(s, tid, d, p0, size, deep, fn, i + 1, tag + 1, next, Stored(res, f.name, got))
  {
    hide DecData, DecInline, Find, Word;
  }

  /** `sprotoDecode` */
  method DecodeStruct(s: seq<Type>, tid: nat, d: seq<byte>, p0: nat, total: nat, deep: nat) returns (r: Decoded)
    requires SchemaOk(s) && tid < |s| && p0 + total <= |d|
    ensures r == DecStruct(s, tid, d, p0, total, deep)
    decreases total, 2, 0
  {
    hide DecData, DecInline, DecFields, Find, Word;
    if total < 2 {
      return Fails;
    }
    var fn := ToWord(d, p0);
    var size := total - 2;
    if size < fn * 2 {
      return Fails;
    }
    size := size - fn * 2;
    var tag: int, p: nat, res: map<string, Value> := -1, p0 + 2 + fn * 2, map[];
    var i := 0;
    while i < fn
      invariant 0 <= i <= fn && tag >= -1 && p0 + 2 + 2 * fn <= p && size >= 0 && p + size == p0 + total
      invariant DecStruct(s, tid, d, p0, total, deep) == DecFields(s, tid, d, p0, total, deep, fn, i, tag, p, res)
    {
      var w := ToWord(d, p0 + 2 + 2 * i);
      var sz := 0;
      if w == 0 && size >= 4 {
        sz := ToDword(d, p);
      }
      DecFieldsNext(s, tid, d, p0, total, deep, fn, i, tag, p, res, w, sz);
      tag, i := tag + 1, i + 1;
      if w % 2 == 1 {
        tag := tag + w / 2;
        continue;
      }
      var current := p;
      if w == 0 {
        if size < 4 || size < sz + 4 {
          return Fails;
        }
        p, size := p + sz + 4, size - (sz + 4);
      }
      var found := FindTag(s[tid], tag);
      match found
      case Unknown => continue;
      case Crash => return Throws;
      case Found(k) =>
        var f := s[tid].fields[k];
        var got;
        FieldKind(s, tid, k);
        if w == 0 {
          got := DecodeData(s, f, d, current + 4, sz, deep);
        } else {
          assert w >= 2;
          got := DecInline(f, w / 2 - 1, deep);
        }
        if got.Bad? {
          return Fails;
        }
        if got.Thrown? {
          return Throws;
        }
        res := Stored(res, f.name, got);
    }
    DecFieldsEnd(s, tid, d, p0, total, deep, fn, tag, p, res);
    r := Decoded(VStruct(res), total - size);
  }

  lemma FieldKind(s: seq<Type>, tid: nat, k: nat)
    requires SchemaOk(s) && tid < |s| && k < |s[tid].fields|
    ensures s[tid].fields[k].kind.TStruct? ==> s[tid].fields[k].kind.tid < |s|
  {
  }

  lemma DecFieldsEnd(s: seq<Type>, tid: nat, d: seq<byte>, p0: nat, size: nat, deep: nat,
                     fn: nat, tag: int, p: nat, res: map<string, Value>)
    requires SchemaOk(s) && tid < |s| && p0 + size <= |d| && tag >= -1 && p0 + 2 + 2 * fn <= p <= p0 + size
    ensures DecFields(s, tid, d, p0, size, deep, fn, fn, tag, p, res) == Decoded(VStruct(res), p - p0)
  {
  }
}
