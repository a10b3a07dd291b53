/** Messages and packed forms byte by byte. */
module WireExamples {
  import opened Bytes
  import opened Options
  import opened Words
  import opened Schema
  import opened SprotoSpec
  import opened ZeroPack

  /** Two chunks with zeros. */
  lemma PackedExample()
    ensures Packed([8, 0, 0, 0, 3, 0, 2, 0] + [0x19, 0, 0, 0, 0xaa, 1, 0, 0]) == [0x51, 8, 3, 2] + [0x31, 0x19, 0xaa, 1]
  {
    hide Packed, Low, Full, Absorbed, Padded, ChunkCount, Chunk;
    var a, b: seq<byte> := [8, 0, 0, 0, 3, 0, 2, 0], [0x19, 0, 0, 0, 0xaa, 1, 0, 0];
    TwoChunks(a + b);
    TheChunks(a, b);
    FirstChunk(a);
    SecondChunk(b);
    OneByOne(a + b);
  }

  lemma TheChunks(a: seq<byte>, b: seq<byte>)
    requires |a| == |b| == 8 && ChunkCount(a + b) == 2
    ensures Chunk(a + b, 0) == a && Chunk(a + b, 1) == b
  {
  }

  lemma FirstChunk(b: seq<byte>)
    requires b == [8, 0, 0, 0, 3, 0, 2, 0]
    ensures Low(b) == [0x51, 8, 3, 2] && !Full(b) && !Absorbed(b)
  {
    Bits8(b);
    hide NonZero, Mask;
  }

  lemma SecondChunk(b: seq<byte>)
    requires b == [0x19, 0, 0, 0, 0xaa, 1, 0, 0]
    ensures Low(b) == [0x31, 0x19, 0xaa, 1] && !Full(b) && !Absorbed(b)
  {
    Bits8(b);
    hide NonZero, Mask;
  }

  lemma {:induction false} OneByOne(x: seq<byte>)
    requires |x| == 16 && ChunkCount(x) == 2 && Padded(x) == x && !Full(Chunk(x, 0)) && !Full(Chunk(x, 1))
    ensures Packed(x) == Low(Chunk(x, 0)) + Low(Chunk(x, 1))
  {
    hide Low, Full, Chunk, Padded;
    assert Emit(x, 2, 2) == [] && Emit(x, 1, 1) == Low(Chunk(x, 1)) + [];
  }

  lemma TwoChunks(x: seq<byte>)
    requires |x| == 16
    ensures ChunkCount(x) == 2 && Padded(x) == x
  {
    assert ChunkCount(x[8..]) == 1;
  }

  lemma {:induction false} AllKept(b: seq<byte>)
    requires forall k :: 0 <= k < |b| ==> b[k] != 0
    ensures NonZero(b) == b
  {
    if b != [] { AllKept(b[1..]); }
  }

  lemma {:induction false} SixKept(b: seq<byte>, v: byte)
    requires v != 0 && b == [v, v, v, v, v, v, 0, 0]
    ensures NonZero(b) == [v, v, v, v, v, v]
  {
    Bits8(b);
  }

  /** A run: three chunks without zeros and, filled up, one with two. */
  lemma RunExample(v: byte)
    requires v != 0
    ensures Packed(seq(30, _ => v)) == [255, 3] + seq(30, _ => v) + [0, 0]
  {
    var x: seq<byte> := seq(30, _ => v);
    var p := x + [0, 0];
    FourChunks(x);
    forall c | 0 <= c < 3 ensures Full(Chunk(p, c)) {
      AllKept(Chunk(p, c));
    }
    assert Chunk(p, 3) == [v, v, v, v, v, v, 0, 0];
    SixKept(Chunk(p, 3), v);
    OneRun(p);
    assert p[0..32] == p;
  }

  lemma FourChunks(x: seq<byte>)
    requires |x| == 30
    ensures ChunkCount(x) == 3 && Padded(x) == x + [0, 0] && ChunkCount(x + [0, 0]) == 4
  {
    assert ChunkCount(x[8..][8..]) == 1 && ChunkCount(x[8..]) == 2;
    var p: seq<byte> := x + [0, 0];
    assert ChunkCount(p[8..][8..][8..]) == 1 && ChunkCount(p[8..][8..]) == 2 && ChunkCount(p[8..]) == 3;
    assert Zeros(2) == [0, 0] by { assert Zeros(1) == [0]; }
  }

  lemma {:induction false} OneRun(p: seq<byte>)
    requires ChunkCount(p) == 4 && |p| == 32 && Full(Chunk(p, 0)) && Full(Chunk(p, 1)) && Full(Chunk(p, 2))
    requires Absorbed(Chunk(p, 3)) && !Full(Chunk(p, 3))
    ensures Emit(p, 0, 0) == Run(p, 0, 4) && !Stray(p)
  {
    hide Chunk, Run, Low, NonZero;
    assert Emit(p, 0, 4) == Run(p, 0, 4);
    assert Joins(p, 0, 3) && Joins(p, 0, 2) && Joins(p, 0, 1) && Joins(p, 0, 0);
    assert Emit(p, 0, 3) == Emit(p, 0, 4) && Emit(p, 0, 2) == Emit(p, 0, 3) && Emit(p, 0, 1) == Emit(p, 0, 2);
  }

  lemma {:induction false} Bits8(b: seq<byte>)
    requires |b| == 8
    ensures Mask(b) == Bit(b[0]) + 2 * Bit(b[1]) + 4 * Bit(b[2]) + 8 * Bit(b[3])
                       + 16 * Bit(b[4]) + 32 * Bit(b[5]) + 64 * Bit(b[6]) + 128 * Bit(b[7])
    ensures NonZero(b) == Kept(b[0]) + (Kept(b[1]) + (Kept(b[2]) + (Kept(b[3])
                          + (Kept(b[4]) + (Kept(b[5]) + (Kept(b[6]) + (Kept(b[7]) + [])))))))
  {
    assert b[1..][1..] == b[2..] && b[2..][1..] == b[3..] && b[3..][1..] == b[4..];
    assert b[4..][1..] == b[5..] && b[5..][1..] == b[6..] && b[6..][1..] == b[7..] && b[7..][1..] == [];
    assert Mask(b[7..]) == Bit(b[7]) && NonZero(b[7..]) == Kept(b[7]) + [];
    assert Mask(b[6..]) == Bit(b[6]) + 2 * Mask(b[7..]) && NonZero(b[6..]) == Kept(b[6]) + NonZero(b[7..]);
    assert Mask(b[5..]) == Bit(b[5]) + 2 * Mask(b[6..]) && NonZero(b[5..]) == Kept(b[5]) + NonZero(b[6..]);
    assert Mask(b[4..]) == Bit(b[4]) + 2 * Mask(b[5..]) && NonZero(b[4..]) == Kept(b[4]) + NonZero(b[5..]);
    assert Mask(b[3..]) == Bit(b[3]) + 2 * Mask(b[4..]) && NonZero(b[3..]) == Kept(b[3]) + NonZero(b[4..]);
    assert Mask(b[2..]) == Bit(b[2]) + 2 * Mask(b[3..]) && NonZero(b[2..]) == Kept(b[2]) + NonZero(b[3..]);
    assert Mask(b[1..]) == Bit(b[1]) + 2 * Mask(b[2..]) && NonZero(b[1..]) == Kept(b[1]) + NonZero(b[2..]);
  }

  function Bit(x: byte): nat {
    if x != 0 then 1 else 0
  }

  function Kept(x: byte): seq<byte> {
    if x != 0 then [x] else []
  }

  // ---------------------------------------------------------------- a struct

  /** A string, an integer and a boolean in a row, and an array of integers behind a gap. */
  function Person(): Type {
    Type([Field(0, "name", false, TString), Field(1, "age", false, TInteger), Field(2, "marital", false, TBoolean),
          Field(7, "scores", true, TInteger)], 5, -1)
  }

  function Alice(): Value {
    VStruct(map["name" := VBytes([0x41, 0x6c, 0x69, 0x63, 0x65]), "age" := VInt(13), "marital" := VBool(false),
                "scores" := VArray([Some(VInt(1)), Some(VInt(-1))])])
  }

  lemma PersonOk()
    ensures SchemaOk([Person()]) && Typed([Person()], TStruct(0), Alice())
  {
    Imported();
    hide SchemaOk;
    assert forall k :: 0 <= k < 4 ==> TypedField([Person()], Person().fields[k], Alice().m[Person().fields[k].name]);
  }

  lemma Imported()
    ensures SchemaOk([Person()])
  {
    var fs := Person().fields;
    assert Records(fs, 1) == 1 && Records(fs, 2) == 2 && Records(fs, 3) == 3 && Records(fs, 4) == 5;
    hide Records;
  }

  function Name(): seq<byte> {
    [5, 0, 0, 0, 0x41, 0x6c, 0x69, 0x63, 0x65]
  }

  function Numbers(): seq<byte> {
    [9, 0, 0, 0, 4, 1, 0, 0, 0, 0xff, 0xff, 0xff, 0xff]
  }

  lemma Fields()
    ensures SchemaOk([Person()]) && Typed([Person()], TStruct(0), Alice())
    ensures EncFields([Person()], 0, Alice(), 0, 0, -1) == Some(Parts([0, 0x1c, 2, 7, 0], Name() + Numbers()))
  {
    PersonOk();
    Slots();
    hide EncField, Name, Numbers;
    assert EncFields([Person()], 0, Alice(), 0, 4, 7) == Some(Parts([], []));
    Prepend(3, 2, Data(Numbers()), Parts([], []), Parts([7, 0], Numbers()));
    Prepend(2, 1, Inline(2), Parts([7, 0], Numbers()), Parts([2, 7, 0], Numbers()));
    Prepend(1, 0, Inline(0x1c), Parts([2, 7, 0], Numbers()), Parts([0x1c, 2, 7, 0], Numbers()));
    Prepend(0, -1, Data(Name()), Parts([0x1c, 2, 7, 0], Numbers()), Parts([0, 0x1c, 2, 7, 0], Name() + Numbers()));
  }

  /** Count, header words (the string's, 13, false, four tags passed over, the array's), and the data in order. */
  lemma StructExample()
    ensures SchemaOk([Person()]) && Typed([Person()], TStruct(0), Alice())
    ensures EncStruct([Person()], 0, Alice(), 0)
            == Some([5, 0] + ([0, 0] + [0x1c, 0] + [2, 0] + [7, 0] + [0, 0]) + (Name() + Numbers()))
  {
    hide EncFields, Typed, SchemaOk, LE, WordBytes, Name, Numbers;
    Fields();
    Header();
  }

  /** One field more in front. */
  lemma Prepend(k: nat, lasttag: int, slot: Slot, rest: Parts, parts: Parts)
    requires SchemaOk([Person()]) && Typed([Person()], TStruct(0), Alice()) && k < |Person().fields|
    requires lasttag == TagBefore(Person().fields, k) && !slot.Absent?
    requires EncField([Person()], Person().fields[k], Alice(), 0) == Some(slot)
    requires EncFields([Person()], 0, Alice(), 0, k + 1, Person().fields[k].tag) == Some(rest)
    requires parts.words == TagWords(lasttag, Person().fields[k].tag, if slot.Inline? then slot.word else 0) + rest.words
    requires parts.data == (if slot.Data? then slot.bytes else []) + rest.data
    ensures EncFields([Person()], 0, Alice(), 0, k, lasttag) == Some(parts)
  {
    hide EncField, TagWords;
    var none: seq<byte> := [];
    assert none + rest.data == rest.data;
  }

  lemma Slots()
    ensures SchemaOk([Person()]) && Typed([Person()], TStruct(0), Alice())
    ensures var s, fs, v := [Person()], Person().fields, Alice();
            && EncField(s, fs[0], v, 0) == Some(Data(Name()))
            && EncField(s, fs[1], v, 0) == Some(Inline(0x1c))
            && EncField(s, fs[2], v, 0) == Some(Inline(2))
            && EncField(s, fs[3], v, 0) == Some(Data(Numbers()))
  {
    PersonOk();
    Sizes();
    ScoresSlot();
    hide LE, Sized, EncArray, SchemaOk, Name, Numbers;
  }

  lemma Sizes()
    ensures Sized([0x41, 0x6c, 0x69, 0x63, 0x65]) == Name()
    ensures Sized([4, 1, 0, 0, 0, 0xff, 0xff, 0xff, 0xff]) == Numbers()
  {
    Size(5);
    Size(9);
    hide LE;
  }

  lemma ScoresSlot()
    ensures SchemaOk([Person()]) && Typed([Person()], TStruct(0), Alice())
    ensures EncArray([Person()], Person().fields[3], Alice().m["scores"], 0) == Some([4, 1, 0, 0, 0, 0xff, 0xff, 0xff, 0xff])
  {
    PersonOk();
    var es := Alice().m["scores"].es;
    assert es[1..] == [Some(VInt(-1))] && Prefix(es[1..]) == [VInt(-1)] && Prefix(es) == [VInt(1), VInt(-1)];
    Scores();
    hide Prefix, EncInts, EncElems, LE;
  }

  lemma Size(n: nat)
    requires n < 256
    ensures LE(n, 4) == [n as byte, 0, 0, 0]
  {
    assert LE(0, 3) == [0] + LE(0, 2) && LE(0, 2) == [0] + LE(0, 1) && LE(0, 1) == [0] + LE(0, 0);
  }

  lemma MinusOne()
    ensures LE(-1, 4) == [0xff, 0xff, 0xff, 0xff]
  {
    assert LE(-1, 3) == [0xff] + LE(-1, 2) && LE(-1, 2) == [0xff] + LE(-1, 1) && LE(-1, 1) == [0xff] + LE(-1, 0);
  }

  lemma Scores()
    ensures var vs := [VInt(1), VInt(-1)]; EncInts(vs) == [4, 1, 0, 0, 0, 0xff, 0xff, 0xff, 0xff]
  {
    Size(1);
    MinusOne();
    hide LE;
    var vs := [VInt(1), VInt(-1)];
    assert IntWords(vs, 1, 4) == [] + LE(1, 4) && IntWords(vs, 2, 4) == IntWords(vs, 1, 4) + LE(-1, 4);
  }

  lemma Header()
    ensures LE(5, 2) == [5, 0]
    ensures WordBytes([0, 0x1c, 2, 7, 0]) == [0, 0] + [0x1c, 0] + [2, 0] + [7, 0] + [0, 0]
  {
    assert forall n: nat :: n < 256 ==> LE(n, 2) == [n as byte, 0];
    assert [0, 0x1c, 2, 7, 0][..4] == [0, 0x1c, 2, 7] && [0, 0x1c, 2, 7][..3] == [0, 0x1c, 2];
    assert [0, 0x1c, 2][..2] == [0, 0x1c] && [0, 0x1c][..1] == [0];
  }
}
