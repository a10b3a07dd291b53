/** JSON texts with all their blanks (sections 2 to 7 of RFC 8259), and what they mean. */
module JsonSyntax {
  import opened Doubles
  import opened Options
  import opened JsonScan

  datatype Piece = Plain(c: unit) | Escaped(c: unit) | Unicode(h: Text)

  datatype Word = Null | True | False

  datatype Exponent = Exponent(marker: unit, sign: Option<unit>, digits: Text)

  datatype Json =
    | Literal(word: Word)
    | Number(neg: bool, digits: Text, frac: Option<Text>, exp: Option<Exponent>)
    | Str(pieces: seq<Piece>)
    | Array(blank: Text, items: seq<Item>)
    | Object(blank: Text, members: seq<Member>)

  datatype Item = Item(before: Text, value: Json, after: Text)

  datatype Member = Member(before: Text, key: seq<Piece>, after: Text, item: Item)

  const COMMA: unit := 0x2C
  const COLON: unit := 0x3A

  // ---------------------------------------------------------------- valid texts

  predicate IsBlank(t: Text) {
    forall k :: 0 <= k < |t| ==> t[k] in {0x20, 0x09, 0x0A, 0x0D}
  }

  predicate IsHex(c: unit) {
    IsDigit(c) || 0x61 <= c <= 0x66 || 0x41 <= c <= 0x46
  }

  predicate ValidPiece(p: Piece) {
    match p
    case Plain(c) => c >= 0x20 && c != QUOTE && c != BACKSLASH
    case Escaped(c) => c in {QUOTE, BACKSLASH, 0x2F, 0x62, 0x66, 0x6E, 0x72, 0x74}
    case Unicode(h) => |h| == 4 && forall k :: 0 <= k < 4 ==> IsHex(h[k])
  }

  predicate ValidPieces(ps: seq<Piece>) {
    forall k :: 0 <= k < |ps| ==> ValidPiece(ps[k])
  }

  predicate ValidDigits(d: Text) {
    d != [] && AllDigits(d)
  }

  predicate Valid(j: Json) {
    match j
    case Literal(_) => true
    case Number(neg, digits, frac, exp) =>
      && ValidDigits(digits) && (frac.Some? ==> ValidDigits(frac.value))
      && (exp.Some? ==> IsExponent(exp.value.marker) && ValidDigits(exp.value.digits)
                        && (exp.value.sign.Some? ==> exp.value.sign.value in {PLUS, MINUS}))
    case Str(pieces) => ValidPieces(pieces)
    case Array(blank, items) => IsBlank(blank) && forall k :: 0 <= k < |items| ==> ValidItem(items[k])
    case Object(blank, members) => IsBlank(blank) && forall k :: 0 <= k < |members| ==> ValidMember(members[k])
  }

  predicate ValidItem(i: Item) {
    IsBlank(i.before) && Valid(i.value) && IsBlank(i.after)
  }

  predicate ValidMember(m: Member) {
    IsBlank(m.before) && ValidPieces(m.key) && IsBlank(m.after) && ValidItem(m.item)
  }

  // ---------------------------------------------------------------- their text

  function PieceText(p: Piece): Text {
    match p
    case Plain(c) => [c]
    case Escaped(c) => [BACKSLASH, c]
    case Unicode(h) => [BACKSLASH, 0x75] + h
  }

  function PiecesText(ps: seq<Piece>, n: nat): Text
    requires n <= |ps|
  {
    if n == 0 then [] else PiecesText(ps, n - 1) + PieceText(ps[n - 1])
  }

  function StringText(ps: seq<Piece>): Text {
    [QUOTE] + PiecesText(ps, |ps|) + [QUOTE]
  }

  function WordText(w: Word): Text {
    match w
    case Null => [0x6E, 0x75, 0x6C, 0x6C]
    case True => [0x74, 0x72, 0x75, 0x65]
    case False => [0x66, 0x61, 0x6C, 0x73, 0x65]
  }

  function IntText(neg: bool, digits: Text): Text {
    (if neg then [MINUS] else []) + digits
  }

  function FracText(frac: Option<Text>): Text {
    if frac.Some? then [DOT] + frac.value else []
  }

  function ExpText(exp: Option<Exponent>): Text {
    if exp.None? then []
    else [exp.value.marker] + (if exp.value.sign.Some? then [exp.value.sign.value] else []) + exp.value.digits
  }

  function Render(j: Json): Text
    decreases j, 0
  {
    match j
    case Literal(w) => WordText(w)
    case Number(neg, digits, frac, exp) => IntText(neg, digits) + FracText(frac) + ExpText(exp)
    case Str(pieces) => StringText(pieces)
    case Array(blank, items) => [0x5B] + (if items == [] then blank else ItemsText(j, |items|)) + [0x5D]
    case Object(blank, members) => [0x7B] + (if members == [] then blank else MembersText(j, |members|)) + [0x7D]
  }

  function ItemText(i: Item): Text
    decreases i
  {
    i.before + Render(i.value) + i.after
  }

  function MemberText(m: Member): Text
    decreases m
  {
    m.before + StringText(m.key) + m.after + [COLON] + ItemText(m.item)
  }

  /** The first `n` items, with commas between them. */
  function ItemsText(j: Json, n: nat): Text
    requires j.Array? && n <= |j.items|
    decreases j, 0, n
  {
    if n == 0 then [] else (if n == 1 then [] else ItemsText(j, n - 1) + [COMMA]) + ItemText(j.items[n - 1])
  }

  function MembersText(j: Json, n: nat): Text
    requires j.Object? && n <= |j.members|
    decreases j, 0, n
  {
    if n == 0 then [] else (if n == 1 then [] else MembersText(j, n - 1) + [COMMA]) + MemberText(j.members[n - 1])
  }

  // ---------------------------------------------------------------- marking

  function Plains(t: Text): (ps: seq<Piece>)
    ensures |ps| == |t| && forall k :: 0 <= k < |t| ==> ps[k] == Plain(t[k])
  {
    seq(|t|, k requires 0 <= k < |t| => Plain(t[k]))
  }

  predicate IsUnsafe(j: Json) {
    j.Number? && j.frac.None? && j.exp.None? && !IsSafe(IntText(j.neg, j.digits))
  }

  /** The text that the scan should make, as a tree: every unsafe integer a string between sentinels. */
  function Mark(j: Json): Json
    decreases j, 0
  {
    match j
    case Number(neg, digits, _, _) =>
      if IsUnsafe(j) then Str(Plains([SENTINEL] + IntText(neg, digits) + [SENTINEL])) else j
    case Array(blank, items) => Array(blank, MarkItems(j, |items|))
    case Object(blank, members) => Object(blank, MarkMembers(j, |members|))
    case _ => j
  }

  function MarkItem(i: Item): Item
    decreases i
  {
    i.(value := Mark(i.value))
  }

  function MarkItems(j: Json, n: nat): (r: seq<Item>)
    requires j.Array? && n <= |j.items|
    ensures |r| == n && forall k :: 0 <= k < n ==> r[k] == MarkItem(j.items[k])
    decreases j, 0, n
  {
    if n == 0 then [] else MarkItems(j, n - 1) + [MarkItem(j.items[n - 1])]
  }

  function MarkMembers(j: Json, n: nat): (r: seq<Member>)
    requires j.Object? && n <= |j.members|
    ensures |r| == n && forall k :: 0 <= k < n ==> r[k] == j.members[k].(item := MarkItem(j.members[k].item))
    decreases j, 0, n
  {
    if n == 0 then [] else MarkMembers(j, n - 1) + [j.members[n - 1].(item := MarkItem(j.members[n - 1].item))]
  }

  // ---------------------------------------------------------------- meaning

  /** Numbers that are not written as integers are kept by their text. */
  datatype Value =
    | Nil
    | Bool(b: bool)
    | Int(n: int)
    | Float(t: Text)
    | String(s: Text)
    | List(es: seq<Value>)
    | Record(fs: map<Text, Value>)

  /** The value of a hexadecimal digit; below 16 for any other unit, too. */
  function HexValue(c: unit): nat {
    if 0x61 <= c then (c - 0x61) as nat % 6 + 10 else if 0x41 <= c then (c - 0x41) as nat % 6 + 10
    else if 0x30 <= c then (c - 0x30) as nat % 10 else 0
  }

  function PieceChar(p: Piece): unit
    requires ValidPiece(p)
  {
    match p
    case Plain(c) => c
    case Escaped(c) =>
      if c == 0x62 then 0x08 else if c == 0x66 then 0x0C else if c == 0x6E then 0x0A else if c == 0x72 then 0x0D
      else if c == 0x74 then 0x09 else c
    case Unicode(h) =>
      (HexValue(h[0]) * 0x1000 + HexValue(h[1]) * 0x100 + HexValue(h[2]) * 0x10 + HexValue(h[3])) as unit
  }

  function Decoded(ps: seq<Piece>): Text
    requires ValidPieces(ps)
  {
    seq(|ps|, k requires 0 <= k < |ps| => PieceChar(ps[k]))
  }

  /** The value of a text; `exact` tells whether integers are read exactly or, as `JSON.parse` does, as doubles. */
  function Meaning(j: Json, exact: bool): Value
    requires Valid(j)
    decreases j, 0
  {
    match j
    case Literal(w) => (match w case Null => Nil case True => Bool(true) case False => Bool(false))
    case Number(neg, digits, frac, exp) =>
      if frac.Some? || exp.Some? then Float(Render(j))
      else Int(if exact then IntValue(neg, digits) else Round(IntValue(neg, digits)))
    case Str(pieces) => String(Decoded(pieces))
    case Array(_, items) => List(ItemMeanings(j, |items|, exact))
    case Object(_, members) => Record(MemberMeanings(j, |members|, exact))
  }

  function ItemMeaning(i: Item, exact: bool): Value
    requires ValidItem(i)
    decreases i
  {
    Meaning(i.value, exact)
  }

  function IntValue(neg: bool, digits: Text): int {
    var n := Decimal(digits, |digits|);
    if neg then -n else n
  }

  function ItemMeanings(j: Json, n: nat, exact: bool): (r: seq<Value>)
    requires j.Array? && n <= |j.items| && Valid(j)
    ensures |r| == n && forall k :: 0 <= k < n ==> ValidItem(j.items[k]) && r[k] == ItemMeaning(j.items[k], exact)
    decreases j, 0, n
  {
    if n == 0 then []
    else
      assert ValidItem(j.items[n - 1]);
      ItemMeanings(j, n - 1, exact) + [ItemMeaning(j.items[n - 1], exact)]
  }

  /** The last of the first `n` members that has the name; `JSON.parse` keeps that one. */
  function LastOf(j: Json, n: nat, name: Text): (r: Option<nat>)
    requires j.Object? && n <= |j.members| && Valid(j)
    ensures r.None? ==> forall k :: 0 <= k < n ==> ValidMember(j.members[k]) && Decoded(j.members[k].key) != name
    ensures r.Some? ==>
              && r.value < n && ValidMember(j.members[r.value]) && Decoded(j.members[r.value].key) == name
              && forall k :: r.value < k < n ==> ValidMember(j.members[k]) && Decoded(j.members[k].key) != name
  {
    if n == 0 then None
    else
      assert ValidMember(j.members[n - 1]);
      if Decoded(j.members[n - 1].key) == name then Some(n - 1) else LastOf(j, n - 1, name)
  }

  function LastItem(j: Json, n: nat, name: Text): (x: Item)
    requires j.Object? && n <= |j.members| && Valid(j) && LastOf(j, n, name).Some?
    ensures ValidItem(x)
  {
    j.members[LastOf(j, n, name).value].item
  }

  predicate IsLast(j: Json, k: nat)
    requires j.Object? && Valid(j) && k < |j.members|
  {
    assert ValidMember(j.members[k]);
    LastOf(j, |j.members|, Decoded(j.members[k].key)) == Some(k)
  }

  function MemberMeanings(j: Json, n: nat, exact: bool): (r: map<Text, Value>)
    requires j.Object? && n <= |j.members| && Valid(j)
    ensures forall name :: name in r <==> LastOf(j, n, name).Some?
    ensures forall name :: name in r ==> r[name] == ItemMeaning(LastItem(j, n, name), exact)
    decreases j, 0, n
  {
    if n == 0 then map[]
    else
      var m := j.members[n - 1];
      assert ValidMember(m);
      MemberMeanings(j, n - 1, exact)[Decoded(m.key) := ItemMeaning(m.item, exact)]
  }

  /** `SENTINEL_RE` */
  predicate IsMarked(s: Text) {
    |s| >= 3 && s[0] == SENTINEL && s[|s| - 1] == SENTINEL && IsInteger(s[1..|s| - 1])
  }

  /** The reviver: it sees every value, but no key. */
  function Revive(v: Value): Value
    decreases v
  {
    match v
    case String(s) => if IsMarked(s) then Int(IntegerOf(s[1..|s| - 1])) else v
    case List(es) => List(ReviveAll(v, |es|))
    case Record(fs) => Record(map name | name in fs :: Revive(fs[name]))
    case _ => v
  }

  function ReviveAll(v: Value, n: nat): (r: seq<Value>)
    requires v.List? && n <= |v.es|
    ensures |r| == n && forall k :: 0 <= k < n ==> r[k] == Revive(v.es[k])
    decreases v, n
  {
    if n == 0 then [] else ReviveAll(v, n - 1) + [Revive(v.es[n - 1])]
  }

  /** No string in value position has the form of a mark, not counting members that a later one of the same name replaces;
      a text without the sentinel can still have one by an escape. */
  predicate Clean(j: Json)
    requires Valid(j)
    decreases j
  {
    match j
    case Str(pieces) => !IsMarked(Decoded(pieces))
    case Array(_, items) => forall k :: 0 <= k < |items| ==> ValidItem(items[k]) && CleanItem(items[k])
    case Object(_, members) =>
      forall k :: 0 <= k < |members| ==> ValidMember(members[k]) && (IsLast(j, k) ==> CleanItem(members[k].item))
    case _ => true
  }

  predicate CleanItem(i: Item)
    requires ValidItem(i)
    decreases i
  {
    Clean(i.value)
  }
}
