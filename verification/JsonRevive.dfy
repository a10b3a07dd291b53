/** Reading the marked text and reviving its marks gives every integer exactly. */
module JsonRevive {
  import opened Doubles
  import opened JsonScan
  import opened JsonSyntax

  lemma TokenUnits(neg: bool, digits: Text)
    requires ValidDigits(digits)
    ensures var token := IntText(neg, digits);
            IsInteger(token) && Unsigned(token) == digits && token != [] && (token[0] == MINUS <==> neg)
    ensures forall k :: 0 <= k < |IntText(neg, digits)| ==> ValidPiece(Plain(IntText(neg, digits)[k]))
  {
    assert IsDigit(digits[0]);
    if neg {
      assert IntText(neg, digits)[1..] == digits;
    } else {
      assert IntText(neg, digits) == digits;
    }
    forall k | 0 <= k < |IntText(neg, digits)| ensures ValidPiece(Plain(IntText(neg, digits)[k])) {
      assert IntText(neg, digits)[k] == MINUS || IsDigit(IntText(neg, digits)[k]);
    }
  }

  /** A mark is read as its own text, and revived as the integer. */
  lemma MarkRevived(j: Json)
    requires j.Number? && Valid(j) && IsUnsafe(j)
    ensures Valid(Mark(j)) && Revive(Meaning(Mark(j), false)) == Int(IntValue(j.neg, j.digits))
  {
    hide IsSafe, Decimal, IntText, IsInteger;
    TokenUnits(j.neg, j.digits);
    var token := IntText(j.neg, j.digits);
    var u := [SENTINEL] + token + [SENTINEL];
    var ps := Plains(u);
    forall k | 0 <= k < |ps| ensures ValidPiece(ps[k]) {
      if 1 <= k <= |token| {
        assert u[k] == token[k - 1];
      }
    }
    assert Decoded(ps) == u;
    assert u[1..|u| - 1] == token;
    assert IntegerOf(token) == IntValue(j.neg, j.digits);
  }

  lemma {:induction false} Revived(j: Json)
    requires Valid(j)
    ensures Valid(Mark(j)) && (Revive(Meaning(Mark(j), false)) == Meaning(j, true) <==> Clean(j))
    decreases j, 2
  {
    hide IsUnsafe, ItemMeanings, MemberMeanings, ReviveAll, MarkItems, MarkMembers;
    match j
    case Literal(_) =>
    case Number(_, _, _, _) => NumberRevived(j);
    case Str(_) =>
    case Array(_, items) => ItemsRevived(j);
    case Object(_, members) => MembersRevived(j);
  }

  lemma NumberRevived(j: Json)
    requires j.Number? && Valid(j)
    ensures Valid(Mark(j)) && Revive(Meaning(Mark(j), false)) == Meaning(j, true)
  {
    hide Decimal, Render, IsInteger;
    if IsUnsafe(j) {
      hide IsSafe;
      MarkRevived(j);
      assert Meaning(j, true) == Int(IntValue(j.neg, j.digits));
    } else if j.frac.None? && j.exp.None? {
      TokenUnits(j.neg, j.digits);
      assert IntegerOf(IntText(j.neg, j.digits)) == IntValue(j.neg, j.digits);
      SafeAsRead(IntValue(j.neg, j.digits));
    }
  }

  /** An integer is put in marks if and only if not all integers up to one more than it, of both signs, are read exactly. */
  lemma MarkedIff(j: Json)
    requires j.Number? && Valid(j) && j.frac.None? && j.exp.None?
    ensures var n := IntValue(j.neg, j.digits);
            Mark(j) == j <==> forall m: int :: Abs(m) <= Abs(n) + 1 ==> Round(m) == m
  {
    hide Decimal, IsInteger, Round;
    TokenUnits(j.neg, j.digits);
    assert IntegerOf(IntText(j.neg, j.digits)) == IntValue(j.neg, j.digits);
    SafeAsRead(IntValue(j.neg, j.digits));
    SafeIff(IntValue(j.neg, j.digits));
  }

  lemma {:induction false} ItemRevived(x: Item)
    requires ValidItem(x)
    ensures ValidItem(MarkItem(x))
    ensures Revive(ItemMeaning(MarkItem(x), false)) == ItemMeaning(x, true) <==> CleanItem(x)
    decreases x, 3
  {
    hide Meaning, Mark, Revive, Clean;
    Revived(x.value);
  }

  lemma {:induction false} ItemsRevived(j: Json)
    requires j.Array? && Valid(j)
    ensures Valid(Mark(j)) && (Revive(Meaning(Mark(j), false)) == Meaning(j, true) <==> Clean(j))
    decreases j, 1
  {
    hide ItemMeaning, MarkItem, CleanItem, ValidItem;
    var m, n := Mark(j), |j.items|;
    forall k | 0 <= k < n
      ensures ValidItem(j.items[k]) && ValidItem(m.items[k])
      ensures Revive(ItemMeaning(m.items[k], false)) == ItemMeaning(j.items[k], true) <==> CleanItem(j.items[k])
    {
      ItemRevived(j.items[k]);
    }
    var v := Meaning(m, false);
    var rs, es := ReviveAll(v, n), ItemMeanings(j, n, true);
    assert Revive(v) == List(rs) && Meaning(j, true) == List(es);
    assert forall k :: 0 <= k < n ==> rs[k] == Revive(ItemMeaning(m.items[k], false)) && es[k] == ItemMeaning(j.items[k], true);
    assert rs == es <==> forall k :: 0 <= k < n ==> rs[k] == es[k];
  }

  lemma {:induction false} MembersRevived(j: Json)
    requires j.Object? && Valid(j)
    ensures Valid(Mark(j)) && (Revive(Meaning(Mark(j), false)) == Meaning(j, true) <==> Clean(j))
    decreases j, 1
  {
    hide ItemMeaning, MarkItem, CleanItem, ValidItem, Decoded;
    forall k | 0 <= k < |j.members|
      ensures ValidMember(j.members[k]) && ValidMember(Mark(j).members[k])
      ensures ItemRevives(j.members[k].item, Mark(j).members[k].item)
    {
      ItemRevived(j.members[k].item);
    }
    FieldsRevived(j, Mark(j));
  }

  ghost predicate ItemRevives(x: Item, y: Item)
    requires ValidItem(x) && ValidItem(y)
  {
    Revive(ItemMeaning(y, false)) == ItemMeaning(x, true) <==> CleanItem(x)
  }

  /** Marking leaves the names alone. */
  lemma {:induction false} SameLast(j: Json, m: Json, n: nat, name: Text)
    requires j.Object? && m.Object? && Valid(j) && Valid(m) && n <= |j.members| == |m.members|
    requires forall k :: 0 <= k < n ==> m.members[k].key == j.members[k].key
    ensures LastOf(m, n, name) == LastOf(j, n, name)
  {
    if n > 0 {
      SameLast(j, m, n - 1, name);
    }
  }

  /** An object is clean if and only if the members that give it its fields are. */
  lemma NamedMembers(j: Json)
    requires j.Object? && Valid(j)
    ensures Clean(j) <==> forall name :: LastOf(j, |j.members|, name).Some? ==> CleanItem(LastItem(j, |j.members|, name))
  {
    hide CleanItem, ValidItem, Decoded, LastOf;
    var n := |j.members|;
    if Clean(j) {
      forall name | LastOf(j, n, name).Some? ensures CleanItem(LastItem(j, n, name)) {
        assert IsLast(j, LastOf(j, n, name).value);
      }
    } else {
      var k :| 0 <= k < n && !(ValidMember(j.members[k]) && (IsLast(j, k) ==> CleanItem(j.members[k].item)));
      assert ValidMember(j.members[k]);
      assert LastItem(j, n, Decoded(j.members[k].key)) == j.members[k].item;
    }
  }

  ghost predicate MembersRevive(j: Json, m: Json)
    requires j.Object? && m.Object?
  {
    |j.members| == |m.members|
    && forall k :: 0 <= k < |j.members| ==>
         && ValidMember(j.members[k]) && ValidMember(m.members[k]) && m.members[k].key == j.members[k].key
         && ItemRevives(j.members[k].item, m.members[k].item)
  }

  lemma FieldRevives(j: Json, m: Json, name: Text)
    requires j.Object? && m.Object? && Valid(j) && Valid(m) && MembersRevive(j, m)
    ensures var n := |j.members|;
            && LastOf(m, n, name) == LastOf(j, n, name)
            && (LastOf(j, n, name).Some? ==> ItemRevives(LastItem(j, n, name), LastItem(m, n, name)))
  {
    hide ItemRevives, LastOf, ValidItem, Decoded;
    SameLast(j, m, |j.members|, name);
  }

  function ReviveEach(vs: map<Text, Value>): map<Text, Value> {
    map name | name in vs :: Revive(vs[name])
  }

  /** The fields of the two objects agree, revived, if and only if the object is clean. */
  lemma FieldsRevived(j: Json, m: Json)
    requires j.Object? && m.Object? && Valid(j) && Valid(m) && MembersRevive(j, m)
    ensures Revive(Meaning(m, false)) == Meaning(j, true) <==> Clean(j)
  {
    var n := |j.members|;
    var vs, fs := MemberMeanings(m, n, false), MemberMeanings(j, n, true);
    hide ItemMeaning, CleanItem, ValidItem, Decoded, LastOf, LastItem, Clean, MemberMeanings, MembersRevive;
    assert Meaning(m, false) == Record(vs) && Meaning(j, true) == Record(fs);
    hide Meaning;
    var rs := ReviveEach(vs);
    assert Revive(Record(vs)) == Record(rs);
    hide Revive;
    forall name
      ensures name in rs <==> name in fs
      ensures name in fs ==> (rs[name] == fs[name] <==> CleanItem(LastItem(j, n, name)))
    {
      FieldRevives(j, m, name);
    }
    NamedMembers(j);
    MapsAgree(rs, fs);
  }

  lemma MapsAgree(a: map<Text, Value>, b: map<Text, Value>)
    requires forall name :: name in a <==> name in b
    ensures a == b <==> forall name :: name in b ==> a[name] == b[name]
  {
  }

  /** A string spelt with the escape `\uE000` holds no sentinel in its text, and is still taken for a mark. */
  lemma EscapedMark() returns (j: Json)
    ensures Valid(j) && SENTINEL !in Render(j) && !Clean(j)
    ensures Meaning(j, true).String? && Valid(Mark(j)) && Revive(Meaning(Mark(j), false)) == Int(7)
  {
    var e := Unicode([0x65, 0x30, 0x30, 0x30]);
    var ps := [e, Plain(0x37), e];
    j := Str(ps);
    assert PieceChar(e) == SENTINEL;
    assert Decoded(ps) == [SENTINEL, 0x37, SENTINEL];
    assert Decoded(ps)[1..2] == [0x37];
    assert Decimal([0x37], 1) == 10 * Decimal([0x37], 0) + 7;
    assert PiecesText(ps, 1) == [] + PieceText(e);
    assert PiecesText(ps, 2) == PiecesText(ps, 1) + [0x37];
    assert PiecesText(ps, 3) == PiecesText(ps, 2) + PieceText(e);
  }
}
