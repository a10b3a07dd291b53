/** The scan finds exactly the numbers of a JSON text, and reading the marked text gives every integer exactly. */
module JsonLaws {
  import opened Options
  import opened JsonScan
  import opened JsonSyntax
  import opened Places

  // ---------------------------------------------------------------- the scan, piece by piece

  /** From `i` on, the scan turns `p` into `q` and goes on behind it. */
  ghost predicate Scans(t: Text, i: nat, p: Text, q: Text) {
    StandsAt(t, i, p) && QuoteFrom(t, i) == q + QuoteFrom(t, i + |p|)
  }

  lemma ScansBoth(t: Text, i: nat, p1: Text, q1: Text, p2: Text, q2: Text)
    requires Scans(t, i, p1, q1) && Scans(t, i + |p1|, p2, q2)
    ensures Scans(t, i, p1 + p2, q1 + q2)
  {
    hide QuoteFrom;
    Concat(q1, q2, QuoteFrom(t, i + |p1| + |p2|));
    assert t[i..i + |p1 + p2|] == t[i..i + |p1|] + t[i + |p1|..i + |p1| + |p2|];
  }

  lemma ScansNothing(t: Text, i: nat)
    requires i <= |t|
    ensures Scans(t, i, [], [])
  {
    hide QuoteFrom;
    Concat(QuoteFrom(t, i), [], []);
  }

  /** A character that starts no string and no number is copied. */
  predicate IsOther(c: unit) {
    c != QUOTE && c != MINUS && !IsDigit(c)
  }

  lemma ScansChar(t: Text, i: nat, c: unit)
    requires StandsAt(t, i, [c]) && IsOther(c)
    ensures Scans(t, i, [c], [c])
  {
    assert t[i] == t[i..i + 1][0];
    assert QuoteFrom(t, i) == [c] + QuoteFrom(t, i + 1);
  }

  lemma {:induction false} ScansOthers(t: Text, i: nat, p: Text)
    requires StandsAt(t, i, p) && forall k :: 0 <= k < |p| ==> IsOther(p[k])
    ensures Scans(t, i, p, p)
    decreases |p|
  {
    hide Scans, StandsAt;
    if p == [] {
      PlaceFits(t, i, p);
      ScansNothing(t, i);
    } else {
      assert p == [p[0]] + p[1..];
      SplitAt(t, i, [p[0]], p[1..]);
      ScansChar(t, i, p[0]);
      ScansOthers(t, i + 1, p[1..]);
      ScansBoth(t, i, [p[0]], [p[0]], p[1..], p[1..]);
    }
  }

  // ---------------------------------------------------------------- strings

  lemma PieceEnds(t: Text, i: nat, p: Piece)
    requires ValidPiece(p) && StandsAt(t, i, PieceText(p))
    ensures i + |PieceText(p)| <= |t| && StringEnd(t, i) == StringEnd(t, i + |PieceText(p)|)
  {
    hide StandsAt;
    var x := PieceText(p);
    PlaceFits(t, i, x);
    ElementAt(t, i, x, 0);
    if p.Unicode? {
      ElementAt(t, i, x, 2);
      ElementAt(t, i, x, 3);
      ElementAt(t, i, x, 4);
      ElementAt(t, i, x, 5);
      assert IsHex(p.h[0]) && IsHex(p.h[1]) && IsHex(p.h[2]) && IsHex(p.h[3]);
      assert StringEnd(t, i) == StringEnd(t, i + 2);
      assert StringEnd(t, i + 2) == StringEnd(t, i + 3);
      assert StringEnd(t, i + 3) == StringEnd(t, i + 4);
      assert StringEnd(t, i + 4) == StringEnd(t, i + 5);
    }
  }

  lemma {:induction false} PiecesEnd(t: Text, i: nat, ps: seq<Piece>, n: nat)
    requires n <= |ps| && ValidPieces(ps) && StandsAt(t, i, PiecesText(ps, n))
    ensures i + |PiecesText(ps, n)| <= |t| && StringEnd(t, i) == StringEnd(t, i + |PiecesText(ps, n)|)
  {
    hide StandsAt, StringEnd, PieceText;
    PlaceFits(t, i, PiecesText(ps, n));
    if n > 0 {
      SplitAt(t, i, PiecesText(ps, n - 1), PieceText(ps[n - 1]));
      PiecesEnd(t, i, ps, n - 1);
      PieceEnds(t, i + |PiecesText(ps, n - 1)|, ps[n - 1]);
    }
  }

  lemma ScansString(t: Text, i: nat, ps: seq<Piece>)
    requires ValidPieces(ps) && StandsAt(t, i, StringText(ps))
    ensures Scans(t, i, StringText(ps), StringText(ps))
  {
    hide StandsAt, PiecesText;
    var body := PiecesText(ps, |ps|);
    SplitAt(t, i, [QUOTE] + body, [QUOTE]);
    SplitAt(t, i, [QUOTE], body);
    ElementAt(t, i, [QUOTE], 0);
    ElementAt(t, i + 1 + |body|, [QUOTE], 0);
    PiecesEnd(t, i + 1, ps, |ps|);
    var e := i + 1 + |body| + 1;
    assert StringEnd(t, i + 1) == e;
    Stood(t, i, StringText(ps));
    assert QuoteFrom(t, i) == t[i..e] + QuoteFrom(t, e);
  }

  lemma Stood(t: Text, i: nat, p: Text)
    requires StandsAt(t, i, p)
    ensures i + |p| <= |t| && t[i..i + |p|] == p
  {
  }

  // ---------------------------------------------------------------- numbers

  /** Nothing that could belong to a number. */
  predicate Stops(t: Text, i: nat) {
    i < |t| ==> !IsDigit(t[i]) && t[i] != DOT && !IsExponent(t[i])
  }

  lemma {:induction false} DigitsStop(t: Text, i: nat, d: Text)
    requires StandsAt(t, i, d) && AllDigits(d) && (i + |d| < |t| ==> !IsDigit(t[i + |d|]))
    ensures i <= |t| && DigitsEnd(t, i) == i + |d|
    decreases |d|
  {
    hide StandsAt;
    PlaceFits(t, i, d);
    if d != [] {
      assert d == [d[0]] + d[1..];
      SplitAt(t, i, [d[0]], d[1..]);
      ElementAt(t, i, d, 0);
      DigitsStop(t, i + 1, d[1..]);
    }
  }

  lemma IntStops(t: Text, i: nat, neg: bool, digits: Text)
    requires ValidDigits(digits) && StandsAt(t, i, IntText(neg, digits))
    requires i + |IntText(neg, digits)| < |t| ==> !IsDigit(t[i + |IntText(neg, digits)|])
    ensures i < |t| && (t[i] == MINUS || IsDigit(t[i])) && IntEnd(t, i) == i + |IntText(neg, digits)|
  {
    hide StandsAt, DigitsEnd;
    ElementAt(t, i, IntText(neg, digits), 0);
    assert neg ==> IntText(neg, digits)[0] == MINUS;
    assert !neg ==> IntText(neg, digits) == digits;
    if neg {
      SplitAt(t, i, [MINUS], digits);
      DigitsStop(t, i + 1, digits);
    } else {
      assert IsDigit(digits[0]);
      DigitsStop(t, i, digits);
    }
  }

  lemma FracStops(t: Text, i: nat, frac: Option<Text>)
    requires (frac.Some? ==> ValidDigits(frac.value)) && StandsAt(t, i, FracText(frac))
    requires i + |FracText(frac)| < |t| ==> !IsDigit(t[i + |FracText(frac)|]) && t[i + |FracText(frac)|] != DOT
    ensures i <= |t| && FractionEnd(t, i) == i + |FracText(frac)|
    ensures frac.Some? ==> i < |t| && t[i] == DOT
  {
    hide StandsAt, DigitsEnd;
    PlaceFits(t, i, FracText(frac));
    if frac.Some? {
      SplitAt(t, i, [DOT], frac.value);
      ElementAt(t, i, [DOT], 0);
      DigitsStop(t, i + 1, frac.value);
    }
  }

  lemma ExpStops(t: Text, i: nat, exp: Option<Exponent>)
    requires exp.Some? ==> IsExponent(exp.value.marker) && ValidDigits(exp.value.digits)
    requires exp.Some? && exp.value.sign.Some? ==> exp.value.sign.value in {PLUS, MINUS}
    requires StandsAt(t, i, ExpText(exp)) && Stops(t, i + |ExpText(exp)|)
    ensures i <= |t| && ExponentEnd(t, i) == i + |ExpText(exp)|
    ensures exp.Some? ==> i < |t| && IsExponent(t[i])
  {
    hide StandsAt, DigitsEnd;
    PlaceFits(t, i, ExpText(exp));
    if exp.Some? {
      var sign := if exp.value.sign.Some? then [exp.value.sign.value] else [];
      SplitAt(t, i, [exp.value.marker] + sign, exp.value.digits);
      SplitAt(t, i, [exp.value.marker], sign);
      ElementAt(t, i, [exp.value.marker], 0);
      if exp.value.sign.Some? {
        ElementAt(t, i + 1, sign, 0);
      } else {
        ElementAt(t, i + 1, exp.value.digits, 0);
      }
      DigitsStop(t, i + 1 + |sign|, exp.value.digits);
    }
  }

  lemma NumberStops(t: Text, i: nat, j: Json)
    requires j.Number? && Valid(j) && StandsAt(t, i, Render(j)) && Stops(t, i + |Render(j)|)
    ensures i < |t| && (t[i] == MINUS || IsDigit(t[i])) && NumberEnd(t, i) == i + |Render(j)|
    ensures IntEnd(t, i) == i + |IntText(j.neg, j.digits)|
  {
    hide StandsAt, IntText, FracText, ExpText, IntEnd, FractionEnd, ExponentEnd;
    var a, b, c := IntText(j.neg, j.digits), FracText(j.frac), ExpText(j.exp);
    SplitAt(t, i, a + b, c);
    SplitAt(t, i, a, b);
    ExpStops(t, i + |a| + |b|, j.exp);
    assert i + |a| + |b| < |t| ==> !IsDigit(t[i + |a| + |b|]) && t[i + |a| + |b|] != DOT by { ExpStart(j.exp); }
    FracStops(t, i + |a|, j.frac);
    assert i + |a| < |t| ==> !IsDigit(t[i + |a|]) by { FracStart(j.frac); }
    IntStops(t, i, j.neg, j.digits);
  }

  lemma ExpStart(exp: Option<Exponent>)
    ensures exp.None? ==> ExpText(exp) == []
  {
  }

  lemma FracStart(frac: Option<Text>)
    ensures frac.None? ==> FracText(frac) == []
  {
  }

  lemma {:induction false} PlainText(ps: seq<Piece>, u: Text, n: nat)
    requires ps == Plains(u) && n <= |u|
    ensures PiecesText(ps, n) == u[..n]
  {
    if n > 0 {
      PlainText(ps, u, n - 1);
    }
  }

  lemma IntegerText(j: Json)
    requires j.Number? && j.frac.None? && j.exp.None?
    ensures Render(j) == IntText(j.neg, j.digits)
  {
    hide IntText;
  }

  lemma MarkedText(j: Json)
    requires j.Number? && IsUnsafe(j)
    ensures Render(Mark(j)) == Marked(IntText(j.neg, j.digits))
  {
    hide IntText, IsSafe, PiecesText, Plains;
    var token := IntText(j.neg, j.digits);
    var u := [SENTINEL] + token + [SENTINEL];
    PlainText(Plains(u), u, |u|);
    assert u[..|u|] == u;
    assert Render(Mark(j)) == [QUOTE] + u + [QUOTE];
    MarkedAssoc(token);
  }

  lemma MarkedAssoc(token: Text)
    ensures [QUOTE] + ([SENTINEL] + token + [SENTINEL]) + [QUOTE] == Marked(token)
  {
  }

  /** A number token as a whole. */
  lemma NumberStep(t: Text, i: nat, j: Json)
    requires j.Number? && Valid(j) && StandsAt(t, i, Render(j)) && Stops(t, i + |Render(j)|)
    ensures i < |t| && QuoteFrom(t, i) == Token(t, i) + QuoteFrom(t, i + |Render(j)|)
    ensures Token(t, i) == if |Render(j)| == |IntText(j.neg, j.digits)| && !IsSafe(Render(j)) then Marked(Render(j)) else Render(j)
  {
    hide StandsAt, IntEnd, NumberEnd, IsSafe, Marked, IntText, Stops, Render;
    NumberStops(t, i, j);
    Stood(t, i, Render(j));
  }

  lemma ScansNumber(t: Text, i: nat, j: Json)
    requires j.Number? && Valid(j) && StandsAt(t, i, Render(j)) && Stops(t, i + |Render(j)|)
    ensures Scans(t, i, Render(j), Render(Mark(j)))
  {
    hide StandsAt, IsSafe, Marked, IntText, Stops, Render, QuoteFrom, Token, Valid;
    NumberStep(t, i, j);
    Stood(t, i, Render(j));
    if j.frac.None? && j.exp.None? {
      IntegerText(j);
      if IsUnsafe(j) {
        MarkedText(j);
      }
    } else {
      LongerThanInteger(j);
    }
  }

  lemma LongerThanInteger(j: Json)
    requires j.Number? && (j.frac.Some? || j.exp.Some?)
    ensures |Render(j)| > |IntText(j.neg, j.digits)|
  {
    hide IntText;
  }

  // ---------------------------------------------------------------- values

  lemma {:induction false} WordsAreOther(w: Word)
    ensures forall k :: 0 <= k < |WordText(w)| ==> IsOther(WordText(w)[k])
  {
  }

  lemma BlanksAreOther(t: Text)
    requires IsBlank(t)
    ensures forall k :: 0 <= k < |t| ==> IsOther(t[k])
  {
  }

  lemma {:induction false} ScansValue(t: Text, i: nat, j: Json)
    requires Valid(j) && StandsAt(t, i, Render(j)) && Stops(t, i + |Render(j)|)
    ensures Scans(t, i, Render(j), Render(Mark(j)))
    decreases j, 2
  {
    hide StandsAt, Scans, ItemsText, MembersText, IsUnsafe;
    match j
    case Literal(w) =>
      WordsAreOther(w);
      ScansOthers(t, i, WordText(w));
    case Number(_, _, _, _) => ScansNumber(t, i, j);
    case Str(ps) => ScansString(t, i, ps);
    case Array(blank, items) =>
      var body := if items == [] then blank else ItemsText(j, |items|);
      Enclosed(t, i, 0x5B, body, 0x5D);
      if items == [] {
        BlanksAreOther(blank);
        ScansOthers(t, i + 1, blank);
      } else {
        ScansItems(t, i + 1, j, |items|);
      }
      Encloses(t, i, 0x5B, body, if items == [] then blank else ItemsText(Mark(j), |items|), 0x5D);
    case Object(blank, members) =>
      var body := if members == [] then blank else MembersText(j, |members|);
      Enclosed(t, i, 0x7B, body, 0x7D);
      if members == [] {
        BlanksAreOther(blank);
        ScansOthers(t, i + 1, blank);
      } else {
        ScansMembers(t, i + 1, j, |members|);
      }
      Encloses(t, i, 0x7B, body, if members == [] then blank else MembersText(Mark(j), |members|), 0x7D);
  }

  lemma Enclosed(t: Text, i: nat, open: unit, body: Text, close: unit)
    requires StandsAt(t, i, [open] + body + [close]) && close in {0x5D, 0x7D}
    ensures StandsAt(t, i, [open]) && StandsAt(t, i + 1, body) && StandsAt(t, i + 1 + |body|, [close])
    ensures Stops(t, i + 1 + |body|)
  {
    hide StandsAt;
    SplitAt(t, i, [open] + body, [close]);
    SplitAt(t, i, [open], body);
    ElementAt(t, i + 1 + |body|, [close], 0);
  }

  lemma Encloses(t: Text, i: nat, open: unit, body: Text, marked: Text, close: unit)
    requires StandsAt(t, i, [open]) && IsOther(open) && Scans(t, i + 1, body, marked)
    requires StandsAt(t, i + 1 + |body|, [close]) && IsOther(close)
    ensures Scans(t, i, [open] + body + [close], [open] + marked + [close])
  {
    hide Scans, StandsAt;
    ScansChar(t, i, open);
    ScansChar(t, i + 1 + |body|, close);
    ScansBoth(t, i, [open], [open], body, marked);
    ScansBoth(t, i, [open] + body, [open] + marked, [close], [close]);
  }

  /** What follows a value inside an item is a blank or what follows the item. */
  lemma BlankStops(t: Text, i: nat, blank: Text)
    requires StandsAt(t, i, blank) && IsBlank(blank) && Stops(t, i + |blank|)
    ensures Stops(t, i)
  {
    if blank != [] {
      ElementAt(t, i, blank, 0);
    }
  }

  lemma {:induction false} ScansItem(t: Text, i: nat, x: Item)
    requires ValidItem(x) && StandsAt(t, i, ItemText(x)) && Stops(t, i + |ItemText(x)|)
    ensures Scans(t, i, ItemText(x), ItemText(MarkItem(x)))
    decreases x, 0
  {
    hide StandsAt, Scans, Render, IsBlank, Stops, Mark;
    var v, m := Render(x.value), Render(Mark(x.value));
    SplitAt(t, i, x.before + v, x.after);
    SplitAt(t, i, x.before, v);
    BlanksAreOther(x.before);
    BlanksAreOther(x.after);
    BlankStops(t, i + |x.before| + |v|, x.after);
    ScansOthers(t, i, x.before);
    ScansValue(t, i + |x.before|, x.value);
    ScansOthers(t, i + |x.before| + |v|, x.after);
    ScansBoth(t, i, x.before, x.before, v, m);
    ScansBoth(t, i, x.before + v, x.before + m, x.after, x.after);
  }

  lemma {:induction false} ScansMember(t: Text, i: nat, x: Member)
    requires ValidMember(x) && StandsAt(t, i, MemberText(x)) && Stops(t, i + |MemberText(x)|)
    ensures Scans(t, i, MemberText(x), MemberText(x.(item := MarkItem(x.item))))
    decreases x, 0
  {
    hide StandsAt, Scans, StringText, ItemText, IsBlank, Stops, MarkItem;
    var a, b, c := x.before, StringText(x.key), x.after;
    var v, m := ItemText(x.item), ItemText(MarkItem(x.item));
    SplitAt(t, i, a + b + c + [COLON], v);
    SplitAt(t, i, a + b + c, [COLON]);
    SplitAt(t, i, a + b, c);
    SplitAt(t, i, a, b);
    BlanksAreOther(a);
    BlanksAreOther(c);
    ScansOthers(t, i, a);
    ScansString(t, i + |a|, x.key);
    ScansOthers(t, i + |a| + |b|, c);
    ScansChar(t, i + |a| + |b| + |c|, COLON);
    ScansItem(t, i + |a| + |b| + |c| + 1, x.item);
    ScansBoth(t, i, a, a, b, b);
    ScansBoth(t, i, a + b, a + b, c, c);
    ScansBoth(t, i, a + b + c, a + b + c, [COLON], [COLON]);
    ScansBoth(t, i, a + b + c + [COLON], a + b + c + [COLON], v, m);
  }

  lemma ItemsStep(j: Json, n: nat)
    requires j.Array? && 0 < n <= |j.items|
    ensures ItemsText(j, n) == (if n == 1 then [] else ItemsText(j, n - 1) + [COMMA]) + ItemText(j.items[n - 1])
    ensures ItemsText(Mark(j), n) == (if n == 1 then [] else ItemsText(Mark(j), n - 1) + [COMMA]) + ItemText(MarkItem(j.items[n - 1]))
  {
    hide ItemText, MarkItem;
  }

  lemma MembersStep(j: Json, n: nat)
    requires j.Object? && 0 < n <= |j.members|
    ensures var x := j.members[n - 1];
            && MembersText(j, n) == (if n == 1 then [] else MembersText(j, n - 1) + [COMMA]) + MemberText(x)
            && MembersText(Mark(j), n)
               == (if n == 1 then [] else MembersText(Mark(j), n - 1) + [COMMA]) + MemberText(x.(item := MarkItem(x.item)))
  {
    hide MemberText, MarkItem;
  }

  lemma {:induction false} ScansItems(t: Text, i: nat, j: Json, n: nat)
    requires j.Array? && Valid(j) && n <= |j.items| && StandsAt(t, i, ItemsText(j, n)) && Stops(t, i + |ItemsText(j, n)|)
    ensures Scans(t, i, ItemsText(j, n), ItemsText(Mark(j), n))
    decreases j, 1, n
  {
    hide StandsAt, Scans, ItemText, Stops, MarkItem;
    if n == 0 {
      PlaceFits(t, i, []);
      ScansNothing(t, i);
    } else {
      hide ItemsText, Mark, ValidItem;
      ItemsStep(j, n);
      var x := j.items[n - 1];
      assert ValidItem(x);
      if n == 1 {
        assert [] + ItemText(x) == ItemText(x) && [] + ItemText(MarkItem(x)) == ItemText(MarkItem(x));
        ScansItem(t, i, x);
      } else {
        var p := ItemsText(j, n - 1);
        NextStands(t, i, p, ItemText(x));
        ScansItems(t, i, j, n - 1);
        ScansItem(t, i + |p| + 1, x);
        ScansNext(t, i, p, ItemsText(Mark(j), n - 1), ItemText(x), ItemText(MarkItem(x)));
      }
    }
  }

  /** An element behind a comma. */
  lemma NextStands(t: Text, i: nat, p: Text, x: Text)
    requires StandsAt(t, i, p + [COMMA] + x)
    ensures StandsAt(t, i, p) && StandsAt(t, i + |p|, [COMMA]) && StandsAt(t, i + |p| + 1, x)
    ensures Stops(t, i + |p|) && i + |p| + 1 + |x| == i + |p + [COMMA] + x|
  {
    hide StandsAt, Stops;
    SplitAt(t, i, p + [COMMA], x);
    SplitAt(t, i, p, [COMMA]);
    CommaStops(t, i + |p|);
  }

  lemma ScansNext(t: Text, i: nat, p: Text, q: Text, x: Text, y: Text)
    requires Scans(t, i, p, q) && StandsAt(t, i + |p|, [COMMA]) && Scans(t, i + |p| + 1, x, y)
    ensures Scans(t, i, p + [COMMA] + x, q + [COMMA] + y)
  {
    hide Scans, StandsAt;
    ScansChar(t, i + |p|, COMMA);
    ScansBoth(t, i, p, q, [COMMA], [COMMA]);
    ScansBoth(t, i, p + [COMMA], q + [COMMA], x, y);
  }

  lemma CommaStops(t: Text, i: nat)
    requires StandsAt(t, i, [COMMA])
    ensures Stops(t, i)
  {
    ElementAt(t, i, [COMMA], 0);
  }

  lemma {:induction false} ScansMembers(t: Text, i: nat, j: Json, n: nat)
    requires j.Object? && Valid(j) && n <= |j.members| && StandsAt(t, i, MembersText(j, n)) && Stops(t, i + |MembersText(j, n)|)
    ensures Scans(t, i, MembersText(j, n), MembersText(Mark(j), n))
    decreases j, 1, n
  {
    hide StandsAt, Scans, MemberText, Stops, MarkItem;
    if n == 0 {
      PlaceFits(t, i, []);
      ScansNothing(t, i);
    } else {
      hide MembersText, Mark, ValidMember;
      MembersStep(j, n);
      var x := j.members[n - 1];
      var y := x.(item := MarkItem(x.item));
      assert ValidMember(x);
      if n == 1 {
        assert [] + MemberText(x) == MemberText(x) && [] + MemberText(y) == MemberText(y);
        ScansMember(t, i, x);
      } else {
        var p := MembersText(j, n - 1);
        NextStands(t, i, p, MemberText(x));
        ScansMembers(t, i, j, n - 1);
        ScansMember(t, i + |p| + 1, x);
        ScansNext(t, i, p, MembersText(Mark(j), n - 1), MemberText(x), MemberText(y));
      }
    }
  }

  /** For every JSON text: the scan marks its unsafe integers and changes nothing else. */
  lemma QuoteMarks(x: Item)
    requires ValidItem(x)
    ensures QuoteFrom(ItemText(x), 0) == ItemText(MarkItem(x))
  {
    var t := ItemText(x);
    assert t[0..0 + |t|] == t;
    ScansItem(t, 0, x);
    QuoteEnd(t);
    Concat(ItemText(MarkItem(x)), [], []);
  }
}
