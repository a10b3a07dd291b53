/** The scan that marks the integers a JSON text has beyond what a number can hold. Texts are sequences of UTF-16 units. */
module JsonScan {
  import opened Doubles
  import opened Places

  newtype unit = u: int | 0 <= u < 0x1_0000

  type Text = seq<unit>

  const QUOTE: unit := 0x22
  const BACKSLASH: unit := 0x5C
  const MINUS: unit := 0x2D
  const PLUS: unit := 0x2B
  const DOT: unit := 0x2E
  const SENTINEL: unit := 0xE000

  predicate IsDigit(c: unit) {
    0x30 <= c <= 0x39
  }

  predicate IsExponent(c: unit) {
    c == 0x65 || c == 0x45
  }

  /** The digits from `i` on end here. */
  function DigitsEnd(t: Text, i: nat): (e: nat)
    requires i <= |t|
    ensures i <= e <= |t| && (forall k :: i <= k < e ==> IsDigit(t[k])) && (e < |t| ==> !IsDigit(t[e]))
    decreases |t| - i
  {
    if i < |t| && IsDigit(t[i]) then DigitsEnd(t, i + 1) else i
  }

  /** Behind the closing quote of the string whose contents start at `i`. */
  function StringEnd(t: Text, i: nat): (e: nat)
    requires i <= |t|
    ensures i <= e <= |t|
    decreases |t| - i
  {
    if i == |t| then i
    else if t[i] == BACKSLASH then (if i + 1 < |t| then StringEnd(t, i + 2) else i + 1)
    else if t[i] == QUOTE then i + 1
    else StringEnd(t, i + 1)
  }

  function IntEnd(t: Text, i: nat): (e: nat)
    requires i < |t|
    ensures i <= e <= |t|
  {
    DigitsEnd(t, if t[i] == MINUS then i + 1 else i)
  }

  function FractionEnd(t: Text, i: nat): (e: nat)
    requires i <= |t|
    ensures i <= e <= |t|
  {
    if i < |t| && t[i] == DOT then DigitsEnd(t, i + 1) else i
  }

  function ExponentEnd(t: Text, i: nat): (e: nat)
    requires i <= |t|
    ensures i <= e <= |t|
  {
    if i < |t| && IsExponent(t[i]) then
      DigitsEnd(t, if i + 1 < |t| && (t[i + 1] == PLUS || t[i + 1] == MINUS) then i + 2 else i + 1)
    else i
  }

  function NumberEnd(t: Text, i: nat): (e: nat)
    requires i < |t|
    ensures IntEnd(t, i) <= e <= |t|
  {
    ExponentEnd(t, FractionEnd(t, IntEnd(t, i)))
  }

  predicate AllDigits(d: Text) {
    forall k :: 0 <= k < |d| ==> IsDigit(d[k])
  }

  /** The value of the first `n` digits. */
  function Decimal(d: Text, n: nat): int
    requires n <= |d|
  {
    if n == 0 then 0 else 10 * Decimal(d, n - 1) + (d[n - 1] as int - 0x30)
  }

  function Unsigned(t: Text): Text {
    if t != [] && t[0] == MINUS then t[1..] else t
  }

  /** `-?[0-9]+` */
  predicate IsInteger(t: Text) {
    Unsigned(t) != [] && AllDigits(Unsigned(t))
  }

  function IntegerOf(t: Text): int
    requires IsInteger(t)
  {
    var n := Decimal(Unsigned(t), |Unsigned(t)|);
    if t[0] == MINUS then -n else n
  }

  /** `Number.isSafeInteger(Number(token))`: rounding moves no integer across the bound. */
  predicate IsSafe(t: Text) {
    IsInteger(t) && IsSafeInteger(Round(IntegerOf(t)))
  }

  function Marked(token: Text): Text {
    [QUOTE, SENTINEL] + token + [SENTINEL, QUOTE]
  }

  /** A scanned number: marked when it is an integer and not safe. */
  function Token(t: Text, i: nat): Text
    requires i < |t|
  {
    var token := t[i..NumberEnd(t, i)];
    if NumberEnd(t, i) == IntEnd(t, i) && !IsSafe(token) then Marked(token) else token
  }

  /** The output for the text from `i` on. */
  function QuoteFrom(t: Text, i: nat): Text
    requires i <= |t|
    decreases |t| - i
  {
    if i == |t| then []
    else if t[i] == QUOTE then t[i..StringEnd(t, i + 1)] + QuoteFrom(t, StringEnd(t, i + 1))
    else if t[i] == MINUS || IsDigit(t[i]) then
      assert t[i] == MINUS || IntEnd(t, i) > i;
      Token(t, i) + QuoteFrom(t, NumberEnd(t, i))
    else [t[i]] + QuoteFrom(t, i + 1)
  }

  /** Where the piece of text at `i` ends: a string, a number or one character. */
  function PieceEnd(t: Text, i: nat): (e: nat)
    requires i < |t|
    ensures i < e <= |t|
  {
    if t[i] == QUOTE then StringEnd(t, i + 1)
    else if t[i] == MINUS || IsDigit(t[i]) then
      assert t[i] == MINUS || IntEnd(t, i) > i;
      NumberEnd(t, i)
    else i + 1
  }

  /** The output for that piece. */
  function Piece(t: Text, i: nat): Text
    requires i < |t|
  {
    if t[i] == MINUS || IsDigit(t[i]) then Token(t, i) else t[i..PieceEnd(t, i)]
  }

  lemma QuoteStep(t: Text, i: nat)
    requires i < |t|
    ensures QuoteFrom(t, i) == Piece(t, i) + QuoteFrom(t, PieceEnd(t, i))
  {
    hide StringEnd, NumberEnd, IntEnd, Token;
    if t[i] != QUOTE && t[i] != MINUS && !IsDigit(t[i]) {
      assert t[i..i + 1] == [t[i]];
    }
  }

  lemma QuoteEnd(t: Text)
    ensures QuoteFrom(t, |t|) == []
  {
  }

  lemma Concat(a: Text, b: Text, c: Text)
    ensures a + (b + c) == a + b + c && a + [] == a && [] + a == a
  {
  }

  // ---------------------------------------------------------------- the function of the SDK

  lemma Slice1(t: Text, i: nat, j: nat)
    requires i <= j < |t|
    ensures t[i..j + 1] == t[i..j] + [t[j]]
  {
  }

  method SkipDigits(t: Text, i0: nat) returns (i: nat)
    requires i0 <= |t|
    ensures i == DigitsEnd(t, i0)
  {
    i := i0;
    while i < |t| && IsDigit(t[i])
      invariant i0 <= i <= |t| && DigitsEnd(t, i) == DigitsEnd(t, i0)
    {
      i := i + 1;
    }
  }

  /** The string literal whose opening quote is at `start`, copied as it is. */
  method CopyString(t: Text, start: nat, out0: Text) returns (i: nat, out: Text)
    requires start < |t| && t[start] == QUOTE
    ensures i == StringEnd(t, start + 1) && out == out0 + t[start..i]
  {
    out := out0 + [t[start]];
    i := start + 1;
    assert t[start..i] == [t[start]];
    while i < |t|
      invariant start + 1 <= i <= |t| && out == out0 + t[start..i]
      invariant StringEnd(t, i) == StringEnd(t, start + 1)
    {
      var sc := t[i];
      Slice1(t, start, i);
      out := out + [sc];
      i := i + 1;
      if sc == BACKSLASH {
        if i < |t| {
          Slice1(t, start, i);
          out := out + [t[i]];
          i := i + 1;
        }
      } else if sc == QUOTE {
        return;
      }
    }
  }

  lemma DigitFound(t: Text, i: nat)
    requires i < |t| && IsDigit(t[i])
    ensures DigitsEnd(t, i) > i
  {
  }

  /** The number token at `start`, and whether it is more than an integer. */
  method ScanNumber(t: Text, start: nat) returns (i: nat, isFloat: bool)
    requires start < |t| && (t[start] == MINUS || IsDigit(t[start]))
    ensures i == NumberEnd(t, start) && start < i && isFloat == (i != IntEnd(t, start))
  {
    hide DigitsEnd;
    if IsDigit(t[start]) { DigitFound(t, start); }
    i := start;
    if t[start] == MINUS {
      i := i + 1;
    }
    i := SkipDigits(t, i);
    isFloat := false;
    if i < |t| && t[i] == DOT {
      isFloat := true;
      i := SkipDigits(t, i + 1);
    }
    if i < |t| && IsExponent(t[i]) {
      isFloat := true;
      i := i + 1;
      if i < |t| && (t[i] == PLUS || t[i] == MINUS) {
        i := i + 1;
      }
      i := SkipDigits(t, i);
    }
  }

  /** `quoteUnsafeIntegers` */
  method QuoteUnsafeIntegers(t: Text) returns (out: Text)
    ensures out == QuoteFrom(t, 0)
  {
    hide StringEnd, NumberEnd, IntEnd, IsSafe, QuoteFrom, PieceEnd;
    out := [];
    var i := 0;
    Concat(QuoteFrom(t, 0), [], []);
    while i < |t|
      invariant 0 <= i <= |t| && out + QuoteFrom(t, i) == QuoteFrom(t, 0)
    {
      QuoteStep(t, i);
      Concat(out, Piece(t, i), QuoteFrom(t, PieceEnd(t, i)));
      i, out := CopyPiece(t, i, out);
    }
    QuoteEnd(t);
    Concat(out, [], []);
  }

  /** One turn of the scan. */
  method CopyPiece(t: Text, start: nat, out0: Text) returns (i: nat, out: Text)
    requires start < |t|
    ensures i == PieceEnd(t, start) && out == out0 + Piece(t, start)
  {
    hide StringEnd, NumberEnd, IntEnd, IsSafe;
    var c := t[start];
    if c == QUOTE {
      i, out := CopyString(t, start, out0);
    } else if c == MINUS || IsDigit(c) {
      var isFloat;
      i, isFloat := ScanNumber(t, start);
      var token := t[start..i];
      out := out0 + if !isFloat && !IsSafe(token) then Marked(token) else token;
    } else {
      out := out0 + [c];
      i := start + 1;
      assert t[start..i] == [c];
    }
  }

  // ---------------------------------------------------------------- erasing the marks

  function Erase(x: Text, i: nat): Text
    requires i <= |x|
    decreases |x| - i
  {
    if i == |x| then []
    else if i + 1 < |x| && ((x[i] == QUOTE && x[i + 1] == SENTINEL) || (x[i] == SENTINEL && x[i + 1] == QUOTE)) then Erase(x, i + 2)
    else [x[i]] + Erase(x, i + 1)
  }

  /** `p` stands in `x` at `i`. */
  /** A stretch without marks is left alone, unless its last quote and what follows it make one. */
  lemma {:induction false} ErasePlain(x: Text, i: nat, p: Text)
    requires StandsAt(x, i, p) && SENTINEL !in p && (i + |p| < |x| ==> x[i + |p|] != SENTINEL)
    ensures Erase(x, i) == p + Erase(x, i + |p|)
    decreases |p|
  {
    if p != [] {
      assert x[i] == x[i..i + |p|][0] == p[0] && (|p| > 1 ==> x[i + 1] == x[i..i + |p|][1] == p[1]);
      assert x[i + 1..i + 1 + |p[1..]|] == p[1..];
      ErasePlain(x, i + 1, p[1..]);
      assert Erase(x, i) == [p[0]] + Erase(x, i + 1);
      hide Erase;
      Concat([p[0]], p[1..], Erase(x, i + |p|));
      assert [p[0]] + p[1..] == p;
    }
  }

  lemma EraseMark(x: Text, i: nat, mark: Text)
    requires StandsAt(x, i, mark) && mark in {[QUOTE, SENTINEL], [SENTINEL, QUOTE]}
    ensures Erase(x, i) == Erase(x, i + 2)
  {
    assert |mark| == 2 && x[i] == x[i..i + 2][0] == mark[0] && x[i + 1] == x[i..i + 2][1] == mark[1];
  }

  lemma EraseMarked(x: Text, i: nat, token: Text)
    requires StandsAt(x, i, Marked(token)) && SENTINEL !in token && QUOTE !in token
    ensures Erase(x, i) == token + Erase(x, i + |token| + 4)
  {
    var head, last := [QUOTE, SENTINEL], [SENTINEL, QUOTE];
    var j := i + 2 + |token|;
    SplitAt(x, i, head + token, last);
    SplitAt(x, i, head, token);
    EraseMark(x, i, head);
    EraseUnquoted(x, i + 2, token);
    EraseMark(x, j, last);
  }

  lemma {:induction false} EraseUnquoted(x: Text, i: nat, p: Text)
    requires StandsAt(x, i, p) && SENTINEL !in p && QUOTE !in p
    ensures Erase(x, i) == p + Erase(x, i + |p|)
    decreases |p|
  {
    if p != [] {
      assert x[i] == x[i..i + |p|][0] == p[0];
      assert x[i + 1..i + 1 + |p[1..]|] == p[1..];
      EraseUnquoted(x, i + 1, p[1..]);
      assert Erase(x, i) == [p[0]] + Erase(x, i + 1);
      hide Erase;
      Concat([p[0]], p[1..], Erase(x, i + |p|));
      assert [p[0]] + p[1..] == p;
    }
  }

  lemma {:induction false} NumberHasNoQuote(t: Text, i: nat)
    requires i < |t| && (t[i] == MINUS || IsDigit(t[i]))
    ensures QUOTE !in t[i..IntEnd(t, i)]
  {
  }

  lemma FirstOfQuote(t: Text, i: nat)
    requires i < |t| && SENTINEL !in t
    ensures QuoteFrom(t, i) != [] && QuoteFrom(t, i)[0] != SENTINEL
  {
    hide IsSafe, QuoteFrom, PieceEnd, NumberEnd, IntEnd;
    QuoteStep(t, i);
    assert PieceEnd(t, i) == NumberEnd(t, i) || !(t[i] == MINUS || IsDigit(t[i])) by { NumberPiece(t, i); }
    assert t[i..PieceEnd(t, i)][0] == t[i];
  }

  lemma NumberPiece(t: Text, i: nat)
    requires i < |t|
    ensures t[i] == MINUS || IsDigit(t[i]) ==> PieceEnd(t, i) == NumberEnd(t, i)
  {
  }

  lemma Tail(x: Text, i: nat, t: Text, j: nat)
    requires j <= |t| && SENTINEL !in t && i <= |x| && x[i..] == QuoteFrom(t, j)
    ensures i < |x| ==> x[i] != SENTINEL
  {
    if i < |x| {
      assert x[i] == x[i..][0];
      if j < |t| {
        FirstOfQuote(t, j);
      }
    }
  }

  lemma Drop(x: Text, i: nat, p: Text, q: Text)
    requires i <= |x| && x[i..] == p + q
    ensures StandsAt(x, i, p) && i + |p| <= |x| && x[i + |p|..] == q
  {
    assert x[i..i + |p|] == x[i..][..|p|] && x[i + |p|..] == x[i..][|p|..];
  }

  lemma {:induction false} EraseFrom(t: Text, j: nat, x: Text, i: nat)
    requires j <= |t| && SENTINEL !in t && i <= |x| && x[i..] == QuoteFrom(t, j)
    ensures Erase(x, i) == t[j..]
    decreases |t| - j
  {
    hide Erase, QuoteFrom, Piece, PieceEnd, StandsAt;
    if j == |t| {
      QuoteEnd(t);
      EraseNothing(x);
    } else {
      var e := PieceEnd(t, j);
      QuoteStep(t, j);
      Drop(x, i, Piece(t, j), QuoteFrom(t, e));
      EraseFrom(t, e, x, i + |Piece(t, j)|);
      ErasePiece(t, j, x, i);
      assert t[j..] == t[j..e] + t[e..];
    }
  }

  /** Erasing gives each piece back. */
  lemma ErasePiece(t: Text, j: nat, x: Text, i: nat)
    requires j < |t| && SENTINEL !in t && StandsAt(x, i, Piece(t, j))
    requires i + |Piece(t, j)| <= |x| && x[i + |Piece(t, j)|..] == QuoteFrom(t, PieceEnd(t, j))
    ensures Erase(x, i) == t[j..PieceEnd(t, j)] + Erase(x, i + |Piece(t, j)|)
  {
    hide Erase, QuoteFrom, StringEnd, NumberEnd, IntEnd, IsSafe, StandsAt;
    var e, p := PieceEnd(t, j), Piece(t, j);
    if p == t[j..e] {
      Tail(x, i + |p|, t, e);
      ErasePlain(x, i, p);
    } else {
      assert p == Marked(t[j..e]) && e == IntEnd(t, j);
      NumberHasNoQuote(t, j);
      EraseMarked(x, i, t[j..e]);
    }
  }

  lemma EraseNothing(x: Text)
    ensures Erase(x, |x|) == []
  {
  }

  /** For every text, JSON or not, without the sentinel: erasing the marks restores it. */
  lemma EraseRestores(t: Text)
    requires SENTINEL !in t
    ensures Erase(QuoteFrom(t, 0), 0) == t
  {
    var x := QuoteFrom(t, 0);
    assert x[0..] == x && t[0..] == t;
    EraseFrom(t, 0, x, 0);
  }
}
