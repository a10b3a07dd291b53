/** What a printed string tells: read as a Lua literal it is the string again. */
module TracebackText {
  import opened Options
  import opened Places
  import opened TracebackSpec

  // ---------------------------------------------------------------- the reader

  function HexValue(c: char): Option<nat> {
    if '0' <= c <= '9' then Some(c as nat - '0' as nat)
    else if 'a' <= c <= 'f' then Some(c as nat - 'a' as nat + 10)
    else None
  }

  /** Two hexadecimal digits. */
  function HexPair(t: string, i: nat): Option<char> {
    if i + 1 >= |t| || HexValue(t[i]).None? || HexValue(t[i + 1]).None? then None
    else Some((HexValue(t[i]).value * 16 + HexValue(t[i + 1]).value) as char)
  }

  function Simple(c: char): Option<char> {
    if c == 'b' then Some('\U{8}')
    else if c == 't' then Some('\t')
    else if c == 'n' then Some('\n')
    else if c == 'f' then Some('\U{C}')
    else if c == 'r' then Some('\r')
    else if c == '"' || c == '\\' then Some(c)
    else None
  }

  /** The character at `i` of a literal and where the next one stands. */
  function ReadChar(t: string, i: nat): Option<(char, nat)> {
    if i >= |t| || t[i] == '"' then None
    else if t[i] != '\\' then Some((t[i], i + 1))
    else if i + 1 < |t| && t[i + 1] == 'x' then
      var c := HexPair(t, i + 2);
      if c.None? then None else Some((c.value, i + 4))
    else if i + 1 < |t| && Simple(t[i + 1]).Some? then Some((Simple(t[i + 1]).value, i + 2))
    else None
  }

  /** The characters from `i` on, up to what is no character of a literal, and where that stands. */
  function ReadChars(t: string, i: nat): (r: (string, nat))
    decreases |t| - i
  {
    var c := ReadChar(t, i);
    if c.None? then ("", i)
    else
      var (s, e) := ReadChars(t, c.value.1);
      ([c.value.0] + s, e)
  }

  // ---------------------------------------------------------------- printing and reading

  function Escapes(s: string, i: nat): string
    requires i <= |s|
    decreases |s| - i
  {
    if i == |s| then "" else Escape(s[i]) + Escapes(s, i + 1)
  }

  function Hexes(s: string, i: nat): string
    requires i <= |s|
    decreases |s| - i
  {
    if i == |s| then "" else Hex(s[i]) + Hexes(s, i + 1)
  }

  lemma DigitReads(n: nat)
    requires n < 16
    ensures HexValue(Digit(n)) == Some(n)
  {
  }

  lemma {:induction false} HexReads(t: string, i: nat, c: char)
    requires StandsAt(t, i, Hex(c)) && c as int < 256
    ensures HexPair(t, i) == Some(c)
  {
    hide Digit, HexValue;
    ElementsAt(t, i, Hex(c));
    var n := c as nat;
    DigitReads(n / 16);
    DigitReads(n % 16);
    assert t[i] == Digit(n / 16) && t[i + 1] == Digit(n % 16);
    assert n / 16 * 16 + n % 16 == n;
  }

  /** Every printed character is read as itself. */
  lemma {:induction false} EscapeReads(t: string, i: nat, c: char)
    requires StandsAt(t, i, Escape(c))
    ensures i < |t| && ReadChar(t, i) == Some((c, i + |Escape(c)|))
  {
    ElementsAt(t, i, Escape(c));
    if c < ' ' || c == '\U{7F}' {
      if c !in "\U{8}\t\n\U{C}\r" {
        SplitAt(t, i, "\\x", Hex(c));
        ElementsAt(t, i, "\\x");
        HexReads(t, i + 2, c);
      }
    }
  }

  lemma {:induction false} EscapesRead(s: string, k: nat, t: string, i: nat)
    requires k <= |s| && StandsAt(t, i, Escapes(s, k)) && ReadChar(t, i + |Escapes(s, k)|).None?
    ensures ReadChars(t, i) == (s[k..], i + |Escapes(s, k)|)
    decreases |s| - k
  {
    hide Escape, ReadChar, StandsAt;
    if k < |s| {
      SplitAt(t, i, Escape(s[k]), Escapes(s, k + 1));
      EscapeReads(t, i, s[k]);
      EscapesRead(s, k + 1, t, i + |Escape(s[k])|);
      assert s[k..] == [s[k]] + s[k + 1..];
    } else {
      assert s[k..] == "";
    }
  }

  /** What is appended without a bound. */
  lemma {:induction false} AppendsChars(c: Config, out: string, s: string, n: nat, text: bool)
    requires c.maxLen.None? && n <= |s|
    ensures AppendChars(c, out, s, n, text) == out + if text then Escapes(s[..n], 0) else Hexes(s[..n], 0)
  {
    hide Escape, Hex, Escapes, Hexes;
    if n > 0 {
      AppendsChars(c, out, s, n - 1, text);
      assert s[..n] == s[..n - 1] + [s[n - 1]];
      OneMore(s[..n - 1], s[n - 1], 0);
      var less := if text then Escapes(s[..n - 1], 0) else Hexes(s[..n - 1], 0);
      var more := if text then Escape(s[n - 1]) else Hex(s[n - 1]);
      assert out + less + more == out + (less + more);
    } else {
      Nothing();
      assert out + "" == out;
    }
  }

  lemma Nothing()
    ensures Escapes("", 0) == "" && Hexes("", 0) == ""
  {
  }

  lemma {:induction false} OneMore(s: string, x: char, i: nat)
    requires i <= |s|
    ensures Escapes(s + [x], i) == Escapes(s, i) + Escape(x) && Hexes(s + [x], i) == Hexes(s, i) + Hex(x)
    decreases |s| - i
  {
    hide Escape, Hex;
    if i < |s| {
      OneMore(s, x, i + 1);
      assert Escape(s[i]) + (Escapes(s, i + 1) + Escape(x)) == Escape(s[i]) + Escapes(s, i + 1) + Escape(x);
      assert Hex(s[i]) + (Hexes(s, i + 1) + Hex(x)) == Hex(s[i]) + Hexes(s, i + 1) + Hex(x);
    } else {
      assert Escape(x) + "" == Escape(x) && Hex(x) + "" == Hex(x);
    }
  }

  /** A string as it is printed when the buffer has no bound. */
  lemma {:induction false} Prints(c: Config, out: string, s: string)
    requires c.maxLen.None?
    ensures var l := if |s| < c.maxString then |s| else c.maxString;
            SeriString(c, out, s)
            == out + var end := if |s| > c.maxString then "..." else "\"";
                     if c.utf8(s, l) then Quoted(s[..l], end) else "\"" + ("0x" + Hexes(s[..l], 0)) + end
  {
    hide AppendChars, Escapes, Hexes;
    var l := if |s| < c.maxString then |s| else c.maxString;
    var text := c.utf8(s, l);
    AppendsChars(c, if text then out + "\"" else out + "\"" + "0x", s, l, text);
    var body, end := if text then Escapes(s[..l], 0) else Hexes(s[..l], 0), if |s| > c.maxString then "..." else "\"";
    if text {
      assert out + "\"" + body + end == out + ("\"" + body + end);
    } else {
      assert out + "\"" + "0x" + body + end == out + ("\"" + ("0x" + body) + end);
    }
  }

  /** Without a bound on the buffer, a string that counts as text is printed as a Lua literal that reads as the string; of
      one that is too long, what is read is as much of it as fits and three dots for the rest. */
  lemma {:induction false} TextReadsBack(c: Config, out: string, s: string)
    requires c.maxLen.None?
    requires c.utf8(s, if |s| < c.maxString then |s| else c.maxString)
    ensures var r := SeriString(c, out, s);
            && out < r && r[|out|] == '"'
            && var (read, e) := ReadChars(r, |out| + 1);
               if |s| <= c.maxString then read == s && e == |r| - 1 && r[e] == '"'
               else read == s[..c.maxString] + "..." && e == |r|
  {
    hide SeriString, Escapes, ReadChars, Quoted;
    Prints(c, out, s);
    if |s| <= c.maxString {
      assert s[..|s|] == s;
      LiteralReads(out, s, SeriString(c, out, s));
    } else {
      CutReads(out, s[..c.maxString], SeriString(c, out, s));
    }
  }

  /** Text `s` as it is printed, with `end` behind it. */
  function Quoted(s: string, end: string): string {
    "\"" + Escapes(s, 0) + end
  }

  lemma {:induction false} QuotedPieces(out: string, s: string, end: string, r: string)
    requires r == out + Quoted(s, end)
    ensures |r| == |out| + 1 + |Escapes(s, 0)| + |end| && out < r && r[|out|] == '"'
    ensures StandsAt(r, |out| + 1, Escapes(s, 0)) && StandsAt(r, |out| + 1 + |Escapes(s, 0)|, end)
  {
    hide Escapes;
    var body := Escapes(s, 0);
    assert r == out + "\"" + body + end;
    assert r[|out| + 1..|out| + 1 + |body|] == body;
    assert r[|out| + 1 + |body|..|out| + 1 + |body| + |end|] == end;
  }

  lemma {:induction false} BodyReads(r: string, i: nat, s: string)
    requires StandsAt(r, i, Escapes(s, 0)) && ReadChar(r, i + |Escapes(s, 0)|).None?
    ensures ReadChars(r, i).0 == s && ReadChars(r, i).1 == i + |Escapes(s, 0)|
  {
    hide Escapes, ReadChars, ReadChar, StandsAt;
    EscapesRead(s, 0, r, i);
    assert s[0..] == s;
  }

  lemma {:induction false} LiteralReads(out: string, s: string, r: string)
    requires r == out + Quoted(s, "\"")
    ensures out < r && r[|out|] == '"' && ReadChars(r, |out| + 1).0 == s && ReadChars(r, |out| + 1).1 == |r| - 1
    ensures r[|r| - 1] == '"'
  {
    hide Escapes, ReadChars, ReadChar, StandsAt, Quoted;
    QuotedPieces(out, s, "\"", r);
    var e := |out| + 1 + |Escapes(s, 0)|;
    assert r[e] == '"' by { ElementAt(r, e, "\"", 0); }
    AtQuote(r, e);
    BodyReads(r, |out| + 1, s);
  }

  lemma {:induction false} CutReads(out: string, s: string, r: string)
    requires r == out + Quoted(s, "...")
    ensures out < r && r[|out|] == '"' && ReadChars(r, |out| + 1).0 == s + "..." && ReadChars(r, |out| + 1).1 == |r|
  {
    hide Escapes, ReadChars, ReadChar, StandsAt, Quoted;
    DotsInside(s);
    QuotedPieces(out, s + "...", "", r);
    AtEnd(r);
    BodyReads(r, |out| + 1, s + "...");
  }

  lemma {:induction false} DotsInside(s: string)
    ensures Quoted(s, "...") == Quoted(s + "...", "")
  {
    Dots(s);
    hide Escapes;
    var body := Escapes(s, 0);
    assert "\"" + body + "..." == "\"" + (body + "...") + "";
  }

  lemma AtQuote(t: string, i: nat)
    requires i < |t| && t[i] == '"'
    ensures ReadChar(t, i).None?
  {
  }

  lemma AtEnd(t: string)
    ensures ReadChar(t, |t|).None?
  {
  }

  lemma Dots(s: string)
    ensures Escapes(s + "...", 0) == Escapes(s, 0) + "..."
  {
    hide Escapes;
    assert Escape('.') == ".";
    assert s + "." + "." + "." == s + "...";
    OneMore(s, '.', 0);
    OneMore(s + ".", '.', 0);
    OneMore(s + "." + ".", '.', 0);
  }

  /** A string that does not count as text is printed as its bytes. */
  lemma {:induction false} BytesReadBack(c: Config, out: string, s: string, k: nat)
    requires c.maxLen.None? && |s| <= c.maxString && !c.utf8(s, |s|) && k < |s| && s[k] as int < 256
    ensures var r := SeriString(c, out, s);
            && |r| == |out| + 2 * |s| + 4 && StandsAt(r, |out|, "\"0x") && r[|r| - 1] == '"'
            && HexPair(r, |out| + 3 + 2 * k) == Some(s[k])
  {
    hide SeriString, Hex;
    Prints(c, out, s);
    assert s[..|s|] == s;
    var r, body := SeriString(c, out, s), Hexes(s, 0);
    HexesAt(s, 0, k);
    assert r == out + "\"0x" + body + "\"";
    assert r[|out|..|out| + 3] == "\"0x";
    assert r[|out| + 3 + 2 * k..|out| + 3 + 2 * k + 2] == body[2 * k..2 * k + 2];
    HexSize(s[k]);
    HexReads(r, |out| + 3 + 2 * k, s[k]);
  }

  lemma HexSize(c: char)
    ensures |Hex(c)| == 2
  {
  }

  lemma {:induction false} HexesAt(s: string, i: nat, k: nat)
    requires i <= k < |s|
    ensures |Hexes(s, i)| == 2 * (|s| - i) && Hexes(s, i)[2 * (k - i)..2 * (k - i) + 2] == Hex(s[k])
    decreases |s| - i
  {
    hide Hex;
    HexSize(s[i]);
    var h, rest := Hex(s[i]), Hexes(s, i + 1);
    if i + 1 < |s| { HexesAt(s, i + 1, if k > i then k else i + 1); }
    if k > i {
      assert (h + rest)[2 * (k - i)..2 * (k - i) + 2] == rest[2 * (k - i - 1)..2 * (k - i - 1) + 2];
    } else {
      assert (h + rest)[0..2] == h;
    }
  }

  lemma {:induction false} HexIsPlain(s: string, i: nat)
    requires i <= |s| && forall k :: i <= k < |s| ==> s[k] in "0x" || HexValue(s[k]).Some?
    ensures Escapes(s, i) == s[i..]
    decreases |s| - i
  {
    if i < |s| {
      HexIsPlain(s, i + 1);
      assert Escape(s[i]) == [s[i]];
      assert s[i..] == [s[i]] + s[i + 1..];
    }
  }

  lemma {:induction false} HexesArePlain(s: string, i: nat)
    requires i <= |s|
    ensures forall k :: 0 <= k < |Hexes(s, i)| ==> HexValue(Hexes(s, i)[k]).Some?
    decreases |s| - i
  {
    if i < |s| {
      HexesArePlain(s, i + 1);
      hide Hexes;
      DigitReads(s[i] as nat % 256 / 16);
      DigitReads(s[i] as nat % 256 % 16);
    }
  }

  /** The two forms can be mistaken for each other: whatever is printed as its bytes, the text that spells those bytes is
      printed alike. */
  lemma {:induction false} PrintedAlike(c: Config, bytes: string)
    requires var text := "0x" + Hexes(bytes, 0);
             && c.maxLen.None? && |bytes| <= c.maxString && |text| <= c.maxString
             && !c.utf8(bytes, |bytes|) && c.utf8(text, |text|)
    ensures SeriString(c, "", "0x" + Hexes(bytes, 0)) == SeriString(c, "", bytes)
  {
    hide SeriString, Escapes, Hexes;
    var text := "0x" + Hexes(bytes, 0);
    Prints(c, "", text);
    Prints(c, "", bytes);
    assert text[..|text|] == text && bytes[..|bytes|] == bytes;
    HexesArePlain(bytes, 0);
    HexIsPlain(text, 0);
    assert text[0..] == text;
    assert Quoted(text, "\"") == "\"" + text + "\"";
  }
}
