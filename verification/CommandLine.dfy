/** One command line out of a list of arguments, and how Windows takes it apart again. */
module CommandLine {
  import opened Places

  // ---------------------------------------------------------------- quoting

  function Repeat(c: char, n: nat): (r: string)
    ensures |r| == n && forall k :: 0 <= k < n ==> r[k] == c
  {
    seq(n, _ => c)
  }

  /** How many backslashes stand in `s` from `i` on. */
  function SlashRun(s: string, i: nat): (n: nat)
    requires i <= |s|
    ensures i + n <= |s| && (forall k :: i <= k < i + n ==> s[k] == '\\') && (i + n < |s| ==> s[i + n] != '\\')
    decreases |s| - i
  {
    if i < |s| && s[i] == '\\' then 1 + SlashRun(s, i + 1) else 0
  }

  /** The argument from character `i` on: backslashes are doubled before a quote and at the end. */
  function QuotedFrom(a: string, i: nat): string
    requires i <= |a|
    decreases |a| - i
  {
    var n := SlashRun(a, i);
    if i + n == |a| then Repeat('\\', 2 * n)
    else if a[i + n] == '"' then Repeat('\\', 2 * n + 1) + ['"'] + QuotedFrom(a, i + n + 1)
    else Repeat('\\', n) + [a[i + n]] + QuotedFrom(a, i + n + 1)
  }

  function Quoted(a: string): string {
    ['"'] + QuotedFrom(a, 0) + ['"']
  }

  /** The first `n` arguments, with a space between them. */
  function Line(args: seq<string>, n: nat): string
    requires n <= |args|
  {
    if n == 0 then "" else (if n == 1 then "" else Line(args, n - 1) + " ") + Quoted(args[n - 1])
  }

  // ---------------------------------------------------------------- parsing

  predicate IsBlank(c: char) {
    c == ' ' || c == '\t'
  }

  /** One argument from `i` on and where it ends. An even number of backslashes before a quote halves, and the quote opens or
      closes a quotation; an odd number halves and the quote is literal; so is one of two quotes inside a quotation. Other
      backslashes stand for themselves. */
  function ParseArg(l: string, i: nat, quoted: bool): (r: (string, nat))
    requires i <= |l|
    ensures i <= r.1 <= |l|
    ensures i < |l| && !IsBlank(l[i]) ==> i < r.1
    decreases |l| - i
  {
    var n := SlashRun(l, i);
    var j := i + n;
    if j == |l| then (Repeat('\\', n), j)
    else if l[j] == '"' then
      if n % 2 == 1 then
        var (rest, e) := ParseArg(l, j + 1, quoted);
        (Repeat('\\', n / 2) + ['"'] + rest, e)
      else if quoted && j + 1 < |l| && l[j + 1] == '"' then
        var (rest, e) := ParseArg(l, j + 2, true);
        (Repeat('\\', n / 2) + ['"'] + rest, e)
      else
        var (rest, e) := ParseArg(l, j + 1, !quoted);
        (Repeat('\\', n / 2) + rest, e)
    else if !quoted && IsBlank(l[j]) then (Repeat('\\', n), j)
    else
      var (rest, e) := ParseArg(l, j + 1, quoted);
      (Repeat('\\', n) + [l[j]] + rest, e)
  }

  function ParseArgs(l: string, i: nat): seq<string>
    requires i <= |l|
    decreases |l| - i
  {
    if i == |l| then []
    else if IsBlank(l[i]) then ParseArgs(l, i + 1)
    else
      var (a, e) := ParseArg(l, i, false);
      [a] + ParseArgs(l, e)
  }

  function IndexOf(l: string, i: nat, blanks: bool): (e: nat)
    requires i <= |l|
    ensures i <= e <= |l|
    decreases |l| - i
  {
    if i == |l| || (if blanks then IsBlank(l[i]) else l[i] == '"') then i else IndexOf(l, i + 1, blanks)
  }

  /** The program name knows no escapes: a quoted one ends at the next quote. */
  function ProgramEnd(l: string): (e: nat)
    ensures e <= |l|
  {
    if l != "" && l[0] == '"' then
      var e := IndexOf(l, 1, false);
      if e < |l| then e + 1 else e
    else IndexOf(l, 0, true)
  }

  /** The name it is started by. */
  function ProgramName(l: string): string {
    if l != "" && l[0] == '"' then l[1..IndexOf(l, 1, false)] else l[..IndexOf(l, 0, true)]
  }

  /** What the program is given after its name. */
  function Arguments(l: string): seq<string> {
    ParseArgs(l, ProgramEnd(l))
  }

  // ---------------------------------------------------------------- the round trip

  lemma {:induction false} RunIs(l: string, i: nat, n: nat)
    requires i + n <= |l| && (forall k :: i <= k < i + n ==> l[k] == '\\') && (i + n < |l| ==> l[i + n] != '\\')
    ensures SlashRun(l, i) == n
    decreases n
  {
    if n > 0 {
      RunIs(l, i + 1, n - 1);
    }
  }

  /** Backslashes and the character behind them. */
  lemma RunAt(l: string, i: nat, n: nat, c: char)
    requires StandsAt(l, i, Repeat('\\', n) + [c]) && c != '\\'
    ensures i + n < |l| && SlashRun(l, i) == n && l[i + n] == c
  {
    var p := Repeat('\\', n) + [c];
    forall k | i <= k <= i + n ensures l[k] == p[k - i] {
      assert l[k] == l[i..i + |p|][k - i];
    }
    RunIs(l, i, n);
  }

  /** Where an argument ends: at the end of the line or before a blank. */
  predicate Ends(l: string, i: nat) {
    i <= |l| && (i < |l| ==> IsBlank(l[i]))
  }

  lemma SlicesJoin(a: string, i: nat, n: nat, c: char)
    requires i + n < |a| && a[i + n] == c && forall k :: i <= k < i + n ==> a[k] == '\\'
    ensures a[i..] == Repeat('\\', n) + [c] + a[i + n + 1..]
  {
    assert a[i..i + n] == Repeat('\\', n);
    assert a[i..] == a[i..i + n] + [a[i + n]] + a[i + n + 1..];
  }

  // One step of the parser inside a quotation.

  lemma ParseClose(l: string, p: nat, n: nat)
    requires p + 2 * n < |l| && SlashRun(l, p) == 2 * n && l[p + 2 * n] == '"' && Ends(l, p + 2 * n + 1)
    ensures ParseArg(l, p, true) == (Repeat('\\', n), p + 2 * n + 1)
  {
    EndParses(l, p + 2 * n + 1);
    assert Repeat('\\', n) + "" == Repeat('\\', n);
  }

  lemma ParseEscaped(l: string, p: nat, n: nat, rest: string, e: nat)
    requires p + 2 * n + 1 < |l| && SlashRun(l, p) == 2 * n + 1 && l[p + 2 * n + 1] == '"'
    requires ParseArg(l, p + 2 * n + 2, true) == (rest, e)
    ensures ParseArg(l, p, true) == (Repeat('\\', n) + ['"'] + rest, e)
  {
    assert (2 * n + 1) / 2 == n;
  }

  lemma ParsePlain(l: string, p: nat, n: nat, c: char, rest: string, e: nat)
    requires p + n < |l| && SlashRun(l, p) == n && l[p + n] == c && c != '"' && c != '\\'
    requires ParseArg(l, p + n + 1, true) == (rest, e)
    ensures ParseArg(l, p, true) == (Repeat('\\', n) + [c] + rest, e)
  {
  }

  lemma QuotedStep(a: string, i: nat, n: nat)
    requires i <= |a| && n == SlashRun(a, i)
    ensures i + n == |a| ==> QuotedFrom(a, i) == Repeat('\\', 2 * n) && a[i..] == Repeat('\\', n)
    ensures i + n < |a| && a[i + n] == '"' ==> QuotedFrom(a, i) == Repeat('\\', 2 * n + 1) + ['"'] + QuotedFrom(a, i + n + 1)
    ensures i + n < |a| && a[i + n] != '"' ==> QuotedFrom(a, i) == Repeat('\\', n) + [a[i + n]] + QuotedFrom(a, i + n + 1)
  {
  }

  /** Inside the quotation, the quoted characters come back. */
  lemma {:induction false} BodyParses(a: string, i: nat, l: string, p: nat)
    requires i <= |a| && StandsAt(l, p, QuotedFrom(a, i) + ['"']) && Ends(l, p + |QuotedFrom(a, i)| + 1)
    ensures p <= |l| && ParseArg(l, p, true) == (a[i..], p + |QuotedFrom(a, i)| + 1)
    decreases |a| - i
  {
    hide StandsAt, ParseArg, QuotedFrom, Repeat, Ends, IsBlank;
    var n := SlashRun(a, i);
    QuotedStep(a, i, n);
    if i + n == |a| {
      RunAt(l, p, 2 * n, '"');
      ParseClose(l, p, n);
    } else {
      var c := a[i + n];
      var m := if c == '"' then 2 * n + 1 else n;
      var head, rest := Repeat('\\', m) + [c], QuotedFrom(a, i + n + 1);
      Join(head, rest, ['"']);
      SplitAt(l, p, head, rest + ['"']);
      RunAt(l, p, m, c);
      BodyParses(a, i + n + 1, l, p + m + 1);
      SlicesJoin(a, i, n, c);
      if c == '"' {
        ParseEscaped(l, p, n, a[i + n + 1..], p + m + 1 + |rest| + 1);
      } else {
        ParsePlain(l, p, n, c, a[i + n + 1..], p + m + 1 + |rest| + 1);
      }
    }
  }

  lemma Join(a: string, b: string, c: string)
    ensures a + b + c == a + (b + c)
  {
  }

  lemma EndParses(l: string, i: nat)
    requires Ends(l, i)
    ensures ParseArg(l, i, false) == ("", i)
    ensures i < |l| ==> l[i] != '"'
  {
    assert Repeat('\\', 0) == "";
  }

  /** Every argument comes back as it was, whatever backslashes, quotes and blanks it has. */
  lemma ArgParses(a: string, l: string, i: nat)
    requires StandsAt(l, i, Quoted(a)) && Ends(l, i + |Quoted(a)|)
    ensures i < |l| && l[i] == '"' && ParseArg(l, i, false) == (a, i + |Quoted(a)|)
  {
    hide StandsAt;
    assert Quoted(a) == ['"'] + (QuotedFrom(a, 0) + ['"']);
    SplitAt(l, i, ['"'], QuotedFrom(a, 0) + ['"']);
    assert Repeat('\\', 0) + ['"'] == ['"'];
    RunAt(l, i, 0, '"');
    BodyParses(a, 0, l, i + 1);
    assert a[0..] == a;
    assert Repeat('\\', 0) + a == a;
  }

  /** The arguments from `k` on, each behind a space. */
  function Behind(args: seq<string>, k: nat): string
    requires k <= |args|
    decreases |args| - k
  {
    if k == |args| then "" else " " + Quoted(args[k]) + Behind(args, k + 1)
  }

  lemma {:induction false} LineIsBehind(args: seq<string>, n: nat)
    requires 1 <= n <= |args|
    ensures Line(args, |args|) == Line(args, n) + Behind(args, n)
    decreases |args| - n
  {
    if n == |args| {
      assert Line(args, n) + "" == Line(args, n);
    } else {
      LineIsBehind(args, n + 1);
      assert Line(args, n) + (" " + Quoted(args[n]) + Behind(args, n + 1)) == Line(args, n) + " " + Quoted(args[n]) + Behind(args, n + 1);
    }
  }

  lemma {:induction false} BehindParses(args: seq<string>, k: nat, l: string, i: nat)
    requires k <= |args| && StandsAt(l, i, Behind(args, k)) && i + |Behind(args, k)| == |l|
    ensures i <= |l| && Ends(l, i) && ParseArgs(l, i) == args[k..]
    decreases |args| - k
  {
    hide Quoted, ParseArg;
    if k < |args| {
      var q, rest := Quoted(args[k]), Behind(args, k + 1);
      SplitAt(l, i, " " + q, rest);
      SplitAt(l, i, " ", q);
      assert l[i] == l[i..i + 1][0] == ' ';
      BehindParses(args, k + 1, l, i + 1 + |q|);
      hide StandsAt;
      ArgParses(args[k], l, i + 1);
      assert ParseArgs(l, i) == ParseArgs(l, i + 1) == [args[k]] + ParseArgs(l, i + 1 + |q|);
      assert args[k..] == [args[k]] + args[k + 1..];
    }
  }

  lemma {:induction false} NoQuoteQuoted(a: string, i: nat)
    requires i <= |a| && '"' !in a
    ensures '"' !in QuotedFrom(a, i)
    decreases |a| - i
  {
    var n := SlashRun(a, i);
    if i + n < |a| {
      assert a[i + n] in a;
      NoQuoteQuoted(a, i + n + 1);
    }
  }

  lemma {:induction false} IndexIs(l: string, i: nat, e: nat)
    requires i <= e < |l| && l[e] == '"' && forall k :: i <= k < e ==> l[k] != '"'
    ensures IndexOf(l, i, false) == e
    decreases e - i
  {
    if i < e {
      IndexIs(l, i + 1, e);
    }
  }

  lemma ProgramEndIs(l: string, body: string, rest: string)
    requires l == ['"'] + body + ['"'] + rest && '"' !in body
    ensures ProgramEnd(l) == |body| + 2 && StandsAt(l, |body| + 2, rest)
  {
    var e := 1 + |body|;
    forall k | 1 <= k < e ensures l[k] != '"' {
      assert l[k] == body[k - 1];
    }
    IndexIs(l, 1, e);
    assert l[e + 1..e + 1 + |rest|] == rest;
  }

  /** The arguments after a program name without a quote come back unchanged. */
  lemma ArgumentsComeBack(args: seq<string>)
    requires args != [] && '"' !in args[0]
    ensures Arguments(Line(args, |args|)) == args[1..]
  {
    hide ParseArgs, QuotedFrom, ProgramEnd, StandsAt, Behind, Ends;
    var l := Line(args, |args|);
    var body := QuotedFrom(args[0], 0);
    LineIsBehind(args, 1);
    assert Line(args, 1) == Quoted(args[0]) by { assert "" + Quoted(args[0]) == Quoted(args[0]); }
    hide Line;
    NoQuoteQuoted(args[0], 0);
    ProgramEndIs(l, body, Behind(args, 1));
    BehindParses(args, 1, l, |body| + 2);
  }

  // ---------------------------------------------------------------- program names with quotes

  lemma {:induction false} FirstQuote(a: string, i: nat, m: nat) returns (k: nat)
    requires i <= m < |a| && a[m] == '"'
    ensures k < |QuotedFrom(a, i)| && QuotedFrom(a, i)[k] == '"'
    decreases |a| - i
  {
    hide QuotedFrom, Repeat;
    var n := SlashRun(a, i);
    QuotedStep(a, i, n);
    assert i + n <= m;
    if a[i + n] == '"' {
      k := 2 * n + 1;
    } else {
      k := FirstQuote(a, i + n + 1, m);
      k := k + n + 1;
    }
  }

  lemma {:induction false} IndexBefore(l: string, i: nat, k: nat)
    requires i <= k < |l| && l[k] == '"'
    ensures IndexOf(l, i, false) <= k
    decreases k - i
  {
    if i < k && l[i] != '"' {
      IndexBefore(l, i + 1, k);
    }
  }

  lemma {:induction false} SomethingParses(l: string, i: nat)
    requires i < |l| && !IsBlank(l[|l| - 1])
    ensures ParseArgs(l, i) != []
    decreases |l| - i
  {
    if IsBlank(l[i]) {
      SomethingParses(l, i + 1);
    }
  }

  /** A program name with a quote ends early: even with no argument at all, the program is given one. */
  lemma QuoteInName(name: string)
    requires '"' in name
    ensures Arguments(Line([name], 1)) != []
  {
    hide QuotedFrom, ParseArgs;
    var l := Line([name], 1);
    var body := QuotedFrom(name, 0);
    assert l == ['"'] + body + ['"'] by { assert "" + Quoted(name) == Quoted(name); }
    hide Line;
    var m :| 0 <= m < |name| && name[m] == '"';
    var k := FirstQuote(name, 0, m);
    assert l[1 + k] == body[k] && l[0] == '"' && l[|l| - 1] == '"';
    IndexBefore(l, 1, 1 + k);
    SomethingParses(l, ProgramEnd(l));
  }

  /** A program is given exactly the arguments listed after its name, whatever they are, if and only if the name has no
      quote. */
  lemma ComeBackIff(name: string)
    ensures (forall rest: seq<string> :: Arguments(Line([name] + rest, 1 + |rest|)) == rest) <==> '"' !in name
  {
    hide Arguments, Line;
    if '"' in name {
      QuoteInName(name);
      assert [name] + [] == [name];
      var none: seq<string> := [];
      assert Arguments(Line([name] + none, 1 + |none|)) != none;
    } else {
      forall rest: seq<string> ensures Arguments(Line([name] + rest, 1 + |rest|)) == rest {
        ArgumentsComeBack([name] + rest);
        assert ([name] + rest)[1..] == rest;
      }
    }
  }

  // ---------------------------------------------------------------- the program name itself

  /** Without a quote, quoting changes nothing but a run of backslashes at the end. */
  lemma {:induction false} PlainBody(a: string, i: nat)
    requires i <= |a| && '"' !in a
    ensures QuotedFrom(a, i) == a[i..] <==> i == |a| || a[|a| - 1] != '\\'
    decreases |a| - i
  {
    hide QuotedFrom;
    var n := SlashRun(a, i);
    QuotedStep(a, i, n);
    if i + n == |a| {
      assert |QuotedFrom(a, i)| == 2 * n;
    } else {
      assert a[i + n] in a;
      PlainBody(a, i + n + 1);
      SlicesJoin(a, i, n, a[i + n]);
      var head, q, r := Repeat('\\', n) + [a[i + n]], QuotedFrom(a, i + n + 1), a[i + n + 1..];
      assert (head + q)[|head|..] == q && (head + r)[|head|..] == r;
    }
  }

  lemma {:induction false} IndexStops(l: string, i: nat, e: nat)
    requires i <= e <= |l| && IndexOf(l, i, false) == e
    ensures '"' !in l[i..e] && (e < |l| ==> l[e] == '"')
    decreases |l| - i
  {
    if i < e {
      IndexStops(l, i + 1, e);
      assert l[i..e] == [l[i]] + l[i + 1..e];
    }
  }

  lemma NameEnds(l: string, body: string, rest: string)
    requires l == ['"'] + body + ['"'] + rest && '"' !in body
    ensures ProgramName(l) == body
  {
    var e := 1 + |body|;
    forall k | 1 <= k < e ensures l[k] != '"' {
      assert l[k] == body[k - 1];
    }
    IndexIs(l, 1, e);
    assert l[1..e] == body;
  }

  lemma NameIs(name: string, rest: seq<string>)
    requires '"' !in name
    ensures ProgramName(Line([name] + rest, 1 + |rest|)) == QuotedFrom(name, 0)
  {
    hide QuotedFrom, Behind, ProgramName;
    var args := [name] + rest;
    LineIsBehind(args, 1);
    assert Line(args, 1) == Quoted(name) by { assert "" + Quoted(name) == Quoted(name); }
    hide Line;
    NoQuoteQuoted(name, 0);
    NameEnds(Line(args, |args|), QuotedFrom(name, 0), Behind(args, 1));
  }

  /** The program is started by the name that was listed first if and only if that holds no quote and does not end in a
      backslash, which the quoting doubles and nobody halves. */
  lemma NameComesBackIff(name: string, rest: seq<string>)
    ensures ProgramName(Line([name] + rest, 1 + |rest|)) == name
            <==> '"' !in name && (name == "" || name[|name| - 1] != '\\')
  {
    var args := [name] + rest;
    var l := Line(args, |args|);
    if '"' !in name {
      hide QuotedFrom, Line;
      NameIs(name, rest);
      PlainBody(name, 0);
      assert name[0..] == name;
    } else {
      hide QuotedFrom, Behind;
      LineIsBehind(args, 1);
      assert Line(args, 1) == Quoted(name) by { assert "" + Quoted(name) == Quoted(name); }
      hide Line;
      assert l[0] == '"';
      IndexStops(l, 1, IndexOf(l, 1, false));
    }
  }
}
