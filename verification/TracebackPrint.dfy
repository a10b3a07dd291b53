/** What the serialiser prints of a graph when the buffer has no bound: in braces, its entries joined by commas, each table
    once and a line for every further mention of one. */
module TracebackPrint {
  import opened TracebackSpec
  import opened TracebackText

  function Join(ps: seq<string>): string {
    if ps == [] then "" else if |ps| == 1 then ps[0] else ps[0] + "," + Join(ps[1..])
  }

  /** The entries of a table: their printed forms, the tables met by now in order, the tables mentioned again, and whether
      the element limit cut the list short. */
  datatype Walk = Walk(pieces: seq<string>, seen: seq<nat>, again: seq<nat>, cut: bool)

  function Braces(w: Walk): string {
    "{" + Join(w.pieces) + (if w.cut then "..." else "") + "}"
  }

  function Piece(e: Entry, text: string): string {
    Key(e) + "=" + text
  }

  /** A value that is no table, on its own. */
  function Scalar(c: Config, v: Value): string
    requires !v.Table?
  {
    match v
    case Str(s) => SeriString(c, "", s)
    case Other(text) => text
  }

  function TableWalk(g: Graph, c: Config, seen: seq<nat>, id: nat, depth: nat, limit: nat): (string, Walk)
    requires Closed(g) && id in g
    decreases depth, 0, 0
  {
    if depth == 0 then (g[id].text, Walk([], seen, [], false))
    else
      var w := EntryWalk(g, c, seen + [id], id, depth - 1, limit, 0);
      (Braces(w), w)
  }

  function EntryWalk(g: Graph, c: Config, seen: seq<nat>, id: nat, depth: nat, limit: nat, k: nat): Walk
    requires Closed(g) && id in g && k <= |g[id].entries|
    decreases depth, 1, |g[id].entries| - k
  {
    if k == |g[id].entries| then Walk([], seen, [], false)
    else if limit == 0 then Walk([], seen, [], true)
    else
      var e := g[id].entries[k];
      if e.value.Table? && e.value.id in seen then
        var w := EntryWalk(g, c, seen, id, depth, limit - 1, k + 1);
        w.(again := [e.value.id] + w.again)
      else
        var (text, seen', again) := if e.value.Table? then
                                      var t := TableWalk(g, c, seen, e.value.id, depth, limit - 1);
                                      (t.0, t.1.seen, t.1.again)
                                    else (Scalar(c, e.value), seen, []);
        var w := EntryWalk(g, c, seen', id, depth, limit - 1, k + 1);
        Walk([Piece(e, text)] + w.pieces, w.seen, again + w.again, w.cut)
  }

  // ---------------------------------------------------------------- the serialiser prints it

  /** The tables marked are those entered. */
  ghost predicate Marks(st: State) {
    forall t :: t in st.mark <==> t in st.entered
  }

  /** What is behind the lines there were: one for every table mentioned again, with the path it was first met at. */
  ghost predicate LinesFor(lines: seq<string>, from: nat, again: seq<nat>, mark: map<nat, string>) {
    && |lines| == from + |again|
    && forall i :: 0 <= i < |again| ==> again[i] in mark && Tells(lines[from + i], mark[again[i]])
  }

  ghost predicate Tells(line: string, path: string) {
    |line| >= |path| + 3 && line[|line| - |path| - 3..] == " = " + path
  }

  ghost predicate Grows(m: map<nat, string>, n: map<nat, string>) {
    forall t :: t in m ==> t in n && n[t] == m[t]
  }

  /** From `st` to `r` the text was printed and the walk made. */
  ghost predicate PrintsWalk(st: State, r: State, text: string, w: Walk) {
    && Marks(r) && r.out == st.out + text && r.entered == w.seen && Grows(st.mark, r.mark)
    && st.assign <= r.assign && LinesFor(r.assign, |st.assign|, w.again, r.mark)
  }

  lemma {:induction false} StringPrints(c: Config, out: string, s: string)
    requires c.maxLen.None?
    ensures SeriString(c, out, s) == out + SeriString(c, "", s)
  {
    hide SeriString, Quoted, Hexes;
    Prints(c, out, s);
    Prints(c, "", s);
    assert "" + SeriString(c, "", s) == SeriString(c, "", s);
  }

  lemma KeyPrints(c: Config, out: string, comma: bool, e: Entry, text: string)
    requires c.maxLen.None?
    ensures AppendKey(c, out, comma, Key(e)) + text == out + ((if comma then "," else "") + Piece(e, text))
  {
    hide Key;
    assert out + "" == out;
    var k := Key(e);
    assert out + "," + k + "=" + text == out + ("," + (k + "=" + text));
    assert out + k + "=" + text == out + ("" + (k + "=" + text));
  }

  lemma Joins(p: string, ps: seq<string>)
    ensures Join([p] + ps) == p + (if ps == [] then "" else "," + Join(ps))
  {
    assert ([p] + ps)[1..] == ps;
    if ps == [] {
      assert p + "" == p;
    } else {
      assert p + "," + Join(ps) == p + ("," + Join(ps));
    }
  }

  /** What the entries from here on add to the buffer. */
  function Rest(comma: bool, w: Walk): string {
    (if comma && w.pieces != [] then "," else "") + Join(w.pieces) + (if w.cut then "..." else "")
  }

  lemma RestStep(comma: bool, p: string, w: Walk, v: Walk)
    requires v.pieces == [p] + w.pieces && v.cut == w.cut
    ensures Rest(comma, v) == (if comma then "," else "") + p + Rest(true, w)
  {
    Joins(p, w.pieces);
    var a, d := if comma then "," else "", if w.cut then "..." else "";
    var b := if w.pieces == [] then "" else "," + Join(w.pieces);
    assert w.pieces == [] ==> Join(w.pieces) == "";
    assert a + (p + b) + d == a + p + (b + d);
  }

  lemma LinesJoin(a: State, b: State, r: State, again: seq<nat>, more: seq<nat>)
    requires a.assign <= b.assign <= r.assign && Grows(b.mark, r.mark)
    requires LinesFor(b.assign, |a.assign|, again, b.mark) && LinesFor(r.assign, |b.assign|, more, r.mark)
    ensures LinesFor(r.assign, |a.assign|, again + more, r.mark)
  {
    var all, n := again + more, |a.assign|;
    forall i | 0 <= i < |all| ensures all[i] in r.mark && Tells(r.assign[n + i], r.mark[all[i]]) {
      if i < |again| {
        assert r.assign[n + i] == b.assign[n + i];
      } else {
        assert r.assign[n + i] == r.assign[|b.assign| + (i - |again|)];
      }
    }
  }

  /** One more entry and what comes behind it. */
  lemma ThenPrints(st: State, b: State, r: State, comma: bool, piece: string, v: Walk, x: Walk)
    requires PrintsWalk(st, b, (if comma then "," else "") + piece, v) && PrintsWalk(b, r, Rest(true, x), x)
    ensures var w := Walk([piece] + x.pieces, x.seen, v.again + x.again, x.cut); PrintsWalk(st, r, Rest(comma, w), w)
  {
    hide Join;
    var w := Walk([piece] + x.pieces, x.seen, v.again + x.again, x.cut);
    RestStep(comma, piece, x, w);
    LinesJoin(st, b, r, v.again, x.again);
    var a := (if comma then "," else "") + piece;
    assert st.out + a + Rest(true, x) == st.out + (a + Rest(true, x));
  }

  /** A table mentioned again is left to a line. */
  lemma AgainPrints(st: State, b: State, r: State, comma: bool, line: string, id: nat, x: Walk)
    requires b == st.(assign := st.assign + [line]) && PrintsWalk(b, r, Rest(comma, x), x)
    requires id in st.mark && Tells(line, st.mark[id])
    ensures var w := x.(again := [id] + x.again); PrintsWalk(st, r, Rest(comma, w), w)
  {
    hide Join, Tells;
    LinesJoin(st, b, r, [id], x.again);
  }

  lemma {:induction false} EntriesPrint(g: Graph, c: Config, st: State, id: nat, path: string, depth: nat, limit: nat, k: nat,
                                        comma: bool)
    requires Closed(g) && id in g && k <= |g[id].entries| && c.maxLen.None? && Marks(st)
    ensures var w := EntryWalk(g, c, st.entered, id, depth, limit, k);
            PrintsWalk(st, SeriEntries(g, c, st, id, path, depth, limit, k, comma), Rest(comma, w), w)
    decreases depth, 1, |g[id].entries| - k
  {
    hide SeriString, AppendKey, Append, Key, Piece, Rest, Tells, LinesFor, Grows;
    if k == |g[id].entries| || limit == 0 {
      NothingPrints(c, st, comma);
    } else {
      var e := g[id].entries[k];
      if e.value.Table? && e.value.id in st.mark {
        var line := path + Key(e) + " = " + st.mark[e.value.id];
        var b := st.(assign := st.assign + [line]);
        EntriesPrint(g, c, b, id, path, depth, limit - 1, k + 1, comma);
        LineTells(path + Key(e), st.mark[e.value.id]);
        AgainPrints(st, b, SeriEntries(g, c, b, id, path, depth, limit - 1, k + 1, comma), comma, line, e.value.id,
                    EntryWalk(g, c, b.entered, id, depth, limit - 1, k + 1));
      } else {
        ValuePrints(g, c, st, e, path, depth, limit, comma);
        var (b, text, v) := After(g, c, st, e, path, depth, limit, comma);
        EntriesPrint(g, c, b, id, path, depth, limit - 1, k + 1, true);
        ThenPrints(st, b, SeriEntries(g, c, b, id, path, depth, limit - 1, k + 1, true), comma, Piece(e, text), v,
                   EntryWalk(g, c, b.entered, id, depth, limit - 1, k + 1));
      }
    }
  }

  lemma NothingPrints(c: Config, st: State, comma: bool)
    requires c.maxLen.None? && Marks(st)
    ensures var w := Walk([], st.entered, [], false); PrintsWalk(st, st, Rest(comma, w), w)
    ensures var w := Walk([], st.entered, [], true); PrintsWalk(st, st.(out := Append(c, st.out, "...")), Rest(comma, w), w)
  {
    NothingLeft(c, st, comma);
  }

  /** The state behind one entry that is printed, its text and its walk. */
  function After(g: Graph, c: Config, st: State, e: Entry, path: string, depth: nat, limit: nat, comma: bool): (State, string, Walk)
    requires Closed(g) && (e.value.Table? ==> e.value.id in g) && limit > 0
  {
    var out := AppendKey(c, st.out, comma, Key(e));
    match e.value
    case Str(s) => (st.(out := SeriString(c, out, s)), Scalar(c, e.value), Walk([], st.entered, [], false))
    case Other(text) => (st.(out := Append(c, out, text)), text, Walk([], st.entered, [], false))
    case Table(t) =>
      var w := TableWalk(g, c, st.entered, t, depth, limit - 1);
      (SeriTable(g, c, st.(out := out), t, path + Key(e), depth, limit - 1), w.0, w.1)
  }

  lemma {:induction false} ValuePrints(g: Graph, c: Config, st: State, e: Entry, path: string, depth: nat, limit: nat, comma: bool)
    requires Closed(g) && (e.value.Table? ==> e.value.id in g && e.value.id !in st.mark)
    requires limit > 0 && c.maxLen.None? && Marks(st)
    ensures var (b, text, v) := After(g, c, st, e, path, depth, limit, comma);
            PrintsWalk(st, b, (if comma then "," else "") + Piece(e, text), v)
    decreases depth, 1, 0
  {
    hide SeriString, AppendKey, Append, Key, Piece, Join, Braces;
    var out := AppendKey(c, st.out, comma, Key(e));
    if e.value.Table? {
      var b := st.(out := out);
      TablePrints(g, c, b, e.value.id, path + Key(e), depth, limit - 1);
      KeyPrints(c, st.out, comma, e, TableWalk(g, c, st.entered, e.value.id, depth, limit - 1).0);
    } else {
      if e.value.Str? { StringPrints(c, out, e.value.s); }
      Unbounded(c, out);
      KeyPrints(c, st.out, comma, e, Scalar(c, e.value));
    }
  }

  lemma Unbounded(c: Config, out: string)
    requires c.maxLen.None?
    ensures forall s :: Append(c, out, s) == out + s
  {
  }

  lemma NothingLeft(c: Config, st: State, comma: bool)
    requires c.maxLen.None?
    ensures Rest(comma, Walk([], st.entered, [], false)) == "" && st.out + "" == st.out
    ensures Append(c, st.out, "...") == st.out + Rest(comma, Walk([], st.entered, [], true))
  {
  }

  lemma LineTells(a: string, path: string)
    ensures Tells(a + " = " + path, path)
  {
    var l := a + " = " + path;
    assert l == a + (" = " + path);
    assert l[|a|..] == " = " + path;
  }

  /** Without a bound on the buffer, a table is printed as its walk says. */
  lemma {:induction false} TablePrints(g: Graph, c: Config, st: State, id: nat, path: string, depth: nat, limit: nat)
    requires Closed(g) && id in g && c.maxLen.None? && Marks(st) && id !in st.mark
    ensures var w := TableWalk(g, c, st.entered, id, depth, limit);
            PrintsWalk(st, SeriTable(g, c, st, id, path, depth, limit), w.0, w.1)
    decreases depth, 0
  {
    hide SeriEntries, EntryWalk, Append, Join;
    Unbounded(c, st.out);
    if depth > 0 {
      var b := st.(mark := st.mark[id := path], entered := st.entered + [id], out := Append(c, st.out, "{"));
      EntriesPrint(g, c, b, id, path, depth - 1, limit, 0, false);
      var w, r := EntryWalk(g, c, b.entered, id, depth - 1, limit, 0), SeriEntries(g, c, b, id, path, depth - 1, limit, 0, false);
      Unbounded(c, r.out);
      BracesAround(st.out, w);
    }
  }

  lemma BracesAround(out: string, w: Walk)
    ensures out + "{" + Rest(false, w) + "}" == out + Braces(w)
  {
    hide Join;
    var j, d := Join(w.pieces), if w.cut then "..." else "";
    assert "" + j + d == j + d;
    assert out + "{" + (j + d) + "}" == out + ("{" + j + d + "}");
  }

  /** What is printed of a graph from its root: the walk in braces, and behind it a line for each table met again. */
  lemma {:induction false} GraphPrints(g: Graph, c: Config, out: string, id: nat, name: string, depth: nat, limit: nat)
    returns (lines: seq<string>)
    requires Closed(g) && id in g && c.maxLen.None?
    ensures var w := TableWalk(g, c, [], id, depth, limit);
            && Seri(g, c, out, Table(id), name, depth, limit) == out + w.0 + Lines(lines, |lines|)
            && |lines| == |w.1.again|
  {
    hide SeriTable, TableWalk;
    var st := State(out, map[], [], []);
    TablePrints(g, c, st, id, name, depth, limit);
    lines := SeriTable(g, c, st, id, name, depth, limit).assign;
    LinesPrint(c, SeriTable(g, c, st, id, name, depth, limit).out, lines, |lines|);
  }

  /** The first `n` lines, each on a line of its own. */
  function Lines(lines: seq<string>, n: nat): string
    requires n <= |lines|
  {
    if n == 0 then "" else Lines(lines, n - 1) + "\n\t\t\t" + lines[n - 1]
  }

  lemma OneLine(c: Config, out: string, p: string, b: string, q: string)
    requires c.maxLen.None?
    ensures Append(c, Append(c, out + p, b), q) == out + (p + b + q)
  {
    assert out + p + b + q == out + (p + b + q);
  }

  lemma {:induction false} LinesPrint(c: Config, out: string, lines: seq<string>, n: nat)
    requires c.maxLen.None? && n <= |lines|
    ensures AppendLines(c, out, lines, n) == out + Lines(lines, n)
  {
    hide Append;
    if n == 0 {
      assert out + "" == out;
    } else {
      LinesPrint(c, out, lines, n - 1);
      var b, q := "\n\t\t\t", lines[n - 1];
      OneLine(c, out, Lines(lines, n - 1), b, q);
      assert AppendLines(c, out, lines, n) == Append(c, Append(c, AppendLines(c, out, lines, n - 1), b), q);
      assert Lines(lines, n) == Lines(lines, n - 1) + b + q;
    }
  }
}
