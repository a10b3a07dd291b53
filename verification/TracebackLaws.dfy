/** The bounded serialiser is the unbounded one cut off; it enters no table twice, and the two paths of every line that
    it adds lead to the same table. */
module TracebackLaws {
  import opened Options
  import opened TracebackSpec

  // ---------------------------------------------------------------- cutting off

  function Cut(s: string, n: nat): string {
    if |s| <= n then s else s[..n]
  }

  function Unbounded(c: Config): Config {
    c.(maxLen := None)
  }

  /** Cut off, and nothing else differs as long as there is room. */
  predicate CutState(b: State, u: State, n: nat) {
    b.out == Cut(u.out, n) && (|b.out| < n ==> b == u)
  }

  lemma AppendCut(c: Config, u: string, s: string)
    requires c.maxLen.Some?
    ensures Append(c, Cut(u, c.maxLen.value), s) == Cut(Append(Unbounded(c), u, s), c.maxLen.value)
  {
  }

  lemma {:induction false} CharsCut(c: Config, u: string, s: string, n: nat, text: bool)
    requires c.maxLen.Some? && n <= |s|
    ensures AppendChars(c, Cut(u, c.maxLen.value), s, n, text) == Cut(AppendChars(Unbounded(c), u, s, n, text), c.maxLen.value)
  {
    hide Append, Cut, Escape, Hex;
    if n > 0 {
      CharsCut(c, u, s, n - 1, text);
      AppendCut(c, AppendChars(Unbounded(c), u, s, n - 1, text), if text then Escape(s[n - 1]) else Hex(s[n - 1]));
    }
  }

  lemma StringCut(c: Config, u: string, s: string)
    requires c.maxLen.Some?
    ensures SeriString(c, Cut(u, c.maxLen.value), s) == Cut(SeriString(Unbounded(c), u, s), c.maxLen.value)
  {
    hide Append, Cut, AppendChars;
    var l := if |s| < c.maxString then |s| else c.maxString;
    var text := c.utf8(s, l);
    var o := Append(Unbounded(c), u, "\"");
    AppendCut(c, u, "\"");
    AppendCut(c, o, "0x");
    var o' := if text then o else Append(Unbounded(c), o, "0x");
    CharsCut(c, o', s, l, text);
    AppendCut(c, AppendChars(Unbounded(c), o', s, l, text), if |s| > c.maxString then "..." else "\"");
  }

  lemma KeyCut(c: Config, u: string, comma: bool, key: string)
    requires c.maxLen.Some?
    ensures AppendKey(c, Cut(u, c.maxLen.value), comma, key) == Cut(AppendKey(Unbounded(c), u, comma, key), c.maxLen.value)
  {
    hide Append, Cut;
    AppendCut(c, u, ",");
    var o := if comma then Append(Unbounded(c), u, ",") else u;
    AppendCut(c, o, key);
    AppendCut(c, Append(Unbounded(c), o, key), "=");
  }

  lemma CutLonger(u: string, v: string, n: nat)
    requires u <= v && |u| >= n
    ensures Cut(v, n) == Cut(u, n)
  {
  }

  lemma CutShort(u: string, n: nat)
    ensures |Cut(u, n)| <= n && (|Cut(u, n)| < n ==> Cut(u, n) == u) && (|Cut(u, n)| == n ==> |u| >= n)
  {
  }

  /** A full buffer stays as it is, whatever the unbounded run adds. */
  lemma FullCut(c: Config, b: State, u: State, b': State, u': State)
    requires c.maxLen.Some? && CutState(b, u, c.maxLen.value) && Full(c, b.out)
    requires b'.out == b.out && u.out <= u'.out
    ensures CutState(b', u', c.maxLen.value)
  {
    CutShort(u.out, c.maxLen.value);
    CutLonger(u.out, u'.out, c.maxLen.value);
  }

  lemma {:induction false} TableCut(g: Graph, c: Config, b: State, u: State, id: nat, path: string, depth: nat, limit: nat)
    requires Closed(g) && id in g && c.maxLen.Some? && CutState(b, u, c.maxLen.value)
    ensures CutState(SeriTable(g, c, b, id, path, depth, limit), SeriTable(g, Unbounded(c), u, id, path, depth, limit), c.maxLen.value)
    decreases depth, 0, 0
  {
    hide Append, Cut, SeriEntries, Closed;
    var n := c.maxLen.value;
    CutShort(u.out, n);
    if Full(c, b.out) {
      FullCut(c, b, u, SeriTable(g, c, b, id, path, depth, limit), SeriTable(g, Unbounded(c), u, id, path, depth, limit));
    } else {
      assert b == u;
      AppendCut(c, u.out, g[id].text);
      AppendCut(c, u.out, "{");
      if depth > 0 {
        var b1 := b.(mark := b.mark[id := path], entered := b.entered + [id], out := Append(c, b.out, "{"));
        var u1 := u.(mark := u.mark[id := path], entered := u.entered + [id], out := Append(Unbounded(c), u.out, "{"));
        AppendIsCut(c, b1, u1);
        EntriesCut(g, c, b1, u1, id, path, depth - 1, limit, 0, false);
        AppendState(c, SeriEntries(g, c, b1, id, path, depth - 1, limit, 0, false),
                    SeriEntries(g, Unbounded(c), u1, id, path, depth - 1, limit, 0, false), "}");
      } else {
        CutShort(Append(Unbounded(c), u.out, g[id].text), n);
      }
    }
  }

  lemma AppendIsCut(c: Config, b: State, u: State)
    requires c.maxLen.Some? && b.out == Cut(u.out, c.maxLen.value) && b.(out := u.out) == u
    ensures CutState(b, u, c.maxLen.value)
  {
    CutShort(u.out, c.maxLen.value);
  }

  lemma AppendState(c: Config, b: State, u: State, s: string)
    requires c.maxLen.Some? && CutState(b, u, c.maxLen.value)
    ensures CutState(b.(out := Append(c, b.out, s)), u.(out := Append(Unbounded(c), u.out, s)), c.maxLen.value)
  {
    hide Append, Cut;
    AppendCut(c, u.out, s);
    CutShort(u.out, c.maxLen.value);
    CutShort(Append(Unbounded(c), u.out, s), c.maxLen.value);
  }

  lemma {:induction false} EntriesCut(g: Graph, c: Config, b: State, u: State, id: nat, path: string, depth: nat, limit: nat,
                                      k: nat, comma: bool)
    requires Closed(g) && id in g && k <= |g[id].entries| && c.maxLen.Some? && CutState(b, u, c.maxLen.value)
    ensures CutState(SeriEntries(g, c, b, id, path, depth, limit, k, comma),
                     SeriEntries(g, Unbounded(c), u, id, path, depth, limit, k, comma), c.maxLen.value)
    decreases depth, 1, |g[id].entries| - k
  {
    hide Append, Cut, SeriString, AppendKey, SeriTable, Key;
    CutShort(u.out, c.maxLen.value);
    if Full(c, b.out) {
      FullCut(c, b, u, SeriEntries(g, c, b, id, path, depth, limit, k, comma),
              SeriEntries(g, Unbounded(c), u, id, path, depth, limit, k, comma));
    } else if k < |g[id].entries| {
      if limit == 0 {
        AppendState(c, b, u, "...");
      } else {
        EntryCut(g, c, u, id, path, depth, limit, k, comma);
      }
    }
  }

  /** One entry, with room left: both runs take the same branch. */
  lemma {:induction false} EntryCut(g: Graph, c: Config, u: State, id: nat, path: string, depth: nat, limit: nat, k: nat, comma: bool)
    requires Closed(g) && id in g && k < |g[id].entries| && c.maxLen.Some? && CutState(u, u, c.maxLen.value) && limit > 0
    ensures CutState(SeriEntries(g, c, u, id, path, depth, limit, k, comma),
                     SeriEntries(g, Unbounded(c), u, id, path, depth, limit, k, comma), c.maxLen.value)
    decreases depth, 1, |g[id].entries| - k, 0
  {
    hide Append, Cut, SeriString, AppendKey, SeriTable, Key, CutState;
    var e := g[id].entries[k];
    var d := Unbounded(c);
    var key := Key(e);
    var o := AppendKey(d, u.out, comma, key);
    assert u.out == Cut(u.out, c.maxLen.value) by { CutOfItself(u, c.maxLen.value); }
    KeyCut(c, u.out, comma, key);
    match e.value
    case Str(s) =>
      StringCut(c, o, s);
      var b', u' := u.(out := SeriString(c, AppendKey(c, u.out, comma, key), s)), u.(out := SeriString(d, o, s));
      AppendIsCut(c, b', u');
      EntriesCut(g, c, b', u', id, path, depth, limit - 1, k + 1, true);
    case Other(text) =>
      AppendCut(c, o, text);
      var b', u' := u.(out := Append(c, AppendKey(c, u.out, comma, key), text)), u.(out := Append(d, o, text));
      AppendIsCut(c, b', u');
      EntriesCut(g, c, b', u', id, path, depth, limit - 1, k + 1, true);
    case Table(t) =>
      if t in u.mark {
        var u' := u.(assign := u.assign + [path + key + " = " + u.mark[t]]);
        AppendIsCut(c, u', u');
        EntriesCut(g, c, u', u', id, path, depth, limit - 1, k + 1, comma);
      } else {
        var b', u' := u.(out := AppendKey(c, u.out, comma, key)), u.(out := o);
        AppendIsCut(c, b', u');
        TableCut(g, c, b', u', t, path + key, depth, limit - 1);
        EntriesCut(g, c, SeriTable(g, c, b', t, path + key, depth, limit - 1),
                   SeriTable(g, d, u', t, path + key, depth, limit - 1), id, path, depth, limit - 1, k + 1, true);
      }
  }

  lemma CutOfItself(u: State, n: nat)
    requires CutState(u, u, n)
    ensures u.out == Cut(u.out, n)
  {
  }

  lemma {:induction false} LinesCut(c: Config, u: string, lines: seq<string>, n: nat)
    requires c.maxLen.Some? && n <= |lines|
    ensures AppendLines(c, Cut(u, c.maxLen.value), lines, n) == Cut(AppendLines(Unbounded(c), u, lines, n), c.maxLen.value)
  {
    hide Append, Cut;
    if n > 0 {
      LinesCut(c, u, lines, n - 1);
      var o := AppendLines(Unbounded(c), u, lines, n - 1);
      AppendCut(c, o, "\n\t\t\t");
      AppendCut(c, Append(Unbounded(c), o, "\n\t\t\t"), lines[n - 1]);
    }
  }

  /** What the bounded serialiser leaves in the buffer is the unbounded result cut off at the bound, although it goes other
      ways once the buffer is full. */
  lemma BoundedIsPrefix(g: Graph, c: Config, out: string, v: Value, name: string, depth: nat, limit: nat)
    requires Closed(g) && (v.Table? ==> v.id in g) && c.maxLen.Some? && |out| <= c.maxLen.value
    ensures Seri(g, c, out, v, name, depth, limit) == Cut(Seri(g, Unbounded(c), out, v, name, depth, limit), c.maxLen.value)
  {
    hide Append, SeriString, SeriTable, AppendLines;
    match v
    case Str(s) => StringCut(c, out, s);
    case Other(text) => AppendCut(c, out, text);
    case Table(id) =>
      var start := State(out, map[], [], []);
      TableCut(g, c, start, start, id, name, depth, limit);
      var b, u := SeriTable(g, c, start, id, name, depth, limit), SeriTable(g, Unbounded(c), start, id, name, depth, limit);
      if |b.out| < c.maxLen.value {
        LinesCut(c, u.out, u.assign, |u.assign|);
      } else {
        CutLonger(u.out, AppendLines(Unbounded(c), u.out, u.assign, |u.assign|), c.maxLen.value);
      }
  }

  // ---------------------------------------------------------------- paths

  /** Following entries from the root: the table reached and the text of the path to it. */
  function Reached(g: Graph, root: nat, name: string, way: seq<nat>): Option<(nat, string)> {
    if way == [] then Some((root, name))
    else match Reached(g, root, name, way[..|way| - 1])
      case None => None
      case Some((t, path)) =>
        var k := way[|way| - 1];
        if t in g && k < |g[t].entries| && g[t].entries[k].value.Table? then
          Some((g[t].entries[k].value.id, path + Key(g[t].entries[k])))
        else None
  }

  /** `path` is the text of a way from the root to the table `id`. */
  ghost predicate LeadsTo(g: Graph, root: nat, name: string, path: string, id: nat) {
    exists way :: Reached(g, root, name, way) == Some((id, path))
  }

  /** The line equates two paths to one table. */
  ghost predicate SamePlace(g: Graph, root: nat, name: string, line: string) {
    exists a, b, id :: line == a + " = " + b && LeadsTo(g, root, name, a, id) && LeadsTo(g, root, name, b, id)
  }

  /** Marked are the tables entered, each once and with a way to it; every line is true. */
  ghost predicate Sound(g: Graph, root: nat, name: string, st: State) {
    && (forall i, j :: 0 <= i < j < |st.entered| ==> st.entered[i] != st.entered[j])
    && (forall t :: t in st.mark <==> t in st.entered)
    && (forall t :: t in st.mark ==> LeadsTo(g, root, name, st.mark[t], t))
    && (forall i :: 0 <= i < |st.assign| ==> SamePlace(g, root, name, st.assign[i]))
  }

  lemma OneFurther(g: Graph, root: nat, name: string, path: string, id: nat, k: nat)
    requires LeadsTo(g, root, name, path, id) && id in g && k < |g[id].entries| && g[id].entries[k].value.Table?
    ensures LeadsTo(g, root, name, path + Key(g[id].entries[k]), g[id].entries[k].value.id)
  {
    var way :| Reached(g, root, name, way) == Some((id, path));
    assert (way + [k])[..|way|] == way;
    assert Reached(g, root, name, way + [k]).Some?;
  }

  lemma EnterKeepsSound(g: Graph, root: nat, name: string, st: State, id: nat, path: string, out: string)
    requires Sound(g, root, name, st) && id !in st.mark && LeadsTo(g, root, name, path, id)
    ensures Sound(g, root, name, st.(mark := st.mark[id := path], entered := st.entered + [id], out := out))
  {
    hide LeadsTo, SamePlace;
  }

  lemma LineKeepsSound(g: Graph, root: nat, name: string, st: State, id: nat, path: string)
    requires Sound(g, root, name, st) && id in st.mark && LeadsTo(g, root, name, path, id)
    ensures Sound(g, root, name, st.(assign := st.assign + [path + " = " + st.mark[id]]))
  {
    hide LeadsTo;
  }

  lemma {:induction false} TableSound(g: Graph, c: Config, root: nat, name: string, st: State, id: nat, path: string,
                                      depth: nat, limit: nat)
    requires Closed(g) && id in g && Sound(g, root, name, st) && id !in st.mark && LeadsTo(g, root, name, path, id)
    ensures Sound(g, root, name, SeriTable(g, c, st, id, path, depth, limit))
    decreases depth, 0, 0
  {
    hide LeadsTo, SamePlace, Closed, Append, SeriEntries;
    if depth > 0 && !Full(c, st.out) {
      var st1 := st.(mark := st.mark[id := path], entered := st.entered + [id], out := Append(c, st.out, "{"));
      EnterKeepsSound(g, root, name, st, id, path, Append(c, st.out, "{"));
      EntriesSound(g, c, root, name, st1, id, path, depth - 1, limit, 0, false);
    }
  }

  lemma {:induction false} EntriesSound(g: Graph, c: Config, root: nat, name: string, st: State, id: nat, path: string,
                                        depth: nat, limit: nat, k: nat, comma: bool)
    requires Closed(g) && id in g && k <= |g[id].entries| && Sound(g, root, name, st) && LeadsTo(g, root, name, path, id)
    ensures Sound(g, root, name, SeriEntries(g, c, st, id, path, depth, limit, k, comma))
    decreases depth, 1, |g[id].entries| - k
  {
    hide LeadsTo, SamePlace, Append, SeriTable, SeriString, AppendKey, Key, Sound;
    if k < |g[id].entries| && limit > 0 {
      var e := g[id].entries[k];
      match e.value
      case Str(s) =>
        var out := SeriString(c, AppendKey(c, st.out, comma, Key(e)), s);
        OutKeepsSound(g, root, name, st, out);
        EntriesSound(g, c, root, name, st.(out := out), id, path, depth, limit - 1, k + 1, true);
      case Other(text) =>
        var out := Append(c, AppendKey(c, st.out, comma, Key(e)), text);
        OutKeepsSound(g, root, name, st, out);
        EntriesSound(g, c, root, name, st.(out := out), id, path, depth, limit - 1, k + 1, true);
      case Table(t) =>
        OneFurther(g, root, name, path, id, k);
        if t in st.mark {
          LineKeepsSound(g, root, name, st, t, path + Key(e));
          EntriesSound(g, c, root, name, st.(assign := st.assign + [path + Key(e) + " = " + st.mark[t]]),
                       id, path, depth, limit - 1, k + 1, comma);
        } else {
          var out := AppendKey(c, st.out, comma, Key(e));
          OutKeepsSound(g, root, name, st, out);
          TableSound(g, c, root, name, st.(out := out), t, path + Key(e), depth, limit - 1);
          EntriesSound(g, c, root, name, SeriTable(g, c, st.(out := out), t, path + Key(e), depth, limit - 1),
                       id, path, depth, limit - 1, k + 1, true);
        }
    } else if k < |g[id].entries| {
      OutKeepsSound(g, root, name, st, Append(c, st.out, "..."));
    }
  }

  lemma OutKeepsSound(g: Graph, root: nat, name: string, st: State, out: string)
    requires Sound(g, root, name, st)
    ensures Sound(g, root, name, st.(out := out))
  {
    hide LeadsTo, SamePlace;
  }

  /** Serialising a table, whatever the graph: no table is entered twice, and every line equates two paths from the root
      to the same table. */
  lemma SerialisedSoundly(g: Graph, c: Config, out: string, id: nat, name: string, depth: nat, limit: nat)
    requires Closed(g) && id in g
    ensures var st := SeriTable(g, c, State(out, map[], [], []), id, name, depth, limit);
            && (forall i, j :: 0 <= i < j < |st.entered| ==> st.entered[i] != st.entered[j])
            && (forall i :: 0 <= i < |st.assign| ==> SamePlace(g, id, name, st.assign[i]))
  {
    assert Reached(g, id, name, []) == Some((id, name));
    TableSound(g, c, id, name, State(out, map[], [], []), id, name, depth, limit);
  }
}
