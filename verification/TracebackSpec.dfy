/** The traceback's serialiser: what it makes of a graph of tables in a bounded buffer. */
module TracebackSpec {
  import opened Options

  datatype Value = Str(s: string) | Table(id: nat) | Other(text: string)

  /** A key as it is printed; keys that are not numbers are quoted. */
  datatype Entry = Entry(key: string, number: bool, value: Value)

  /** `text` is what `tostring` gives for the table itself. */
  datatype TableNode = TableNode(entries: seq<Entry>, text: string)

  type Graph = map<nat, TableNode>

  predicate Closed(g: Graph) {
    forall t, k :: t in g && 0 <= k < |g[t].entries| && g[t].entries[k].value.Table? ==> g[t].entries[k].value.id in g
  }

  /** `maxLen` bounds the buffer, if anything does; `utf8` says of a string and a length whether that much of it
      counts as text. */
  datatype Config = Config(maxString: nat, maxLen: Option<nat>, utf8: (string, nat) -> bool)

  /** The buffer, the first path to every opened table, the lines for tables met again, and the tables entered so far. */
  datatype State = State(out: string, mark: map<nat, string>, assign: seq<string>, entered: seq<nat>)

  predicate Full(c: Config, out: string) {
    c.maxLen.Some? && |out| >= c.maxLen.value
  }

  /** `buffer_append` */
  function Append(c: Config, out: string, s: string): (r: string)
    ensures out <= r
    ensures Full(c, out) ==> r == out
    ensures c.maxLen.None? ==> r == out + s
    ensures c.maxLen.Some? && |out| <= c.maxLen.value ==>
              r == if |out + s| <= c.maxLen.value then out + s else (out + s)[..c.maxLen.value]
  {
    if Full(c, out) then out
    else if c.maxLen.None? || |s| <= c.maxLen.value - |out| then out + s
    else out + s[..c.maxLen.value - |out|]
  }

  // ---------------------------------------------------------------- strings

  function Digit(n: nat): char
    requires n < 16
  {
    "0123456789abcdef"[n]
  }

  function Hex(c: char): string {
    var n := c as int % 256;
    [Digit(n / 16), Digit(n % 16)]
  }

  function Escape(c: char): string {
    if c == '\U{8}' then "\\b"
    else if c == '\t' then "\\t"
    else if c == '\n' then "\\n"
    else if c == '\U{C}' then "\\f"
    else if c == '\r' then "\\r"
    else if c == '"' then "\\\""
    else if c == '\\' then "\\\\"
    else if c < ' ' || c == '\U{7F}' then "\\x" + Hex(c)
    else [c]
  }

  /** The first `n` characters, each appended in its printed form. */
  function AppendChars(c: Config, out: string, s: string, n: nat, text: bool): (r: string)
    requires n <= |s|
    ensures out <= r
    ensures Full(c, out) ==> r == out
  {
    if n == 0 then out
    else
      var o := AppendChars(c, out, s, n - 1, text);
      Append(c, o, if text then Escape(s[n - 1]) else Hex(s[n - 1]))
  }

  /** `seri_string` */
  function SeriString(c: Config, out: string, s: string): (r: string)
    ensures out <= r
    ensures Full(c, out) ==> r == out
  {
    var l := if |s| < c.maxString then |s| else c.maxString;
    var text := c.utf8(s, l);
    var o := Append(c, out, "\"");
    var o' := AppendChars(c, if text then o else Append(c, o, "0x"), s, l, text);
    Append(c, o', if |s| > c.maxString then "..." else "\"")
  }

  // ---------------------------------------------------------------- tables

  function Key(e: Entry): string {
    if e.number then "[" + e.key + "]" else "['" + e.key + "']"
  }

  /** `_append_skey` */
  function AppendKey(c: Config, out: string, comma: bool, key: string): (r: string)
    ensures out <= r
    ensures Full(c, out) ==> r == out
  {
    Append(c, Append(c, if comma then Append(c, out, ",") else out, key), "=")
  }

  /** `_seri_table`. The element limit goes down along a path and is handed to the tables inside. */
  function SeriTable(g: Graph, c: Config, st: State, id: nat, path: string, depth: nat, limit: nat): (r: State)
    requires Closed(g) && id in g
    ensures st.out <= r.out
    ensures Full(c, st.out) ==> r.out == st.out
    decreases depth, 0, 0
  {
    if depth == 0 || Full(c, st.out) then st.(out := Append(c, st.out, g[id].text))
    else
      var st1 := st.(mark := st.mark[id := path], entered := st.entered + [id], out := Append(c, st.out, "{"));
      var st2 := SeriEntries(g, c, st1, id, path, depth - 1, limit, 0, false);
      st2.(out := Append(c, st2.out, "}"))
  }

  /** The entries from `k` on. */
  function SeriEntries(g: Graph, c: Config, st: State, id: nat, path: string, depth: nat, limit: nat, k: nat, comma: bool): (r: State)
    requires Closed(g) && id in g && k <= |g[id].entries|
    ensures st.out <= r.out
    ensures Full(c, st.out) ==> r.out == st.out
    decreases depth, 1, |g[id].entries| - k
  {
    if k == |g[id].entries| then st
    else if limit == 0 then st.(out := Append(c, st.out, "..."))
    else
      var e := g[id].entries[k];
      match e.value
      case Str(s) =>
        var st' := st.(out := SeriString(c, AppendKey(c, st.out, comma, Key(e)), s));
        SeriEntries(g, c, st', id, path, depth, limit - 1, k + 1, true)
      case Other(text) =>
        var st' := st.(out := Append(c, AppendKey(c, st.out, comma, Key(e)), text));
        SeriEntries(g, c, st', id, path, depth, limit - 1, k + 1, true)
      case Table(t) =>
        if t in st.mark then
          var st' := st.(assign := st.assign + [path + Key(e) + " = " + st.mark[t]]);
          SeriEntries(g, c, st', id, path, depth, limit - 1, k + 1, comma)
        else
          var st' := st.(out := AppendKey(c, st.out, comma, Key(e)));
          var st'' := SeriTable(g, c, st', t, path + Key(e), depth, limit - 1);
          SeriEntries(g, c, st'', id, path, depth, limit - 1, k + 1, true)
  }

  function AppendLines(c: Config, out: string, lines: seq<string>, n: nat): (r: string)
    requires n <= |lines|
    ensures out <= r
    ensures Full(c, out) ==> r == out
  {
    if n == 0 then out else Append(c, Append(c, AppendLines(c, out, lines, n - 1), "\n\t\t\t"), lines[n - 1])
  }

  /** `seri`: a value at the end of what the buffer holds. */
  function Seri(g: Graph, c: Config, out: string, v: Value, name: string, depth: nat, limit: nat): (r: string)
    requires Closed(g) && (v.Table? ==> v.id in g)
  {
    match v
    case Str(s) => SeriString(c, out, s)
    case Other(text) => Append(c, out, text)
    case Table(id) =>
      var st := SeriTable(g, c, State(out, map[], [], []), id, name, depth, limit);
      AppendLines(c, st.out, st.assign, |st.assign|)
  }
}
