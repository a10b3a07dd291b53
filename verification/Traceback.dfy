/** The serialiser itself: a buffer and two tables filled while the graph is walked. */
module Traceback {
  import opened TracebackSpec

  class Serializer {
    const graph: Graph
    const config: Config
    var out: string
    var mark: map<nat, string>
    var assign: seq<string>
    ghost var entered: seq<nat>

    ghost function View(): State
      reads this
    {
      State(out, mark, assign, entered)
    }

    constructor (g: Graph, c: Config, buff: string)
      ensures graph == g && config == c && View() == State(buff, map[], [], [])
    {
      graph, config, out, mark, assign, entered := g, c, buff, map[], [], [];
    }

    /** `buffer_append` */
    method BufferAppend(s: string)
      modifies this`out
      ensures out == Append(config, old(out), s)
    {
      if config.maxLen.None? {
        out := out + s;
        return;
      }
      var r := config.maxLen.value - |out|;
      if r <= 0 {
        return;
      }
      out := out + if |s| > r then s[..r] else s;
    }

    method SerializeString(s: string)
      modifies this`out
      ensures out == SeriString(config, old(out), s)
    {
      hide Append, Escape, Hex;
      BufferAppend("\"");
      var l := if |s| < config.maxString then |s| else config.maxString;
      var text := config.utf8(s, l);
      if !text {
        BufferAppend("0x");
      }
      ghost var o := out;
      var i := 0;
      while i < l
        invariant 0 <= i <= l && out == AppendChars(config, o, s, i, text)
      {
        BufferAppend(if text then Escape(s[i]) else Hex(s[i]));
        i := i + 1;
      }
      BufferAppend(if |s| > config.maxString then "..." else "\"");
    }

    /** `_append_skey`; from the first key on, a comma goes before the next. */
    method SerializeKey(comma: bool, key: string)
      modifies this`out
      ensures out == AppendKey(config, old(out), comma, key)
    {
      hide Append;
      if comma {
        BufferAppend(",");
      }
      BufferAppend(key);
      BufferAppend("=");
    }

    /** `_seri_table` */
    method SerializeTable(id: nat, path: string, depth: nat, limit0: nat)
      requires Closed(graph) && id in graph
      modifies this
      ensures View() == SeriTable(graph, config, old(View()), id, path, depth, limit0)
      decreases depth
    {
      hide Append, SeriString, AppendKey, SeriEntries, Closed, Key;
      if depth == 0 || Full(config, out) {
        BufferAppend(graph[id].text);
        return;
      }
      mark := mark[id := path];
      entered := entered + [id];
      BufferAppend("{");
      ghost var st1 := View();
      var entries, comma, limit, k := graph[id].entries, false, limit0, 0;
      while k < |entries|
        invariant 0 <= k <= |entries|
        invariant SeriEntries(graph, config, View(), id, path, depth - 1, limit, k, comma)
                  == SeriEntries(graph, config, st1, id, path, depth - 1, limit0, 0, false)
      {
        NextEntry(graph, config, View(), id, path, depth - 1, limit, k, comma);
        if limit == 0 {
          BufferAppend("...");
          break;
        }
        limit := limit - 1;
        var e := entries[k];
        match e.value {
          case Str(s) =>
            SerializeKey(comma, Key(e));
            comma := true;
            SerializeString(s);
          case Table(t) =>
            EntryInGraph(graph, id, k);
            var dotkey := path + Key(e);
            if t in mark {
              assign := assign + [dotkey + " = " + mark[t]];
            } else {
              SerializeKey(comma, Key(e));
              comma := true;
              SerializeTable(t, dotkey, depth - 1, limit);
            }
          case Other(text) =>
            SerializeKey(comma, Key(e));
            comma := true;
            BufferAppend(text);
        }
        k := k + 1;
      }
      if k == |entries| {
        LastEntry(graph, config, View(), id, path, depth - 1, limit, comma);
      }
      BufferAppend("}");
    }

    /** `seri` */
    method Serialize(v: Value, name: string, maxDepth: nat, maxEle: nat)
      requires Closed(graph) && (v.Table? ==> v.id in graph) && mark == map[] && assign == [] && entered == []
      modifies this
      ensures out == Seri(graph, config, old(out), v, name, maxDepth, maxEle)
    {
      hide Append, SeriString, SeriTable;
      match v
      case Str(s) => SerializeString(s);
      case Other(text) => BufferAppend(text);
      case Table(id) =>
        SerializeTable(id, name, maxDepth, maxEle);
        ghost var o := out;
        var i := 0;
        while i < |assign|
          invariant 0 <= i <= |assign| && out == AppendLines(config, o, assign, i)
          invariant assign == SeriTable(graph, config, old(View()), id, name, maxDepth, maxEle).assign
        {
          BufferAppend("\n\t\t\t");
          BufferAppend(assign[i]);
          i := i + 1;
        }
    }
  }

  lemma EntryInGraph(g: Graph, id: nat, k: nat)
    requires Closed(g) && id in g && k < |g[id].entries| && g[id].entries[k].value.Table?
    ensures g[id].entries[k].value.id in g
  {
  }

  lemma LastEntry(g: Graph, c: Config, st: State, id: nat, path: string, depth: nat, limit: nat, comma: bool)
    requires Closed(g) && id in g
    ensures SeriEntries(g, c, st, id, path, depth, limit, |g[id].entries|, comma) == st
  {
  }

  /** One turn of the loop. */
  lemma NextEntry(g: Graph, c: Config, st: State, id: nat, path: string, depth: nat, limit: nat, k: nat, comma: bool)
    requires Closed(g) && id in g && k < |g[id].entries|
    ensures SeriEntries(g, c, st, id, path, depth, limit, k, comma) ==
            if limit == 0 then st.(out := Append(c, st.out, "..."))
            else
              var e := g[id].entries[k];
              match e.value
              case Str(s) =>
                var st' := st.(out := SeriString(c, AppendKey(c, st.out, comma, Key(e)), s));
                SeriEntries(g, c, st', id, path, depth, limit - 1, k + 1, true)
              case Other(text) =>
                var st' := st.(out := Append(c, AppendKey(c, st.out, comma, Key(e)), text));
                SeriEntries(g, c, st', id, path, depth, limit - 1, k + 1, true)
              case Table(t) =>
                if t in st.mark then
                  var st' := st.(assign := st.assign + [path + Key(e) + " = " + st.mark[t]]);
                  SeriEntries(g, c, st', id, path, depth, limit - 1, k + 1, comma)
                else
                  var st' := st.(out := AppendKey(c, st.out, comma, Key(e)));
                  var st'' := SeriTable(g, c, st', t, path + Key(e), depth, limit - 1);
                  SeriEntries(g, c, st'', id, path, depth, limit - 1, k + 1, true)
  {
    hide Append, SeriString, AppendKey, SeriTable, Key;
  }
}
