/** The heap with unique payloads: arrays of values and payloads, and the index from payloads to positions. */
module UniqueHeap {
  import opened Options
  import opened HeapOrder

  // ---------------------------------------------------------------- the index

  /** `rev` and `ps` are inverse to each other. */
  ghost predicate Inverse<P>(ps: seq<P>, rev: map<P, nat>) {
    && (forall k :: 0 <= k < |ps| ==> ps[k] in rev && rev[ps[k]] == k + 1)
    && (forall p :: p in rev ==> 1 <= rev[p] <= |ps| && ps[rev[p] - 1] == p)
  }

  /** The value of every payload. */
  ghost function Table<V, P>(vs: seq<V>, ps: seq<P>, rev: map<P, nat>): map<P, V>
    requires Inverse(ps, rev) && |vs| == |ps|
  {
    map p | p in rev :: vs[rev[p] - 1]
  }

  lemma TableKeys<V, P>(vs: seq<V>, ps: seq<P>, rev: map<P, nat>)
    requires Inverse(ps, rev) && |vs| == |ps|
    ensures Table(vs, ps, rev).Keys == rev.Keys
  {
  }

  /** An exchange moves two payloads and leaves the others where they are. */
  lemma SwapKeepsInverse<P>(ps: seq<P>, rev: map<P, nat>, a: nat, b: nat)
    requires Inverse(ps, rev) && 1 <= a <= |ps| && 1 <= b <= |ps|
    ensures Inverse(Swapped(ps, a, b), rev[ps[a - 1] := b][ps[b - 1] := a])
  {
    var qs, rev' := Swapped(ps, a, b), rev[ps[a - 1] := b][ps[b - 1] := a];
    forall k | 0 <= k < |qs| ensures qs[k] in rev' && rev'[qs[k]] == k + 1 {
      assert rev[ps[k]] == k + 1 && rev[ps[a - 1]] == a && rev[ps[b - 1]] == b;
    }
    forall p | p in rev' ensures 1 <= rev'[p] <= |qs| && qs[rev'[p] - 1] == p {
      if p != ps[a - 1] && p != ps[b - 1] {
        assert rev'[p] == rev[p] && ps[rev[p] - 1] == p;
      }
    }
  }

  lemma SwapKeepsTable<V, P>(vs: seq<V>, ps: seq<P>, rev: map<P, nat>, a: nat, b: nat)
    requires Inverse(ps, rev) && |vs| == |ps| && 1 <= a <= |vs| && 1 <= b <= |vs|
    ensures var rev' := rev[ps[a - 1] := b][ps[b - 1] := a];
            && Inverse(Swapped(ps, a, b), rev')
            && Table(Swapped(vs, a, b), Swapped(ps, a, b), rev') == Table(vs, ps, rev)
  {
    var rev' := rev[ps[a - 1] := b][ps[b - 1] := a];
    SwapKeepsInverse(ps, rev, a, b);
    assert rev[ps[a - 1]] == a && rev[ps[b - 1]] == b;
    assert rev'.Keys == rev.Keys;
    forall p | p in rev ensures Swapped(vs, a, b)[rev'[p] - 1] == vs[rev[p] - 1] {
      Moved(vs, ps, rev, a, b, p);
    }
  }

  lemma Moved<V, P>(vs: seq<V>, ps: seq<P>, rev: map<P, nat>, a: nat, b: nat, p: P)
    requires Inverse(ps, rev) && |vs| == |ps| && 1 <= a <= |vs| && 1 <= b <= |vs| && p in rev
    ensures var rev' := rev[ps[a - 1] := b][ps[b - 1] := a];
            1 <= rev'[p] <= |vs| && Swapped(vs, a, b)[rev'[p] - 1] == vs[rev[p] - 1]
  {
    assert rev[ps[a - 1]] == a && rev[ps[b - 1]] == b && ps[rev[p] - 1] == p;
  }

  lemma EraseFromTable<V, P>(vs: seq<V>, ps: seq<P>, rev: map<P, nat>)
    requires Inverse(ps, rev) && |vs| == |ps| > 0
    ensures var n := |ps| - 1; var rev' := rev - {ps[n]};
            Inverse(ps[..n], rev') && Table(vs[..n], ps[..n], rev') == Table(vs, ps, rev) - {ps[n]}
  {
    var n := |ps| - 1;
    var rev' := rev - {ps[n]};
    forall k | 0 <= k < n ensures ps[k] in rev' && rev'[ps[k]] == k + 1 {
      assert rev[ps[k]] == k + 1 && rev[ps[n]] == n + 1;
    }
  }

  lemma AppendToTable<V, P>(vs: seq<V>, ps: seq<P>, rev: map<P, nat>, v: V, p: P)
    requires Inverse(ps, rev) && |vs| == |ps| && p !in rev
    ensures var rev' := rev[p := |ps| + 1];
            Inverse(ps + [p], rev') && Table(vs + [v], ps + [p], rev') == Table(vs, ps, rev)[p := v]
  {
  }

  lemma UpdateTable<V, P>(vs: seq<V>, ps: seq<P>, rev: map<P, nat>, v: V, p: P)
    requires Inverse(ps, rev) && |vs| == |ps| && p in rev
    ensures Table(vs[rev[p] - 1 := v], ps, rev) == Table(vs, ps, rev)[p := v]
  {
  }

  /** The top has the least value in the table. */
  lemma TopIsLeast<V(!new), P>(vs: seq<V>, ps: seq<P>, rev: map<P, nat>, lt: (V, V) -> bool)
    requires Inverse(ps, rev) && |vs| == |ps| > 0 && StrictWeakOrder(lt) && Ordered(vs, lt)
    ensures Least(Table(vs, ps, rev), ps[0], vs[0], lt)
  {
    forall p | p in rev ensures !lt(Table(vs, ps, rev)[p], vs[0]) {
      TopIsMinimum(vs, lt, rev[p]);
    }
    assert rev[ps[0]] == 1;
  }

  lemma EmptyTable<V, P>(vs: seq<V>, ps: seq<P>, rev: map<P, nat>)
    requires Inverse(ps, rev) && |vs| == |ps|
    ensures |vs| == 0 <==> Table(vs, ps, rev) == map[]
  {
    if |vs| > 0 {
      assert ps[0] in Table(vs, ps, rev);
    }
  }

  // ---------------------------------------------------------------- the heap

  class UniqueHeap<V(!new), P(==)> {
    const lt: (V, V) -> bool
    var values: seq<V>
    var payloads: seq<P>
    var reverse: map<P, nat>

    ghost predicate Linked()
      reads this
    {
      |payloads| == |values| && Inverse(payloads, reverse)
    }

    ghost predicate Valid()
      reads this
    {
      StrictWeakOrder(lt) && Linked() && Ordered(values, lt)
    }

    ghost function Contents(): map<P, V>
      requires Linked()
      reads this
    {
      Table(values, payloads, reverse)
    }

    constructor (lt: (V, V) -> bool)
      requires StrictWeakOrder(lt)
      ensures Valid() && Contents() == map[] && this.lt == lt
    {
      this.lt := lt;
      values, payloads, reverse := [], [], map[];
    }

    /** `swapU` */
    method Swap(a: nat, b: nat)
      requires Linked() && 1 <= a <= |values| && 1 <= b <= |values|
      modifies this
      ensures Linked() && values == Swapped(old(values), a, b) && payloads == Swapped(old(payloads), a, b)
      ensures Contents() == old(Contents())
    {
      hide Inverse, Table, Swapped;
      SwapKeepsTable(values, payloads, reverse, a, b);
      var pla, plb := payloads[a - 1], payloads[b - 1];
      reverse := reverse[pla := b][plb := a];
      payloads := Swapped(payloads, a, b);
      values := Swapped(values, a, b);
    }

    /** `eraseU` of the last position. */
    method Erase()
      requires Linked() && |values| > 0
      modifies this
      ensures Linked() && values == old(values[..|values| - 1]) && payloads == old(payloads[..|payloads| - 1])
      ensures Contents() == old(Contents()) - {old(payloads[|payloads| - 1])}
    {
      hide Inverse, Table;
      EraseFromTable(values, payloads, reverse);
      var pos := |values|;
      var payload := payloads[pos - 1];
      reverse := reverse - {payload};
      payloads := payloads[..pos - 1];
      values := values[..pos - 1];
    }

    method BubbleUp(pos: nat)
      requires StrictWeakOrder(lt) && Linked() && 1 <= pos <= |values| && Hole(values, lt, pos)
      modifies this
      ensures Linked() && Contents() == old(Contents()) && |values| == old(|values|)
      ensures TooLow(values, lt, pos)
      ensures old(TooHigh(values, lt, pos)) ==> Ordered(values, lt)
    {
      hide Inverse, Table, Swapped, StrictWeakOrder, Ordered, Hole, TooHigh, TooLow, AboveParent;
      var q := pos;
      while q > 1
        invariant 1 <= q <= pos && |values| == old(|values|)
        invariant Linked() && Contents() == old(Contents())
        invariant Hole(values, lt, q)
        invariant (q == pos && values == old(values)) || TooHigh(values, lt, q)
      {
        var parent := q / 2;
        if !lt(values[q - 1], values[parent - 1]) {
          NotLess(values, lt, q);
          break;
        }
        SwapUp(values, lt, q);
        Swap(parent, q);
        q := parent;
        TooHighIsHole(values, lt, q);
      }
      if TooHigh(values, lt, q) {
        TooHighIsOrdered(values, lt, q);
        OrderedIsTooLow(values, lt, pos);
      } else {
        HoleIsTooLow(values, lt, pos);
      }
    }

    method SinkDown(pos: nat)
      requires StrictWeakOrder(lt) && Linked() && 1 <= pos <= |values| && TooLow(values, lt, pos)
      modifies this
      ensures Linked() && Contents() == old(Contents()) && |values| == old(|values|)
      ensures Ordered(values, lt)
    {
      hide Inverse, Table, Swapped, StrictWeakOrder, Ordered, TooLow;
      var q, last := pos, |values|;
      while true
        invariant 1 <= q <= last == |values| == old(|values|)
        invariant Linked() && Contents() == old(Contents())
        invariant TooLow(values, lt, q)
        decreases last - q
      {
        var min, child := q, 2 * q;
        if child <= last && lt(values[child - 1], values[min - 1]) {
          min := child;
        }
        if child + 1 <= last && lt(values[child], values[min - 1]) {
          min := child + 1;
        }
        if min == q {
          TooLowIsOrdered(values, lt, q);
          break;
        }
        LesserChild(values, lt, q, min);
        SwapDown(values, lt, q, min);
        Swap(q, min);
        q := min;
      }
    }

    /** `insertU`; a payload that is there already is an error. */
    method Insert(value: V, payload: P) returns (ok: bool)
      requires Valid()
      modifies this
      ensures Valid() && ok == (payload !in old(Contents()))
      ensures Contents() == if ok then old(Contents())[payload := value] else old(Contents())
    {
      hide Inverse, Table, StrictWeakOrder, Ordered, Hole, TooHigh, TooLow, AboveParent, Spanned;
      TableKeys(values, payloads, reverse);
      if payload in reverse {
        return false;
      }
      AppendToTable(values, payloads, reverse, value, payload);
      AppendedTooHigh(values, lt, value);
      var pos := |values| + 1;
      reverse := reverse[payload := pos];
      payloads := payloads + [payload];
      values := values + [value];
      TooHighIsHole(values, lt, pos);
      assert Linked() && Contents() == old(Contents())[payload := value];
      BubbleUp(pos);
      ok := true;
    }

    /** `remove` at a position that is there. */
    method RemoveAt(pos: nat) returns (v: V)
      requires Valid() && 1 <= pos <= |values|
      modifies this
      ensures Valid() && v == old(values[pos - 1])
      ensures Contents() == old(Contents()) - {old(payloads[pos - 1])}
    {
      hide Inverse, Table, StrictWeakOrder, Ordered, Hole, TooHigh, TooLow;
      var last := |values|;
      v := values[pos - 1];
      ghost var was, ps := values, payloads;
      if pos < last {
        Swap(pos, last);
        Erase();
        assert Swapped(ps, pos, last)[last - 1] == ps[pos - 1];
        RemovedHole(was, lt, pos);
        BubbleUp(pos);
        SinkDown(pos);
      } else {
        Erase();
        ShorterOrdered(was, lt);
      }
    }

    /** `removeU`; a payload that is not there is ignored. */
    method Remove(payload: P) returns (v: Option<V>)
      requires Valid()
      modifies this
      ensures Valid() && Contents() == old(Contents()) - {payload}
      ensures v == if payload in old(Contents()) then Some(old(Contents())[payload]) else None
    {
      if payload !in reverse {
        assert Contents() - {payload} == Contents();
        return None;
      }
      var x := RemoveAt(reverse[payload]);
      v := Some(x);
    }

    /** `updateU`; a payload that is not there is an error. */
    method Update(payload: P, value: V) returns (ok: bool)
      requires Valid()
      modifies this
      ensures Valid() && ok == (payload in old(Contents()))
      ensures Contents() == if ok then old(Contents())[payload := value] else old(Contents())
    {
      if payload !in reverse {
        return false;
      }
      var pos := reverse[payload];
      ghost var was := values;
      values := values[pos - 1 := value];
      UpdatedHole(was, lt, pos, value);
      UpdateTable(was, payloads, reverse, value, payload);
      hide Inverse, Table, StrictWeakOrder, Ordered, Hole, TooHigh, TooLow;
      if pos > 1 {
        BubbleUp(pos);
      } else {
        HoleIsTooLow(values, lt, pos);
      }
      if pos < |values| {
        SinkDown(pos);
      } else {
        TooLowIsOrdered(values, lt, pos);
      }
      ok := true;
    }

    /** `popU`: a payload of least value. */
    method Pop() returns (r: Option<(P, V)>)
      requires Valid()
      modifies this
      ensures Valid() && (r.None? <==> old(Contents()) == map[])
      ensures r.None? ==> Contents() == old(Contents())
      ensures r.Some? ==> Least(old(Contents()), r.value.0, r.value.1, lt) && Contents() == old(Contents()) - {r.value.0}
    {
      hide Inverse, Table, StrictWeakOrder, Ordered, Least;
      EmptyTable(values, payloads, reverse);
      if |values| == 0 {
        return None;
      }
      TopIsLeast(values, payloads, reverse, lt);
      var payload := payloads[0];
      var value := RemoveAt(1);
      r := Some((payload, value));
    }

    /** `peekU` */
    method Peek() returns (r: Option<(P, V)>)
      requires Valid()
      ensures r.None? <==> Contents() == map[]
      ensures r.Some? ==> Least(Contents(), r.value.0, r.value.1, lt)
    {
      hide Inverse, Table, StrictWeakOrder, Ordered, Least;
      EmptyTable(values, payloads, reverse);
      if |values| == 0 {
        return None;
      }
      TopIsLeast(values, payloads, reverse, lt);
      r := Some((payloads[0], values[0]));
    }

    /** `minheap_pop_exec` of the timers: pops what is due until `limit` of it were still timers. What the callbacks do to
        the heap is not part of it. */
    method PopDue(now: V, timers: set<P>, limit: nat) returns (out: seq<(P, V)>)
      requires Valid()
      modifies this
      ensures Valid() && Drains(old(Contents()), out, Contents(), lt)
      ensures Due(out, now, lt) && Executed(out, timers) <= limit
      ensures Executed(out, timers) < limit ==> NoneDue(Contents(), now, lt)
    {
      hide Linked, Table, StrictWeakOrder, Ordered, Least, Due, NoneDue;
      out := [];
      NothingDue<V, P>(now, lt);
      var executed := 0;
      while executed < limit
        invariant Valid() && Drains(old(Contents()), out, Contents(), lt)
        invariant Due(out, now, lt) && executed == Executed(out, timers) <= limit
        decreases |Contents()|
      {
        hide Drains, Executed;
        ghost var before := Contents();
        var top := Peek();
        if top.Some? { FirstTells(before, top.value.0, top.value.1, now, lt); }
        if top.None? || lt(now, top.value.1) {
          return;
        }
        var popped := Pop();
        var (p, v) := popped.value;
        PopsOneMore(old(Contents()), out, before, p, v, Contents(), now, timers, lt);
        if p in timers {
          executed := executed + 1;
        }
        out := out + [(p, v)];
      }
    }

    method ValueByPayload(payload: P) returns (v: Option<V>)
      requires Valid()
      ensures v == if payload in Contents() then Some(Contents()[payload]) else None
    {
      v := if payload in reverse then Some(values[reverse[payload] - 1]) else None;
    }
  }

  /** `p` has the value `v` in `m`, and no value in `m` is less. */
  ghost predicate Least<V, P>(m: map<P, V>, p: P, v: V, lt: (V, V) -> bool) {
    p in m && m[p] == v && forall x :: x in m ==> !lt(m[x], v)
  }

  lemma NotLess<V>(vs: seq<V>, lt: (V, V) -> bool, i: nat)
    requires 2 <= i <= |vs| && !lt(vs[i - 1], vs[i / 2 - 1])
    ensures AboveParent(vs, lt, i)
  {
  }

  /** What the search among the children finds. */
  lemma LesserChild<V(!new)>(vs: seq<V>, lt: (V, V) -> bool, q: nat, min: nat)
    requires StrictWeakOrder(lt) && 1 <= q <= |vs| && min != q
    requires var first := if 2 * q <= |vs| && lt(vs[2 * q - 1], vs[q - 1]) then 2 * q else q;
             min == if 2 * q + 1 <= |vs| && lt(vs[2 * q], vs[first - 1]) then 2 * q + 1 else first
    ensures 2 <= min <= |vs| && min / 2 == q && lt(vs[min - 1], vs[q - 1])
    ensures forall c :: 2 <= c <= |vs| && c / 2 == q ==> !lt(vs[c - 1], vs[min - 1])
  {
    forall c | 2 <= c <= |vs| && c / 2 == q ensures !lt(vs[c - 1], vs[min - 1]) {
      assert c == 2 * q || c == 2 * q + 1;
    }
  }

  lemma AppendedTooHigh<V>(vs: seq<V>, lt: (V, V) -> bool, v: V)
    requires Ordered(vs, lt)
    ensures TooHigh(vs + [v], lt, |vs| + 1)
  {
    forall i | 2 <= i <= |vs| + 1 && i != |vs| + 1 ensures AboveParent(vs + [v], lt, i) {
      assert AboveParent(vs, lt, i);
    }
  }

  lemma ShorterOrdered<V>(vs: seq<V>, lt: (V, V) -> bool)
    requires Ordered(vs, lt) && |vs| > 0
    ensures Ordered(vs[..|vs| - 1], lt)
  {
    var r := vs[..|vs| - 1];
    forall i | 2 <= i <= |r| ensures AboveParent(r, lt, i) {
      assert AboveParent(vs, lt, i);
    }
  }

  lemma RemovedHole<V(!new)>(vs: seq<V>, lt: (V, V) -> bool, pos: nat)
    requires Ordered(vs, lt) && 1 <= pos < |vs|
    requires StrictWeakOrder(lt)
    ensures Hole(Swapped(vs, pos, |vs|)[..|vs| - 1], lt, pos)
  {
    HoleAnywhere(vs, lt, pos, Swapped(vs, pos, |vs|)[..|vs| - 1]);
  }

  /** Changing one value of an ordered sequence leaves at most a hole there. */
  lemma HoleAnywhere<V(!new)>(vs: seq<V>, lt: (V, V) -> bool, pos: nat, r: seq<V>)
    requires StrictWeakOrder(lt) && Ordered(vs, lt) && 1 <= pos <= |r| <= |vs|
    requires forall k :: 0 <= k < |r| && k != pos - 1 ==> r[k] == vs[k]
    ensures Hole(r, lt, pos)
  {
    forall i | 2 <= i <= |r| && i != pos && i / 2 != pos ensures AboveParent(r, lt, i) {
      assert AboveParent(vs, lt, i);
    }
    forall c | 4 <= c <= |r| && c / 2 == pos ensures !lt(r[c - 1], r[pos / 2 - 1]) {
      assert AboveParent(vs, lt, c) && AboveParent(vs, lt, pos);
    }
  }

  lemma UpdatedHole<V(!new)>(vs: seq<V>, lt: (V, V) -> bool, pos: nat, v: V)
    requires StrictWeakOrder(lt) && Ordered(vs, lt) && 1 <= pos <= |vs|
    ensures Hole(vs[pos - 1 := v], lt, pos)
  {
    HoleAnywhere(vs, lt, pos, vs[pos - 1 := v]);
  }

  // ---------------------------------------------------------------- draining

  /** `out` is what popping may give on the way from `m` to `rest`. */
  ghost predicate Drains<V, P>(m: map<P, V>, out: seq<(P, V)>, rest: map<P, V>, lt: (V, V) -> bool) {
    if out == [] then m == rest
    else Least(m, out[0].0, out[0].1, lt) && Drains(m - {out[0].0}, out[1..], rest, lt)
  }

  lemma {:induction false} DrainsOneMore<V, P>(m: map<P, V>, out: seq<(P, V)>, rest: map<P, V>, p: P, v: V,
                                               lt: (V, V) -> bool)
    requires Drains(m, out, rest, lt) && Least(rest, p, v, lt)
    ensures Drains(m, out + [(p, v)], rest - {p}, lt)
    decreases |out|
  {
    if out == [] {
      assert [(p, v)][1..] == [];
    } else {
      assert (out + [(p, v)])[1..] == out[1..] + [(p, v)];
      DrainsOneMore(m - {out[0].0}, out[1..], rest, p, v, lt);
    }
  }

  ghost function Popped<V, P>(out: seq<(P, V)>): set<P> {
    if out == [] then {} else {out[0].0} + Popped(out[1..])
  }

  lemma Without<V, P>(m: map<P, V>, p: P, more: set<P>)
    requires p in m
    ensures |m - {p}| + 1 == |m| && (m - {p}) - more == m - ({p} + more)
  {
    assert (m - {p}).Keys == m.Keys - {p} && |m| == |m.Keys| && |m - {p}| == |(m - {p}).Keys|;
  }

  /** Everything that is not popped stays. */
  lemma {:induction false} DrainLeaves<V, P>(m: map<P, V>, out: seq<(P, V)>, rest: map<P, V>, lt: (V, V) -> bool)
    requires Drains(m, out, rest, lt)
    ensures rest == m - Popped(out) && |out| + |rest| == |m|
    decreases |out|
  {
    if out == [] {
      assert m - {} == m;
    } else {
      DrainLeaves(m - {out[0].0}, out[1..], rest, lt);
      Without(m, out[0].0, Popped(out[1..]));
    }
  }

  /** A payload of least value: its entry is in the table, and everything that stays is there too and not less. */
  ghost predicate Taken<V, P>(m: map<P, V>, p: P, v: V, rest: map<P, V>, lt: (V, V) -> bool) {
    && p in m && m[p] == v && p !in rest
    && forall x :: x in rest ==> x in m && m[x] == rest[x] && !lt(rest[x], v)
  }

  lemma TakenBefore<V, P>(m: map<P, V>, first: P, p: P, v: V, rest: map<P, V>, lt: (V, V) -> bool)
    requires Taken(m - {first}, p, v, rest, lt)
    ensures Taken(m, p, v, rest, lt) && p != first
  {
  }

  lemma LeastOfRest<V, P>(m: map<P, V>, p: P, v: V, gone: set<P>, lt: (V, V) -> bool)
    requires Least(m, p, v, lt)
    ensures Taken(m, p, v, (m - {p}) - gone, lt)
  {
  }

  lemma FirstTaken<V, P>(m: map<P, V>, out: seq<(P, V)>, rest: map<P, V>, lt: (V, V) -> bool)
    requires Drains(m, out, rest, lt) && out != []
    ensures Taken(m, out[0].0, out[0].1, rest, lt)
  {
    hide Popped, Least, Taken;
    DrainLeaves(m - {out[0].0}, out[1..], rest, lt);
    LeastOfRest(m, out[0].0, out[0].1, Popped(out[1..]), lt);
  }

  /** So it is for what is popped at any place `i`. */
  lemma {:induction false} DrainTakes<V, P>(m: map<P, V>, out: seq<(P, V)>, rest: map<P, V>, lt: (V, V) -> bool, i: nat)
    requires Drains(m, out, rest, lt) && i < |out|
    ensures Taken(m, out[i].0, out[i].1, rest, lt)
    decreases i
  {
    hide Popped, Least, Taken;
    if i > 0 {
      DrainTakes(m - {out[0].0}, out[1..], rest, lt, i - 1);
      TakenBefore(m, out[0].0, out[i].0, out[i].1, rest, lt);
    } else {
      FirstTaken(m, out, rest, lt);
    }
  }

  lemma {:induction false} DrainOrders<V, P>(m: map<P, V>, out: seq<(P, V)>, rest: map<P, V>, lt: (V, V) -> bool,
                                             i: nat, j: nat)
    requires Drains(m, out, rest, lt) && i < j < |out|
    ensures out[i].0 != out[j].0 && !lt(out[j].1, out[i].1)
    decreases i
  {
    var less, later := m - {out[0].0}, out[1..];
    assert later[j - 1] == out[j];
    if i > 0 {
      assert later[i - 1] == out[i];
      DrainOrders(less, later, rest, lt, i - 1, j - 1);
    } else {
      DrainTakes(less, later, rest, lt, j - 1);
      TakenBefore(m, out[0].0, out[j].0, out[j].1, rest, lt);
    }
  }

  /** What is popped comes out once each, with its value and in order of values; everything else stays, and none of it is
      less than what came out. */
  lemma DrainSorts<V, P>(m: map<P, V>, out: seq<(P, V)>, rest: map<P, V>, lt: (V, V) -> bool)
    requires Drains(m, out, rest, lt)
    ensures rest == m - Popped(out) && |out| + |rest| == |m|
    ensures forall i :: 0 <= i < |out| ==> out[i].0 in m && m[out[i].0] == out[i].1
    ensures forall i, j :: 0 <= i < j < |out| ==> out[i].0 != out[j].0 && !lt(out[j].1, out[i].1)
    ensures forall i, p :: 0 <= i < |out| && p in rest ==> !lt(rest[p], out[i].1)
  {
    hide Drains, Popped;
    DrainLeaves(m, out, rest, lt);
    forall i | 0 <= i < |out|
      ensures out[i].0 in m && m[out[i].0] == out[i].1 && forall p :: p in rest ==> !lt(rest[p], out[i].1)
    {
      DrainTakes(m, out, rest, lt, i);
    }
    forall i, j | 0 <= i < j < |out| ensures out[i].0 != out[j].0 && !lt(out[j].1, out[i].1) {
      DrainOrders(m, out, rest, lt, i, j);
    }
  }

  /** All of this is due at `now`. */
  ghost predicate Due<V, P>(out: seq<(P, V)>, now: V, lt: (V, V) -> bool) {
    forall i :: 0 <= i < |out| ==> !lt(now, out[i].1)
  }

  /** None of this is. */
  ghost predicate NoneDue<V, P>(m: map<P, V>, now: V, lt: (V, V) -> bool) {
    forall p :: p in m ==> lt(now, m[p])
  }

  lemma NothingDue<V, P>(now: V, lt: (V, V) -> bool)
    ensures Due<V, P>([], now, lt) && NoneDue<V, P>(map[], now, lt)
  {
  }

  lemma FirstTells<V(!new), P>(m: map<P, V>, p: P, v: V, now: V, lt: (V, V) -> bool)
    requires StrictWeakOrder(lt) && Least(m, p, v, lt)
    ensures lt(now, v) <==> NoneDue(m, now, lt)
  {
  }

  /** One more payload popped while something is due. */
  lemma PopsOneMore<V(!new), P>(m: map<P, V>, out: seq<(P, V)>, before: map<P, V>, p: P, v: V, after: map<P, V>,
                               now: V, timers: set<P>, lt: (V, V) -> bool)
    requires StrictWeakOrder(lt) && Drains(m, out, before, lt) && Least(before, p, v, lt) && after == before - {p}
    requires Due(out, now, lt) && !NoneDue(before, now, lt)
    ensures Drains(m, out + [(p, v)], after, lt) && Due(out + [(p, v)], now, lt) && |after| < |before|
    ensures Executed(out + [(p, v)], timers) == Executed(out, timers) + if p in timers then 1 else 0
  {
    hide Executed;
    DrainsOneMore(m, out, before, p, v, lt);
    ExecutedOneMore(out, p, v, timers);
    FirstTells(before, p, v, now, lt);
    assert before.Keys == after.Keys + {p} && |before| == |before.Keys| && |after| == |after.Keys|;
  }

  lemma {:induction false} ExecutedOneMore<V, P>(out: seq<(P, V)>, p: P, v: V, timers: set<P>)
    ensures Executed(out + [(p, v)], timers) == Executed(out, timers) + if p in timers then 1 else 0
  {
    assert (out + [(p, v)])[..|out|] == out;
  }

  /** How many of the popped payloads are still timers. */
  function Executed<V, P(==)>(out: seq<(P, V)>, timers: set<P>): nat {
    if out == [] then 0
    else Executed(out[..|out| - 1], timers) + if out[|out| - 1].0 in timers then 1 else 0
  }
}
