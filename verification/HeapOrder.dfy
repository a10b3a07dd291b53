/** Heap order over a sequence of values. Positions count from 1, as in the source: position `i` is `values[i - 1]`. */
module HeapOrder {
  /** `lt` is a strict weak order: values that are not less either way are interchangeable. */
  ghost predicate StrictWeakOrder<V(!new)>(lt: (V, V) -> bool) {
    && (forall a :: !lt(a, a))
    && (forall a, b, c :: lt(a, b) && lt(b, c) ==> lt(a, c))
    && (forall a, b, c :: lt(a, c) ==> lt(a, b) || lt(b, c))
  }

  /** The value at `i` is not less than its parent's. */
  predicate AboveParent<V>(vs: seq<V>, lt: (V, V) -> bool, i: nat)
    requires 2 <= i <= |vs|
  {
    !lt(vs[i - 1], vs[i / 2 - 1])
  }

  predicate Ordered<V>(vs: seq<V>, lt: (V, V) -> bool) {
    forall i :: 2 <= i <= |vs| ==> AboveParent(vs, lt, i)
  }

  /** The children of `pos` are not less than the parent of `pos`. */
  predicate Spanned<V>(vs: seq<V>, lt: (V, V) -> bool, pos: nat) {
    forall c :: 4 <= c <= |vs| && c / 2 == pos ==> !lt(vs[c - 1], vs[pos / 2 - 1])
  }

  /** Ordered, but for `pos` itself, whose value may be out of order both ways. */
  predicate Hole<V>(vs: seq<V>, lt: (V, V) -> bool, pos: nat) {
    (forall i :: 2 <= i <= |vs| && i != pos && i / 2 != pos ==> AboveParent(vs, lt, i)) && Spanned(vs, lt, pos)
  }

  /** Ordered, but the value at `pos` may be less than its parent's. */
  predicate TooHigh<V>(vs: seq<V>, lt: (V, V) -> bool, pos: nat) {
    (forall i :: 2 <= i <= |vs| && i != pos ==> AboveParent(vs, lt, i)) && Spanned(vs, lt, pos)
  }

  /** Ordered, but the value at `pos` may be greater than its children's. */
  predicate TooLow<V>(vs: seq<V>, lt: (V, V) -> bool, pos: nat) {
    (forall i :: 2 <= i <= |vs| && i / 2 != pos ==> AboveParent(vs, lt, i)) && Spanned(vs, lt, pos)
  }

  function Swapped<V>(vs: seq<V>, a: nat, b: nat): (r: seq<V>)
    requires 1 <= a <= |vs| && 1 <= b <= |vs|
    ensures |r| == |vs|
  {
    vs[a - 1 := vs[b - 1]][b - 1 := vs[a - 1]]
  }

  /** Exchanging a value with its greater parent moves the disorder up. */
  lemma SwapUp<V(!new)>(vs: seq<V>, lt: (V, V) -> bool, pos: nat)
    requires StrictWeakOrder(lt) && 2 <= pos <= |vs| && lt(vs[pos - 1], vs[pos / 2 - 1])
    requires Hole(vs, lt, pos)
    ensures TooHigh(Swapped(vs, pos / 2, pos), lt, pos / 2)
  {
    var r, q := Swapped(vs, pos / 2, pos), pos / 2;
    forall i | 2 <= i <= |vs| && i != q ensures AboveParent(r, lt, i) {
      if i != pos && i / 2 != pos {
        assert AboveParent(vs, lt, i);
      }
    }
    forall c | 4 <= c <= |r| && c / 2 == q ensures !lt(r[c - 1], r[q / 2 - 1]) {
      assert AboveParent(vs, lt, q);
      if c != pos {
        assert AboveParent(vs, lt, c);
      }
    }
  }

  lemma TooHighIsHole<V>(vs: seq<V>, lt: (V, V) -> bool, pos: nat)
    requires TooHigh(vs, lt, pos)
    ensures Hole(vs, lt, pos)
  {
  }

  /** A value that is not less than its parent has disorder only below it. */
  lemma HoleIsTooLow<V>(vs: seq<V>, lt: (V, V) -> bool, pos: nat)
    requires Hole(vs, lt, pos) && 1 <= pos <= |vs| && (pos >= 2 ==> AboveParent(vs, lt, pos))
    ensures TooLow(vs, lt, pos)
  {
  }

  lemma TooHighIsOrdered<V>(vs: seq<V>, lt: (V, V) -> bool, pos: nat)
    requires TooHigh(vs, lt, pos) && 1 <= pos <= |vs| && (pos >= 2 ==> AboveParent(vs, lt, pos))
    ensures Ordered(vs, lt)
  {
  }

  lemma OrderedIsTooLow<V(!new)>(vs: seq<V>, lt: (V, V) -> bool, pos: nat)
    requires StrictWeakOrder(lt) && Ordered(vs, lt) && 1 <= pos <= |vs|
    ensures TooLow(vs, lt, pos)
  {
    forall c | 4 <= c <= |vs| && c / 2 == pos ensures !lt(vs[c - 1], vs[pos / 2 - 1]) {
      assert AboveParent(vs, lt, c) && AboveParent(vs, lt, pos);
    }
  }

  /** Exchanging a value with the lesser of its children moves the disorder down. */
  lemma SwapDown<V(!new)>(vs: seq<V>, lt: (V, V) -> bool, pos: nat, min: nat)
    requires StrictWeakOrder(lt) && 1 <= pos && 2 <= min <= |vs| && min / 2 == pos && lt(vs[min - 1], vs[pos - 1])
    requires forall c :: 2 <= c <= |vs| && c / 2 == pos ==> !lt(vs[c - 1], vs[min - 1])
    requires TooLow(vs, lt, pos)
    ensures TooLow(Swapped(vs, pos, min), lt, min)
  {
    var r := Swapped(vs, pos, min);
    forall i | 2 <= i <= |vs| && i / 2 != min ensures AboveParent(r, lt, i) {
      if i / 2 != pos && i != pos {
        assert AboveParent(vs, lt, i);
      }
    }
    forall c | 4 <= c <= |r| && c / 2 == min ensures !lt(r[c - 1], r[min / 2 - 1]) {
      assert AboveParent(vs, lt, c);
    }
  }

  lemma TooLowIsOrdered<V>(vs: seq<V>, lt: (V, V) -> bool, pos: nat)
    requires 1 <= pos <= |vs| && TooLow(vs, lt, pos)
    requires forall c :: 2 <= c <= |vs| && c / 2 == pos ==> !lt(vs[c - 1], vs[pos - 1])
    ensures Ordered(vs, lt)
  {
  }

  /** The top is a minimum. */
  lemma {:induction false} TopIsMinimum<V(!new)>(vs: seq<V>, lt: (V, V) -> bool, i: nat)
    requires StrictWeakOrder(lt) && Ordered(vs, lt) && 1 <= i <= |vs|
    ensures !lt(vs[i - 1], vs[0])
  {
    if i >= 2 {
      TopIsMinimum(vs, lt, i / 2);
      assert AboveParent(vs, lt, i);
    }
  }
}
