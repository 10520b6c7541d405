/** What a field holds after a history: the value written last, unless something erased it since. */
module History {
  import opened Common

  /** The content of a register that some events write and some erase. */
  function Held<E, V>(es: seq<E>, writes: E -> Option<V>, erases: (V, E) -> bool): Option<V> {
    if es == [] then None
    else
      var before, last := Held(es[..|es| - 1], writes, erases), es[|es| - 1];
      if writes(last).Some? then writes(last)
      else if before.Some? && erases(before.value, last) then None
      else before
  }

  /** Event `k` wrote the value, and no later event wrote another or erased it. */
  ghost predicate WrittenAt<E, V>(es: seq<E>, writes: E -> Option<V>, erases: (V, E) -> bool, v: V, k: nat) {
    && k < |es| && writes(es[k]) == Some(v)
    && forall j :: k < j < |es| ==> writes(es[j]).None? && !erases(v, es[j])
  }

  lemma WrittenAtStep<E, V>(es: seq<E>, writes: E -> Option<V>, erases: (V, E) -> bool, v: V, k: nat)
    requires es != []
    ensures var n := |es| - 1;
            WrittenAt(es, writes, erases, v, k) <==>
            if k < n then WrittenAt(es[..n], writes, erases, v, k) && writes(es[n]).None? && !erases(v, es[n])
            else k == n && writes(es[n]) == Some(v)
  {
    var n := |es| - 1;
    assert forall j :: 0 <= j < n ==> es[..n][j] == es[j];
  }

  lemma {:induction false} HeldIff<E, V(!new)>(es: seq<E>, writes: E -> Option<V>, erases: (V, E) -> bool, v: V)
    ensures Held(es, writes, erases) == Some(v) <==> exists k: nat :: WrittenAt(es, writes, erases, v, k)
  {
    hide WrittenAt;
    if es == [] {
      NothingWritten(es, writes, erases, v);
    } else {
      var n := |es| - 1;
      HeldIff(es[..n], writes, erases, v);
      forall k: nat ensures WrittenAt(es, writes, erases, v, k) <==>
          if k < n then WrittenAt(es[..n], writes, erases, v, k) && writes(es[n]).None? && !erases(v, es[n])
          else k == n && writes(es[n]) == Some(v)
      {
        WrittenAtStep(es, writes, erases, v, k);
      }
      WrittenBelow(es[..n], writes, erases, v);
      assert writes(es[n]) == Some(v) ==> WrittenAt(es, writes, erases, v, n);
    }
  }

  lemma NothingWritten<E, V>(es: seq<E>, writes: E -> Option<V>, erases: (V, E) -> bool, v: V)
    requires es == []
    ensures forall k: nat :: !WrittenAt(es, writes, erases, v, k)
  {
  }

  lemma WrittenBelow<E, V>(es: seq<E>, writes: E -> Option<V>, erases: (V, E) -> bool, v: V)
    ensures forall k: nat :: WrittenAt(es, writes, erases, v, k) ==> k < |es|
  {
  }
}
