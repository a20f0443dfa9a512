/** `LootDatas::diff` (src/engine/blackdesert.rs): aligns the previous
    snapshot of the loot window with the current one and returns the part of
    the current snapshot that is new. */
module Diff {
  import opened Loot

  /** The alignment loop run from cursors `oi` (previous snapshot) and `ni`
      (current snapshot), with `whole` the `whole_match` flag and `fallback`
      the `index_fallback` rollback point (-1 while unset). The result is the
      position in `curr` where the new part starts.

      A match advances both cursors. The first mismatch after a match steps
      the current cursor back by one and, the first time only, records that
      position as the rollback point. Every mismatch advances the previous
      cursor. If the loop ends on a mismatch after a rollback point was
      recorded, the new part starts at the rollback point. */
  function AlignFrom(prev: seq<LootData>, curr: seq<LootData>, oi: nat, ni: nat, whole: bool, fallback: int): (k: nat)
    requires oi <= |prev| && ni <= |curr|
    requires whole ==> ni >= 1
    requires -1 <= fallback < |curr|
    ensures k <= |curr|
    decreases |prev| - oi
  {
    if oi < |prev| && ni < |curr| then
      if Match(prev[oi], curr[ni]) then AlignFrom(prev, curr, oi + 1, ni + 1, true, fallback)
      else if whole then AlignFrom(prev, curr, oi + 1, ni - 1, false, if fallback == -1 then ni - 1 else fallback)
      else AlignFrom(prev, curr, oi + 1, ni, false, fallback)
    else if !whole && fallback > -1 then fallback
    else ni
  }

  /** The specification of `diff`: a suffix of the current snapshot. */
  function Unseen(prev: seq<LootData>, curr: seq<LootData>): (r: seq<LootData>)
    ensures |r| <= |curr| && r == curr[|curr| - |r|..]
    ensures curr == [] ==> r == []
    ensures prev == [] ==> r == curr
  {
    if curr == [] then []
    else if prev == [] then curr
    else curr[AlignFrom(prev, curr, 0, 0, false, -1)..]
  }

  /** `LootDatas::diff`. */
  method Diff(prev: seq<LootData>, curr: seq<LootData>) returns (out: seq<LootData>)
    ensures out == Unseen(prev, curr)
  {
    var oldIndex: nat := 0;
    var newIndex: nat := 0;
    if |curr| == 0 {
      return [];
    }
    if |prev| == 0 {
      return curr[newIndex..];
    }
    var wholeMatch := false;
    var indexFallback := -1;
    while oldIndex < |prev| && newIndex < |curr|
      invariant oldIndex <= |prev| && newIndex <= |curr|
      invariant wholeMatch ==> newIndex >= 1
      invariant -1 <= indexFallback < |curr|
      invariant AlignFrom(prev, curr, oldIndex, newIndex, wholeMatch, indexFallback)
             == AlignFrom(prev, curr, 0, 0, false, -1)
      decreases |prev| - oldIndex
    {
      var newItem := curr[newIndex];
      var oldItem := prev[oldIndex];
      if Match(oldItem, newItem) {
        oldIndex := oldIndex + 1;
        newIndex := newIndex + 1;
        wholeMatch := true;
        continue;
      }
      if wholeMatch {
        wholeMatch := false;
        indexFallback := if indexFallback == -1 then newIndex - 1 else indexFallback;
        newIndex := newIndex - 1;
      }
      oldIndex := oldIndex + 1;
    }
    if !wholeMatch && indexFallback > -1 {
      newIndex := indexFallback;
    }
    out := curr[newIndex..];
  }

  // ---------------------------------------------------------------------
  // what the alignment achieves

  /** Skipping previous events that do not match the first current event. */
  lemma {:induction false} AlignSkip(prev: seq<LootData>, curr: seq<LootData>, oi: nat, j: nat)
    requires oi <= j <= |prev| && curr != []
    requires forall i :: oi <= i < j ==> !Match(prev[i], curr[0])
    ensures AlignFrom(prev, curr, oi, 0, false, -1) == AlignFrom(prev, curr, j, 0, false, -1)
    decreases j - oi
  {
    if oi < j {
      AlignSkip(prev, curr, oi + 1, j);
    }
  }

  /** Walking both snapshots in step while every pair matches. */
  lemma {:induction false} AlignLockstep(prev: seq<LootData>, curr: seq<LootData>, j: nat, t: nat)
    requires j <= |prev| && |prev| - j <= |curr|
    requires t <= |prev| - j
    requires forall u :: t <= u < |prev| - j ==> Match(prev[j + u], curr[u])
    ensures AlignFrom(prev, curr, j + t, t, t > 0, -1) == |prev| - j
    decreases |prev| - j - t
  {
    if t < |prev| - j {
      AlignLockstep(prev, curr, j, t + 1);
    }
  }

  /** The loot window scrolled: the first `j` previous events left it, the
      rest are still on screen (possibly with truncated amounts), and new
      events arrived below them. `diff` returns exactly the new events,
      provided none of the events that left match the first one on screen. */
  lemma DiffScroll(prev: seq<LootData>, curr: seq<LootData>, j: nat)
    requires j <= |prev| && |prev| - j <= |curr| && curr != []
    requires forall i :: 0 <= i < j ==> !Match(prev[i], curr[0])
    requires forall t :: 0 <= t < |prev| - j ==> Match(prev[j + t], curr[t])
    ensures Unseen(prev, curr) == curr[|prev| - j..]
  {
    if prev != [] {
      AlignSkip(prev, curr, 0, j);
      AlignLockstep(prev, curr, j, 0);
    }
  }

  /** Every event matches itself (same amount). */
  lemma MatchReflexive(d: LootData)
    ensures Match(d, d)
  {
  }

  /** An unchanged snapshot has nothing new. */
  lemma DiffSelf(s: seq<LootData>)
    ensures Unseen(s, s) == []
  {
    if s != [] {
      forall t | 0 <= t < |s| ensures Match(s[t], s[t]) {
        MatchReflexive(s[t]);
      }
      DiffScroll(s, s, 0);
    }
  }

  /** Events appended below an unchanged snapshot are exactly what is new. */
  lemma DiffAppend(s: seq<LootData>, extra: seq<LootData>)
    ensures Unseen(s, s + extra) == extra
  {
    if s != [] {
      var curr := s + extra;
      forall t | 0 <= t < |s| ensures Match(s[t], curr[t]) {
        MatchReflexive(s[t]);
      }
      DiffScroll(s, curr, 0);
      assert curr[|s|..] == extra;
    } else {
      assert s + extra == extra;
    }
  }

  /** The rollback point is used when the alignment breaks off and never
      resumes: after [A, B] the snapshot [A, C] counts A again, as if the
      whole window were new. */
  lemma DiffRollback(a: LootData, b: LootData, c: LootData)
    requires !Match(b, c)
    ensures Unseen([a, b], [a, c]) == [a, c]
  {
    var p, q := [a, b], [a, c];
    MatchReflexive(a);
    assert AlignFrom(p, q, 2, 0, false, 0) == 0;
    assert AlignFrom(p, q, 1, 1, true, -1) == 0;
    assert AlignFrom(p, q, 0, 0, false, -1) == 0;
  }

  /** The `test_loot` test of blackdesert.rs: after [Swamp Leaves 3, Silver 116,
      Swamp Leaves 3] the snapshot [Swamp Leaves 3, Silver 92,
      Swamp Leaves 1] yields new events starting with Silver 92. */
  lemma DiffTestLoot(a: LootData, b: LootData, c: LootData, d: LootData)
    requires a == LootData(0, "Swamp Leaves", 3, Silver(0), 0, 0)
    requires b == LootData(0, "Silver", 116, Silver(0), 0, 0)
    requires c == LootData(0, "Silver", 92, Silver(0), 0, 0)
    requires d == LootData(0, "Swamp Leaves", 1, Silver(0), 0, 0)
    ensures Unseen([a, b, a], [a, c, d]) == [c, d]
    ensures Unseen([a, b, a], [a, c, d])[0].name == "Silver"
    ensures Unseen([a, b, a], [a, c, d])[0].amount == 92
  {
    var p, q := [a, b, a], [a, c, d];
    assert NatToString(116) == "116";
    assert NatToString(92) == "92";
    assert !(NatToString(92) <= NatToString(116)) by {
      assert NatToString(92)[0] != NatToString(116)[0];
    }
    assert !Match(b, c);
    MatchReflexive(a);
    assert AlignFrom(p, q, 3, 1, true, 0) == 1;
    assert AlignFrom(p, q, 2, 0, false, 0) == 1;
    assert AlignFrom(p, q, 1, 1, true, -1) == 1;
    assert AlignFrom(p, q, 0, 0, false, -1) == 1;
    assert q[1..] == [c, d];
  }
}
