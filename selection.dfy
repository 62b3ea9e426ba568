/**
 * The selection store of selective review: for each pending id, a map from
 * item index to its keep decision, read with keep as the default.
 */
module Selection {
  import opened Wrappers

  /** One submission's decisions: item index to keep (true) or remove (false). */
  type Decisions = map<int, bool>

  /** The whole store: pending id to that submission's decisions. */
  type SelectionStore = map<int, Decisions>

  /** sel.get(index, True): an index nobody decided on is kept. */
  predicate Keep(sel: Decisions, index: int)
    ensures sel == map[] ==> Keep(sel, index)
  {
    if index in sel then sel[index] else true
  }

  /** The elements of xs whose index is kept, in their original order. */
  function Kept<T>(xs: seq<T>, sel: Decisions): (r: seq<T>)
    ensures |r| <= |xs|
  {
    if xs == [] then []
    else Kept(xs[..|xs| - 1], sel) + (if Keep(sel, |xs| - 1) then [xs[|xs| - 1]] else [])
  }

  /** The kept indices below n, in ascending order. */
  function KeptIndices(n: nat, sel: Decisions): (r: seq<int>)
    ensures forall j :: 0 <= j < |r| ==> 0 <= r[j] < n
  {
    if n == 0 then [] else KeptIndices(n - 1, sel) + (if Keep(sel, n - 1) then [n - 1] else [])
  }

  /** KeptIndices lists exactly the kept indices below n, strictly ascending. */
  lemma {:induction false} KeptIndicesSpec(n: nat, sel: Decisions)
    ensures forall i :: i in KeptIndices(n, sel) <==> 0 <= i < n && Keep(sel, i)
    ensures forall j, k :: 0 <= j < k < |KeptIndices(n, sel)| ==> KeptIndices(n, sel)[j] < KeptIndices(n, sel)[k]
  {
    if n > 0 {
      KeptIndicesSpec(n - 1, sel);
    }
  }

  /** Kept(xs, sel) is xs read at the kept indices: nothing reordered, nothing invented. */
  lemma {:induction false} KeptIsSelection<T>(xs: seq<T>, sel: Decisions)
    ensures |Kept(xs, sel)| == |KeptIndices(|xs|, sel)|
    ensures forall j :: 0 <= j < |Kept(xs, sel)| ==> Kept(xs, sel)[j] == xs[KeptIndices(|xs|, sel)[j]]
  {
    if xs != [] {
      var init := xs[..|xs| - 1];
      KeptIsSelection(init, sel);
      assert |init| == |xs| - 1;
      forall j | 0 <= j < |Kept(init, sel)|
        ensures init[KeptIndices(|init|, sel)[j]] == xs[KeptIndices(|init|, sel)[j]]
      {
      }
    }
  }

  /** Nothing is kept exactly when every index has an explicit remove. */
  lemma {:induction false} KeptEmptyIffAllRemoved<T>(xs: seq<T>, sel: Decisions)
    ensures Kept(xs, sel) == [] <==> forall i :: 0 <= i < |xs| ==> i in sel && !sel[i]
  {
    if xs != [] {
      KeptEmptyIffAllRemoved(xs[..|xs| - 1], sel);
      if Kept(xs, sel) == [] {
        assert Kept(xs[..|xs| - 1], sel) == [];
      }
    }
  }

  /** With no remove decision among the indices of xs, everything is kept. */
  lemma {:induction false} KeptAllWhenNoneRemoved<T>(xs: seq<T>, sel: Decisions)
    requires forall i :: 0 <= i < |xs| ==> Keep(sel, i)
    ensures Kept(xs, sel) == xs
  {
    if xs != [] {
      KeptAllWhenNoneRemoved(xs[..|xs| - 1], sel);
      assert xs == xs[..|xs| - 1] + [xs[|xs| - 1]];
    }
  }

  /** len(sel) == total: the test that offers the Finalize button. It counts
      every recorded index, in range or not. */
  predicate IsComplete(sel: Decisions, total: int)
    ensures (total >= 0 && forall i :: i in sel ==> 0 <= i < total) ==>
              (IsComplete(sel, total) <==> forall i :: 0 <= i < total ==> i in sel)
  {
    if total >= 0 && forall i :: i in sel ==> 0 <= i < total then
      CompleteIffAllDecided(sel, total);
      |sel| == total
    else
      |sel| == total
  }

  /** The indices of an n-item submission. */
  function IndexRange(n: nat): (r: set<int>)
    ensures forall i :: i in r <==> 0 <= i < n
  {
    if n == 0 then {} else IndexRange(n - 1) + {n - 1}
  }

  lemma {:induction false} IndexRangeSize(n: nat)
    ensures |IndexRange(n)| == n
  {
    if n > 0 {
      var prev := IndexRange(n - 1);
      IndexRangeSize(n - 1);
      assert n - 1 !in prev;
      assert IndexRange(n) == prev + {n - 1};
    }
  }

  /** When every recorded index lies in [0, total), counting decisions is the same as
      every index in range having one. */
  lemma CompleteIffAllDecided(sel: Decisions, total: nat)
    requires forall i :: i in sel ==> 0 <= i < total
    ensures |sel| == total <==> forall i :: 0 <= i < total ==> i in sel
  {
    var range := IndexRange(total);
    IndexRangeSize(total);
    assert sel.Keys <= range;
    if |sel| == total {
      assert |range - sel.Keys| == |range| - |sel.Keys| == 0;
      assert range - sel.Keys == {};
      forall i | 0 <= i < total ensures i in sel {
        assert i in range;
      }
    }
    if forall i :: 0 <= i < total ==> i in sel {
      assert sel.Keys == range;
    }
  }

  /** Counting is weaker than coverage once an out-of-range index has been recorded:
      two decisions, for indices 0 and 5, complete a two-item submission whose
      index 1 was never decided. */
  lemma CountIsNotCoverage()
    ensures IsComplete(map[0 := true, 5 := false], 2) && 1 !in map[0 := true, 5 := false]
  {
    var one: Decisions := map[0 := true];
    assert |one| == 1;
    assert 5 !in one;
    assert |one[5 := false]| == 2;
  }

  /** selection_store.get(id, {}). */
  function DecisionsOf(store: SelectionStore, id: int): (r: Decisions)
    ensures r != map[] ==> id in store && r == store[id]
  {
    if id in store then store[id] else map[]
  }

  /** selection_store.setdefault(id, {})[index] = keep. */
  function Decide(store: SelectionStore, id: int, index: int, keep: bool): (r: SelectionStore)
    ensures r.Keys == store.Keys + {id}
    ensures forall other :: other in store && other != id ==> r[other] == store[other]
    ensures index in r[id] && r[id][index] == keep && Keep(r[id], index) == keep
    ensures forall j :: j != index ==> (j in r[id] <==> j in DecisionsOf(store, id))
    ensures forall j :: j != index && j in DecisionsOf(store, id) ==> r[id][j] == DecisionsOf(store, id)[j]
  {
    store[id := DecisionsOf(store, id)[index := keep]]
  }

  /** A second decision on the same index replaces the first. */
  lemma LastDecisionReplaces(store: SelectionStore, id: int, index: int, first: bool, second: bool)
    ensures Decide(Decide(store, id, index, first), id, index, second) == Decide(store, id, index, second)
  {
    assert DecisionsOf(Decide(store, id, index, first), id)[index := second] == DecisionsOf(store, id)[index := second];
  }

  /** One keep or remove click on a submission. */
  datatype Click = Click(index: int, keep: bool)

  /** The decisions after a series of clicks, in order. */
  function ApplyClicks(sel: Decisions, clicks: seq<Click>): Decisions {
    if clicks == [] then sel
    else ApplyClicks(sel, clicks[..|clicks| - 1])[clicks[|clicks| - 1].index := clicks[|clicks| - 1].keep]
  }

  /** The last click on an index, if there was one. */
  function LastClick(clicks: seq<Click>, index: int): (r: Option<bool>)
  {
    if clicks == [] then None
    else if clicks[|clicks| - 1].index == index then Some(clicks[|clicks| - 1].keep)
    else LastClick(clicks[..|clicks| - 1], index)
  }

  /** However many clicks an index receives, only the last one counts; an index never
      clicked keeps what it had. */
  lemma {:induction false} LastClickWins(sel: Decisions, clicks: seq<Click>, index: int)
    ensures LastClick(clicks, index).Some? ==>
              index in ApplyClicks(sel, clicks) && ApplyClicks(sel, clicks)[index] == LastClick(clicks, index).value
    ensures LastClick(clicks, index).None? ==>
              (index in ApplyClicks(sel, clicks) <==> index in sel) &&
              (index in sel ==> ApplyClicks(sel, clicks)[index] == sel[index])
  {
    if clicks != [] {
      LastClickWins(sel, clicks[..|clicks| - 1], index);
    }
  }
}
