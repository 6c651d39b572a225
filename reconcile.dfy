/** The keyed matching of SyncRecurseMethodChildren: which old recurse-method child ends up
    in which new slot, which old children are dropped and when the early return applies.
    The element tree (module UiDom) runs the arrays and calls of the method against these
    definitions. */
module Reconcile {
  import opened UiDomValues

  /** Whether two keys have the same non-null id (the ArgumentException case). */
  predicate HasDuplicate(ids: seq<Option<string>>) {
    exists i, j :: 0 <= i < j < |ids| && ids[i].Some? && ids[i] == ids[j]
  }

  /** The id to index dictionary built from the non-null ids. With duplicates the later
      index would win; the source throws before using it. */
  function IdIndex(ids: seq<Option<string>>): (m: map<string, nat>)
    ensures forall s :: s in m ==> m[s] < |ids| && ids[m[s]] == Some(s)
    ensures forall i :: 0 <= i < |ids| && ids[i].Some? ==> ids[i].value in m
    ensures !HasDuplicate(ids) ==> forall i :: 0 <= i < |ids| && ids[i].Some? ==> m[ids[i].value] == i
    ensures Injective(m)
    decreases |ids|
  {
    if ids == [] then map[]
    else
      var m := IdIndex(ids[..|ids| - 1]);
      var last := ids[|ids| - 1];
      assert forall i :: 0 <= i < |ids| - 1 ==> ids[..|ids| - 1][i] == ids[i];
      if last.Some? then m[last.value := |ids| - 1] else m
  }

  /** Whether some old child leaves its slot or is dropped. */
  predicate Moved(oldIds: seq<string>, index: map<string, nat>) {
    exists i :: 0 <= i < |oldIds| && (oldIds[i] !in index || index[oldIds[i]] != i)
  }

  /** The early return: nobody moved and the count is the same. */
  predicate Unchanged(oldIds: seq<string>, index: map<string, nat>, n: nat) {
    !Moved(oldIds, index) && n == |oldIds|
  }

  /** The new slots after old children 0..i-1 were placed: slot j holds the last old index
      whose id maps to j. */
  function PlaceUpTo(oldIds: seq<string>, index: map<string, nat>, n: nat, i: nat): (slots: seq<Option<nat>>)
    requires i <= |oldIds|
    requires forall s :: s in index ==> index[s] < n
    ensures |slots| == n
    ensures forall j :: 0 <= j < n && slots[j].Some? ==>
      slots[j].value < i && oldIds[slots[j].value] in index && index[oldIds[slots[j].value]] == j &&
      forall k :: slots[j].value < k < i ==> oldIds[k] !in index || index[oldIds[k]] != j
    ensures forall j :: 0 <= j < n && slots[j].None? ==>
      forall k :: 0 <= k < i ==> oldIds[k] !in index || index[oldIds[k]] != j
  {
    if i == 0 then seq(n, _ => None)
    else
      var s := PlaceUpTo(oldIds, index, n, i - 1);
      if oldIds[i - 1] in index then s[index[oldIds[i - 1]] := Some(i - 1)] else s
  }

  function Placement(oldIds: seq<string>, index: map<string, nat>, n: nat): (slots: seq<Option<nat>>)
    requires forall s :: s in index ==> index[s] < n
    ensures |slots| == n
  {
    PlaceUpTo(oldIds, index, n, |oldIds|)
  }

  /** Whether old child i survives: its id is among the new ids and no later old child with
      the same id took its slot. */
  predicate Kept(oldIds: seq<string>, index: map<string, nat>, n: nat, i: nat)
    requires forall s :: s in index ==> index[s] < n
  {
    i < |oldIds| && oldIds[i] in index && Placement(oldIds, index, n)[index[oldIds[i]]] == Some(i)
  }

  /** With distinct old ids every old child whose id is still present keeps its identity and
      lands in the slot of its id. */
  lemma MatchedLandAtNewIndex(oldIds: seq<string>, index: map<string, nat>, n: nat, i: nat)
    requires forall s :: s in index ==> index[s] < n
    requires forall a, b :: 0 <= a < b < |oldIds| ==> oldIds[a] != oldIds[b]
    requires Injective(index)
    requires i < |oldIds| && oldIds[i] in index
    ensures Placement(oldIds, index, n)[index[oldIds[i]]] == Some(i)
  {
    var slots := Placement(oldIds, index, n);
    var j := index[oldIds[i]];
    assert slots[j].Some?;
    var k := slots[j].value;
    assert index[oldIds[k]] == j;
    assert oldIds[k] == oldIds[i];
  }

  /** No two ids share a slot. */
  predicate Injective(index: map<string, nat>) {
    forall s, t :: s in index && t in index && index[s] == index[t] ==> s == t
  }

  /** Exactly the slots no old child maps to are left for key_to_element to fill. */
  lemma UnfilledSlots(oldIds: seq<string>, index: map<string, nat>, n: nat, j: nat)
    requires forall s :: s in index ==> index[s] < n
    requires j < n
    ensures Placement(oldIds, index, n)[j].None? <==>
      forall k :: 0 <= k < |oldIds| ==> oldIds[k] !in index || index[oldIds[k]] != j
  {
    var slots := Placement(oldIds, index, n);
    if slots[j].Some? {
      var k := slots[j].value;
      assert oldIds[k] in index && index[oldIds[k]] == j;
    }
  }

  /** The early return is sound: when nobody moved and the count is unchanged, the
      placement is the identity, so rebuilding would change nothing. */
  lemma UnchangedIsIdentity(oldIds: seq<string>, index: map<string, nat>, n: nat)
    requires forall s :: s in index ==> index[s] < n
    requires Unchanged(oldIds, index, n)
    ensures forall j :: 0 <= j < n ==> Placement(oldIds, index, n)[j] == Some(j)
  {
    forall j | 0 <= j < n ensures Placement(oldIds, index, n)[j] == Some(j) {
      assert oldIds[j] in index && index[oldIds[j]] == j;
      var slots := Placement(oldIds, index, n);
      assert slots[j].Some?;
      var k := slots[j].value;
      assert index[oldIds[k]] == k;
    }
  }

  /** A reordering: when the new ids are a permutation of distinct old ids, every slot is
      filled from the old children and key_to_element is never called. */
  lemma PermutationNeedsNoNewElements(oldIds: seq<string>, ids: seq<Option<string>>)
    requires !HasDuplicate(ids)
    requires |ids| == |oldIds|
    requires forall j :: 0 <= j < |ids| ==> ids[j].Some? && ids[j].value in oldIds
    ensures forall j :: 0 <= j < |ids| ==> Placement(oldIds, IdIndex(ids), |ids|)[j].Some?
  {
    var index := IdIndex(ids);
    forall j | 0 <= j < |ids| ensures Placement(oldIds, index, |ids|)[j].Some? {
      var k :| 0 <= k < |oldIds| && oldIds[k] == ids[j].value;
      assert index[oldIds[k]] == j;
      UnfilledSlots(oldIds, index, |ids|, j);
    }
  }

  // ----- The two loops of SyncRecurseMethodChildren over values -----

  /** The first loop: new_id_to_index.Add for each non-null id, throwing on a repeat. */
  method IndexKeys(ids: seq<Option<string>>) returns (o: Outcome, index: map<string, nat>)
    ensures o.Fail? <==> HasDuplicate(ids)
    ensures o.Fail? ==> o.error == DuplicateKey
    ensures o.Pass? ==> index == IdIndex(ids)
  {
    index := map[];
    for i := 0 to |ids|
      invariant index == IdIndex(ids[..i])
      invariant !HasDuplicate(ids[..i])
    {
      if ids[i].Some? && ids[i].value in index {
        RepeatFound(ids, i);
        return Fail(DuplicateKey), index;
      }
      IndexSnoc(ids, i);
      index := if ids[i].Some? then index[ids[i].value := i] else index;
    }
    assert ids[..|ids|] == ids;
    return Pass, index;
  }

  /** An id already in the dictionary is a repeat. */
  lemma RepeatFound(ids: seq<Option<string>>, i: nat)
    requires i < |ids| && ids[i].Some? && ids[i].value in IdIndex(ids[..i])
    ensures HasDuplicate(ids)
  {
    var k := IdIndex(ids[..i])[ids[i].value];
    assert ids[k] == ids[..i][k];
    assert 0 <= k < i < |ids| && ids[k].Some? && ids[k] == ids[i];
  }

  /** One more key without a repeat: the dictionary gains it and there is still no repeat. */
  lemma IndexSnoc(ids: seq<Option<string>>, i: nat)
    requires i < |ids| && !HasDuplicate(ids[..i])
    requires ids[i].Some? ==> ids[i].value !in IdIndex(ids[..i])
    ensures IdIndex(ids[..i + 1]) == if ids[i].Some? then IdIndex(ids[..i])[ids[i].value := i] else IdIndex(ids[..i])
    ensures !HasDuplicate(ids[..i + 1])
  {
    assert ids[..i + 1][..i] == ids[..i];
    NoDuplicateSnoc(ids[..i + 1]);
  }

  /** The last id is new to the ones before it and those have no repeat, so the whole
      sequence has none. */
  lemma NoDuplicateSnoc(ids: seq<Option<string>>)
    requires ids != [] && !HasDuplicate(ids[..|ids| - 1])
    requires ids[|ids| - 1].Some? ==> ids[|ids| - 1].value !in IdIndex(ids[..|ids| - 1])
    ensures !HasDuplicate(ids)
  {
    var init := ids[..|ids| - 1];
    assert forall k :: 0 <= k < |init| ==> init[k] == ids[k];
  }

  /** The second loop: each old child whose id is among the new ids goes to that slot, and
      changed records whether any old child left its slot or was dropped. */
  method MatchOld(oldIds: seq<string>, index: map<string, nat>, n: nat) returns (slots: seq<Option<nat>>, changed: bool)
    requires forall s :: s in index ==> index[s] < n
    ensures slots == Placement(oldIds, index, n)
    ensures changed <==> Moved(oldIds, index)
  {
    slots := seq(n, _ => None);
    changed := false;
    for i := 0 to |oldIds|
      invariant slots == PlaceUpTo(oldIds, index, n, i)
      invariant changed <==> exists k :: 0 <= k < i && (oldIds[k] !in index || index[oldIds[k]] != k)
    {
      if oldIds[i] in index {
        var j := index[oldIds[i]];
        if j != i {
          changed := true;
        }
        slots := slots[j := Some(i)];
      } else {
        changed := true;
      }
    }
  }
}
