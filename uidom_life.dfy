/** What SetAlive(true) and AddChild do to the records: the element comes alive, registers
    the tracked properties of the global providers and asks for a rule pass; AddChild links
    the child into its parent's list first. Each step comes with the lemma saying that it
    keeps the invariant of UiDomSteps. */
module UiDomLife {
  import opened UiDomValues
  import opened UiDomState
  import opened UiDomSteps
  import opened UiDomDispatch
  import opened UiDomTree
  import Polling
  import Win32TabControl

  /** What each global provider's GetTrackedProperties returns (None for null). */
  type Tracker = ProviderId -> Option<seq<string>>

  // ----- Tracked properties -----

  /** The lists a provider's answer contributes: none for null, else the one list. */
  function Answer(o: Option<seq<string>>): (r: seq<seq<string>>)
    ensures |r| <= 1
  {
    if o.Some? then [o.value] else []
  }

  /** The non-null GetTrackedProperties results of the providers ps, in provider order. */
  function TrackedLists(ps: seq<ProviderId>, tp: Tracker): seq<seq<string>>
  {
    if ps == [] then [] else TrackedLists(ps[..|ps| - 1], tp) + Answer(tp(ps[|ps| - 1]))
  }

  lemma TrackedListsSnoc(ps: seq<ProviderId>, i: nat, tp: Tracker)
    requires i < |ps|
    ensures TrackedLists(ps[..i + 1], tp) == TrackedLists(ps[..i], tp) + Answer(tp(ps[i]))
  {
    assert ps[..i + 1][..i] == ps[..i];
  }

  /** A list is registered exactly when some global provider returns it. */
  lemma {:induction false} TrackedListsMeaning(ps: seq<ProviderId>, tp: Tracker)
    ensures forall l :: l in TrackedLists(ps, tp) <==> exists i :: 0 <= i < |ps| && tp(ps[i]) == Some(l)
    decreases |ps|
  {
    if ps != [] {
      var q := ps[..|ps| - 1];
      TrackedListsMeaning(q, tp);
      forall l ensures l in TrackedLists(ps, tp) <==> exists i :: 0 <= i < |ps| && tp(ps[i]) == Some(l) {
        if l in TrackedLists(ps, tp) {
          if l in TrackedLists(q, tp) {
            var i :| 0 <= i < |q| && tp(q[i]) == Some(l);
            assert ps[i] == q[i];
          } else {
            assert tp(ps[|ps| - 1]) == Some(l);
          }
        }
        if exists i :: 0 <= i < |ps| && tp(ps[i]) == Some(l) {
          var i :| 0 <= i < |ps| && tp(ps[i]) == Some(l);
          if i < |q| {
            assert q[i] == ps[i];
          } else {
            assert Answer(tp(ps[|ps| - 1])) == [l];
          }
        }
      }
    }
  }

  /** RegisterTrackedProperties of each list of ls in turn: the lists join the end and the
      update flag is set once any list came. */
  function Registered(t: TrackedState, ls: seq<seq<string>>): TrackedState {
    TrackedState(t.lists + ls, t.updating || ls != [])
  }

  /** The UpdateTrackedProperties callback those registrations queue: one, and only when
      none was pending. */
  function RegisterTasks(t: TrackedState, x: ElemId, ls: seq<seq<string>>): seq<IdleTask> {
    if !t.updating && ls != [] then [UpdateTrackedPropertiesOf(x)] else []
  }

  /** Registering ls and then k is registering ls + k, and queues the same callbacks. */
  lemma RegisterSnoc(t: TrackedState, x: ElemId, ls: seq<seq<string>>, k: seq<seq<string>>)
    ensures Registered(Registered(t, ls), k) == Registered(t, ls + k)
    ensures RegisterTasks(t, x, ls) + RegisterTasks(Registered(t, ls), x, k) == RegisterTasks(t, x, ls + k)
  {
    assert t.lists + ls + k == t.lists + (ls + k);
  }

  lemma RegisterNone(t: TrackedState, x: ElemId)
    ensures Registered(t, []) == t && RegisterTasks(t, x, []) == []
  {
    assert t.lists + [] == t.lists;
  }

  // ----- SetAlive(true) -----

  /** IsAlive = true. */
  function Revived(s: ElementState): ElementState {
    s.(tree := s.tree.(isAlive := true))
  }

  /** The record after SetAlive(true) on a dead element, given the registered lists ls:
      alive, the lists registered, a rule pass pending. */
  function Awakened(s: ElementState, ls: seq<seq<string>>): ElementState {
    s.(tree := s.tree.(isAlive := true), rules := s.rules.(updatingRules := true), tracked := Registered(s.tracked, ls))
  }

  /** The callbacks SetAlive(true) queues: the tracked-property update, then the rule pass,
      each only when its flag was clear. */
  function AwakenTasks(s: ElementState, x: ElemId, ls: seq<seq<string>>): seq<IdleTask> {
    RegisterTasks(s.tracked, x, ls) + (if s.rules.updatingRules then [] else [EvaluateRulesOf(x)])
  }

  /** SetAlive(true) keeps the invariant: both flags it may set have their callback queued. */
  lemma AwakenKeeps(a: Arena, b: Arena, x: ElemId, ls: seq<seq<string>>, g: seq<ProviderId>, h: Handles)
    requires Inv(a, g, h) && x in a.elems
    requires b.elems == a.elems[x := Awakened(a.elems[x], ls)] && b.idle == a.idle + AwakenTasks(a.elems[x], x, ls)
    requires b.notifiers == a.notifiers && b.watchCalls == a.watchCalls &&
             b.nextElem == a.nextElem && b.nextNotifier == a.nextNotifier
    ensures Inv(b, g, h)
  {
    AwakenPending(a.elems, a.idle, x, ls);
    AwakenClosed(a.idle, a.elems.Keys, a.elems[x], x, ls);
    LocalStep(a, b, x, Awakened(a.elems[x], ls), g, h);
  }

  lemma AwakenPending(e: map<ElemId, ElementState>, idle: seq<IdleTask>, x: ElemId, ls: seq<seq<string>>)
    requires Pending(e) <= Tasks(idle) && x in e
    ensures Pending(e) - {EvaluateRulesOf(x), UpdateTrackedPropertiesOf(x)} + PendingOf(x, Awakened(e[x], ls)) <=
            Tasks(idle + AwakenTasks(e[x], x, ls))
  {
    var s := e[x];
    var q := AwakenTasks(s, x, ls);
    TasksAppend(idle, q);
    TasksOf(q);
    if s.rules.updatingRules {
      assert EvaluateRulesOf(x) in Pending(e);
    } else {
      assert q[|q| - 1] == EvaluateRulesOf(x);
    }
    if s.tracked.updating {
      assert UpdateTrackedPropertiesOf(x) in Pending(e);
    } else if ls != [] {
      assert q[0] == UpdateTrackedPropertiesOf(x);
    }
  }

  lemma AwakenClosed(idle: seq<IdleTask>, keys: set<ElemId>, s: ElementState, x: ElemId, ls: seq<seq<string>>)
    requires TasksClosed(idle, keys) && x in keys
    ensures TasksClosed(idle + AwakenTasks(s, x, ls), keys)
  {
    var q := AwakenTasks(s, x, ls);
    forall i | 0 <= i < |idle + q| ensures (idle + q)[i].element in keys {
      if i >= |idle| {
        assert (idle + q)[i] == q[i - |idle|];
      }
    }
  }

  // ----- AddChild -----

  /** child.Parent = this and child.cached_index_in_parent = index. */
  function Adopted(s: ElementState, p: ElemId, index: nat): ElementState {
    s.(tree := s.tree.(parent := Some(p), cachedIndexInParent := index))
  }

  /** Children.Insert(index, child), and the count raised for a recurse-method child. */
  function Inserted(s: ElementState, index: int, c: ElemId, rm: bool): ElementState
    requires 0 <= index <= |s.tree.children|
  {
    s.(tree := s.tree.(children := s.tree.children[..index] + [c] + s.tree.children[index..],
                       recurseMethodChildCount := s.tree.recurseMethodChildCount + (if rm then 1 else 0)))
  }

  lemma AdoptedKeeps(a: Arena, c: ElemId, p: ElemId, index: nat, g: seq<ProviderId>, h: Handles)
    requires Inv(a, g, h) && c in a.elems && p in a.elems
    ensures Inv(a.(elems := a.elems[c := Adopted(a.elems[c], p, index)]), g, h)
  {
    var v := Adopted(a.elems[c], p, index);
    PendKeep(a.elems, a.idle, c, v);
    LocalStep(a, a.(elems := a.elems[c := v]), c, v, g, h);
  }

  lemma InsertedKeeps(a: Arena, p: ElemId, index: int, c: ElemId, rm: bool, g: seq<ProviderId>, h: Handles)
    requires Inv(a, g, h) && p in a.elems && c in a.elems && 0 <= index <= |a.elems[p].tree.children|
    ensures Inv(a.(elems := a.elems[p := Inserted(a.elems[p], index, c, rm)]), g, h)
  {
    var s := a.elems[p];
    var v := Inserted(s, index, c, rm);
    TreeOf(Trees(a.elems), a.nextElem, p);
    assert Trees(a.elems)[p] == s.tree;
    ChildrenInsert(s.tree.children, a.elems.Keys, index, c);
    PendKeep(a.elems, a.idle, p, v);
    LocalStep(a, a.(elems := a.elems[p := v]), p, v, g, h);
  }

  lemma ChildrenInsert(cs: seq<ElemId>, keys: set<ElemId>, index: int, c: ElemId)
    requires ChildrenIn(cs, keys) && c in keys && 0 <= index <= |cs|
    ensures ChildrenIn(cs[..index] + [c] + cs[index..], keys)
  {
    var d := cs[..index] + [c] + cs[index..];
    forall i | 0 <= i < |d| ensures d[i] in keys {
      if i < index {
        assert d[i] == cs[i];
      } else if i > index {
        assert d[i] == cs[i - 1];
      }
    }
  }

  /** AddChild's result on the tree after a successful call, from e0 to e1. */
  ghost predicate Joined(e0: map<ElemId, ElementState>, e1: map<ElemId, ElementState>, p: ElemId, index: int,
                         c: ElemId, rm: bool) {
    p in e0 && p in e1 && c in e1 && 0 <= index <= |e0[p].tree.children| &&
    e1[p].tree.children == e0[p].tree.children[..index] + [c] + e0[p].tree.children[index..] &&
    e1[p].tree.recurseMethodChildCount == e0[p].tree.recurseMethodChildCount + (if rm then 1 else 0) &&
    e1[c].tree.parent == Some(p) && e1[c].tree.cachedIndexInParent == index && e1[c].tree.isAlive
  }

  /** The table after AddChild's links and before its announcement: child.Parent and the
      cached index, the insertion into the parent's list (and the count, for a
      recurse-method child), then SetAlive(true) on a child that was not alive. */
  function Linked(e: map<ElemId, ElementState>, p: ElemId, index: int, c: ElemId, rm: bool,
                  ls: seq<seq<string>>): map<ElemId, ElementState>
    requires p in e && c in e && 0 <= index <= |e[p].tree.children|
  {
    var e1 := e[c := Adopted(e[c], p, index)];
    var e2 := e1[p := Inserted(e1[p], index, c, rm)];
    if e[c].tree.isAlive then e2 else e2[c := Awakened(e2[c], ls)]
  }

  /** The callbacks AddChild queues before its announcement: those of the child's
      SetAlive(true), when it was not alive. */
  function LinkTasks(s: ElementState, c: ElemId, ls: seq<seq<string>>): seq<IdleTask> {
    if s.tree.isAlive then [] else AwakenTasks(s, c, ls)
  }

  /** Link's two steps build the table Linked describes, and Joined holds of it. */
  lemma LinkedIs(e0: map<ElemId, ElementState>, e2: map<ElemId, ElementState>, e3: map<ElemId, ElementState>,
                 p: ElemId, index: int, c: ElemId, rm: bool, ls: seq<seq<string>>)
    requires p in e0 && c in e0 && 0 <= index <= |e0[p].tree.children|
    requires var e1 := e0[c := Adopted(e0[c], p, index)]; e2 == e1[p := Inserted(e1[p], index, c, rm)]
    requires c in e2 && (if e2[c].tree.isAlive then e3 == e2 else e3 == e2[c := Awakened(e2[c], ls)])
    ensures e3 == Linked(e0, p, index, c, rm, ls) && Joined(e0, e3, p, index, c, rm)
    ensures e0[c].tree.isAlive ==> e3[c].tracked == e0[c].tracked
    ensures !e0[c].tree.isAlive ==> e3[c].tracked == Registered(e0[c].tracked, ls) && e3[c].rules.updatingRules
    ensures LinkTasks(e2[c], c, ls) == LinkTasks(e0[c], c, ls)
  {
    assert e2[c].tree.isAlive == e0[c].tree.isAlive;
  }

  /** The announcement wakes subscribers and leaves every tree, so Joined survives it. */
  lemma JoinedWake(e0: map<ElemId, ElementState>, e1: map<ElemId, ElementState>, w: set<ElemId>,
                   p: ElemId, index: int, c: ElemId, rm: bool)
    requires Joined(e0, e1, p, index, c, rm)
    ensures Joined(e0, Wake(e1, w), p, index, c, rm)
    ensures Wake(e1, w)[c].tracked == e1[c].tracked && (e1[c].rules.updatingRules ==> Wake(e1, w)[c].rules.updatingRules)
  {
    WakeTree(e1, w, p);
    WakeTree(e1, w, c);
  }

  /** AddChild keeps the partition: the count stays within the list, a recurse-method child
      joins the prefix and leaves the manual suffix as it was, and a manual child leaves the
      prefix as it was. */
  lemma InsertionKeepsPartition(t: Tree, index: int, c: ElemId, rm: bool)
    requires 0 <= t.recurseMethodChildCount <= |t.children| && InsertionAllowed(t, index, rm)
    ensures var cs, k := t.children[..index] + [c] + t.children[index..], t.recurseMethodChildCount + (if rm then 1 else 0);
      0 <= k <= |cs| && cs[index] == c &&
      (rm ==> cs[k..] == t.children[t.recurseMethodChildCount..]) &&
      (!rm ==> cs[..k] == t.children[..t.recurseMethodChildCount])
  {
    var cs, k0 := t.children[..index] + [c] + t.children[index..], t.recurseMethodChildCount;
    if rm {
      assert cs[k0 + 1..] == t.children[k0..] by {
        forall i | k0 <= i < |t.children| ensures cs[i + 1] == t.children[i] {
          assert i + 1 > index;
        }
      }
    } else {
      assert cs[..k0] == t.children[..k0] by {
        forall i | 0 <= i < k0 ensures cs[i] == t.children[i] {
          assert i < index;
        }
      }
    }
  }

  /** RemoveChild keeps the partition the same way: the count stays within the list and
      the part the removal does not belong to is unchanged. */
  lemma RemovalKeepsPartition(t: Tree, index: int, rm: bool)
    requires 0 <= t.recurseMethodChildCount <= |t.children| && RemovalAllowed(t, index, rm)
    ensures var cs, k := t.children[..index] + t.children[index + 1..], t.recurseMethodChildCount - (if rm then 1 else 0);
      0 <= k <= |cs| &&
      (rm ==> cs[k..] == t.children[t.recurseMethodChildCount..]) &&
      (!rm ==> cs[..k] == t.children[..t.recurseMethodChildCount])
  {
    var cs, k0 := t.children[..index] + t.children[index + 1..], t.recurseMethodChildCount;
    if rm {
      assert cs[k0 - 1..] == t.children[k0..] by {
        forall i | k0 <= i < |t.children| ensures cs[i - 1] == t.children[i] {
          assert i - 1 >= index;
        }
      }
    } else {
      assert cs[..k0] == t.children[..k0] by {
        forall i | 0 <= i < k0 ensures cs[i] == t.children[i] {
          assert i < index;
        }
      }
    }
  }

  // ----- IndexInParent and RecalculateChildIndices -----

  /** cached_index_in_parent = i. */
  function Reindexed(s: ElementState, i: nat): ElementState {
    s.(tree := s.tree.(cachedIndexInParent := i))
  }

  /** The table after RecalculateChildIndices has visited the first n children cs. */
  function Indexed(e: map<ElemId, ElementState>, cs: seq<ElemId>, n: nat): (r: map<ElemId, ElementState>)
    requires n <= |cs| && ChildrenIn(cs, e.Keys)
    ensures r.Keys == e.Keys
    decreases n
  {
    if n == 0 then e
    else
      var f := Indexed(e, cs, n - 1);
      f[cs[n - 1] := Reindexed(f[cs[n - 1]], n - 1)]
  }

  /** After the first n children are visited, each of them has a cached index at which it
      stands (its last position among them), every other element keeps its cached index, and
      nothing else of any record changes. */
  lemma {:induction false} IndexedMeaning(e: map<ElemId, ElementState>, cs: seq<ElemId>, n: nat, y: ElemId)
    requires n <= |cs| && ChildrenIn(cs, e.Keys) && y in e
    ensures var t := Indexed(e, cs, n)[y]; t == Reindexed(e[y], t.tree.cachedIndexInParent)
    ensures var k := Indexed(e, cs, n)[y].tree.cachedIndexInParent;
      (y in cs[..n] ==> k < n && cs[k] == y && forall j :: k < j < n ==> cs[j] != y) &&
      (y !in cs[..n] ==> k == e[y].tree.cachedIndexInParent)
    decreases n
  {
    if n > 0 {
      IndexedMeaning(e, cs, n - 1, y);
      assert cs[..n] == cs[..n - 1] + [cs[n - 1]];
    }
  }

  lemma ReindexedKeeps(a: Arena, y: ElemId, i: nat, g: seq<ProviderId>, h: Handles)
    requires Inv(a, g, h) && y in a.elems
    ensures Inv(a.(elems := a.elems[y := Reindexed(a.elems[y], i)]), g, h)
  {
    var v := Reindexed(a.elems[y], i);
    PendKeep(a.elems, a.idle, y, v);
    LocalStep(a, a.(elems := a.elems[y := v]), y, v, g, h);
  }

  lemma ChildrenOf(a: Arena, p: ElemId, g: seq<ProviderId>, h: Handles)
    requires Inv(a, g, h) && p in a.elems
    ensures ChildrenIn(a.elems[p].tree.children, a.elems.Keys)
    ensures a.elems[p].tree.parent.Some? ==> a.elems[p].tree.parent.value in a.elems
  {
    TreeOf(Trees(a.elems), a.nextElem, p);
    assert Trees(a.elems)[p] == a.elems[p].tree;
  }

  /** RecalculateChildIndices keeps the invariant. */
  lemma IndexedKeeps(a: Arena, b: Arena, cs: seq<ElemId>, n: nat, g: seq<ProviderId>, h: Handles)
    requires Inv(a, g, h) && n <= |cs| && ChildrenIn(cs, a.elems.Keys)
    requires b == a.(elems := Indexed(a.elems, cs, n))
    ensures Inv(b, g, h)
  {
    forall y | y in a.elems
      ensures b.elems[y] == Reindexed(a.elems[y], b.elems[y].tree.cachedIndexInParent)
    {
      IndexedMeaning(a.elems, cs, n, y);
    }
    IndexOnlyKeeps(a, b, g, h);
  }

  /** A step that changes cached indices only keeps the invariant, which does not read them. */
  lemma IndexOnlyKeeps(a: Arena, b: Arena, g: seq<ProviderId>, h: Handles)
    requires Inv(a, g, h) && b == a.(elems := b.elems) && b.elems.Keys == a.elems.Keys
    requires forall y :: y in a.elems ==> b.elems[y] == Reindexed(a.elems[y], b.elems[y].tree.cachedIndexInParent)
    ensures Inv(b, g, h)
  {
    IndexOnlyProjections(a.elems, b.elems, a.nextElem);
    assert Table(b);
    assert Rest(b, g, h);
  }

  /** Changing cached indices only leaves every projection but the trees alone. */
  lemma IndexOnlyProjections(e: map<ElemId, ElementState>, e': map<ElemId, ElementState>, ne: ElemId)
    requires e'.Keys == e.Keys
    requires forall y :: y in e ==> e'[y] == Reindexed(e[y], e'[y].tree.cachedIndexInParent)
    ensures TreeClosed(Trees(e), ne) ==> TreeClosed(Trees(e'), ne)
    ensures Watches(e') == Watches(e) && Deps(e') == Deps(e) && Polls(e') == Polls(e) &&
      Providers(e') == Providers(e) && Disposing(e') == Disposing(e) && Pending(e') == Pending(e)
  {
    WakeWatches(e, e');
    WakeDeps(e, e');
    WakePolls(e, e');
    WakeProviders(e, e');
    assert Disposing(e') == Disposing(e);
    assert Pending(e') == Pending(e);
    if TreeClosed(Trees(e), ne) {
      IndexOnlyTrees(Trees(e), Trees(e'), ne);
    }
  }

  lemma IndexOnlyTrees(t: map<ElemId, Tree>, t': map<ElemId, Tree>, ne: ElemId)
    requires TreeClosed(t, ne) && t'.Keys == t.Keys
    requires forall y :: y in t ==> t'[y].children == t[y].children && t'[y].parent == t[y].parent
    ensures TreeClosed(t', ne)
  {
  }

  // ----- SyncRecurseMethodChildren -----

  /** The debug id key_to_element gives the element it makes for a key: the key's id, or
      the empty string for a key without one. */
  function IdOf(o: Option<string>): string {
    if o.Some? then o.value else ""
  }

  /** child.Parent = this. */
  function Parented(s: ElementState, p: ElemId): ElementState {
    s.(tree := s.tree.(parent := Some(p)))
  }

  /** The recurse-method children replaced by placed, the other children shifted to follow
      them, and RecurseMethodChildCount = keys.Count. */
  function Arranged(s: ElementState, placed: seq<ElemId>): ElementState
    requires 0 <= s.tree.recurseMethodChildCount <= |s.tree.children|
  {
    s.(tree := s.tree.(children := placed + s.tree.children[s.tree.recurseMethodChildCount..],
                       recurseMethodChildCount := |placed|))
  }

  lemma ParentedKeeps(a: Arena, c: ElemId, p: ElemId, g: seq<ProviderId>, h: Handles)
    requires Inv(a, g, h) && c in a.elems && p in a.elems
    ensures Inv(a.(elems := a.elems[c := Parented(a.elems[c], p)]), g, h)
  {
    var v := Parented(a.elems[c], p);
    PendKeep(a.elems, a.idle, c, v);
    LocalStep(a, a.(elems := a.elems[c := v]), c, v, g, h);
  }

  lemma ArrangedKeeps(a: Arena, x: ElemId, placed: seq<ElemId>, g: seq<ProviderId>, h: Handles)
    requires Inv(a, g, h) && x in a.elems && ChildrenIn(placed, a.elems.Keys)
    requires 0 <= a.elems[x].tree.recurseMethodChildCount <= |a.elems[x].tree.children|
    ensures Inv(a.(elems := a.elems[x := Arranged(a.elems[x], placed)]), g, h)
  {
    var s := a.elems[x];
    var v := Arranged(s, placed);
    ChildrenOf(a, x, g, h);
    var rest := s.tree.children[s.tree.recurseMethodChildCount..];
    assert ChildrenIn(placed + rest, a.elems.Keys) by {
      forall i | 0 <= i < |placed + rest| ensures (placed + rest)[i] in a.elems.Keys {
        if i >= |placed| {
          assert (placed + rest)[i] == s.tree.children[s.tree.recurseMethodChildCount + i - |placed|];
        }
      }
    }
    PendKeep(a.elems, a.idle, x, v);
    LocalStep(a, a.(elems := a.elems[x := v]), x, v, g, h);
  }

  /** new_elements after the third loop: slot j holds the old child the matching gave it,
      or a new element, distinct from the other new ones, made for keys[j]. */
  ghost predicate Made(e0: map<ElemId, ElementState>, e1: map<ElemId, ElementState>, ids: seq<Option<string>>,
                       kinds: seq<Kind>, slots: seq<Option<nat>>, olds: seq<ElemId>, placed: seq<ElemId>)
  {
    |placed| == |ids| == |kinds| == |slots| && MadeUpTo(e0, e1, ids, kinds, slots, olds, placed)
  }

  /** The first |placed| slots of new_elements as Made says. */
  ghost predicate MadeUpTo(e0: map<ElemId, ElementState>, e1: map<ElemId, ElementState>, ids: seq<Option<string>>,
                           kinds: seq<Kind>, slots: seq<Option<nat>>, olds: seq<ElemId>, placed: seq<ElemId>)
  {
    |placed| <= |ids| && |placed| <= |kinds| && |placed| <= |slots| &&
    (forall j :: 0 <= j < |placed| && slots[j].Some? ==>
      slots[j].value < |olds| && placed[j] == olds[slots[j].value]) &&
    (forall j :: 0 <= j < |placed| && slots[j].None? ==>
      placed[j] !in e0 && placed[j] in e1 && e1[placed[j]] == NewElement(IdOf(ids[j]), kinds[j])) &&
    (forall j, k :: 0 <= j < k < |placed| && slots[j].None? && slots[k].None? ==> placed[j] != placed[k])
  }

  /** e1 holds every record of e0 unchanged. */
  ghost predicate Grows(e0: map<ElemId, ElementState>, e1: map<ElemId, ElementState>) {
    forall y :: y in e0 ==> y in e1 && e1[y] == e0[y]
  }

  /** One more slot of the third loop: an old child, or a new element outside e1. */
  lemma MadeSnoc(e0: map<ElemId, ElementState>, e1: map<ElemId, ElementState>, e2: map<ElemId, ElementState>,
                 ids: seq<Option<string>>, kinds: seq<Kind>, slots: seq<Option<nat>>, olds: seq<ElemId>,
                 placed: seq<ElemId>, c: ElemId)
    requires MadeUpTo(e0, e1, ids, kinds, slots, olds, placed) && Grows(e0, e1)
    requires |placed| < |ids| && |placed| < |kinds| && |placed| < |slots|
    requires forall j :: 0 <= j < |slots| && slots[j].Some? ==> slots[j].value < |olds|
    requires var i := |placed|;
      (slots[i].Some? ==> c == olds[slots[i].value] && e2 == e1) &&
      (slots[i].None? ==> c !in e1 && e2 == e1[c := NewElement(IdOf(ids[i]), kinds[i])])
    requires ChildrenIn(placed, e1.Keys) && ChildrenIn(olds, e0.Keys)
    ensures MadeUpTo(e0, e2, ids, kinds, slots, olds, placed + [c]) && Grows(e0, e2) && Grows(e1, e2)
    ensures ChildrenIn(placed + [c], e2.Keys)
  {
    var p := placed + [c];
    assert forall j :: 0 <= j < |placed| ==> p[j] == placed[j];
    forall j | 0 <= j < |p| && slots[j].None?
      ensures p[j] !in e0 && p[j] in e2 && e2[p[j]] == NewElement(IdOf(ids[j]), kinds[j])
    {
      if j < |placed| {
        assert p[j] == placed[j] && placed[j] in e1;
        if slots[|placed|].None? {
          assert placed[j] != c;
        }
      }
    }
  }

  /** The arrangement of x's list leaves new_elements as it was. */
  lemma MadeFrame(e0: map<ElemId, ElementState>, e1: map<ElemId, ElementState>, e2: map<ElemId, ElementState>,
                  x: ElemId, ids: seq<Option<string>>, kinds: seq<Kind>, slots: seq<Option<nat>>, olds: seq<ElemId>,
                  placed: seq<ElemId>)
    requires Made(e0, e1, ids, kinds, slots, olds, placed) && Grows(e0, e1) && x in e0 && x in e1
    requires x in e2 && e2 == e1[x := e2[x]]
    ensures Made(e0, e2, ids, kinds, slots, olds, placed)
    ensures forall y :: y in e0 && y != x ==> y in e2 && e2[y] == e0[y]
  {
  }

  /** Part way through the fourth loop, started on e0, having visited done: each visited
      element is alive and, if it was not alive, has x as its parent; the records of the
      other elements and of the elements that were alive are as they were. */
  ghost predicate Adopting(e0: map<ElemId, ElementState>, e1: map<ElemId, ElementState>, x: ElemId, done: seq<ElemId>) {
    e1.Keys == e0.Keys && x in e0 && e0[x].tree.isAlive &&
    (forall j :: 0 <= j < |done| ==>
      done[j] in e0 && e1[done[j]].tree.isAlive &&
      (!e0[done[j]].tree.isAlive ==> e1[done[j]].tree.parent == Some(x))) &&
    (forall y :: y in e0 && (e0[y].tree.isAlive || y !in done) ==> e1[y] == e0[y])
  }

  lemma AdoptingSnoc(e0: map<ElemId, ElementState>, e1: map<ElemId, ElementState>, e2: map<ElemId, ElementState>,
                     x: ElemId, done: seq<ElemId>, c: ElemId, ls: seq<seq<string>>)
    requires Adopting(e0, e1, x, done) && c in e0
    requires e1[c].tree.isAlive ==> e2 == e1
    requires !e1[c].tree.isAlive ==>
      var f := e1[c := Parented(e1[c], x)]; e2 == f[c := Awakened(f[c], ls)]
    ensures Adopting(e0, e2, x, done + [c])
  {
    if !e1[c].tree.isAlive {
      assert c !in done;
      assert e0[c] == e1[c];
    }
  }

  /** Part way through the fifth loop, started on e0, having visited the first i old
      children: every one of them whose id is not among the new ids is dead, and no element
      has changed more than a teardown may change it. */
  ghost predicate Dropping(e0: map<ElemId, ElementState>, e1: map<ElemId, ElementState>, olds: seq<ElemId>,
                           oldIds: seq<string>, index: map<string, nat>, i: nat) {
    i <= |olds| == |oldIds| && ChildrenIn(olds, e0.Keys) && Settled(e0, e1, {}) &&
    forall k :: 0 <= k < i && oldIds[k] !in index ==> !e1[olds[k]].tree.isAlive && e1[olds[k]].tree.parent.None?
  }

  lemma DroppingStep(e0: map<ElemId, ElementState>, e1: map<ElemId, ElementState>, e2: map<ElemId, ElementState>,
                     olds: seq<ElemId>, oldIds: seq<string>, index: map<string, nat>, i: nat)
    requires Dropping(e0, e1, olds, oldIds, index, i) && i < |olds| && Settled(e1, e2, {})
    requires oldIds[i] !in index ==> !e2[olds[i]].tree.isAlive && e2[olds[i]].tree.parent.None?
    ensures Dropping(e0, e2, olds, oldIds, index, i + 1)
  {
    SettledTrans(e0, e1, e2, {});
    forall k | 0 <= k < i && oldIds[k] !in index ensures !e2[olds[k]].tree.isAlive && e2[olds[k]].tree.parent.None? {
      assert Kept(e1[olds[k]], e2[olds[k]], false);
    }
  }

  /** Whether the recurse-method count fits the list, as Children.CopyTo and the array
      allocation demand. */
  predicate CountFits(t: Tree) {
    0 <= t.recurseMethodChildCount <= |t.children|
  }

  /** old_elements: the first RecurseMethodChildCount children. */
  function RecurseChildren(t: Tree): (r: seq<ElemId>)
    ensures CountFits(t) ==> r == t.children[..t.recurseMethodChildCount]
  {
    if CountFits(t) then t.children[..t.recurseMethodChildCount] else []
  }

  /** The DebugIds of the elements cs (of the table e). */
  function ChildIds(e: map<ElemId, ElementState>, cs: seq<ElemId>): (r: seq<string>)
    ensures |r| == |cs| && forall k :: 0 <= k < |cs| && cs[k] in e ==> r[k] == e[cs[k]].debugId
  {
    seq(|cs|, k requires 0 <= k < |cs| => if cs[k] in e then e[cs[k]].debugId else "")
  }

  /** Which element new_elements holds in each slot: the old child the matching gave it, or
      an element that did not exist before, a different one for each such slot. */
  ghost predicate Placed(e0: map<ElemId, ElementState>, slots: seq<Option<nat>>, olds: seq<ElemId>, placed: seq<ElemId>) {
    |placed| == |slots| &&
    (forall j :: 0 <= j < |placed| && slots[j].Some? ==>
      slots[j].value < |olds| && placed[j] == olds[slots[j].value]) &&
    (forall j :: 0 <= j < |placed| && slots[j].None? ==> placed[j] !in e0) &&
    (forall j, k :: 0 <= j < k < |placed| && slots[j].None? && slots[k].None? ==> placed[j] != placed[k])
  }

  /** SyncRecurseMethodChildren on x past its early return, from e0, through the list
      rebuilt and the new children adopted (mid), to e1 after the unmatched old children
      were torn down: the recurse-method children are new_elements followed by the other
      children; each of them is alive in mid, with x as parent if it was not alive before;
      after mid no element changes more than a teardown may, so x, while alive, keeps the
      new list. */
  ghost predicate Resynced(e0: map<ElemId, ElementState>, mid: map<ElemId, ElementState>, e1: map<ElemId, ElementState>,
                           x: ElemId, slots: seq<Option<nat>>, placed: seq<ElemId>) {
    x in e0 && x in mid && x in e1 && e0.Keys <= mid.Keys &&
    var t := e0[x].tree;
    0 <= t.recurseMethodChildCount <= |t.children| &&
    Placed(e0, slots, t.children[..t.recurseMethodChildCount], placed) &&
    mid[x].tree.children == placed + t.children[t.recurseMethodChildCount..] &&
    mid[x].tree.recurseMethodChildCount == |placed| &&
    (forall j :: 0 <= j < |placed| ==>
      placed[j] in mid && mid[placed[j]].tree.isAlive &&
      (placed[j] !in e0 || !e0[placed[j]].tree.isAlive ==> mid[placed[j]].tree.parent == Some(x))) &&
    Settled(mid, e1, {}) &&
    (e1[x].tree.isAlive ==> e1[x].tree.children == mid[x].tree.children &&
                            e1[x].tree.recurseMethodChildCount == |placed|)
  }

  lemma ResyncedIntro(e0: map<ElemId, ElementState>, er: map<ElemId, ElementState>, mid: map<ElemId, ElementState>,
                      e1: map<ElemId, ElementState>, x: ElemId, ids: seq<Option<string>>, kinds: seq<Kind>,
                      slots: seq<Option<nat>>, placed: seq<ElemId>)
    requires x in e0 && e0[x].tree.isAlive && ChildrenIn(e0[x].tree.children, e0.Keys)
    requires 0 <= e0[x].tree.recurseMethodChildCount <= |e0[x].tree.children|
    requires var t := e0[x].tree; Made(e0, er, ids, kinds, slots, t.children[..t.recurseMethodChildCount], placed)
    requires x in er && er[x] == Arranged(e0[x], placed)
    requires forall y :: y in e0 && y != x ==> y in er && er[y] == e0[y]
    requires Adopting(er, mid, x, placed) && Settled(mid, e1, {})
    ensures Resynced(e0, mid, e1, x, slots, placed)
  {
    var t := e0[x].tree;
    var olds := t.children[..t.recurseMethodChildCount];
    assert Placed(e0, slots, olds, placed);
    forall j | 0 <= j < |placed|
      ensures placed[j] in mid && mid[placed[j]].tree.isAlive &&
        (placed[j] !in e0 || !e0[placed[j]].tree.isAlive ==> mid[placed[j]].tree.parent == Some(x))
    {
      var y := placed[j];
      if y in e0 && y != x {
        assert er[y] == e0[y];
      }
      if slots[j].Some? {
        assert y == t.children[slots[j].value];
      } else {
        assert er[y] == NewElement(IdOf(ids[j]), kinds[j]);
      }
    }
    assert Kept(mid[x], e1[x], false);
  }

  /** The announcement after the fifth loop keeps its outcome. */
  lemma DroppingLater(e0: map<ElemId, ElementState>, e1: map<ElemId, ElementState>, e2: map<ElemId, ElementState>,
                      olds: seq<ElemId>, oldIds: seq<string>, index: map<string, nat>)
    requires Dropping(e0, e1, olds, oldIds, index, |olds|) && Settled(e1, e2, {})
    ensures Settled(e0, e2, {})
    ensures forall k :: 0 <= k < |olds| && oldIds[k] !in index ==> !e2[olds[k]].tree.isAlive && e2[olds[k]].tree.parent.None?
  {
    SettledTrans(e0, e1, e2, {});
    forall k | 0 <= k < |olds| && oldIds[k] !in index ensures !e2[olds[k]].tree.isAlive && e2[olds[k]].tree.parent.None? {
      assert Kept(e1[olds[k]], e2[olds[k]], false);
    }
  }

  // ----- EvaluateRules -----

  /** _updatingRules = false. */
  function Unflagged(s: ElementState): ElementState {
    s.(rules := s.rules.(updatingRules := false))
  }

  /** The idle loop taking x's rule pass off the queue, and the pass clearing the flag that
      promised it, keeps the invariant. */
  lemma UnflaggedKeeps(a: Arena, g: seq<ProviderId>, h: Handles)
    requires Inv(a, g, h) && |a.idle| > 0 && a.idle[0].EvaluateRulesOf?
    ensures a.idle[0].element in a.elems
    ensures var x := a.idle[0].element;
      Inv(a.(elems := a.elems[x := Unflagged(a.elems[x])], idle := a.idle[1..]), g, h)
  {
    var x := a.idle[0].element;
    assert x in a.elems;
    var v := Unflagged(a.elems[x]);
    PendPop(a.elems, a.idle, x, v);
    LocalStep(a, a.(elems := a.elems[x := v], idle := a.idle[1..]), x, v, g, h);
  }

  // ----- Poll-loop steps and the tab control's refresh -----

  /** x's record with the tab control state t. */
  function Retabbed(s: ElementState, t: Win32TabControl.TabState): (r: ElementState)
    requires s.kind.TabControl?
    ensures r.kind.TabControl? && r.kind.tab == t && r.kind.remoteMemory == s.kind.remoteMemory
    ensures r.tree == s.tree && r.watch == s.watch && r.rules == s.rules && r.polls == s.polls
  {
    s.(kind := s.kind.(tab := t))
  }

  /** A poll loop of x taking a step to a state whose token numbering is valid keeps the
      invariant. */
  lemma PolledKeeps(a: Arena, x: ElemId, ps: Polling.PollState, g: seq<ProviderId>, h: Handles)
    requires Inv(a, g, h) && x in a.elems && Polling.Valid(ps)
    ensures Inv(a.(elems := a.elems[x := a.elems[x].(polls := ps)]), g, h)
  {
    var v := a.elems[x].(polls := ps);
    PendKeep(a.elems, a.idle, x, v);
    LocalStep(a, a.(elems := a.elems[x := v]), x, v, g, h);
  }

  /** The completed refresh of x's loop k keeps the invariant. */
  lemma RefreshDoneKeeps(a: Arena, x: ElemId, k: nat, g: seq<ProviderId>, h: Handles)
    requires Inv(a, g, h) && x in a.elems && Polling.AwaitsRefresh(a.elems[x].polls, k)
    ensures Inv(a.(elems := a.elems[x := a.elems[x].(polls := Polling.AfterRefresh(a.elems[x].polls, k))]), g, h)
  {
    assert Polling.Valid(Polls(a.elems)[x]);
    Polling.AfterRefreshPreservesValid(a.elems[x].polls, k);
    PolledKeeps(a, x, Polling.AfterRefresh(a.elems[x].polls, k), g, h);
  }

  /** The ended delay of x's loop k keeps the invariant. */
  lemma DelayDoneKeeps(a: Arena, x: ElemId, k: nat, g: seq<ProviderId>, h: Handles)
    requires Inv(a, g, h) && x in a.elems && Polling.AwaitsDelay(a.elems[x].polls, k)
    ensures Inv(a.(elems := a.elems[x := a.elems[x].(polls := Polling.AfterDelay(a.elems[x].polls, k))]), g, h)
  {
    assert Polling.Valid(Polls(a.elems)[x]);
    Polling.AfterDelayPreservesValid(a.elems[x].polls, k);
    PolledKeeps(a, x, Polling.AfterDelay(a.elems[x].polls, k), g, h);
  }

  /** A refresh changing the tab control's cached selection keeps the invariant. */
  lemma RetabbedKeeps(a: Arena, x: ElemId, t: Win32TabControl.TabState, g: seq<ProviderId>, h: Handles)
    requires Inv(a, g, h) && x in a.elems && a.elems[x].kind.TabControl?
    ensures Inv(a.(elems := a.elems[x := Retabbed(a.elems[x], t)]), g, h)
  {
    var v := Retabbed(a.elems[x], t);
    PendKeep(a.elems, a.idle, x, v);
    LocalStep(a, a.(elems := a.elems[x := v]), x, v, g, h);
  }

  // ----- AssignProperty -----

  /** x's record with the assigned values m. */
  function Reassigned(s: ElementState, m: map<string, Value>): (r: ElementState)
    ensures r.rules.assignedProperties == m && r.rules.active == s.rules.active
    ensures r.tree == s.tree && r.watch == s.watch && r.polls == s.polls && r.kind == s.kind
  {
    s.(rules := s.rules.(assignedProperties := m))
  }

  /** Changing x's assigned values keeps the invariant. */
  lemma ReassignedKeeps(a: Arena, x: ElemId, m: map<string, Value>, g: seq<ProviderId>, h: Handles)
    requires Inv(a, g, h) && x in a.elems
    ensures Inv(a.(elems := a.elems[x := Reassigned(a.elems[x], m)]), g, h)
  {
    var v := Reassigned(a.elems[x], m);
    PendKeep(a.elems, a.idle, x, v);
    LocalStep(a, a.(elems := a.elems[x := v]), x, v, g, h);
  }
}
