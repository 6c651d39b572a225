/** What tearing elements down does to the rest of the tree. SetAlive(false) and RemoveChild
    call each other; each call keeps the frame Settled, which is what lets the recursion
    terminate (the set of live elements only shrinks) and lets an element's teardown rely on
    its own child list while its children are torn down. */
module UiDomTree {
  import opened UiDomValues
  import opened UiDomState
  import opened UiDomSteps
  import opened UiDomDispatch
  import Polling

  /** An element SetAlive(false) has finished with, apart from its child list: not alive,
      disposing, no pending rule pass, no dependency notifiers, no relationship watchers and
      nothing polling. */
  predicate TornDown(s: ElementState) {
    !s.tree.isAlive && s.rules.disposing && !s.rules.updatingRules && s.rules.dependencyNotifiers == map[] &&
    s.watch.relationshipWatchers == {} && s.polls.polling == map[] && s.polls.tokens == map[]
  }

  /** One element under a teardown: it does not come alive, it gains no parent, its child
      list and recurse-method count stay as they were unless it dies (or `free` exempts it),
      and once torn down it stays torn down. */
  predicate Kept(s: ElementState, t: ElementState, free: bool) {
    (t.tree.isAlive ==> s.tree.isAlive) && (s.tree.parent.None? ==> t.tree.parent.None?) &&
    (!free && (!s.tree.isAlive || t.tree.isAlive) ==>
      t.tree.children == s.tree.children && t.tree.recurseMethodChildCount == s.tree.recurseMethodChildCount) &&
    (TornDown(s) ==> TornDown(t))
  }

  /** Every element of e0 is Kept in e1; the elements of p may have their child lists
      edited while they live. */
  predicate Settled(e0: map<ElemId, ElementState>, e1: map<ElemId, ElementState>, p: set<ElemId>) {
    e1.Keys == e0.Keys && forall y :: y in e0 ==> Kept(e0[y], e1[y], y in p)
  }

  /** The tab control's SetAlive override: the remote-memory handle, if any, is released and
      forgotten, alive or not. */
  function Released(s: ElementState): (r: ElementState)
    ensures r == s.(kind := r.kind)
    ensures !(r.kind.TabControl? && r.kind.remoteMemory.Some?)
  {
    if s.kind.TabControl? && s.kind.remoteMemory.Some? then s.(kind := s.kind.(remoteMemory := None)) else s
  }

  function ReleaseEffects(s: ElementState, x: ElemId): seq<Effect> {
    if s.kind.TabControl? && s.kind.remoteMemory.Some? then [RemoteMemoryReleased(x)] else []
  }

  /** NotifyElementRemoved on each provider of ps, in order. */
  function Notices(ps: seq<ProviderId>, x: ElemId): (r: seq<Effect>)
    ensures |r| == |ps| && forall i :: 0 <= i < |ps| ==> r[i] == ElementRemovedNotified(ps[i], x)
  {
    seq(|ps|, i requires 0 <= i < |ps| => ElementRemovedNotified(ps[i], x))
  }

  /** The disposal of the relationship watchers of x, in the order taken. */
  function WatcherDisposals(x: ElemId, order: seq<Expr>): (r: seq<Effect>)
    ensures |r| == |order| && forall i :: 0 <= i < |order| ==> r[i] == RelationshipWatcherDisposed(x, order[i])
  {
    seq(|order|, i requires 0 <= i < |order| => RelationshipWatcherDisposed(x, order[i]))
  }

  /** The start of SetAlive(false) on the record: not alive; then disposing, with the
      relationship watchers gone. */
  function Dying(s: ElementState): ElementState {
    s.(tree := s.tree.(isAlive := false))
  }

  function Disposed(s: ElementState): ElementState {
    s.(rules := s.rules.(disposing := true), watch := s.watch.(relationshipWatchers := {}))
  }

  /** The end of SetAlive(false) on the record, before the children go: no dependency
      notifiers, polling torn down, no pending rule pass. */
  function Quiesced(s: ElementState): ElementState {
    s.(rules := s.rules.(dependencyNotifiers := map[], updatingRules := false), polls := Polling.Teardown(s.polls))
  }

  /** RemoveChild's bound checks, on the parent's tree links. */
  predicate RemovalAllowed(t: Tree, index: int, rm: bool) {
    0 <= index < |t.children| &&
    if rm then index <= t.recurseMethodChildCount - 1 else index >= t.recurseMethodChildCount
  }

  /** AddChild's bound checks. */
  predicate InsertionAllowed(t: Tree, index: int, rm: bool) {
    0 <= index <= |t.children| &&
    if rm then index <= t.recurseMethodChildCount else index >= t.recurseMethodChildCount
  }

  /** The recurse-method count once SetAlive(false) has emptied a child list of length n
      that had count k >= 0: the first loop leaves min(n, k) children, all of which the
      second loop removes as recurse-method children. */
  function CountAfterTeardown(k: int, n: nat): int {
    if k <= n then 0 else k - n
  }

  /** SetAlive(false) on x, from e0, up to the removal of its children: x is torn down and
      no other element has changed more than a teardown may change it. */
  predicate Prepared(e0: map<ElemId, ElementState>, e1: map<ElemId, ElementState>, x: ElemId) {
    x in e0 && x in e1 && Settled(e0, e1, {}) && TornDown(e1[x]) && |AliveSet(e1)| < |AliveSet(e0)| &&
    e1[x].tree.children == e0[x].tree.children &&
    e1[x].tree.recurseMethodChildCount == e0[x].tree.recurseMethodChildCount
  }

  /** What SetAlive(false) leaves of a child list that started as t0, when no removal fails. */
  predicate Emptied(t0: Tree, t1: Tree) {
    t1.children == [] && t1.recurseMethodChildCount == CountAfterTeardown(t0.recurseMethodChildCount, |t0.children|)
  }

  /** The two loops of SetAlive(false) together empty the list as Emptied says: the first
      leaves min(n, k) children and keeps the count, the second removes the rest. */
  lemma EmptiedByLoops(t0: Tree, t1: Tree, t2: Tree)
    requires t1.recurseMethodChildCount == t0.recurseMethodChildCount
    requires |t1.children| == (if t0.recurseMethodChildCount <= |t0.children| then t0.recurseMethodChildCount else |t0.children|)
    requires t2.children == [] && t2.recurseMethodChildCount == t1.recurseMethodChildCount - |t1.children|
    ensures Emptied(t0, t2)
  {
  }

  /** Every element listed in cs is dead and has no parent: what RemoveChild leaves of each
      child it takes out. */
  predicate Gone(e: map<ElemId, ElementState>, cs: seq<ElemId>) {
    forall i :: 0 <= i < |cs| ==> cs[i] in e && !e[cs[i]].tree.isAlive && e[cs[i]].tree.parent.None?
  }

  /** Later teardowns keep removed children removed: none comes alive or gains a parent. */
  lemma GoneKept(e0: map<ElemId, ElementState>, e1: map<ElemId, ElementState>, cs: seq<ElemId>, p: set<ElemId>)
    requires Gone(e0, cs) && Settled(e0, e1, p)
    ensures Gone(e1, cs)
  {
    forall i | 0 <= i < |cs|
      ensures cs[i] in e1 && !e1[cs[i]].tree.isAlive && e1[cs[i]].tree.parent.None?
    {
      assert Kept(e0[cs[i]], e1[cs[i]], cs[i] in p);
    }
  }

  /** A loop that removes from the end of cs0: when the list is a prefix cs of cs0 whose
      removed suffix is Gone, removing cs's last child leaves a shorter prefix whose removed
      suffix is Gone. */
  lemma GoneLast(cs0: seq<ElemId>, cs: seq<ElemId>, e0: map<ElemId, ElementState>, e1: map<ElemId, ElementState>,
                 p: set<ElemId>)
    requires 0 < |cs| <= |cs0| && cs == cs0[..|cs|]
    requires Gone(e0, cs0[|cs|..]) && Settled(e0, e1, p)
    requires cs[|cs| - 1] in e1 && !e1[cs[|cs| - 1]].tree.isAlive && e1[cs[|cs| - 1]].tree.parent.None?
    ensures cs[..|cs| - 1] == cs0[..|cs| - 1] && Gone(e1, cs0[|cs| - 1..])
  {
    GoneKept(e0, e1, cs0[|cs|..], p);
    var r := cs0[|cs| - 1..];
    forall i | 0 <= i < |r|
      ensures r[i] in e1 && !e1[r[i]].tree.isAlive && e1[r[i]].tree.parent.None?
    {
      if i > 0 {
        assert r[i] == cs0[|cs|..][i - 1];
      }
    }
  }

  /** Part way through a loop that removes x's children from the end of the list cs0: the
      list left is a prefix of cs0 and the children taken from it are Gone. */
  predicate Stripped(e: map<ElemId, ElementState>, x: ElemId, cs0: seq<ElemId>) {
    x in e && |e[x].tree.children| <= |cs0| && e[x].tree.children == cs0[..|e[x].tree.children|] &&
    Gone(e, cs0[|e[x].tree.children|..])
  }

  /** Before the first removal nothing is taken. */
  lemma StrippedStart(e: map<ElemId, ElementState>, x: ElemId)
    requires x in e
    ensures Stripped(e, x, e[x].tree.children)
  {
    assert e[x].tree.children[..|e[x].tree.children|] == e[x].tree.children;
  }

  /** Removing the last child keeps Stripped once that child is dead with no parent. */
  lemma StrippedLast(e0: map<ElemId, ElementState>, e1: map<ElemId, ElementState>, x: ElemId, cs0: seq<ElemId>,
                     p: set<ElemId>)
    requires Stripped(e0, x, cs0) && Settled(e0, e1, p) && |e0[x].tree.children| > 0
    requires e1[x].tree.children == e0[x].tree.children[..|e0[x].tree.children| - 1]
    requires var c := e0[x].tree.children[|e0[x].tree.children| - 1];
      c in e1 && !e1[c].tree.isAlive && e1[c].tree.parent.None?
    ensures Stripped(e1, x, cs0)
  {
    GoneLast(cs0, e0[x].tree.children, e0, e1, p);
  }

  /** A list stripped to nothing has every child of cs0 Gone. */
  lemma StrippedAll(e: map<ElemId, ElementState>, x: ElemId, cs0: seq<ElemId>)
    requires Stripped(e, x, cs0) && e[x].tree.children == []
    ensures Gone(e, cs0)
  {
    assert cs0[0..] == cs0;
  }

  /** Both parts of a split list Gone make the whole list Gone. */
  lemma GoneSplit(e: map<ElemId, ElementState>, cs: seq<ElemId>, k: nat)
    requires k <= |cs| && Gone(e, cs[..k]) && Gone(e, cs[k..])
    ensures Gone(e, cs)
  {
    forall i | 0 <= i < |cs|
      ensures cs[i] in e && !e[cs[i]].tree.isAlive && e[cs[i]].tree.parent.None?
    {
      if i < k {
        assert cs[i] == cs[..k][i];
      } else {
        assert cs[i] == cs[k..][i - k];
      }
    }
  }

  predicate EndsWith(l: seq<Effect>, e: Effect) {
    |l| > 0 && l[|l| - 1] == e
  }

  lemma PrefixTrans(a: seq<Effect>, b: seq<Effect>, c: seq<Effect>)
    requires a <= b && b <= c
    ensures a <= c
  {
  }

  lemma PrefixOf(a: seq<Effect>, b: seq<Effect>)
    requires |b| >= |a| && b[..|a|] == a
    ensures a <= b
  {
  }

  lemma PrefixAppend(a: seq<Effect>, d: seq<Effect>)
    ensures a <= a + d
  {
  }

  /** b extends a, and no property-change handler ran in what was added: the effects of a
      teardown, which calls out to providers and watchers but never into the subscribers
      of a property. */
  ghost predicate QuietSince(a: seq<Effect>, b: seq<Effect>) {
    a <= b && forall i :: |a| <= i < |b| ==> !b[i].HandlerCalled?
  }

  lemma QuietRefl(a: seq<Effect>)
    ensures QuietSince(a, a)
  {
  }

  lemma QuietTrans(a: seq<Effect>, b: seq<Effect>, c: seq<Effect>)
    requires QuietSince(a, b) && QuietSince(b, c)
    ensures QuietSince(a, c)
  {
    forall i | |a| <= i < |c| ensures !c[i].HandlerCalled? {
      if i < |b| {
        assert c[i] == b[i];
      }
    }
  }

  /** Appending effects none of which is a handler call. */
  lemma QuietAppend(a: seq<Effect>, d: seq<Effect>)
    requires forall i :: 0 <= i < |d| ==> !d[i].HandlerCalled?
    ensures QuietSince(a, a + d)
  {
    forall i | |a| <= i < |a + d| ensures !(a + d)[i].HandlerCalled? {
      assert (a + d)[i] == d[i - |a|];
    }
  }

  /** What PropertiesChanged leaves alone: every tree, and the log's past. */
  lemma AnnouncedFrame(n: map<NotifierId, Notifier>, e0: map<ElemId, ElementState>, i0: seq<IdleTask>,
                       l0: seq<Effect>, x: ElemId, ps: set<Expr>,
                       e1: map<ElemId, ElementState>, i1: seq<IdleTask>, l1: seq<Effect>)
    requires Announced(n, e0, i0, l0, x, ps, e1, i1, l1)
    ensures Settled(e0, e1, {}) && x in e1 && e1[x].tree == e0[x].tree && l0 <= l1
  {
    if e0[x].tree.isAlive {
      WakeSettled(e0, Woken(n, e0[x], ps));
      WakeTree(e0, Woken(n, e0[x], ps), x);
      PrefixOf(l0, l1);
    } else {
      SettledRefl(e0);
    }
  }

  /** The end of RemoveChild, the count lowered or not and the announcement made, changes
      no element but as a teardown may, with p's list exempted; p's list stays as it was. */
  lemma FinishFrame(e0: map<ElemId, ElementState>, mid: map<ElemId, ElementState>, n: map<NotifierId, Notifier>,
                    i0: seq<IdleTask>, l0: seq<Effect>, p: ElemId, rm: bool,
                    e1: map<ElemId, ElementState>, i1: seq<IdleTask>, l1: seq<Effect>)
    requires p in e0 && mid == (if rm then e0[p := Lowered(e0[p])] else e0) && Settled(e0, mid, {p})
    requires Announced(n, mid, i0, l0, p, {ChildrenProperty}, e1, i1, l1)
    ensures Settled(e0, e1, {p}) && l0 <= l1 && (!e0[p].tree.isAlive ==> l1 == l0 && i1 == i0)
    ensures p in e1 && e1[p].tree.children == e0[p].tree.children &&
      e1[p].tree.recurseMethodChildCount == e0[p].tree.recurseMethodChildCount - (if rm then 1 else 0)
  {
    AnnouncedFrame(n, mid, i0, l0, p, {ChildrenProperty}, e1, i1, l1);
    SettledWiden(mid, e1, {p});
    SettledTrans(e0, mid, e1, {p});
  }

  /** RemoveChild put together: the child's release (e0 to e2, the log l0 to l2) and then
      the count and the announcement (e2 through mid to e3). */
  lemma RemovedFrame(e0: map<ElemId, ElementState>, l0: seq<Effect>, p: ElemId, index: int, c: ElemId, rm: bool,
                     e2: map<ElemId, ElementState>, l2: seq<Effect>, mid: map<ElemId, ElementState>,
                     n: map<NotifierId, Notifier>, i0: seq<IdleTask>,
                     e3: map<ElemId, ElementState>, i3: seq<IdleTask>, l3: seq<Effect>)
    requires p in e0 && 0 <= index < |e0[p].tree.children| && c == e0[p].tree.children[index]
    requires Settled(e0, e2, {p}) && QuietSince(l0, l2)
    requires c in e2 && !e2[c].tree.isAlive && e2[c].tree.parent.None?
    requires p in e2 && (e2[p].tree.isAlive || !e0[p].tree.isAlive) ==>
      e2[p].tree.children == e0[p].tree.children[..index] + e0[p].tree.children[index + 1..] &&
      e2[p].tree.recurseMethodChildCount == e0[p].tree.recurseMethodChildCount
    requires mid == (if rm then e2[p := Lowered(e2[p])] else e2) && Settled(e2, mid, {p})
    requires Settled(e2, e3, {p}) && l2 <= l3 && Announced(n, mid, i0, l2, p, {ChildrenProperty}, e3, i3, l3)
    requires !e2[p].tree.isAlive ==> l3 == l2 && i3 == i0
    requires e3[p].tree.children == e2[p].tree.children
    requires e3[p].tree.recurseMethodChildCount == e2[p].tree.recurseMethodChildCount - (if rm then 1 else 0)
    ensures Settled(e0, e3, {p}) && Settled(e0, mid, {p}) && l0 <= l3 && p in mid
    ensures !e0[p].tree.isAlive ==> QuietSince(l0, l3) && i3 == i0
    ensures c in e3 && !e3[c].tree.isAlive && e3[c].tree.parent.None?
    ensures mid[p].tree.isAlive || !e0[p].tree.isAlive ==>
      mid[p].tree.children == e0[p].tree.children[..index] + e0[p].tree.children[index + 1..] &&
      mid[p].tree.recurseMethodChildCount == e0[p].tree.recurseMethodChildCount - (if rm then 1 else 0)
    ensures e3[p].tree.isAlive || !e0[p].tree.isAlive ==>
      e3[p].tree.children == e0[p].tree.children[..index] + e0[p].tree.children[index + 1..] &&
      e3[p].tree.recurseMethodChildCount == e0[p].tree.recurseMethodChildCount - (if rm then 1 else 0)
  {
    SettledTrans(e0, e2, mid, {p});
    SettledTrans(e0, e2, e3, {p});
    PrefixTrans(l0, l2, l3);
    assert Kept(e2[c], e3[c], c == p);
    assert Kept(e0[p], e2[p], true);
    assert Kept(e2[p], e3[p], true);
  }

  /** Disposing a notifier calls the providers' UnwatchProperty and may dispose a
      relationship watcher, but runs no handler. */
  lemma UnsubscribeQuiet(a: Arena, n: NotifierId, g: seq<ProviderId>, h: Handles)
    requires Listed(a, n)
    ensures forall i :: 0 <= i < |UnsubscribeEffects(a, n, g, h)| ==> !UnsubscribeEffects(a, n, g, h)[i].HandlerCalled?
  {
    var nt := a.notifiers[n];
    if !nt.disposed {
      var s := a.elems[nt.element];
      if |s.watch.notifiersByExpression[nt.expression]| == 1 {
        var s' := WithoutList(s, nt.expression);
        var ps := s'.providers + g;
        if !s'.rules.disposing {
          var calls := CallEffects(ps[..Consulted(h, ps, nt.element, nt.expression)], nt.element, nt.expression, false);
          var r := UnwatchEffects(s', nt.element, nt.expression, g, h);
          forall i | 0 <= i < |r| ensures !r[i].HandlerCalled? {
            if i < |calls| {
              assert r[i] == calls[i];
            }
          }
        }
      }
    }
  }

  // ----- The frame -----

  lemma SettledRefl(e: map<ElemId, ElementState>)
    ensures Settled(e, e, {})
  {
  }

  lemma SettledTrans(e0: map<ElemId, ElementState>, e1: map<ElemId, ElementState>, e2: map<ElemId, ElementState>,
                     p: set<ElemId>)
    requires Settled(e0, e1, p) && Settled(e1, e2, p)
    ensures Settled(e0, e2, p)
  {
    forall y | y in e0 ensures Kept(e0[y], e2[y], y in p) {
      var s, t, u := e0[y], e1[y], e2[y];
      if y !in p && (!s.tree.isAlive || u.tree.isAlive) {
        assert !s.tree.isAlive || t.tree.isAlive;
        assert !t.tree.isAlive || u.tree.isAlive;
      }
    }
  }

  /** Exempting more elements. */
  lemma SettledWiden(e0: map<ElemId, ElementState>, e1: map<ElemId, ElementState>, p: set<ElemId>)
    requires Settled(e0, e1, {})
    ensures Settled(e0, e1, p)
  {
  }

  /** An element of p that was alive and is dead needs no exemption. */
  lemma SettledDrop(e0: map<ElemId, ElementState>, e1: map<ElemId, ElementState>, x: ElemId)
    requires Settled(e0, e1, {x}) && x in e0 && e0[x].tree.isAlive && !e1[x].tree.isAlive
    ensures Settled(e0, e1, {})
  {
  }

  /** Replacing one record. */
  lemma SettledUpdate(e: map<ElemId, ElementState>, x: ElemId, v: ElementState, free: bool)
    requires x in e && Kept(e[x], v, free)
    ensures Settled(e, e[x := v], if free then {x} else {})
  {
  }

  lemma AliveSame(e: map<ElemId, ElementState>, x: ElemId, v: ElementState)
    requires x in e && v.tree.isAlive == e[x].tree.isAlive
    ensures AliveSet(e[x := v]) == AliveSet(e)
  {
  }

  /** Under Settled the live elements only go, and one that dies makes the set smaller. */
  lemma SettledAlive(e0: map<ElemId, ElementState>, e1: map<ElemId, ElementState>, p: set<ElemId>, x: ElemId)
    requires Settled(e0, e1, p)
    ensures AliveSet(e1) <= AliveSet(e0) && |AliveSet(e1)| <= |AliveSet(e0)|
    ensures x in e0 && e0[x].tree.isAlive && !e1[x].tree.isAlive ==> |AliveSet(e1)| < |AliveSet(e0)|
  {
    assert forall y :: y in e1 && e1[y].tree.isAlive ==> Kept(e0[y], e1[y], y in p);
    if x in e0 && e0[x].tree.isAlive && !e1[x].tree.isAlive {
      assert AliveSet(e1) <= AliveSet(e0) - {x};
      assert |AliveSet(e0) - {x}| == |AliveSet(e0)| - 1;
      SubsetCard(AliveSet(e1), AliveSet(e0) - {x});
    }
    SubsetCard(AliveSet(e1), AliveSet(e0));
  }

  /** Waking elements for a rule pass touches only live ones, and only their flag. */
  lemma WakeSettled(e: map<ElemId, ElementState>, w: set<ElemId>)
    ensures Settled(e, Wake(e, w), {})
  {
  }

  lemma WakeTree(e: map<ElemId, ElementState>, w: set<ElemId>, x: ElemId)
    requires x in e
    ensures x in Wake(e, w) && Wake(e, w)[x].tree == e[x].tree && Wake(e, w)[x].tracked == e[x].tracked
    ensures e[x].rules.updatingRules ==> Wake(e, w)[x].rules.updatingRules
  {
  }

  /** Disposing a notifier changes its element's subscribers, and at most the tab control's
      poll and selection state, never the tree or the rules. */
  lemma UnsubscribedSettled(a: Arena, n: NotifierId, g: seq<ProviderId>, h: Handles)
    requires Listed(a, n)
    ensures Settled(a.elems, Unsubscribed(a, n, g, h).elems, {})
  {
    var nt := a.notifiers[n];
    if !nt.disposed {
      var x, ex := nt.element, nt.expression;
      var s := a.elems[x];
      var b := Unsubscribed(a, n, g, h);
      if |s.watch.notifiersByExpression[ex]| == 1 {
        var t := WithoutList(s, ex);
        if TornDown(s) {
          assert !Polling.IsPolling(t.polls, ex);
          assert TabUnwatched(t, ex).polls == t.polls;
        }
        SettledUpdate(a.elems, x, b.elems[x], false);
      } else {
        SettledUpdate(a.elems, x, b.elems[x], false);
      }
    }
  }

  /** The record steps of SetAlive(false) before the children go, put together: e0 to e1
      Dying, e1 to e2 Disposed, e2 to e3 the dependency notifiers disposed, e3 to e4
      Quiesced. */
  lemma TeardownChain(e0: map<ElemId, ElementState>, e1: map<ElemId, ElementState>, e2: map<ElemId, ElementState>,
                      e3: map<ElemId, ElementState>, e4: map<ElemId, ElementState>, x: ElemId)
    requires x in e0 && e0[x].tree.isAlive
    requires e1 == e0[x := Dying(e0[x])] && e2 == e1[x := Disposed(e1[x])]
    requires Settled(e2, e3, {}) && e3[x].rules == e2[x].rules && e4 == e3[x := Quiesced(e3[x])]
    requires e4[x].rules.disposing ==> e4[x].watch.relationshipWatchers == {}
    ensures Prepared(e0, e4, x)
  {
    SettledUpdate(e0, x, Dying(e0[x]), false);
    SettledUpdate(e1, x, Disposed(e1[x]), false);
    SettledUpdate(e3, x, Quiesced(e3[x]), false);
    SettledTrans(e0, e1, e2, {});
    SettledTrans(e0, e2, e3, {});
    SettledTrans(e0, e3, e4, {});
    SettledAlive(e0, e4, {}, x);
    assert Kept(e2[x], e3[x], false);
  }

  // ----- The invariant across the steps of SetAlive(false) and RemoveChild -----

  /** The arena with x's record replaced by v. */
  function Put(a: Arena, x: ElemId, v: ElementState): Arena {
    a.(elems := a.elems[x := v])
  }

  lemma ReleasedKeeps(a: Arena, x: ElemId, g: seq<ProviderId>, h: Handles)
    requires Inv(a, g, h) && x in a.elems
    ensures Inv(Put(a, x, Released(a.elems[x])), g, h)
    ensures Settled(a.elems, a.elems[x := Released(a.elems[x])], {})
  {
    var v := Released(a.elems[x]);
    PendKeep(a.elems, a.idle, x, v);
    LocalStep(a, Put(a, x, v), x, v, g, h);
    SettledUpdate(a.elems, x, v, false);
  }

  lemma DyingKeeps(a: Arena, x: ElemId, g: seq<ProviderId>, h: Handles)
    requires Inv(a, g, h) && x in a.elems
    ensures Inv(Put(a, x, Dying(a.elems[x])), g, h)
    ensures Settled(a.elems, a.elems[x := Dying(a.elems[x])], {})
  {
    var v := Dying(a.elems[x]);
    PendKeep(a.elems, a.idle, x, v);
    LocalStep(a, Put(a, x, v), x, v, g, h);
    SettledUpdate(a.elems, x, v, false);
  }

  lemma QuiescedKeeps(a: Arena, x: ElemId, g: seq<ProviderId>, h: Handles)
    requires Inv(a, g, h) && x in a.elems
    ensures Inv(Put(a, x, Quiesced(a.elems[x])), g, h)
    ensures Settled(a.elems, a.elems[x := Quiesced(a.elems[x])], {})
  {
    var s := a.elems[x];
    var v := Quiesced(s);
    assert Polling.Valid(Polls(a.elems)[x]);
    Polling.PollEndTeardownPreserveValid(s.polls, SelectionIndexProperty, Polling.SelectionIndexRefresh, SelectionPollInterval);
    PendKeep(a.elems, a.idle, x, v);
    LocalStep(a, Put(a, x, v), x, v, g, h);
    SettledUpdate(a.elems, x, v, false);
  }

  /** RecurseMethodChildCount-- on p. */
  function Lowered(s: ElementState): ElementState {
    s.(tree := s.tree.(recurseMethodChildCount := s.tree.recurseMethodChildCount - 1))
  }

  lemma LoweredKeeps(a: Arena, p: ElemId, g: seq<ProviderId>, h: Handles)
    requires Inv(a, g, h) && p in a.elems
    ensures Inv(Put(a, p, Lowered(a.elems[p])), g, h)
    ensures Settled(a.elems, a.elems[p := Lowered(a.elems[p])], {p})
  {
    var v := Lowered(a.elems[p]);
    PendKeep(a.elems, a.idle, p, v);
    LocalStep(a, Put(a, p, v), p, v, g, h);
    SettledUpdate(a.elems, p, v, true);
  }

  /** Children.RemoveAt(index) on p's record. */
  function Cut(s: ElementState, index: int): ElementState
    requires 0 <= index < |s.tree.children|
  {
    s.(tree := s.tree.(children := s.tree.children[..index] + s.tree.children[index + 1..]))
  }

  /** Between Children.RemoveAt and RecurseMethodChildCount--, a parent whose children were
      all recurse-method children counts one more than it holds; that is the state in which
      the child's SetAlive(false) runs, and only the decrement restores the bound. */
  lemma CutOverrunsCount(s: ElementState, index: int)
    requires RemovalAllowed(s.tree, index, true) && s.tree.recurseMethodChildCount == |s.tree.children|
    ensures Cut(s, index).tree.recurseMethodChildCount == |Cut(s, index).tree.children| + 1
    ensures 0 <= Lowered(Cut(s, index)).tree.recurseMethodChildCount == |Lowered(Cut(s, index)).tree.children|
  {
  }

  lemma CutKeeps(a: Arena, p: ElemId, index: int, g: seq<ProviderId>, h: Handles)
    requires Inv(a, g, h) && p in a.elems && 0 <= index < |a.elems[p].tree.children|
    ensures Inv(Put(a, p, Cut(a.elems[p], index)), g, h)
    ensures Settled(a.elems, a.elems[p := Cut(a.elems[p], index)], {p})
    ensures AliveSet(a.elems[p := Cut(a.elems[p], index)]) == AliveSet(a.elems)
    ensures a.elems[p].tree.children[index] in a.elems
  {
    CutInv(a, p, index, g, h);
    var v := Cut(a.elems[p], index);
    SettledUpdate(a.elems, p, v, true);
    AliveSame(a.elems, p, v);
  }

  lemma CutInv(a: Arena, p: ElemId, index: int, g: seq<ProviderId>, h: Handles)
    requires Inv(a, g, h) && p in a.elems && 0 <= index < |a.elems[p].tree.children|
    ensures Inv(Put(a, p, Cut(a.elems[p], index)), g, h)
    ensures a.elems[p].tree.children[index] in a.elems
  {
    TreeOf(Trees(a.elems), a.nextElem, p);
    assert Trees(a.elems)[p] == a.elems[p].tree;
    ChildrenCut(a.elems[p].tree.children, a.elems.Keys, index);
    ListStep(a, p, Cut(a.elems[p], index), g, h);
  }

  /** A new child list for p, of elements of the table. */
  lemma ListStep(a: Arena, p: ElemId, v: ElementState, g: seq<ProviderId>, h: Handles)
    requires Inv(a, g, h) && p in a.elems
    requires v == a.elems[p].(tree := a.elems[p].tree.(children := v.tree.children))
    requires ChildrenIn(v.tree.children, a.elems.Keys)
    ensures Inv(Put(a, p, v), g, h)
  {
    PendKeep(a.elems, a.idle, p, v);
    LocalStep(a, Put(a, p, v), p, v, g, h);
  }

  lemma ChildrenCut(c: seq<ElemId>, keys: set<ElemId>, index: int)
    requires ChildrenIn(c, keys) && 0 <= index < |c|
    ensures ChildrenIn(c[..index] + c[index + 1..], keys)
  {
    var d := c[..index] + c[index + 1..];
    forall i | 0 <= i < |d| ensures d[i] in keys {
      if i < index {
        assert d[i] == c[i];
      } else {
        assert d[i] == c[i + 1];
      }
    }
  }

  /** child.Parent = null. */
  function Orphaned(s: ElementState): ElementState {
    s.(tree := s.tree.(parent := None))
  }

  lemma OrphanedKeeps(a: Arena, c: ElemId, g: seq<ProviderId>, h: Handles)
    requires Inv(a, g, h) && c in a.elems
    ensures Inv(Put(a, c, Orphaned(a.elems[c])), g, h)
    ensures Settled(a.elems, a.elems[c := Orphaned(a.elems[c])], {})
    ensures AliveSet(a.elems[c := Orphaned(a.elems[c])]) == AliveSet(a.elems)
  {
    var v := Orphaned(a.elems[c]);
    PendKeep(a.elems, a.idle, c, v);
    LocalStep(a, Put(a, c, v), c, v, g, h);
    SettledUpdate(a.elems, c, v, false);
    AliveSame(a.elems, c, v);
  }

  lemma BookWatchers(w: map<ElemId, WatchState>, notifiers: map<NotifierId, Notifier>, x: ElemId, ws: WatchState)
    requires Book(w, notifiers) && x in w && ws.notifiersByExpression == w[x].notifiersByExpression
    ensures Book(w[x := ws], notifiers)
  {
  }

  /** Marking an element disposing together with dropping its relationship watchers keeps
      the invariant. */
  lemma DisposedKeeps(a: Arena, x: ElemId, g: seq<ProviderId>, h: Handles)
    requires Inv(a, g, h) && x in a.elems
    ensures Inv(a.(elems := a.elems[x := Disposed(a.elems[x])]), g, h)
  {
    var v := Disposed(a.elems[x]);
    Same(a.elems, x, v);
    assert Watches(a.elems)[x] == a.elems[x].watch;
    BookWatchers(Watches(a.elems), a.notifiers, x, v.watch);
    DisposedRest(a, x, g, h);
  }

  lemma DisposedRest(a: Arena, x: ElemId, g: seq<ProviderId>, h: Handles)
    requires Rest(a, g, h) && x in a.elems
    ensures Rest(a.(elems := a.elems[x := Disposed(a.elems[x])]), g, h)
  {
    var e, v := a.elems, Disposed(a.elems[x]);
    Same(e, x, v);
    assert Watches(e)[x] == e[x].watch && Providers(e)[x] == e[x].providers;
    DisposedWatchers(e, x);
    UnhandledUpdate(Watches(e), Providers(e), g, h, x, v.watch);
    BalancedKeys(Watches(e), a.watchCalls, x, v.watch);
  }

  lemma DisposedWatchers(e: map<ElemId, ElementState>, x: ElemId)
    requires WatchersConsistent(Watches(e), Disposing(e)) && x in e
    ensures WatchersConsistent(Watches(e[x := Disposed(e[x])]), Disposing(e[x := Disposed(e[x])]))
  {
    var e' := e[x := Disposed(e[x])];
    forall y | y in e'
      ensures e'[y].watch.relationshipWatchers <= e'[y].watch.notifiersByExpression.Keys
      ensures e'[y].rules.disposing ==> e'[y].watch.relationshipWatchers == {}
    {
      if y != x {
        assert Watches(e)[y] == e[y].watch;
        if e[y].rules.disposing {
          assert y in Disposing(e);
        }
      }
    }
    forall y | y in Watches(e')
      ensures Watches(e')[y].relationshipWatchers <= Watches(e')[y].notifiersByExpression.Keys
      ensures y in Disposing(e') ==> Watches(e')[y].relationshipWatchers == {}
    {
      assert Watches(e')[y] == e'[y].watch;
    }
  }
}
