/** The invariant of the element tree as one predicate over a snapshot of the arena, the
    record-level effect of the WatchProperty and UnwatchProperty hooks, and one lemma per
    kind of state change saying that the change keeps the invariant. The methods of
    UiDom.Dom make these changes in place and call the matching lemma. */
module UiDomSteps {
  import opened UiDomValues
  import opened UiDomState
  import opened UiDomDispatch
  import Polling

  /** Identifier expressions the tree itself raises or watches. */
  const SelectionIndexProperty: Expr := Identifier("win32_selection_index")
  const ChildrenProperty: Expr := Identifier("children")

  /** The tab control's selection poll interval, in milliseconds. */
  const SelectionPollInterval: int := 200

  type Handles = (ProviderId, ElemId, Expr) -> bool

  /** The mutable state of the tree, as one value. */
  datatype Arena = Arena(elems: map<ElemId, ElementState>, notifiers: map<NotifierId, Notifier>,
                         idle: seq<IdleTask>, watchCalls: seq<WatchCall>,
                         nextElem: ElemId, nextNotifier: NotifierId)

  ghost predicate Inv(a: Arena, g: seq<ProviderId>, h: Handles) {
    Table(a) && Rest(a, g, h)
  }

  /** The parts of the invariant that read the notifier table. */
  ghost predicate Table(a: Arena) {
    NotifiersClosed(a.notifiers, a.elems.Keys, a.nextNotifier) &&
    Book(Watches(a.elems), a.notifiers) &&
    DependenciesOwned(Deps(a.elems), a.notifiers)
  }

  /** The parts of the invariant that do not read the notifier table. */
  ghost predicate Rest(a: Arena, g: seq<ProviderId>, h: Handles) {
    TreeClosed(Trees(a.elems), a.nextElem) &&
    TasksClosed(a.idle, a.elems.Keys) &&
    WatchersConsistent(Watches(a.elems), Disposing(a.elems)) &&
    WatchersUnhandled(Watches(a.elems), Providers(a.elems), g, h) &&
    Pending(a.elems) <= Tasks(a.idle) &&
    PollsValid(Polls(a.elems)) &&
    CallsClosed(a.watchCalls, a.nextElem) &&
    Balanced(Watches(a.elems), a.watchCalls)
  }

  /** Two arenas with the same fields. */
  predicate SameFields(b: Arena, c: Arena) {
    b.elems == c.elems && b.notifiers == c.notifiers && b.idle == c.idle && b.watchCalls == c.watchCalls &&
    b.nextElem == c.nextElem && b.nextNotifier == c.nextNotifier
  }

  lemma SameInv(b: Arena, c: Arena, g: seq<ProviderId>, h: Handles)
    requires Inv(b, g, h) && SameFields(b, c)
    ensures Inv(c, g, h)
  {
    assert b == c;
  }

  lemma UpdateTwice<K, V>(m: map<K, V>, k: K, v: V, w: V)
    ensures m[k := v][k := w] == m[k := w]
  {
  }

  predicate ChildrenIn(children: seq<ElemId>, keys: set<ElemId>) {
    forall i :: 0 <= i < |children| ==> children[i] in keys
  }

  // ----- Pieces of the invariant under one changed record -----

  lemma TreeClosedUpdate(t: map<ElemId, Tree>, ne: ElemId, x: ElemId, tree: Tree)
    requires TreeClosed(t, ne) && x in t
    requires ChildrenIn(tree.children, t.Keys) && (tree.parent.Some? ==> tree.parent.value in t)
    ensures TreeClosed(t[x := tree], ne)
  {
  }

  lemma TreeOf(t: map<ElemId, Tree>, ne: ElemId, x: ElemId)
    requires TreeClosed(t, ne) && x in t
    ensures ChildrenIn(t[x].children, t.Keys) && (t[x].parent.Some? ==> t[x].parent.value in t)
  {
  }

  lemma PollsValidUpdate(p: map<ElemId, Polling.PollState>, x: ElemId, ps: Polling.PollState)
    requires PollsValid(p) && Polling.Valid(ps)
    ensures PollsValid(p[x := ps])
  {
  }

  // ----- Steps that change one record outside its subscribers, watchers, dependency
  // notifiers and disposing flag -----

  /** A change to one element's tree links, flags, polls, kind or declarations. */
  lemma LocalStep(a: Arena, b: Arena, x: ElemId, v: ElementState, g: seq<ProviderId>, h: Handles)
    requires Inv(a, g, h) && x in a.elems
    requires b.elems == a.elems[x := v] && b.notifiers == a.notifiers && b.watchCalls == a.watchCalls &&
             b.nextElem == a.nextElem && b.nextNotifier == a.nextNotifier
    requires v.providers == a.elems[x].providers && v.watch == a.elems[x].watch &&
             v.rules.disposing == a.elems[x].rules.disposing
    requires v.rules.dependencyNotifiers == a.elems[x].rules.dependencyNotifiers ||
             OwnsAll(a.notifiers, v.rules.dependencyNotifiers, x)
    requires v.polls == a.elems[x].polls || Polling.Valid(v.polls)
    requires v.tree.children == a.elems[x].tree.children || ChildrenIn(v.tree.children, a.elems.Keys)
    requires v.tree.parent == a.elems[x].tree.parent || v.tree.parent.None? || v.tree.parent.value in a.elems
    requires TasksClosed(b.idle, a.elems.Keys)
    requires Pending(a.elems) - {EvaluateRulesOf(x), UpdateTrackedPropertiesOf(x)} + PendingOf(x, v) <= Tasks(b.idle)
    ensures Inv(b, g, h)
  {
    Same(a.elems, x, v);
    TreeOf(Trees(a.elems), a.nextElem, x);
    TreeClosedUpdate(Trees(a.elems), a.nextElem, x, v.tree);
    assert Polling.Valid(Polls(a.elems)[x]);
    PollsValidUpdate(Polls(a.elems), x, v.polls);
    if v.rules.dependencyNotifiers != a.elems[x].rules.dependencyNotifiers {
      DepsUpdate(Deps(a.elems), a.notifiers, x, v.rules.dependencyNotifiers);
    }
  }

  /** The dependency notifiers an element keeps are its own. */
  lemma DepsAt(a: Arena, x: ElemId, g: seq<ProviderId>, h: Handles)
    requires Inv(a, g, h) && x in a.elems
    ensures OwnsAll(a.notifiers, a.elems[x].rules.dependencyNotifiers, x)
    ensures forall d :: d in a.elems[x].rules.dependencyNotifiers ==> a.elems[x].rules.dependencyNotifiers[d] < a.nextNotifier
  {
    assert Deps(a.elems)[x] == a.elems[x].rules.dependencyNotifiers;
  }

  /** QueueEvaluateRules on the arena: the flag is set and the pass is queued. */
  function Queued(a: Arena, x: ElemId): Arena
    requires x in a.elems
  {
    var s := a.elems[x];
    a.(elems := a.elems[x := s.(rules := s.rules.(updatingRules := true))], idle := a.idle + [EvaluateRulesOf(x)])
  }

  lemma QueuedKeeps(a: Arena, x: ElemId, g: seq<ProviderId>, h: Handles)
    requires Inv(a, g, h) && x in a.elems
    ensures Inv(Queued(a, x), g, h)
  {
    var v := Queued(a, x).elems[x];
    PendQueue(a.elems, a.idle, x, v, EvaluateRulesOf(x));
    LocalStep(a, Queued(a, x), x, v, g, h);
  }

  /** Setting the rule flags of w and queueing the passes of the newly flagged ones, in any
      order, keeps the invariant. */
  lemma WakeKeeps(a: Arena, w: set<ElemId>, q: seq<IdleTask>, g: seq<ProviderId>, h: Handles)
    requires Inv(a, g, h) && Lists(q, PassesFor(Newly(a.elems, w)))
    ensures Inv(a.(elems := Wake(a.elems, w), idle := a.idle + q), g, h)
  {
    var b := a.(elems := Wake(a.elems, w), idle := a.idle + q);
    WakeProjections(a.elems, w);
    assert Table(b);
    WakePending(a.elems, w, a.idle, q);
    WakeTasksClosed(a.elems, w, a.idle, q);
    assert Rest(b, g, h);
  }

  /** Wake changes rule flags only. */
  lemma WakeProjections(e: map<ElemId, ElementState>, w: set<ElemId>)
    ensures var e' := Wake(e, w);
      Trees(e') == Trees(e) && Watches(e') == Watches(e) && Deps(e') == Deps(e) &&
      Polls(e') == Polls(e) && Providers(e') == Providers(e) && Disposing(e') == Disposing(e)
  {
    var e' := Wake(e, w);
    assert forall y :: y in e ==> e'[y] == e[y].(rules := e'[y].rules) && e'[y].rules == e[y].rules.(updatingRules := e'[y].rules.updatingRules);
    WakeTrees(e, e');
    WakeWatches(e, e');
    WakeDeps(e, e');
    WakePolls(e, e');
    WakeProviders(e, e');
    assert Disposing(e') == Disposing(e);
  }

  lemma WakeTrees(e: map<ElemId, ElementState>, e': map<ElemId, ElementState>)
    requires e'.Keys == e.Keys && forall y :: y in e ==> e'[y].tree == e[y].tree
    ensures Trees(e') == Trees(e)
  {
  }

  lemma WakeWatches(e: map<ElemId, ElementState>, e': map<ElemId, ElementState>)
    requires e'.Keys == e.Keys && forall y :: y in e ==> e'[y].watch == e[y].watch
    ensures Watches(e') == Watches(e)
  {
  }

  lemma WakeDeps(e: map<ElemId, ElementState>, e': map<ElemId, ElementState>)
    requires e'.Keys == e.Keys && forall y :: y in e ==> e'[y].rules.dependencyNotifiers == e[y].rules.dependencyNotifiers
    ensures Deps(e') == Deps(e)
  {
  }

  lemma WakePolls(e: map<ElemId, ElementState>, e': map<ElemId, ElementState>)
    requires e'.Keys == e.Keys && forall y :: y in e ==> e'[y].polls == e[y].polls
    ensures Polls(e') == Polls(e)
  {
  }

  lemma WakeProviders(e: map<ElemId, ElementState>, e': map<ElemId, ElementState>)
    requires e'.Keys == e.Keys && forall y :: y in e ==> e'[y].providers == e[y].providers
    ensures Providers(e') == Providers(e)
  {
  }

  lemma WakePending(e: map<ElemId, ElementState>, w: set<ElemId>, idle: seq<IdleTask>, q: seq<IdleTask>)
    requires Pending(e) <= Tasks(idle) && Lists(q, PassesFor(Newly(e, w)))
    ensures Pending(Wake(e, w)) <= Tasks(idle + q)
  {
    var e' := Wake(e, w);
    TasksAppend(idle, q);
    TasksOf(q);
    forall t | t in Pending(e') ensures t in Tasks(idle + q) {
      if t.EvaluateRulesOf? && t.element in e' && e'[t.element].rules.updatingRules {
        var y := t.element;
        if e[y].rules.updatingRules {
          assert t in Pending(e);
        } else {
          assert y in Newly(e, w);
          assert t in PassesFor(Newly(e, w));
        }
      } else {
        assert t in Pending(e);
      }
    }
  }

  lemma WakeTasksClosed(e: map<ElemId, ElementState>, w: set<ElemId>, idle: seq<IdleTask>, q: seq<IdleTask>)
    requires TasksClosed(idle, e.Keys) && Lists(q, PassesFor(Newly(e, w)))
    ensures TasksClosed(idle + q, Wake(e, w).Keys)
  {
    forall i | 0 <= i < |idle + q| ensures (idle + q)[i].element in e.Keys {
      if i >= |idle| {
        assert (idle + q)[i] == q[i - |idle|];
        assert q[i - |idle|] in q;
      }
    }
  }

  lemma {:induction false} TasksAppend(s: seq<IdleTask>, t: seq<IdleTask>)
    ensures Tasks(s + t) == Tasks(s) + Tasks(t)
    decreases |t|
  {
    if t != [] {
      var t' := t[..|t| - 1];
      TasksAppend(s, t');
      assert (s + t)[..|s + t| - 1] == s + t';
    } else {
      assert s + t == s;
    }
  }

  lemma {:induction false} TasksOf(s: seq<IdleTask>)
    ensures forall v :: v in Tasks(s) <==> v in s
    decreases |s|
  {
    if s != [] {
      TasksOf(s[..|s| - 1]);
      assert forall v :: v in s <==> v in s[..|s| - 1] || v == s[|s| - 1];
    }
  }

  /** The flags of v promise no callback the old record did not. */
  lemma PendKeep(e: map<ElemId, ElementState>, idle: seq<IdleTask>, x: ElemId, v: ElementState)
    requires Pending(e) <= Tasks(idle) && x in e
    requires v.rules.updatingRules ==> e[x].rules.updatingRules
    requires v.tracked.updating ==> e[x].tracked.updating
    ensures Pending(e) - {EvaluateRulesOf(x), UpdateTrackedPropertiesOf(x)} + PendingOf(x, v) <= Tasks(idle)
  {
    if v.rules.updatingRules {
      assert EvaluateRulesOf(x) in Pending(e);
    }
    if v.tracked.updating {
      assert UpdateTrackedPropertiesOf(x) in Pending(e);
    }
  }

  /** The callback t is queued, and v promises no other callback the old record did not. */
  lemma PendQueue(e: map<ElemId, ElementState>, idle: seq<IdleTask>, x: ElemId, v: ElementState, t: IdleTask)
    requires Pending(e) <= Tasks(idle) && x in e
    requires v.rules.updatingRules ==> e[x].rules.updatingRules || t == EvaluateRulesOf(x)
    requires v.tracked.updating ==> e[x].tracked.updating || t == UpdateTrackedPropertiesOf(x)
    ensures Pending(e) - {EvaluateRulesOf(x), UpdateTrackedPropertiesOf(x)} + PendingOf(x, v) <= Tasks(idle + [t])
  {
    TasksSnoc(idle, t);
    if v.rules.updatingRules && e[x].rules.updatingRules {
      assert EvaluateRulesOf(x) in Pending(e);
    }
    if v.tracked.updating && e[x].tracked.updating {
      assert UpdateTrackedPropertiesOf(x) in Pending(e);
    }
  }

  lemma TasksCons(idle: seq<IdleTask>)
    requires |idle| > 0
    ensures Tasks(idle) == {idle[0]} + Tasks(idle[1..])
    decreases |idle|
  {
    if |idle| > 1 {
      TasksCons(idle[..|idle| - 1]);
      assert idle[..|idle| - 1][1..] == idle[1..][..|idle[1..]| - 1];
      assert idle[..|idle| - 1][0] == idle[0];
    } else {
      assert idle[..0] == [];
      assert idle[1..] == [];
    }
  }

  /** The head callback is taken off the queue, and v clears the flag that promised it. */
  lemma PendPop(e: map<ElemId, ElementState>, idle: seq<IdleTask>, x: ElemId, v: ElementState)
    requires Pending(e) <= Tasks(idle) && x in e && |idle| > 0 && idle[0].element == x
    requires idle[0].EvaluateRulesOf? ==> !v.rules.updatingRules && (v.tracked.updating ==> e[x].tracked.updating)
    requires idle[0].UpdateTrackedPropertiesOf? ==> !v.tracked.updating && (v.rules.updatingRules ==> e[x].rules.updatingRules)
    ensures Pending(e) - {EvaluateRulesOf(x), UpdateTrackedPropertiesOf(x)} + PendingOf(x, v) <= Tasks(idle[1..])
  {
    TasksCons(idle);
    var rest := Pending(e) - {EvaluateRulesOf(x), UpdateTrackedPropertiesOf(x)};
    forall t | t in rest ensures t in Tasks(idle[1..]) {
      assert t != idle[0];
    }
    if v.rules.updatingRules {
      assert EvaluateRulesOf(x) in Pending(e);
    }
    if v.tracked.updating {
      assert UpdateTrackedPropertiesOf(x) in Pending(e);
    }
  }

  // ----- The WatchProperty and UnwatchProperty hooks on one record -----

  /** Whether the expression is a relationship constructor applied to one argument, for
      which the base WatchProperty keeps a relationship watcher. */
  predicate IsRelationshipExpression(ex: Expr) {
    ex.Apply? && ex.callee.Identifier? && |ex.args| == 1 && ex.callee.name in RelationshipNames
  }

  /** Whether some provider in ps claims ex on x. */
  predicate Handled(h: Handles, ps: seq<ProviderId>, x: ElemId, ex: Expr) {
    FirstHandler(h, ps, x, ex) < |ps|
  }

  /** How many providers are asked: up to and including the first that claims ex. */
  function Consulted(h: Handles, ps: seq<ProviderId>, x: ElemId, ex: Expr): (k: nat)
    ensures k <= |ps|
    ensures Handled(h, ps, x, ex) <==> k > 0 && h(ps[k - 1], x, ex)
  {
    var k := FirstHandler(h, ps, x, ex);
    if k < |ps| then k + 1 else |ps|
  }

  /** The provider calls made while consulting ps in order. */
  function CallEffects(ps: seq<ProviderId>, x: ElemId, ex: Expr, watch: bool): (r: seq<Effect>)
    ensures |r| == |ps|
    ensures forall i :: 0 <= i < |ps| ==>
      r[i] == if watch then ProviderWatchCalled(ps[i], x, ex) else ProviderUnwatchCalled(ps[i], x, ex)
  {
    seq(|ps|, i requires 0 <= i < |ps| =>
      if watch then ProviderWatchCalled(ps[i], x, ex) else ProviderUnwatchCalled(ps[i], x, ex))
  }

  /** The Win32 tab control's WatchProperty override, before the base one runs: watching the
      selection index starts polling it. */
  function TabWatched(s: ElementState, ex: Expr): ElementState {
    if s.kind.TabControl? && ex == SelectionIndexProperty then
      s.(polls := Polling.Poll(s.polls, ex, Polling.SelectionIndexRefresh, SelectionPollInterval))
    else s
  }

  /** The tab control's UnwatchProperty override: the poll ends and the cached index is
      forgotten. */
  function TabUnwatched(s: ElementState, ex: Expr): ElementState {
    if s.kind.TabControl? && ex == SelectionIndexProperty then
      s.(polls := Polling.EndPoll(s.polls, ex),
         kind := s.kind.(tab := s.kind.tab.(selectionIndexKnown := false)))
    else s
  }

  /** WatchProperty on a record: nothing while disposing or once a provider claims the
      expression; otherwise a relationship expression gets a watcher. */
  function Watched(s: ElementState, x: ElemId, ex: Expr, g: seq<ProviderId>, h: Handles): (r: ElementState)
    ensures r == s.(watch := r.watch, polls := r.polls)
    ensures r.watch.notifiersByExpression == s.watch.notifiersByExpression
    ensures r.watch.relationshipWatchers == s.watch.relationshipWatchers ||
      (r.watch.relationshipWatchers == s.watch.relationshipWatchers + {ex} &&
       !s.rules.disposing && !Handled(h, s.providers + g, x, ex))
  {
    var t := TabWatched(s, ex);
    if t.rules.disposing || Handled(h, t.providers + g, x, ex) || !IsRelationshipExpression(ex) then t
    else t.(watch := t.watch.(relationshipWatchers := t.watch.relationshipWatchers + {ex}))
  }

  function WatchEffects(s: ElementState, x: ElemId, ex: Expr, g: seq<ProviderId>, h: Handles): seq<Effect> {
    var ps := s.providers + g;
    if s.rules.disposing then
      []
    else
      CallEffects(ps[..Consulted(h, ps, x, ex)], x, ex, true) +
      (if !Handled(h, ps, x, ex) && IsRelationshipExpression(ex) then [RelationshipWatcherCreated(x, ex)] else [])
  }

  /** UnwatchProperty on a record: nothing while disposing or once a provider claims the
      expression; otherwise the relationship watcher, if any, is disposed. */
  function Unwatched(s: ElementState, x: ElemId, ex: Expr, g: seq<ProviderId>, h: Handles): (r: ElementState)
    ensures r == s.(watch := r.watch, polls := r.polls, kind := r.kind)
    ensures r.watch.notifiersByExpression == s.watch.notifiersByExpression
    ensures r.watch.relationshipWatchers <= s.watch.relationshipWatchers
    ensures ex in r.watch.relationshipWatchers ==> s.rules.disposing || Handled(h, s.providers + g, x, ex)
  {
    var t := TabUnwatched(s, ex);
    if t.rules.disposing || Handled(h, t.providers + g, x, ex) || ex !in t.watch.relationshipWatchers then t
    else t.(watch := t.watch.(relationshipWatchers := t.watch.relationshipWatchers - {ex}))
  }

  function UnwatchEffects(s: ElementState, x: ElemId, ex: Expr, g: seq<ProviderId>, h: Handles): seq<Effect> {
    var ps := s.providers + g;
    if s.rules.disposing then
      []
    else
      CallEffects(ps[..Consulted(h, ps, x, ex)], x, ex, false) +
      (if !Handled(h, ps, x, ex) && ex in s.watch.relationshipWatchers then [RelationshipWatcherDisposed(x, ex)] else [])
  }

  /** Watching and then unwatching an expression leaves the watchers as they were and
      nothing polling it. */
  lemma UnwatchUndoesWatch(s: ElementState, x: ElemId, ex: Expr, g: seq<ProviderId>, h: Handles)
    requires ex !in s.watch.relationshipWatchers
    ensures Unwatched(Watched(s, x, ex, g, h), x, ex, g, h).watch == s.watch
    ensures s.kind.TabControl? && ex == SelectionIndexProperty ==>
      !Polling.IsPolling(Unwatched(Watched(s, x, ex, g, h), x, ex, g, h).polls, ex)
    ensures !(s.kind.TabControl? && ex == SelectionIndexProperty) ==>
      Unwatched(Watched(s, x, ex, g, h), x, ex, g, h) == s
  {
  }

  /** The providers before i do not claim ex and the one at i does, or i is the end. */
  lemma FirstHandlerAt(h: Handles, ps: seq<ProviderId>, x: ElemId, ex: Expr, i: nat)
    requires i <= |ps|
    requires forall j :: 0 <= j < i ==> !h(ps[j], x, ex)
    requires i < |ps| ==> h(ps[i], x, ex)
    ensures FirstHandler(h, ps, x, ex) == i
    ensures Consulted(h, ps, x, ex) == if i < |ps| then i + 1 else i
  {
  }

  /** The consulting loop stopped after i providers, handled saying whether the last one
      claimed ex. */
  lemma ConsultedAt(h: Handles, ps: seq<ProviderId>, x: ElemId, ex: Expr, i: nat, handled: bool)
    requires i <= |ps| && (i < |ps| ==> handled)
    requires forall j :: 0 <= j < i ==> !h(ps[j], x, ex) || (handled && j == i - 1)
    requires handled ==> 0 < i && h(ps[i - 1], x, ex)
    ensures handled == Handled(h, ps, x, ex) && Consulted(h, ps, x, ex) == i
  {
    if handled {
      FirstHandlerAt(h, ps, x, ex, i - 1);
    } else {
      FirstHandlerAt(h, ps, x, ex, i);
    }
  }

  lemma CallEffectsSnoc(ps: seq<ProviderId>, i: nat, x: ElemId, ex: Expr, watch: bool)
    requires i < |ps|
    ensures CallEffects(ps[..i + 1], x, ex, watch) == CallEffects(ps[..i], x, ex, watch) +
      [if watch then ProviderWatchCalled(ps[i], x, ex) else ProviderUnwatchCalled(ps[i], x, ex)]
  {
  }

  // ----- Subscriber lists -----

  function WithList(s: ElementState, ex: Expr, l: seq<NotifierId>): ElementState {
    s.(watch := s.watch.(notifiersByExpression := s.watch.notifiersByExpression[ex := l]))
  }

  function WithoutList(s: ElementState, ex: Expr): ElementState {
    s.(watch := s.watch.(notifiersByExpression := s.watch.notifiersByExpression - {ex}))
  }

  /** The list with the first occurrence of n removed (LinkedList.Remove). */
  function Without(l: seq<NotifierId>, n: NotifierId): seq<NotifierId> {
    if l == [] then []
    else if l[0] == n then l[1..]
    else [l[0]] + Without(l[1..], n)
  }

  lemma WithoutFacts(l: seq<NotifierId>, n: NotifierId)
    ensures n in l ==> |Without(l, n)| == |l| - 1
    ensures n !in l ==> Without(l, n) == l
    ensures forall m :: m in Without(l, n) ==> m in l
    ensures forall m :: m in l && m != n ==> m in Without(l, n)
    ensures (forall i, j :: 0 <= i < j < |l| ==> l[i] != l[j]) ==>
      n !in Without(l, n) && forall i, j :: 0 <= i < j < |Without(l, n)| ==> Without(l, n)[i] != Without(l, n)[j]
  {
    WithoutMembers(l, n);
    if forall i, j :: 0 <= i < j < |l| ==> l[i] != l[j] {
      WithoutDistinct(l, n);
    }
  }

  lemma {:induction false} WithoutMembers(l: seq<NotifierId>, n: NotifierId)
    ensures n in l ==> |Without(l, n)| == |l| - 1
    ensures n !in l ==> Without(l, n) == l
    ensures forall m :: m in Without(l, n) ==> m in l
    ensures forall m :: m in l && m != n ==> m in Without(l, n)
  {
    if l != [] && l[0] != n {
      WithoutMembers(l[1..], n);
      assert l == [l[0]] + l[1..];
    }
  }

  lemma {:induction false} WithoutDistinct(l: seq<NotifierId>, n: NotifierId)
    requires forall i, j :: 0 <= i < j < |l| ==> l[i] != l[j]
    ensures n !in Without(l, n)
    ensures forall i, j :: 0 <= i < j < |Without(l, n)| ==> Without(l, n)[i] != Without(l, n)[j]
  {
    if l != [] {
      var t := l[1..];
      assert forall i, j :: 0 <= i < j < |t| ==> t[i] != t[j] by {
        forall i, j | 0 <= i < j < |t| ensures t[i] != t[j] { assert t[i] == l[i + 1] && t[j] == l[j + 1]; }
      }
      assert l[0] !in t by {
        forall j | 0 <= j < |t| ensures t[j] != l[0] { assert t[j] == l[j + 1]; }
      }
      if l[0] != n {
        WithoutDistinct(t, n);
        WithoutMembers(t, n);
        var w := Without(t, n);
        assert Without(l, n) == [l[0]] + w;
        forall i, j | 0 <= i < j < |Without(l, n)| ensures Without(l, n)[i] != Without(l, n)[j] {
          if i == 0 {
            assert Without(l, n)[j] == w[j - 1] && w[j - 1] in w;
          } else {
            assert Without(l, n)[i] == w[i - 1] && Without(l, n)[j] == w[j - 1];
          }
        }
      }
    }
  }

  // ----- Steps on the subscriber lists -----

  function Fresh(a: Arena, x: ElemId, ex: Expr, hd: Handler): map<NotifierId, Notifier> {
    a.notifiers[a.nextNotifier := Notifier(x, ex, hd, false)]
  }

  function Retired(a: Arena, n: NotifierId): map<NotifierId, Notifier>
    requires n in a.notifiers
  {
    a.notifiers[n := a.notifiers[n].(disposed := true)]
  }

  lemma ListExtend(l: seq<NotifierId>, notifiers: map<NotifierId, Notifier>, y: ElemId, e: Expr, n: NotifierId, nt: Notifier)
    requires ListOf(l, notifiers, y, e) && n !in notifiers
    ensures ListOf(l, notifiers[n := nt], y, e)
  {
  }

  lemma ListRetire(l: seq<NotifierId>, notifiers: map<NotifierId, Notifier>, y: ElemId, e: Expr, n: NotifierId)
    requires ListOf(l, notifiers, y, e) && n in notifiers && n !in l
    ensures ListOf(l, notifiers[n := notifiers[n].(disposed := true)], y, e)
  {
  }

  lemma ListWithout(l: seq<NotifierId>, notifiers: map<NotifierId, Notifier>, y: ElemId, e: Expr, n: NotifierId)
    requires ListOf(l, notifiers, y, e) && n in l && |l| > 1
    ensures ListOf(Without(l, n), notifiers, y, e) && n !in Without(l, n)
  {
    var r := Without(l, n);
    WithoutFacts(l, n);
    forall i | 0 <= i < |r|
      ensures r[i] in notifiers && notifiers[r[i]].element == y && notifiers[r[i]].expression == e &&
              !notifiers[r[i]].disposed
    {
      assert r[i] in r;
      var j :| 0 <= j < |l| && l[j] == r[i];
    }
  }

  /** A new notifier heads a new list, or is appended to the existing one. */
  lemma BookSubscribe(w: map<ElemId, WatchState>, notifiers: map<NotifierId, Notifier>, x: ElemId, ex: Expr,
                      n: NotifierId, hd: Handler, ws: WatchState)
    requires Book(w, notifiers) && x in w && n !in notifiers
    requires ex !in w[x].notifiersByExpression ==> ws.notifiersByExpression == w[x].notifiersByExpression[ex := [n]]
    requires ex in w[x].notifiersByExpression ==>
      ws.notifiersByExpression == w[x].notifiersByExpression[ex := w[x].notifiersByExpression[ex] + [n]]
    ensures Book(w[x := ws], notifiers[n := Notifier(x, ex, hd, false)])
  {
    var w', nt' := w[x := ws], notifiers[n := Notifier(x, ex, hd, false)];
    forall y, e | y in w' && e in w'[y].notifiersByExpression
      ensures ListOf(w'[y].notifiersByExpression[e], nt', y, e)
    {
      if y == x && e == ex {
        if ex in w[x].notifiersByExpression {
          var l := w[x].notifiersByExpression[ex];
          ListExtend(l, notifiers, y, e, n, Notifier(x, ex, hd, false));
          assert n !in l;
        }
      } else {
        ListExtend(w[y].notifiersByExpression[e], notifiers, y, e, n, Notifier(x, ex, hd, false));
      }
    }
    forall m | m in nt' && !nt'[m].disposed
      ensures nt'[m].element in w' && nt'[m].expression in w'[nt'[m].element].notifiersByExpression &&
              m in w'[nt'[m].element].notifiersByExpression[nt'[m].expression]
    {
      if m != n && nt'[m].element == x && nt'[m].expression == ex {
        assert m in w[x].notifiersByExpression[ex];
      }
    }
  }

  /** A notifier leaves a list that keeps others, or the list goes with its last one. */
  lemma BookUnsubscribe(w: map<ElemId, WatchState>, notifiers: map<NotifierId, Notifier>, n: NotifierId, ws: WatchState)
    requires Book(w, notifiers) && n in notifiers && !notifiers[n].disposed
    requires var x, ex := notifiers[n].element, notifiers[n].expression;
      x in w && ex in w[x].notifiersByExpression &&
      (|w[x].notifiersByExpression[ex]| > 1 ==>
        ws.notifiersByExpression == w[x].notifiersByExpression[ex := Without(w[x].notifiersByExpression[ex], n)]) &&
      (|w[x].notifiersByExpression[ex]| <= 1 ==> ws.notifiersByExpression == w[x].notifiersByExpression - {ex})
    ensures Book(w[notifiers[n].element := ws], notifiers[n := notifiers[n].(disposed := true)])
  {
    var x, ex := notifiers[n].element, notifiers[n].expression;
    var w', nt' := w[x := ws], notifiers[n := notifiers[n].(disposed := true)];
    var l := w[x].notifiersByExpression[ex];
    assert n in l;
    WithoutFacts(l, n);
    forall y, e | y in w' && e in w'[y].notifiersByExpression
      ensures ListOf(w'[y].notifiersByExpression[e], nt', y, e)
    {
      if y == x && e == ex {
        ListWithout(l, notifiers, y, e, n);
        ListRetire(Without(l, n), notifiers, y, e, n);
      } else {
        var k := w[y].notifiersByExpression[e];
        assert n !in k;
        ListRetire(k, notifiers, y, e, n);
      }
    }
    forall m | m in nt' && !nt'[m].disposed
      ensures nt'[m].element in w' && nt'[m].expression in w'[nt'[m].element].notifiersByExpression &&
              m in w'[nt'[m].element].notifiersByExpression[nt'[m].expression]
    {
      if nt'[m].element == x && nt'[m].expression == ex {
        assert m in l && m != n;
      }
    }
  }

  // ----- The other parts of the invariant under a change of one element's watch state -----

  lemma NotifiersExtend(notifiers: map<NotifierId, Notifier>, keys: set<ElemId>, next: NotifierId, nt: Notifier)
    requires NotifiersClosed(notifiers, keys, next) && nt.element in keys
    requires nt.handler.OnDependency? ==> nt.handler.owner in keys
    ensures NotifiersClosed(notifiers[next := nt], keys, next + 1)
  {
  }

  lemma DepsExtend(d: map<ElemId, map<Edge, NotifierId>>, notifiers: map<NotifierId, Notifier>, n: NotifierId, nt: Notifier)
    requires DependenciesOwned(d, notifiers) && n !in notifiers
    ensures DependenciesOwned(d, notifiers[n := nt])
  {
  }

  lemma DepsUpdate(d: map<ElemId, map<Edge, NotifierId>>, notifiers: map<NotifierId, Notifier>, x: ElemId, m: map<Edge, NotifierId>)
    requires DependenciesOwned(d, notifiers) && OwnsAll(notifiers, m, x)
    ensures DependenciesOwned(d[x := m], notifiers)
  {
  }

  lemma DepsRetire(d: map<ElemId, map<Edge, NotifierId>>, notifiers: map<NotifierId, Notifier>, n: NotifierId)
    requires DependenciesOwned(d, notifiers) && n in notifiers
    ensures DependenciesOwned(d, notifiers[n := notifiers[n].(disposed := true)])
  {
  }

  lemma WatchersUpdate(w: map<ElemId, WatchState>, disposing: set<ElemId>, x: ElemId, ws: WatchState)
    requires WatchersConsistent(w, disposing)
    requires ws.relationshipWatchers <= ws.notifiersByExpression.Keys
    requires x in disposing ==> ws.relationshipWatchers == {}
    ensures WatchersConsistent(w[x := ws], disposing)
  {
  }

  lemma UnhandledUpdate(w: map<ElemId, WatchState>, providers: map<ElemId, seq<ProviderId>>, g: seq<ProviderId>,
                        h: Handles, x: ElemId, ws: WatchState)
    requires WatchersUnhandled(w, providers, g, h) && x in w && x in providers
    requires forall e :: e in ws.relationshipWatchers && e !in w[x].relationshipWatchers ==>
      !Handled(h, providers[x] + g, x, e)
    ensures WatchersUnhandled(w[x := ws], providers, g, h)
  {
  }

  lemma BalancedKeys(w: map<ElemId, WatchState>, calls: seq<WatchCall>, x: ElemId, ws: WatchState)
    requires Balanced(w, calls) && x in w
    requires ws.notifiersByExpression.Keys == w[x].notifiersByExpression.Keys
    ensures Balanced(w[x := ws], calls)
  {
    forall y, e | y in w[x := ws]
      ensures Count(calls, WatchCall(y, e, true)) == Count(calls, WatchCall(y, e, false)) +
        (if e in w[x := ws][y].notifiersByExpression then 1 else 0)
    {
      assert e in w[x := ws][y].notifiersByExpression <==> e in w[y].notifiersByExpression;
    }
  }

  /** The first subscriber to ex is matched by one WatchProperty call, the last leaving by
      one UnwatchProperty call. */
  lemma BalancedCall(w: map<ElemId, WatchState>, calls: seq<WatchCall>, x: ElemId, ex: Expr, watch: bool, ws: WatchState)
    requires Balanced(w, calls) && x in w
    requires watch ==> ex !in w[x].notifiersByExpression &&
                       ws.notifiersByExpression.Keys == w[x].notifiersByExpression.Keys + {ex}
    requires !watch ==> ex in w[x].notifiersByExpression &&
                        ws.notifiersByExpression.Keys == w[x].notifiersByExpression.Keys - {ex}
    ensures Balanced(w[x := ws], calls + [WatchCall(x, ex, watch)])
  {
    CountSnoc(calls, WatchCall(x, ex, watch));
    forall y, e | y in w[x := ws]
      ensures Count(calls + [WatchCall(x, ex, watch)], WatchCall(y, e, true)) ==
        Count(calls + [WatchCall(x, ex, watch)], WatchCall(y, e, false)) +
        (if e in w[x := ws][y].notifiersByExpression then 1 else 0)
    {
      assert Count(calls, WatchCall(y, e, true)) == Count(calls, WatchCall(y, e, false)) +
        (if e in w[y].notifiersByExpression then 1 else 0);
    }
  }

  // ----- A new element -----

  /** The arena after the UiDomElement constructor ran. */
  function Created(a: Arena, debugId: string, kind: Kind): Arena {
    Arena(a.elems[a.nextElem := NewElement(debugId, kind)], a.notifiers, a.idle, a.watchCalls,
          a.nextElem + 1, a.nextNotifier)
  }

  lemma CreatedKeeps(a: Arena, b: Arena, debugId: string, kind: Kind, g: seq<ProviderId>, h: Handles)
    requires Inv(a, g, h)
    requires b.elems == a.elems[a.nextElem := NewElement(debugId, kind)] && b.nextElem == a.nextElem + 1
    requires b.notifiers == a.notifiers && b.idle == a.idle && b.watchCalls == a.watchCalls &&
             b.nextNotifier == a.nextNotifier
    ensures a.nextElem !in a.elems
    ensures Inv(b, g, h)
  {
    assert b == Created(a, debugId, kind);
    CreatedRest(a, debugId, kind, g, h);
    CreatedTable(a, debugId, kind);
  }

  lemma CreatedTable(a: Arena, debugId: string, kind: Kind)
    requires Table(a) && a.nextElem !in a.elems
    ensures Table(Created(a, debugId, kind))
  {
    var x, v := a.nextElem, NewElement(debugId, kind);
    UpdateWatches(a.elems, x, v);
    UpdateDeps(a.elems, x, v);
    FreshBook(Watches(a.elems), a.notifiers, x, v.watch);
    FreshDeps(Deps(a.elems), a.notifiers, x);
  }

  lemma FreshBook(w: map<ElemId, WatchState>, notifiers: map<NotifierId, Notifier>, x: ElemId, ws: WatchState)
    requires Book(w, notifiers) && x !in w && ws.notifiersByExpression == map[]
    ensures Book(w[x := ws], notifiers)
  {
  }

  lemma FreshDeps(d: map<ElemId, map<Edge, NotifierId>>, notifiers: map<NotifierId, Notifier>, x: ElemId)
    requires DependenciesOwned(d, notifiers)
    ensures DependenciesOwned(d[x := map[]], notifiers)
  {
  }

  lemma CreatedRest(a: Arena, debugId: string, kind: Kind, g: seq<ProviderId>, h: Handles)
    requires Rest(a, g, h)
    ensures a.nextElem !in a.elems
    ensures Rest(Created(a, debugId, kind), g, h)
  {
    var x, v := a.nextElem, NewElement(debugId, kind);
    assert x !in Trees(a.elems);
    FreshTree(a.elems, x, v);
    FreshWatchers(a.elems, x, v);
    FreshUnhandled(a.elems, x, v, g, h);
    FreshPending(a.elems, x, v);
    FreshPolls(a.elems, x, v);
    FreshBalanced(a.elems, a.watchCalls, x, v);
  }

  lemma FreshTree(e: map<ElemId, ElementState>, x: ElemId, v: ElementState)
    requires TreeClosed(Trees(e), x) && v.tree.children == [] && v.tree.parent.None?
    ensures TreeClosed(Trees(e[x := v]), x + 1)
  {
    UpdateTrees(e, x, v);
  }

  lemma FreshWatchers(e: map<ElemId, ElementState>, x: ElemId, v: ElementState)
    requires WatchersConsistent(Watches(e), Disposing(e)) && v.watch.relationshipWatchers == {}
    ensures WatchersConsistent(Watches(e[x := v]), Disposing(e[x := v]))
  {
    UpdateWatches(e, x, v);
    UpdateDisposing(e, x, v);
  }

  lemma FreshUnhandled(e: map<ElemId, ElementState>, x: ElemId, v: ElementState, g: seq<ProviderId>, h: Handles)
    requires WatchersUnhandled(Watches(e), Providers(e), g, h) && v.watch.relationshipWatchers == {}
    ensures WatchersUnhandled(Watches(e[x := v]), Providers(e[x := v]), g, h)
  {
    UpdateWatches(e, x, v);
    UpdateProviders(e, x, v);
  }

  lemma FreshPending(e: map<ElemId, ElementState>, x: ElemId, v: ElementState)
    requires !v.rules.updatingRules && !v.tracked.updating
    ensures Pending(e[x := v]) <= Pending(e)
  {
    UpdatePending(e, x, v);
  }

  lemma FreshPolls(e: map<ElemId, ElementState>, x: ElemId, v: ElementState)
    requires PollsValid(Polls(e)) && v.polls == Polling.Empty
    ensures PollsValid(Polls(e[x := v]))
  {
    UpdatePolls(e, x, v);
    Polling.PollEndTeardownPreserveValid(Polling.Empty, ChildrenProperty, Polling.SelectionIndexRefresh, 0);
  }

  lemma FreshBalanced(e: map<ElemId, ElementState>, calls: seq<WatchCall>, x: ElemId, v: ElementState)
    requires Balanced(Watches(e), calls) && CallsClosed(calls, x) && v.watch.notifiersByExpression == map[]
    ensures Balanced(Watches(e[x := v]), calls)
  {
    UpdateWatches(e, x, v);
    var w := Watches(e)[x := v.watch];
    forall y, ex | y in w
      ensures Count(calls, WatchCall(y, ex, true)) == Count(calls, WatchCall(y, ex, false)) +
              (if ex in w[y].notifiersByExpression then 1 else 0)
    {
      if y == x {
        CountAbsent(calls, WatchCall(x, ex, true));
        CountAbsent(calls, WatchCall(x, ex, false));
      } else {
        assert y in Watches(e);
      }
    }
  }

  // ----- AddPropertyChangeNotifier and PropertyChangeNotifier.Dispose on the arena -----

  /** The arena after a notifier for ex on x is appended to the existing list. */
  function Appended(a: Arena, x: ElemId, ex: Expr, hd: Handler): Arena
    requires x in a.elems && ex in a.elems[x].watch.notifiersByExpression
  {
    var s := a.elems[x];
    Arena(a.elems[x := WithList(s, ex, s.watch.notifiersByExpression[ex] + [a.nextNotifier])], Fresh(a, x, ex, hd),
          a.idle, a.watchCalls, a.nextElem, a.nextNotifier + 1)
  }

  function Headed(a: Arena, x: ElemId, ex: Expr, hd: Handler, g: seq<ProviderId>, h: Handles): Arena
    requires x in a.elems
  {
    Arena(a.elems[x := Watched(WithList(a.elems[x], ex, [a.nextNotifier]), x, ex, g, h)], Fresh(a, x, ex, hd),
          a.idle, a.watchCalls + [WatchCall(x, ex, true)], a.nextElem, a.nextNotifier + 1)
  }

  /** Whether Dispose can look up the notifier's list: a live notifier's element has one. */
  predicate Listed(a: Arena, n: NotifierId) {
    n in a.notifiers &&
    (!a.notifiers[n].disposed ==>
      a.notifiers[n].element in a.elems &&
      a.notifiers[n].expression in a.elems[a.notifiers[n].element].watch.notifiersByExpression)
  }

  /** The arena after notifier n is disposed: nothing if it was disposed already; otherwise it
      leaves its list, and when it was the last one the list goes and UnwatchProperty runs. */
  function Unsubscribed(a: Arena, n: NotifierId, g: seq<ProviderId>, h: Handles): Arena
    requires Listed(a, n)
  {
    var nt := a.notifiers[n];
    if nt.disposed then a
    else if |a.elems[nt.element].watch.notifiersByExpression[nt.expression]| == 1 then Dropped(a, n, g, h)
    else Shrunk(a, n)
  }

  function Shrunk(a: Arena, n: NotifierId): Arena
    requires Listed(a, n) && !a.notifiers[n].disposed
  {
    var x, ex := a.notifiers[n].element, a.notifiers[n].expression;
    var s := a.elems[x];
    Arena(a.elems[x := WithList(s, ex, Without(s.watch.notifiersByExpression[ex], n))], Retired(a, n), a.idle,
          a.watchCalls, a.nextElem, a.nextNotifier)
  }

  function Dropped(a: Arena, n: NotifierId, g: seq<ProviderId>, h: Handles): Arena
    requires Listed(a, n) && !a.notifiers[n].disposed
  {
    var x, ex := a.notifiers[n].element, a.notifiers[n].expression;
    Arena(a.elems[x := Unwatched(WithoutList(a.elems[x], ex), x, ex, g, h)], Retired(a, n), a.idle,
          a.watchCalls + [WatchCall(x, ex, false)], a.nextElem, a.nextNotifier)
  }

  function UnsubscribeEffects(a: Arena, n: NotifierId, g: seq<ProviderId>, h: Handles): seq<Effect>
    requires Listed(a, n)
  {
    var nt := a.notifiers[n];
    if nt.disposed then []
    else
      var s := a.elems[nt.element];
      if |s.watch.notifiersByExpression[nt.expression]| == 1 then
        UnwatchEffects(WithoutList(s, nt.expression), nt.element, nt.expression, g, h)
      else []
  }

  /** The fields a disposal touches, and those it leaves alone. */
  lemma UnsubscribedFields(a: Arena, n: NotifierId, g: seq<ProviderId>, h: Handles)
    requires Listed(a, n)
    ensures var u := Unsubscribed(a, n, g, h);
      u.idle == a.idle && u.nextElem == a.nextElem && u.nextNotifier == a.nextNotifier &&
      u.notifiers == Retired(a, n) &&
      (a.notifiers[n].disposed ==> u.elems == a.elems && u.watchCalls == a.watchCalls &&
                                   UnsubscribeEffects(a, n, g, h) == [])
  {
  }

  /** A notifier appended to an existing list keeps the invariant; b is the new arena,
      given field by field. */
  lemma AppendedStep(a: Arena, b: Arena, x: ElemId, ex: Expr, hd: Handler, g: seq<ProviderId>, h: Handles)
    requires Inv(a, g, h) && x in a.elems && (hd.OnDependency? ==> hd.owner in a.elems)
    requires ex in a.elems[x].watch.notifiersByExpression
    requires b.elems == a.elems[x := WithList(a.elems[x], ex, a.elems[x].watch.notifiersByExpression[ex] + [a.nextNotifier])]
    requires b.notifiers == a.notifiers[a.nextNotifier := Notifier(x, ex, hd, false)]
    requires b.idle == a.idle && b.watchCalls == a.watchCalls && b.nextElem == a.nextElem
    requires b.nextNotifier == a.nextNotifier + 1
    ensures Inv(b, g, h)
  {
    assert b == Appended(a, x, ex, hd);
    AppendedTable(a, x, ex, hd, g, h);
    AppendedRest(a, x, ex, hd, g, h);
  }

  /** The first notifier of an expression, whose list is created and whose WatchProperty
      runs, keeps the invariant; b is the new arena, given field by field. */
  lemma HeadedStep(a: Arena, b: Arena, x: ElemId, ex: Expr, hd: Handler, g: seq<ProviderId>, h: Handles)
    requires Inv(a, g, h) && x in a.elems && (hd.OnDependency? ==> hd.owner in a.elems)
    requires ex !in a.elems[x].watch.notifiersByExpression
    requires b.elems == a.elems[x := Watched(WithList(a.elems[x], ex, [a.nextNotifier]), x, ex, g, h)]
    requires b.notifiers == a.notifiers[a.nextNotifier := Notifier(x, ex, hd, false)]
    requires b.idle == a.idle && b.watchCalls == a.watchCalls + [WatchCall(x, ex, true)]
    requires b.nextElem == a.nextElem && b.nextNotifier == a.nextNotifier + 1
    ensures Inv(b, g, h)
  {
    assert b == Headed(a, x, ex, hd, g, h);
    HeadedTable(a, x, ex, hd, g, h);
    HeadedRest(a, x, ex, hd, g, h);
  }

  /** The subscribers of p on x are live notifiers, no two alike, whose owners are elements. */
  lemma SubscribersLive(a: Arena, x: ElemId, p: Expr, g: seq<ProviderId>, h: Handles)
    requires Inv(a, g, h) && x in a.elems
    ensures var l := Subscribers(a.elems[x], p);
      Distinct(l) &&
      forall i :: 0 <= i < |l| ==>
        l[i] in a.notifiers && (a.notifiers[l[i]].handler.OnDependency? ==> a.notifiers[l[i]].handler.owner in a.elems)
  {
    assert Table(a);
    SubscribersListed(a.elems, a.notifiers, a.nextNotifier, x, p);
  }

  /** SubscribersLive for every property at once, in the form the dispatch needs. */
  lemma SubscribersAllLive(a: Arena, x: ElemId, g: seq<ProviderId>, h: Handles)
    requires Inv(a, g, h) && x in a.elems
    ensures forall p :: Distinct(Subscribers(a.elems[x], p))
    ensures forall p, i :: 0 <= i < |Subscribers(a.elems[x], p)| ==>
      Subscribers(a.elems[x], p)[i] in a.notifiers &&
      (a.notifiers[Subscribers(a.elems[x], p)[i]].handler.OnDependency? ==>
        a.notifiers[Subscribers(a.elems[x], p)[i]].handler.owner in a.elems)
  {
    assert Table(a);
    forall p ensures Distinct(Subscribers(a.elems[x], p)) {
      SubscribersListed(a.elems, a.notifiers, a.nextNotifier, x, p);
    }
    forall p, i | 0 <= i < |Subscribers(a.elems[x], p)| ensures
      Subscribers(a.elems[x], p)[i] in a.notifiers &&
      (a.notifiers[Subscribers(a.elems[x], p)[i]].handler.OnDependency? ==>
        a.notifiers[Subscribers(a.elems[x], p)[i]].handler.owner in a.elems)
    {
      SubscribersListed(a.elems, a.notifiers, a.nextNotifier, x, p);
    }
  }

  /** The handlers called for the changed properties of a live element, in any order,
      keep the invariant, and what they do depends only on the set of properties. */
  lemma BroadcastKeeps(a: Arena, c: Arena, x: ElemId, order: seq<Expr>, changed: set<Expr>, g: seq<ProviderId>, h: Handles)
    requires Inv(a, g, h) && x in a.elems && Lists(order, changed)
    requires var b := Broadcast(a.elems, a.notifiers, a.elems[x], x, order);
      c.elems == b.elems && c.idle == a.idle + b.passes && c.notifiers == a.notifiers &&
      c.watchCalls == a.watchCalls && c.nextElem == a.nextElem && c.nextNotifier == a.nextNotifier
    ensures Inv(c, g, h)
    ensures var b := Broadcast(a.elems, a.notifiers, a.elems[x], x, order);
      var w := Woken(a.notifiers, a.elems[x], changed);
      b.elems == Wake(a.elems, w) && Lists(b.passes, PassesFor(Newly(a.elems, w))) &&
      Lists(b.calls, Called(a.notifiers, a.elems[x], x, changed))
  {
    SubscribersAllLive(a, x, g, h);
    BroadcastMeaning(a.elems, a.notifiers, a.elems[x], x, order, changed);
    var b := Broadcast(a.elems, a.notifiers, a.elems[x], x, order);
    WakeKeeps(a, Woken(a.notifiers, a.elems[x], changed), b.passes, g, h);
    assert c == a.(elems := Wake(a.elems, Woken(a.notifiers, a.elems[x], changed)), idle := a.idle + b.passes);
  }

  lemma SubscribersListed(e: map<ElemId, ElementState>, notifiers: map<NotifierId, Notifier>, nextNotifier: NotifierId,
                          x: ElemId, p: Expr)
    requires NotifiersClosed(notifiers, e.Keys, nextNotifier) && Book(Watches(e), notifiers) && x in e
    ensures var l := Subscribers(e[x], p);
      Distinct(l) &&
      forall i :: 0 <= i < |l| ==>
        l[i] in notifiers && (notifiers[l[i]].handler.OnDependency? ==> notifiers[l[i]].handler.owner in e)
  {
    if p in e[x].watch.notifiersByExpression {
      var w := Watches(e);
      assert x in w && w[x] == e[x].watch;
      assert ListOf(w[x].notifiersByExpression[p], notifiers, x, p);
    }
  }

  /** A live notifier's element has its list. */
  lemma ListedAt(a: Arena, n: NotifierId, g: seq<ProviderId>, h: Handles)
    requires Inv(a, g, h) && n in a.notifiers
    ensures Listed(a, n)
  {
    var nt := a.notifiers[n];
    if !nt.disposed {
      assert nt.element in Watches(a.elems);
    }
  }

  /** Unsubscribing leaves every element's rule state alone. */
  lemma UnsubscribedRules(a: Arena, n: NotifierId, g: seq<ProviderId>, h: Handles)
    requires Listed(a, n)
    ensures var u := Unsubscribed(a, n, g, h);
      u.elems.Keys == a.elems.Keys && forall y :: y in a.elems ==> u.elems[y].rules == a.elems[y].rules
  {
  }

  /** Waking elements changes only their rule-pass flags. */
  lemma WakeRules(e: map<ElemId, ElementState>, w: set<ElemId>, y: ElemId)
    requires y in e
    ensures Wake(e, w)[y].rules == e[y].rules.(updatingRules := Wake(e, w)[y].rules.updatingRules)
  {
  }

  /** UnsubscribedKeeps for an arena b whose fields are those of the arena after Dispose. */
  lemma UnsubscribedStep(a: Arena, b: Arena, n: NotifierId, g: seq<ProviderId>, h: Handles)
    requires Inv(a, g, h) && n in a.notifiers
    requires SameFields(Unsubscribed(a, n, g, h), b)
    ensures Inv(b, g, h)
  {
    UnsubscribedKeeps(a, n, g, h);
    SameInv(Unsubscribed(a, n, g, h), b, g, h);
  }

  lemma UnsubscribedKeeps(a: Arena, n: NotifierId, g: seq<ProviderId>, h: Handles)
    requires Inv(a, g, h) && n in a.notifiers
    ensures Listed(a, n)
    ensures Inv(Unsubscribed(a, n, g, h), g, h)
  {
    var nt := a.notifiers[n];
    if !nt.disposed {
      var x, ex := nt.element, nt.expression;
      assert x in Watches(a.elems);
      var l := a.elems[x].watch.notifiersByExpression[ex];
      if |l| == 1 {
        DroppedTable(a, n, x, ex, g, h);
        DroppedRest(a, n, x, ex, g, h);
      } else {
        ShrunkTable(a, n, x, ex, g, h);
        ShrunkRest(a, n, x, ex, g, h);
      }
    }
  }

  lemma NotifiersRetire(notifiers: map<NotifierId, Notifier>, keys: set<ElemId>, next: NotifierId, n: NotifierId)
    requires NotifiersClosed(notifiers, keys, next) && n in notifiers
    ensures NotifiersClosed(notifiers[n := notifiers[n].(disposed := true)], keys, next)
  {
  }

  lemma ShrunkTable(a: Arena, n: NotifierId, x: ElemId, ex: Expr, g: seq<ProviderId>, h: Handles)
    requires Table(a) && Listed(a, n) && !a.notifiers[n].disposed
    requires x == a.notifiers[n].element && ex == a.notifiers[n].expression
    requires |a.elems[x].watch.notifiersByExpression[ex]| != 1
    ensures var b := Shrunk(a, n);
      NotifiersClosed(b.notifiers, b.elems.Keys, b.nextNotifier) &&
      Book(Watches(b.elems), b.notifiers) &&
      DependenciesOwned(Deps(b.elems), b.notifiers)
  {
    var v := Shrunk(a, n).elems[x];
    UpdateWatches(a.elems, x, v);
    UpdateDeps(a.elems, x, v);
    assert a.elems[x := v].Keys == a.elems.Keys;
    assert Watches(a.elems)[x] == a.elems[x].watch;
    NotifiersRetire(a.notifiers, a.elems.Keys, a.nextNotifier, n);
    DepsRetire(Deps(a.elems), a.notifiers, n);
    BookUnsubscribe(Watches(a.elems), a.notifiers, n, v.watch);
  }

  lemma ShrunkRest(a: Arena, n: NotifierId, x: ElemId, ex: Expr, g: seq<ProviderId>, h: Handles)
    requires Rest(a, g, h) && Listed(a, n) && !a.notifiers[n].disposed
    requires x == a.notifiers[n].element && ex == a.notifiers[n].expression
    requires |a.elems[x].watch.notifiersByExpression[ex]| != 1
    ensures Rest(Shrunk(a, n), g, h)
  {
    var b := Shrunk(a, n);
    WatchersOf(a.elems, x);
    WatchStepRest(a, b, x, b.elems[x], SameKeys, g, h);
  }

  lemma DroppedTable(a: Arena, n: NotifierId, x: ElemId, ex: Expr, g: seq<ProviderId>, h: Handles)
    requires Table(a) && Listed(a, n) && !a.notifiers[n].disposed
    requires x == a.notifiers[n].element && ex == a.notifiers[n].expression
    requires |a.elems[x].watch.notifiersByExpression[ex]| == 1
    ensures var b := Dropped(a, n, g, h);
      NotifiersClosed(b.notifiers, b.elems.Keys, b.nextNotifier) &&
      Book(Watches(b.elems), b.notifiers) &&
      DependenciesOwned(Deps(b.elems), b.notifiers)
  {
    var v := Dropped(a, n, g, h).elems[x];
    assert v.watch.notifiersByExpression == a.elems[x].watch.notifiersByExpression - {ex};
    assert v.rules == a.elems[x].rules;
    Same(a.elems, x, v);
    assert Watches(a.elems)[x] == a.elems[x].watch;
    NotifiersRetire(a.notifiers, a.elems.Keys, a.nextNotifier, n);
    DepsRetire(Deps(a.elems), a.notifiers, n);
    BookUnsubscribe(Watches(a.elems), a.notifiers, n, v.watch);
  }

  lemma DroppedRest(a: Arena, n: NotifierId, x: ElemId, ex: Expr, g: seq<ProviderId>, h: Handles)
    requires Rest(a, g, h) && Listed(a, n) && !a.notifiers[n].disposed
    requires x == a.notifiers[n].element && ex == a.notifiers[n].expression
    requires |a.elems[x].watch.notifiersByExpression[ex]| == 1
    ensures Rest(Dropped(a, n, g, h), g, h)
  {
    var b := Dropped(a, n, g, h);
    WatchersOf(a.elems, x);
    UnhandledOf(a.elems, x, g, h);
    assert Polling.Valid(Polls(a.elems)[x]);
    DroppedShape(a.elems[x], x, ex, g, h);
    WatchStepRest(a, b, x, b.elems[x], RemovedKey(ex), g, h);
  }

  lemma UnhandledOf(e: map<ElemId, ElementState>, x: ElemId, g: seq<ProviderId>, h: Handles)
    requires WatchersUnhandled(Watches(e), Providers(e), g, h) && x in e
    ensures forall ex :: ex in e[x].watch.relationshipWatchers ==> !Handled(h, e[x].providers + g, x, ex)
  {
    assert Watches(e)[x] == e[x].watch && Providers(e)[x] == e[x].providers;
  }

  /** What UnwatchProperty does to a record whose last subscriber to ex just left. */
  lemma DroppedShape(s: ElementState, x: ElemId, ex: Expr, g: seq<ProviderId>, h: Handles)
    requires s.watch.relationshipWatchers <= s.watch.notifiersByExpression.Keys
    requires s.rules.disposing ==> s.watch.relationshipWatchers == {}
    requires forall e :: e in s.watch.relationshipWatchers ==> !Handled(h, s.providers + g, x, e)
    requires ex in s.watch.notifiersByExpression && Polling.Valid(s.polls)
    ensures var v := Unwatched(WithoutList(s, ex), x, ex, g, h);
      v == s.(watch := v.watch, polls := v.polls, kind := v.kind) &&
      Polling.Valid(v.polls) &&
      v.watch.relationshipWatchers <= v.watch.notifiersByExpression.Keys &&
      (v.rules.disposing ==> v.watch.relationshipWatchers == {}) &&
      v.watch.relationshipWatchers <= s.watch.relationshipWatchers &&
      v.watch.notifiersByExpression.Keys == s.watch.notifiersByExpression.Keys - {ex}
  {
    Polling.PollEndTeardownPreserveValid(s.polls, ex, Polling.SelectionIndexRefresh, SelectionPollInterval);
  }

  lemma AppendedTable(a: Arena, x: ElemId, ex: Expr, hd: Handler, g: seq<ProviderId>, h: Handles)
    requires Table(a) && x in a.elems && (hd.OnDependency? ==> hd.owner in a.elems)
    requires ex in a.elems[x].watch.notifiersByExpression
    ensures var b := Appended(a, x, ex, hd);
      NotifiersClosed(b.notifiers, b.elems.Keys, b.nextNotifier) &&
      Book(Watches(b.elems), b.notifiers) &&
      DependenciesOwned(Deps(b.elems), b.notifiers)
  {
    var n, s := a.nextNotifier, a.elems[x];
    var v := Appended(a, x, ex, hd).elems[x];
    var nt := Notifier(x, ex, hd, false);
    Same(a.elems, x, v);
    assert Watches(a.elems)[x] == s.watch;
    assert n !in a.notifiers;
    NotifiersExtend(a.notifiers, a.elems.Keys, n, nt);
    DepsExtend(Deps(a.elems), a.notifiers, n, nt);
    BookSubscribe(Watches(a.elems), a.notifiers, x, ex, n, hd, v.watch);
  }

  lemma AppendedRest(a: Arena, x: ElemId, ex: Expr, hd: Handler, g: seq<ProviderId>, h: Handles)
    requires Rest(a, g, h) && x in a.elems
    requires ex in a.elems[x].watch.notifiersByExpression
    ensures Rest(Appended(a, x, ex, hd), g, h)
  {
    var b := Appended(a, x, ex, hd);
    WatchersOf(a.elems, x);
    WatchStepRest(a, b, x, b.elems[x], SameKeys, g, h);
  }

  lemma HeadedTable(a: Arena, x: ElemId, ex: Expr, hd: Handler, g: seq<ProviderId>, h: Handles)
    requires Table(a) && x in a.elems && (hd.OnDependency? ==> hd.owner in a.elems)
    requires ex !in a.elems[x].watch.notifiersByExpression
    ensures var b := Headed(a, x, ex, hd, g, h);
      NotifiersClosed(b.notifiers, b.elems.Keys, b.nextNotifier) &&
      Book(Watches(b.elems), b.notifiers) &&
      DependenciesOwned(Deps(b.elems), b.notifiers)
  {
    var n, s := a.nextNotifier, a.elems[x];
    var v := Headed(a, x, ex, hd, g, h).elems[x];
    var nt := Notifier(x, ex, hd, false);
    assert v.watch.notifiersByExpression == s.watch.notifiersByExpression[ex := [n]];
    assert v.rules == s.rules;
    Same(a.elems, x, v);
    assert Watches(a.elems)[x] == s.watch;
    assert n !in a.notifiers;
    NotifiersExtend(a.notifiers, a.elems.Keys, n, nt);
    DepsExtend(Deps(a.elems), a.notifiers, n, nt);
    BookSubscribe(Watches(a.elems), a.notifiers, x, ex, n, hd, v.watch);
  }

  lemma HeadedRest(a: Arena, x: ElemId, ex: Expr, hd: Handler, g: seq<ProviderId>, h: Handles)
    requires Rest(a, g, h) && x in a.elems
    requires ex !in a.elems[x].watch.notifiersByExpression
    ensures Rest(Headed(a, x, ex, hd, g, h), g, h)
  {
    var b := Headed(a, x, ex, hd, g, h);
    WatchersOf(a.elems, x);
    assert Polling.Valid(Polls(a.elems)[x]);
    HeadedShape(a.elems[x], x, ex, a.nextNotifier, g, h);
    WatchStepRest(a, b, x, b.elems[x], AddedKey(ex), g, h);
  }

  lemma CallsSnoc(calls: seq<WatchCall>, c: WatchCall, ne: ElemId)
    requires CallsClosed(calls, ne) && c.element < ne
    ensures CallsClosed(calls + [c], ne)
  {
  }

  /** What WatchProperty does to a record that just got its first subscriber to ex. */
  lemma HeadedShape(s: ElementState, x: ElemId, ex: Expr, n: NotifierId, g: seq<ProviderId>, h: Handles)
    requires s.watch.relationshipWatchers <= s.watch.notifiersByExpression.Keys
    requires s.rules.disposing ==> s.watch.relationshipWatchers == {}
    requires ex !in s.watch.notifiersByExpression && Polling.Valid(s.polls)
    ensures var v := Watched(WithList(s, ex, [n]), x, ex, g, h);
      v == s.(watch := v.watch, polls := v.polls, kind := v.kind) &&
      Polling.Valid(v.polls) &&
      v.watch.relationshipWatchers <= v.watch.notifiersByExpression.Keys &&
      (v.rules.disposing ==> v.watch.relationshipWatchers == {}) &&
      (forall e :: e in v.watch.relationshipWatchers && e !in s.watch.relationshipWatchers ==>
        !Handled(h, v.providers + g, x, e)) &&
      v.watch.notifiersByExpression.Keys == s.watch.notifiersByExpression.Keys + {ex}
  {
    Polling.PollEndTeardownPreserveValid(s.polls, ex, Polling.SelectionIndexRefresh, SelectionPollInterval);
  }

  /** How a step changes the expressions an element has subscribers for. */
  datatype KeyChange = SameKeys | AddedKey(ex: Expr) | RemovedKey(ex: Expr)

  // One lemma per part of the invariant, for a change to one record.

  lemma WatchersOf(e: map<ElemId, ElementState>, x: ElemId)
    requires WatchersConsistent(Watches(e), Disposing(e)) && x in e
    ensures e[x].watch.relationshipWatchers <= e[x].watch.notifiersByExpression.Keys
    ensures e[x].rules.disposing ==> e[x].watch.relationshipWatchers == {}
  {
    assert Watches(e)[x] == e[x].watch;
    if e[x].rules.disposing {
      assert x in Disposing(e);
    }
  }

  lemma KeepTree(e: map<ElemId, ElementState>, x: ElemId, v: ElementState, ne: ElemId)
    requires TreeClosed(Trees(e), ne) && x in e && v.tree == e[x].tree
    ensures TreeClosed(Trees(e[x := v]), ne)
  {
    UpdateTrees(e, x, v);
  }

  lemma KeepTasks(idle: seq<IdleTask>, e: map<ElemId, ElementState>, x: ElemId, v: ElementState)
    requires TasksClosed(idle, e.Keys) && x in e
    ensures TasksClosed(idle, e[x := v].Keys)
  {
    assert e[x := v].Keys == e.Keys;
  }

  lemma KeepWatchers(e: map<ElemId, ElementState>, x: ElemId, v: ElementState)
    requires WatchersConsistent(Watches(e), Disposing(e)) && x in e
    requires v.watch.relationshipWatchers <= v.watch.notifiersByExpression.Keys
    requires v.rules.disposing ==> v.watch.relationshipWatchers == {}
    requires v.rules.disposing == e[x].rules.disposing
    ensures WatchersConsistent(Watches(e[x := v]), Disposing(e[x := v]))
  {
    UpdateWatches(e, x, v);
    UpdateDisposing(e, x, v);
    if e[x].rules.disposing {
      assert x in Disposing(e);
    }
    assert Disposing(e[x := v]) == Disposing(e);
    WatchersUpdate(Watches(e), Disposing(e), x, v.watch);
  }

  lemma KeepUnhandled(e: map<ElemId, ElementState>, x: ElemId, v: ElementState, g: seq<ProviderId>, h: Handles)
    requires WatchersUnhandled(Watches(e), Providers(e), g, h) && x in e
    requires v.providers == e[x].providers
    requires forall ex :: ex in v.watch.relationshipWatchers && ex !in e[x].watch.relationshipWatchers ==>
      !Handled(h, v.providers + g, x, ex)
    ensures WatchersUnhandled(Watches(e[x := v]), Providers(e[x := v]), g, h)
  {
    UpdateWatches(e, x, v);
    UpdateProviders(e, x, v);
    assert Watches(e)[x] == e[x].watch && Providers(e)[x] == e[x].providers;
    UnhandledUpdate(Watches(e), Providers(e), g, h, x, v.watch);
  }

  lemma KeepPending(e: map<ElemId, ElementState>, x: ElemId, v: ElementState, idle: seq<IdleTask>)
    requires Pending(e) <= Tasks(idle) && x in e
    requires v.rules.updatingRules == e[x].rules.updatingRules && v.tracked.updating == e[x].tracked.updating
    ensures Pending(e[x := v]) <= Tasks(idle)
  {
    SamePending(e, x, v);
  }

  lemma KeepPolls(e: map<ElemId, ElementState>, x: ElemId, v: ElementState)
    requires PollsValid(Polls(e)) && x in e
    requires v.polls == e[x].polls || Polling.Valid(v.polls)
    ensures PollsValid(Polls(e[x := v]))
  {
    UpdatePolls(e, x, v);
    assert Polling.Valid(Polls(e)[x]);
    PollsValidUpdate(Polls(e), x, v.polls);
  }

  lemma KeepBalanced(e: map<ElemId, ElementState>, calls: seq<WatchCall>, calls': seq<WatchCall>, x: ElemId,
                     v: ElementState, k: KeyChange)
    requires Balanced(Watches(e), calls) && x in e
    requires k.SameKeys? ==> (calls' == calls &&
      v.watch.notifiersByExpression.Keys == e[x].watch.notifiersByExpression.Keys)
    requires k.AddedKey? ==> (calls' == calls + [WatchCall(x, k.ex, true)] &&
      k.ex !in e[x].watch.notifiersByExpression &&
      v.watch.notifiersByExpression.Keys == e[x].watch.notifiersByExpression.Keys + {k.ex})
    requires k.RemovedKey? ==> (calls' == calls + [WatchCall(x, k.ex, false)] &&
      k.ex in e[x].watch.notifiersByExpression &&
      v.watch.notifiersByExpression.Keys == e[x].watch.notifiersByExpression.Keys - {k.ex})
    ensures Balanced(Watches(e[x := v]), calls')
  {
    UpdateWatches(e, x, v);
    assert Watches(e)[x] == e[x].watch;
    match k
    case SameKeys => BalancedKeys(Watches(e), calls, x, v.watch);
    case AddedKey(ex) => BalancedCall(Watches(e), calls, x, ex, true, v.watch);
    case RemovedKey(ex) => BalancedCall(Watches(e), calls, x, ex, false, v.watch);
  }

  lemma KeepCalls(calls: seq<WatchCall>, calls': seq<WatchCall>, x: ElemId, ne: ElemId, k: KeyChange)
    requires CallsClosed(calls, ne) && x < ne
    requires k.SameKeys? ==> calls' == calls
    requires k.AddedKey? ==> calls' == calls + [WatchCall(x, k.ex, true)]
    requires k.RemovedKey? ==> calls' == calls + [WatchCall(x, k.ex, false)]
    ensures CallsClosed(calls', ne)
  {
  }

  /** A change to one element's subscribers, watchers and polls, with the watch call that
      goes with a new or vanished subscriber list. */
  lemma WatchStepRest(a: Arena, b: Arena, x: ElemId, v: ElementState, k: KeyChange, g: seq<ProviderId>, h: Handles)
    requires Rest(a, g, h) && x in a.elems
    requires b.elems == a.elems[x := v] && b.idle == a.idle && b.nextElem == a.nextElem
    requires v == a.elems[x].(watch := v.watch, polls := v.polls, kind := v.kind)
    requires v.polls == a.elems[x].polls || Polling.Valid(v.polls)
    requires v.watch.relationshipWatchers <= v.watch.notifiersByExpression.Keys
    requires v.rules.disposing ==> v.watch.relationshipWatchers == {}
    requires forall e :: e in v.watch.relationshipWatchers && e !in a.elems[x].watch.relationshipWatchers ==>
      !Handled(h, v.providers + g, x, e)
    requires k.SameKeys? ==> (b.watchCalls == a.watchCalls &&
      v.watch.notifiersByExpression.Keys == a.elems[x].watch.notifiersByExpression.Keys)
    requires k.AddedKey? ==> (b.watchCalls == a.watchCalls + [WatchCall(x, k.ex, true)] &&
      k.ex !in a.elems[x].watch.notifiersByExpression &&
      v.watch.notifiersByExpression.Keys == a.elems[x].watch.notifiersByExpression.Keys + {k.ex})
    requires k.RemovedKey? ==> (b.watchCalls == a.watchCalls + [WatchCall(x, k.ex, false)] &&
      k.ex in a.elems[x].watch.notifiersByExpression &&
      v.watch.notifiersByExpression.Keys == a.elems[x].watch.notifiersByExpression.Keys - {k.ex})
    ensures Rest(b, g, h)
  {
    assert x in Trees(a.elems);
    KeepTree(a.elems, x, v, a.nextElem);
    KeepTasks(a.idle, a.elems, x, v);
    KeepWatchers(a.elems, x, v);
    KeepUnhandled(a.elems, x, v, g, h);
    KeepPending(a.elems, x, v, a.idle);
    KeepPolls(a.elems, x, v);
    KeepCalls(a.watchCalls, b.watchCalls, x, a.nextElem, k);
    KeepBalanced(a.elems, a.watchCalls, b.watchCalls, x, v, k);
  }
}
