/** The state of the element tree as values: one record per element, the table of
    property-change notifiers, the idle queue and the record of outside calls. The class
    UiDom.Dom holds these and changes them in place; the predicates here are its invariant. */
module UiDomState {
  import opened UiDomValues
  import RuleCascade
  import Polling
  import Win32TabControl

  type NotifierId = nat
  type ProviderId = nat

  /** The handler of a property-change notifier: an element's dependency handler (which
      queues that element's rule evaluation) or a handler outside the model. */
  datatype Handler = OnDependency(owner: ElemId) | External(tag: nat)

  /** A PropertyChangeNotifier. */
  datatype Notifier = Notifier(element: ElemId, expression: Expr, handler: Handler, disposed: bool)

  /** What kind of element it is: a plain element, or a Win32 tab control with its cached
      selection state and its remote-process-memory handle. */
  datatype Kind = Plain | TabControl(tab: Win32TabControl.TabState, remoteMemory: Option<nat>)

  /** The element's place in the tree. recurseMethodChildCount is an int: the source never
      checks it against the list when an element is torn down twice over a cycle. */
  datatype Tree = Tree(children: seq<ElemId>, recurseMethodChildCount: int, parent: Option<ElemId>,
                       isAlive: bool, cachedIndexInParent: nat)

  /** The cascade's results and bookkeeping. */
  datatype RuleState = RuleState(active: RuleCascade.Declarations, assignedProperties: map<string, Value>,
                                 updatingRules: bool, dependencyNotifiers: map<Edge, NotifierId>,
                                 disposing: bool)

  /** Subscribers to the element's own properties and the relationship watchers it keeps. */
  datatype WatchState = WatchState(notifiersByExpression: map<Expr, seq<NotifierId>>,
                                   relationshipWatchers: set<Expr>)

  /** Registered tracked-property lists and the pending-update flag. */
  datatype TrackedState = TrackedState(lists: seq<seq<string>>, updating: bool)

  datatype ElementState = ElementState(
    debugId: string,
    providers: seq<ProviderId>,
    tree: Tree,
    rules: RuleState,
    watch: WatchState,
    polls: Polling.PollState,
    kind: Kind,
    tracked: TrackedState)

  /** A freshly constructed element: no parent, no children, not alive. */
  function NewElement(debugId: string, kind: Kind): ElementState {
    ElementState(debugId, [], Tree([], 0, None, false, 0), RuleState(map[], map[], false, map[], false),
                 WatchState(map[], {}), Polling.Empty, kind, TrackedState([], false))
  }

  /** A callback queued with RunIdle. */
  datatype IdleTask = EvaluateRulesOf(element: ElemId) | UpdateTrackedPropertiesOf(element: ElemId)

  /** A call of the virtual WatchProperty (watch) or UnwatchProperty (not watch). */
  datatype WatchCall = WatchCall(element: ElemId, expression: Expr, watch: bool)

  /** Calls out of the tree into code the model does not contain. */
  datatype Effect =
    | ProviderWatchCalled(provider: ProviderId, element: ElemId, expression: Expr)
    | ProviderUnwatchCalled(provider: ProviderId, element: ElemId, expression: Expr)
    | RelationshipWatcherCreated(element: ElemId, expression: Expr)
    | RelationshipWatcherDisposed(element: ElemId, expression: Expr)
    | ElementRemovedNotified(provider: ProviderId, element: ElemId)
    | ElementDied(element: ElemId)
    | DeclarationsChangedRaised(element: ElemId)
    | HandlerCalled(notifier: NotifierId, element: ElemId, property: Expr)
    | RemoteMemoryReleased(element: ElemId)

  function Count(s: seq<WatchCall>, c: WatchCall): nat {
    if s == [] then 0 else Count(s[..|s| - 1], c) + (if s[|s| - 1] == c then 1 else 0)
  }

  lemma CountSnoc(s: seq<WatchCall>, a: WatchCall)
    ensures forall c :: Count(s + [a], c) == Count(s, c) + (if a == c then 1 else 0)
  {
    assert (s + [a])[..|s|] == s;
  }

  /** A call that names no element of the arena was never made. */
  lemma CountAbsent(s: seq<WatchCall>, c: WatchCall)
    requires forall i :: 0 <= i < |s| ==> s[i] != c
    ensures Count(s, c) == 0
  {
    if s != [] {
      CountAbsent(s[..|s| - 1], c);
    }
  }

  // ----- Projections of the element table -----
  // Each part of the invariant reads one projection, so a step that leaves a projection
  // alone keeps the parts that read it without further proof.

  function Trees(e: map<ElemId, ElementState>): map<ElemId, Tree> {
    map y | y in e :: e[y].tree
  }

  function Watches(e: map<ElemId, ElementState>): map<ElemId, WatchState> {
    map y | y in e :: e[y].watch
  }

  function Deps(e: map<ElemId, ElementState>): map<ElemId, map<Edge, NotifierId>> {
    map y | y in e :: e[y].rules.dependencyNotifiers
  }

  function Polls(e: map<ElemId, ElementState>): map<ElemId, Polling.PollState> {
    map y | y in e :: e[y].polls
  }

  function Providers(e: map<ElemId, ElementState>): map<ElemId, seq<ProviderId>> {
    map y | y in e :: e[y].providers
  }

  function Disposing(e: map<ElemId, ElementState>): set<ElemId> {
    set y | y in e && e[y].rules.disposing
  }

  /** The idle callbacks the pending flags promise. */
  function Pending(e: map<ElemId, ElementState>): set<IdleTask> {
    (set y | y in e && e[y].rules.updatingRules :: EvaluateRulesOf(y)) +
    (set y | y in e && e[y].tracked.updating :: UpdateTrackedPropertiesOf(y))
  }

  function PendingOf(x: ElemId, v: ElementState): set<IdleTask> {
    (if v.rules.updatingRules then {EvaluateRulesOf(x)} else {}) +
    (if v.tracked.updating then {UpdateTrackedPropertiesOf(x)} else {})
  }

  // How replacing (or adding) one element's record changes each projection.

  lemma UpdateTrees(e: map<ElemId, ElementState>, x: ElemId, v: ElementState)
    ensures Trees(e[x := v]) == Trees(e)[x := v.tree]
    ensures x in e && v.tree == e[x].tree ==> Trees(e[x := v]) == Trees(e)
  {
  }

  lemma UpdateWatches(e: map<ElemId, ElementState>, x: ElemId, v: ElementState)
    ensures Watches(e[x := v]) == Watches(e)[x := v.watch]
    ensures x in e && v.watch == e[x].watch ==> Watches(e[x := v]) == Watches(e)
  {
  }

  lemma UpdateDeps(e: map<ElemId, ElementState>, x: ElemId, v: ElementState)
    ensures Deps(e[x := v]) == Deps(e)[x := v.rules.dependencyNotifiers]
    ensures x in e && v.rules.dependencyNotifiers == e[x].rules.dependencyNotifiers ==> Deps(e[x := v]) == Deps(e)
  {
  }

  lemma UpdatePolls(e: map<ElemId, ElementState>, x: ElemId, v: ElementState)
    ensures Polls(e[x := v]) == Polls(e)[x := v.polls]
    ensures x in e && v.polls == e[x].polls ==> Polls(e[x := v]) == Polls(e)
  {
  }

  lemma UpdateProviders(e: map<ElemId, ElementState>, x: ElemId, v: ElementState)
    ensures Providers(e[x := v]) == Providers(e)[x := v.providers]
    ensures x in e && v.providers == e[x].providers ==> Providers(e[x := v]) == Providers(e)
  {
  }

  lemma UpdateDisposing(e: map<ElemId, ElementState>, x: ElemId, v: ElementState)
    ensures Disposing(e[x := v]) == if v.rules.disposing then Disposing(e) + {x} else Disposing(e) - {x}
  {
  }

  lemma UpdatePending(e: map<ElemId, ElementState>, x: ElemId, v: ElementState)
    ensures Pending(e[x := v]) == Pending(e) - {EvaluateRulesOf(x), UpdateTrackedPropertiesOf(x)} + PendingOf(x, v)
  {
    var e' := e[x := v];
    forall t ensures t in Pending(e') <==> t in Pending(e) - {EvaluateRulesOf(x), UpdateTrackedPropertiesOf(x)} + PendingOf(x, v) {
      if t in Pending(e) {
        assert t.element in e;
      }
      if t in Pending(e') {
        assert t.element in e';
      }
    }
  }

  /** A record whose flags are those of the old one promises the same callbacks. */
  lemma SamePending(e: map<ElemId, ElementState>, x: ElemId, v: ElementState)
    requires x in e && v.rules.updatingRules == e[x].rules.updatingRules && v.tracked.updating == e[x].tracked.updating
    ensures Pending(e[x := v]) == Pending(e)
  {
    UpdatePending(e, x, v);
    if e[x].rules.updatingRules {
      assert EvaluateRulesOf(x) in Pending(e);
    }
    if e[x].tracked.updating {
      assert UpdateTrackedPropertiesOf(x) in Pending(e);
    }
  }

  /** Replacing a record changes only the projections of the fields that differ. */
  lemma Same(e: map<ElemId, ElementState>, x: ElemId, v: ElementState)
    requires x in e
    ensures e[x := v].Keys == e.Keys
    ensures Trees(e[x := v]) == Trees(e)[x := v.tree]
    ensures Watches(e[x := v]) == Watches(e)[x := v.watch]
    ensures Deps(e[x := v]) == Deps(e)[x := v.rules.dependencyNotifiers]
    ensures Polls(e[x := v]) == Polls(e)[x := v.polls]
    ensures Providers(e[x := v]) == Providers(e)[x := v.providers]
    ensures v.tree == e[x].tree ==> Trees(e[x := v]) == Trees(e)
    ensures v.watch == e[x].watch ==> Watches(e[x := v]) == Watches(e)
    ensures v.rules.dependencyNotifiers == e[x].rules.dependencyNotifiers ==> Deps(e[x := v]) == Deps(e)
    ensures v.polls == e[x].polls ==> Polls(e[x := v]) == Polls(e)
    ensures v.providers == e[x].providers ==> Providers(e[x := v]) == Providers(e)
    ensures v.rules.disposing == e[x].rules.disposing ==> Disposing(e[x := v]) == Disposing(e)
    ensures Pending(e[x := v]) == Pending(e) - {EvaluateRulesOf(x), UpdateTrackedPropertiesOf(x)} + PendingOf(x, v)
    ensures v.rules.updatingRules == e[x].rules.updatingRules && v.tracked.updating == e[x].tracked.updating ==>
      Pending(e[x := v]) == Pending(e)
  {
    UpdateTrees(e, x, v);
    UpdateWatches(e, x, v);
    UpdateDeps(e, x, v);
    UpdatePolls(e, x, v);
    UpdateProviders(e, x, v);
    UpdateDisposing(e, x, v);
    if v.rules.disposing == e[x].rules.disposing {
      if v.rules.disposing {
        assert x in Disposing(e);
      }
    }
    UpdatePending(e, x, v);
    if v.rules.updatingRules == e[x].rules.updatingRules && v.tracked.updating == e[x].tracked.updating {
      SamePending(e, x, v);
    }
  }

  // ----- The invariant, piece by piece -----

  /** Ids are below the counter that hands out fresh ones, and children and parents are
      elements of the table. */
  predicate TreeClosed(t: map<ElemId, Tree>, nextElem: ElemId) {
    (forall x :: x in t ==> x < nextElem) &&
    (forall x :: x in t ==> forall i :: 0 <= i < |t[x].children| ==> t[x].children[i] in t) &&
    (forall x :: x in t && t[x].parent.Some? ==> t[x].parent.value in t)
  }

  predicate TasksClosed(idle: seq<IdleTask>, keys: set<ElemId>) {
    forall i :: 0 <= i < |idle| ==> idle[i].element in keys
  }

  predicate NotifiersClosed(notifiers: map<NotifierId, Notifier>, keys: set<ElemId>, nextNotifier: NotifierId) {
    forall n :: n in notifiers ==>
      n < nextNotifier && notifiers[n].element in keys &&
      (notifiers[n].handler.OnDependency? ==> notifiers[n].handler.owner in keys)
  }

  /** The subscriber lists: each list is non-empty and duplicate-free and holds live
      notifiers for that element and expression; each live notifier is in its list. */
  predicate Book(w: map<ElemId, WatchState>, notifiers: map<NotifierId, Notifier>) {
    (forall x, ex :: x in w && ex in w[x].notifiersByExpression ==>
      ListOf(w[x].notifiersByExpression[ex], notifiers, x, ex)) &&
    (forall n :: n in notifiers && !notifiers[n].disposed ==>
      notifiers[n].element in w &&
      notifiers[n].expression in w[notifiers[n].element].notifiersByExpression &&
      n in w[notifiers[n].element].notifiersByExpression[notifiers[n].expression])
  }

  predicate ListOf(l: seq<NotifierId>, notifiers: map<NotifierId, Notifier>, x: ElemId, ex: Expr) {
    |l| > 0 &&
    (forall i, j :: 0 <= i < j < |l| ==> l[i] != l[j]) &&
    (forall i :: 0 <= i < |l| ==>
      l[i] in notifiers && notifiers[l[i]].element == x && notifiers[l[i]].expression == ex &&
      !notifiers[l[i]].disposed)
  }

  /** Each dependency edge of an element maps to the notifier it created on that edge. */
  predicate DependenciesOwned(d: map<ElemId, map<Edge, NotifierId>>, notifiers: map<NotifierId, Notifier>) {
    forall x, edge :: x in d && edge in d[x] ==> OwnedBy(notifiers, d[x][edge], edge, x)
  }

  predicate OwnedBy(notifiers: map<NotifierId, Notifier>, n: NotifierId, d: Edge, x: ElemId) {
    n in notifiers && notifiers[n].element == d.0 && notifiers[n].expression == d.1 &&
    notifiers[n].handler == OnDependency(x)
  }

  /** Every entry of a dependency map m kept by x is a notifier x owns for that edge. */
  predicate OwnsAll(notifiers: map<NotifierId, Notifier>, m: map<Edge, NotifierId>, x: ElemId) {
    forall d :: d in m ==> OwnedBy(notifiers, m[d], d, x)
  }

  /** Relationship watchers exist only for watched expressions, and none while disposing. */
  predicate WatchersConsistent(w: map<ElemId, WatchState>, disposing: set<ElemId>) {
    forall x :: x in w ==>
      w[x].relationshipWatchers <= w[x].notifiersByExpression.Keys &&
      (x in disposing ==> w[x].relationshipWatchers == {})
  }

  /** The index of the first provider in ps that handles ex on x, or |ps|. */
  function FirstHandler(handles: (ProviderId, ElemId, Expr) -> bool, ps: seq<ProviderId>, x: ElemId, ex: Expr): (k: nat)
    ensures k <= |ps|
    ensures forall i :: 0 <= i < k ==> !handles(ps[i], x, ex)
    ensures k < |ps| ==> handles(ps[k], x, ex)
  {
    if ps == [] then 0
    else if handles(ps[0], x, ex) then 0
    else 1 + FirstHandler(handles, ps[1..], x, ex)
  }

  /** A relationship watcher is kept only where no provider handles the expression. */
  predicate WatchersUnhandled(w: map<ElemId, WatchState>, providers: map<ElemId, seq<ProviderId>>,
                              globals: seq<ProviderId>, handles: (ProviderId, ElemId, Expr) -> bool) {
    forall x, ex :: x in w && x in providers && ex in w[x].relationshipWatchers ==>
      FirstHandler(handles, providers[x] + globals, x, ex) == |providers[x] + globals|
  }

  /** The tasks in the queue, as a set. */
  function Tasks(idle: seq<IdleTask>): set<IdleTask> {
    if idle == [] then {} else Tasks(idle[..|idle| - 1]) + {idle[|idle| - 1]}
  }

  lemma TasksSnoc(idle: seq<IdleTask>, t: IdleTask)
    ensures Tasks(idle + [t]) == Tasks(idle) + {t}
  {
    assert (idle + [t])[..|idle|] == idle;
  }

  predicate PollsValid(p: map<ElemId, Polling.PollState>) {
    forall x :: x in p ==> Polling.Valid(p[x])
  }

  /** Every recorded watch call names an element handed out already. */
  predicate CallsClosed(calls: seq<WatchCall>, nextElem: ElemId) {
    forall i :: 0 <= i < |calls| ==> calls[i].element < nextElem
  }

  /** Reference counting: WatchProperty was called once more than UnwatchProperty for exactly
      the expressions that have subscribers. */
  ghost predicate Balanced(w: map<ElemId, WatchState>, calls: seq<WatchCall>) {
    forall x, ex :: x in w ==>
      Count(calls, WatchCall(x, ex, true)) == Count(calls, WatchCall(x, ex, false)) +
        (if ex in w[x].notifiersByExpression then 1 else 0)
  }

  // ----- Live elements -----

  function AliveSet(elems: map<ElemId, ElementState>): set<ElemId> {
    set x | x in elems && elems[x].tree.isAlive
  }

  lemma SubsetCard<T>(a: set<T>, b: set<T>)
    requires a <= b
    ensures |a| <= |b|
  {
    if a != {} {
      var y :| y in a;
      SubsetCard(a - {y}, b - {y});
    }
  }
}
