/** The notifier work of DeclarationsChanged on the arena: its first loop keeps or creates a
    notifier for each dependency the rules read, its second disposes of the notifiers of the
    dependencies they no longer read. Each loop is described by what holds part way through
    it, whatever order it visits the hash set in, with a lemma for one more visit. */
module UiDomRebind {
  import opened UiDomValues
  import opened UiDomState
  import opened UiDomDispatch
  import opened UiDomSteps

  // ----- NotifyPropertyChanged on the arena -----

  /** NotifyPropertyChanged: a fresh notifier for ex on y is appended to its list; the first
      notifier of a list also has the element watch ex. */
  function Notified(a: Arena, y: ElemId, ex: Expr, hd: Handler, g: seq<ProviderId>, h: Handles): Arena
    requires y in a.elems
  {
    if ex in a.elems[y].watch.notifiersByExpression then Appended(a, y, ex, hd) else Headed(a, y, ex, hd, g, h)
  }

  /** The calls WatchProperty makes for the first notifier of a list. */
  function NotifiedEffects(a: Arena, y: ElemId, ex: Expr, g: seq<ProviderId>, h: Handles): seq<Effect>
    requires y in a.elems
  {
    if ex in a.elems[y].watch.notifiersByExpression then []
    else WatchEffects(WithList(a.elems[y], ex, [a.nextNotifier]), y, ex, g, h)
  }

  lemma NotifiedKeeps(a: Arena, y: ElemId, ex: Expr, hd: Handler, g: seq<ProviderId>, h: Handles)
    requires Inv(a, g, h) && y in a.elems && (hd.OnDependency? ==> hd.owner in a.elems)
    ensures Inv(Notified(a, y, ex, hd, g, h), g, h)
  {
    if ex in a.elems[y].watch.notifiersByExpression {
      AppendedStep(a, Notified(a, y, ex, hd, g, h), y, ex, hd, g, h);
    } else {
      HeadedStep(a, Notified(a, y, ex, hd, g, h), y, ex, hd, g, h);
    }
  }

  /** The new notifier takes the next id, and no element's rule state changes. */
  lemma NotifiedShape(a: Arena, y: ElemId, ex: Expr, hd: Handler, g: seq<ProviderId>, h: Handles)
    requires y in a.elems
    ensures var b := Notified(a, y, ex, hd, g, h);
      b.notifiers == a.notifiers[a.nextNotifier := Notifier(y, ex, hd, false)] &&
      b.nextNotifier == a.nextNotifier + 1 && b.elems.Keys == a.elems.Keys &&
      forall z :: z in a.elems ==> b.elems[z].rules == a.elems[z].rules
  {
  }

  /** m is what is left of the dependency map m0 once the dependencies ks have moved out. */
  predicate Kept(m0: map<Edge, NotifierId>, m: map<Edge, NotifierId>, ks: set<Edge>) {
    m.Keys == m0.Keys - ks && forall d :: d in m ==> m[d] == m0[d]
  }

  /** Each entry of the new map u is the old notifier m0 had for that dependency or, for a
      dependency m0 did not have, a fresh live notifier (id n0 or above) owned by x. */
  predicate Renewed(m0: map<Edge, NotifierId>, n0: NotifierId, u: map<Edge, NotifierId>,
                    notifiers: map<NotifierId, Notifier>, x: ElemId) {
    forall d :: d in u ==>
      (d in m0 ==> u[d] == m0[d]) &&
      (d !in m0 ==> n0 <= u[d] && u[d] in notifiers && notifiers[u[d]] == Notifier(d.0, d.1, OnDependency(x), false))
  }

  /** The outcome of DeclarationsChanged for the dependency map: m has exactly the
      dependencies deps, renewed from m0, and every notifier of a dependency that was
      dropped is disposed. */
  predicate Rebound(m0: map<Edge, NotifierId>, n0: NotifierId, deps: set<Edge>, m: map<Edge, NotifierId>,
                    notifiers: map<NotifierId, Notifier>, x: ElemId) {
    m.Keys == deps && Renewed(m0, n0, m, notifiers, x) &&
    forall d :: d in m0 && d !in deps ==> m0[d] in notifiers && notifiers[m0[d]].disposed
  }

  /** Every element but x keeps its rule state. */
  predicate RulesAside(e0: map<ElemId, ElementState>, e: map<ElemId, ElementState>, x: ElemId) {
    e.Keys == e0.Keys && forall y :: y in e0 && y != x ==> e[y].rules == e0[y].rules
  }

  /** t holds every notifier of t0 unchanged. */
  predicate Extends(t0: map<NotifierId, Notifier>, t: map<NotifierId, Notifier>) {
    forall n :: n in t0 ==> n in t && t[n] == t0[n]
  }

  /** t is t0 with some notifiers disposed. */
  predicate Retires(t0: map<NotifierId, Notifier>, t: map<NotifierId, Notifier>) {
    t.Keys == t0.Keys && forall n :: n in t0 ==> t[n] == t0[n].(disposed := t[n].disposed)
  }

  /** A dependency found in the old map moves to the new one with its notifier. */
  lemma MoveStep(m0: map<Edge, NotifierId>, n0: NotifierId, m: map<Edge, NotifierId>, u: map<Edge, NotifierId>,
                 notifiers: map<NotifierId, Notifier>, x: ElemId, d: Edge)
    requires Kept(m0, m, u.Keys) && Renewed(m0, n0, u, notifiers, x) && d in m
    ensures Kept(m0, m - {d}, u[d := m[d]].Keys) && Renewed(m0, n0, u[d := m[d]], notifiers, x)
  {
  }

  /** A dependency not in the old map gets the fresh notifier n. */
  lemma SubscribeStep(m0: map<Edge, NotifierId>, n0: NotifierId, m: map<Edge, NotifierId>, u: map<Edge, NotifierId>,
                      notifiers: map<NotifierId, Notifier>, x: ElemId, d: Edge, n: NotifierId)
    requires Kept(m0, m, u.Keys) && Renewed(m0, n0, u, notifiers, x) && OwnsAll(notifiers, u, x)
    requires d !in m && d !in u && n0 <= n && n !in notifiers
    ensures var t := notifiers[n := Notifier(d.0, d.1, OnDependency(x), false)];
      Kept(m0, m, u[d := n].Keys) && Renewed(m0, n0, u[d := n], t, x) && OwnsAll(t, u[d := n], x)
  {
  }

  /** Disposing notifiers below n0 keeps the renewed map. */
  lemma RenewedRetires(m0: map<Edge, NotifierId>, n0: NotifierId, u: map<Edge, NotifierId>,
                       t0: map<NotifierId, Notifier>, t: map<NotifierId, Notifier>, x: ElemId)
    requires Renewed(m0, n0, u, t0, x) && OwnsAll(t0, u, x) && Retires(t0, t)
    requires forall n :: n in t0 && n0 <= n ==> t[n] == t0[n]
    ensures Renewed(m0, n0, u, t, x) && OwnsAll(t, u, x)
  {
  }

  // ----- The first loop -----

  /** The arena part way through the first loop and the new map built so far. */
  datatype Rebinding = Rebinding(arena: Arena, updated: map<Edge, NotifierId>)

  /** The arena with m as x's dependency map. */
  function WithDeps(a: Arena, x: ElemId, m: map<Edge, NotifierId>): Arena
    requires x in a.elems
  {
    var s := a.elems[x];
    a.(elems := a.elems[x := s.(rules := s.rules.(dependencyNotifiers := m))])
  }

  /** One visit: a dependency still in x's map moves out of it with its notifier; any other
      gets a fresh notifier on the element it names, with x's dependency handler. */
  function ResubscribeOne(r: Rebinding, x: ElemId, d: Edge, g: seq<ProviderId>, h: Handles): (r': Rebinding)
    requires x in r.arena.elems && d.0 in r.arena.elems
    ensures r'.arena.elems.Keys == r.arena.elems.Keys
  {
    var m := r.arena.elems[x].rules.dependencyNotifiers;
    if d in m then Rebinding(WithDeps(r.arena, x, m - {d}), r.updated[d := m[d]])
    else Rebinding(Notified(r.arena, d.0, d.1, OnDependency(x), g, h), r.updated[d := r.arena.nextNotifier])
  }

  /** The maps part way through the first loop, started on arena a: x's map has lost the
      dependencies moved to the new map, the new map is renewed from the old one, both hold
      x's own notifiers, and the notifiers at the start are still there unchanged. */
  ghost predicate Resubscribing(a: Arena, x: ElemId, r: Rebinding)
    requires x in a.elems && x in r.arena.elems
  {
    var m0, m := a.elems[x].rules.dependencyNotifiers, r.arena.elems[x].rules.dependencyNotifiers;
    Kept(m0, m, r.updated.Keys) &&
    Renewed(m0, a.nextNotifier, r.updated, r.arena.notifiers, x) &&
    OwnsAll(r.arena.notifiers, r.updated, x) && OwnsAll(r.arena.notifiers, m, x) &&
    Extends(a.notifiers, r.arena.notifiers) && a.nextNotifier <= r.arena.nextNotifier &&
    forall n :: n in r.arena.notifiers ==> n < r.arena.nextNotifier
  }

  /** A visit that moves a dependency keeps Resubscribing. */
  lemma MoveMeaning(a: Arena, x: ElemId, r: Rebinding, d: Edge, g: seq<ProviderId>, h: Handles)
    requires x in a.elems && x in r.arena.elems && d.0 in r.arena.elems
    requires Resubscribing(a, x, r) && d !in r.updated && d in r.arena.elems[x].rules.dependencyNotifiers
    ensures var r' := ResubscribeOne(r, x, d, g, h);
      Resubscribing(a, x, r') && r'.updated.Keys == r.updated.Keys + {d}
  {
    var m := r.arena.elems[x].rules.dependencyNotifiers;
    MoveStep(a.elems[x].rules.dependencyNotifiers, a.nextNotifier, m, r.updated, r.arena.notifiers, x, d);
  }

  /** A visit that subscribes a new dependency keeps Resubscribing. */
  lemma SubscribeMeaning(a: Arena, x: ElemId, r: Rebinding, d: Edge, g: seq<ProviderId>, h: Handles)
    requires x in a.elems && x in r.arena.elems && d.0 in r.arena.elems
    requires Resubscribing(a, x, r) && d !in r.updated && d !in r.arena.elems[x].rules.dependencyNotifiers
    ensures var r' := ResubscribeOne(r, x, d, g, h);
      Resubscribing(a, x, r') && r'.updated.Keys == r.updated.Keys + {d}
  {
    var b, m := r.arena, r.arena.elems[x].rules.dependencyNotifiers;
    SubscribeStep(a.elems[x].rules.dependencyNotifiers, a.nextNotifier, m, r.updated, b.notifiers, x, d, b.nextNotifier);
    NotifiedShape(b, d.0, d.1, OnDependency(x), g, h);
  }

  /** What the first loop promises DeclarationsChanged, from arena a to arena b: elements
      other than x keep their rules, x keeps everything but its map, the map keeps exactly
      the dependencies outside deps, the new map holds deps renewed from the old one, and
      every notifier of a is still there unchanged. */
  ghost predicate Resubscription(a: Arena, b: Arena, x: ElemId, deps: set<Edge>, updated: map<Edge, NotifierId>) {
    x in a.elems && x in b.elems && RulesAside(a.elems, b.elems, x) &&
    b.elems[x].rules == a.elems[x].rules.(dependencyNotifiers := b.elems[x].rules.dependencyNotifiers) &&
    Kept(a.elems[x].rules.dependencyNotifiers, b.elems[x].rules.dependencyNotifiers, deps) &&
    updated.Keys == deps && OwnsAll(b.notifiers, updated, x) &&
    Renewed(a.elems[x].rules.dependencyNotifiers, a.nextNotifier, updated, b.notifiers, x) &&
    Extends(a.notifiers, b.notifiers)
  }

  /** Part way through the first loop started on arena a, having visited the dependencies
      in done: Resubscribing, the new map holds done, and only x's map has changed among
      the elements' rule states. */
  ghost predicate Midway(a: Arena, x: ElemId, done: set<Edge>, r: Rebinding) {
    x in a.elems && x in r.arena.elems && Resubscribing(a, x, r) && r.updated.Keys == done &&
    RulesAside(a.elems, r.arena.elems, x) &&
    r.arena.elems[x].rules == a.elems[x].rules.(dependencyNotifiers := r.arena.elems[x].rules.dependencyNotifiers)
  }

  lemma MidwayStart(a: Arena, x: ElemId)
    requires x in a.elems && OwnsAll(a.notifiers, a.elems[x].rules.dependencyNotifiers, x)
    requires forall n :: n in a.notifiers ==> n < a.nextNotifier
    ensures Midway(a, x, {}, Rebinding(a, map[]))
  {
    var m := a.elems[x].rules.dependencyNotifiers;
    assert m.Keys == m.Keys - {};
  }

  /** Every notifier id is below the next one to be handed out. */
  lemma NotifiersBelow(a: Arena, g: seq<ProviderId>, h: Handles)
    requires Inv(a, g, h)
    ensures forall n :: n in a.notifiers ==> n < a.nextNotifier
  {
  }

  /** After every dependency of deps is visited, the first loop is a Resubscription. */
  lemma MidwayDone(a: Arena, x: ElemId, deps: set<Edge>, r: Rebinding)
    requires Midway(a, x, deps, r)
    ensures Resubscription(a, r.arena, x, deps, r.updated) && a.nextNotifier <= r.arena.nextNotifier
  {
  }

  /** Visiting one more dependency keeps the invariant and Midway. */
  lemma MidwayStep(a: Arena, x: ElemId, done: set<Edge>, r: Rebinding, d: Edge, g: seq<ProviderId>, h: Handles)
    requires Inv(r.arena, g, h) && Midway(a, x, done, r) && d !in done && d.0 in a.elems
    ensures Inv(ResubscribeOne(r, x, d, g, h).arena, g, h)
    ensures Midway(a, x, done + {d}, ResubscribeOne(r, x, d, g, h))
  {
    ResubscribeKeeps(r, x, d, g, h);
    if d in r.arena.elems[x].rules.dependencyNotifiers {
      MidwayMove(a, x, done, r, d, g, h);
    } else {
      MidwaySubscribe(a, x, done, r, d, g, h);
    }
  }

  lemma MidwayMove(a: Arena, x: ElemId, done: set<Edge>, r: Rebinding, d: Edge, g: seq<ProviderId>, h: Handles)
    requires Midway(a, x, done, r) && d !in done && d.0 in a.elems
    requires d in r.arena.elems[x].rules.dependencyNotifiers
    ensures Midway(a, x, done + {d}, ResubscribeOne(r, x, d, g, h))
  {
    MoveMeaning(a, x, r, d, g, h);
    MidwayFrom(a, x, done, r, ResubscribeOne(r, x, d, g, h), d);
  }

  lemma MidwaySubscribe(a: Arena, x: ElemId, done: set<Edge>, r: Rebinding, d: Edge, g: seq<ProviderId>, h: Handles)
    requires Midway(a, x, done, r) && d !in done && d.0 in a.elems
    requires d !in r.arena.elems[x].rules.dependencyNotifiers
    ensures Midway(a, x, done + {d}, ResubscribeOne(r, x, d, g, h))
  {
    NotifiedShape(r.arena, d.0, d.1, OnDependency(x), g, h);
    SubscribeMeaning(a, x, r, d, g, h);
    MidwayFrom(a, x, done, r, ResubscribeOne(r, x, d, g, h), d);
  }

  /** One visit keeps the invariant, given x's handler names a live element. */
  lemma ResubscribeKeeps(r: Rebinding, x: ElemId, d: Edge, g: seq<ProviderId>, h: Handles)
    requires Inv(r.arena, g, h) && x in r.arena.elems && d.0 in r.arena.elems
    ensures Inv(ResubscribeOne(r, x, d, g, h).arena, g, h)
  {
    var b := r.arena;
    var m := b.elems[x].rules.dependencyNotifiers;
    if d in m {
      MoveKeeps(b, x, d, g, h);
      assert ResubscribeOne(r, x, d, g, h).arena == WithDeps(b, x, m - {d});
    } else {
      NotifiedKeeps(b, d.0, d.1, OnDependency(x), g, h);
      assert ResubscribeOne(r, x, d, g, h).arena == Notified(b, d.0, d.1, OnDependency(x), g, h);
    }
  }

  lemma MidwayFrom(a: Arena, x: ElemId, done: set<Edge>, r: Rebinding, r': Rebinding, d: Edge)
    requires Midway(a, x, done, r) && x in r'.arena.elems
    requires Resubscribing(a, x, r') && r'.updated.Keys == r.updated.Keys + {d}
    requires r'.arena.elems.Keys == r.arena.elems.Keys
    requires forall y :: y in r.arena.elems && y != x ==> r'.arena.elems[y].rules == r.arena.elems[y].rules
    requires r'.arena.elems[x].rules ==
      r.arena.elems[x].rules.(dependencyNotifiers := r'.arena.elems[x].rules.dependencyNotifiers)
    ensures Midway(a, x, done + {d}, r')
  {
  }

  /** Moving a dependency out of x's map keeps the invariant. */
  lemma MoveKeeps(b: Arena, x: ElemId, d: Edge, g: seq<ProviderId>, h: Handles)
    requires Inv(b, g, h) && x in b.elems && d in b.elems[x].rules.dependencyNotifiers
    ensures Inv(WithDeps(b, x, b.elems[x].rules.dependencyNotifiers - {d}), g, h)
  {
    var m := b.elems[x].rules.dependencyNotifiers;
    var c := WithDeps(b, x, m - {d});
    DepsAt(b, x, g, h);
    PendKeep(b.elems, b.idle, x, c.elems[x]);
    LocalStep(b, c, x, c.elems[x], g, h);
  }

  // ----- The second loop -----

  /** Part way through the second loop, started on arena a to dispose the notifiers of m,
      having visited the dependencies in done: the notifiers visited
      are disposed, none but those of m has changed, and no element's rule state has. */
  ghost predicate Withdrawing(a: Arena, m: map<Edge, NotifierId>, done: set<Edge>, c: Arena) {
    Releasing(a, m, c) && (forall d :: d in m ==> m[d] in c.notifiers) &&
    forall d :: d in done && d in m ==> c.notifiers[m[d]].disposed
  }

  /** Part way through the second loop: some notifiers have been disposed, none but those of
      m has changed, and no element's rule state has. */
  ghost predicate Releasing(a: Arena, m: map<Edge, NotifierId>, c: Arena) {
    Retires(a.notifiers, c.notifiers) &&
    c.elems.Keys == a.elems.Keys && (forall y :: y in a.elems ==> c.elems[y].rules == a.elems[y].rules) &&
    forall n :: n in a.notifiers && n !in m.Values ==> c.notifiers[n] == a.notifiers[n]
  }

  lemma WithdrawingStart(a: Arena, m: map<Edge, NotifierId>, g: seq<ProviderId>, h: Handles)
    requires Inv(a, g, h) && forall d :: d in m ==> m[d] in a.notifiers
    ensures Withdrawing(a, m, {}, a)
  {
  }

  /** Disposing the notifier of one more dependency of m keeps Withdrawing; it can be
      looked up first. */
  lemma WithdrawingStep(a: Arena, m: map<Edge, NotifierId>, done: set<Edge>, c: Arena, d: Edge, g: seq<ProviderId>, h: Handles)
    requires Inv(c, g, h) && Withdrawing(a, m, done, c) && d in m
    ensures Listed(c, m[d]) && Inv(Unsubscribed(c, m[d], g, h), g, h)
    ensures Withdrawing(a, m, done + {d}, Unsubscribed(c, m[d], g, h))
  {
    var n := m[d];
    assert n in m.Values;
    ReleaseKeeps(c, n, g, h);
    ReleaseMeaning(a, m, c, n, g, h);
    WithdrawingFrom(a, m, done, c, Unsubscribed(c, n, g, h), d);
  }

  lemma WithdrawingFrom(a: Arena, m: map<Edge, NotifierId>, done: set<Edge>, c: Arena, c': Arena, d: Edge)
    requires Withdrawing(a, m, done, c) && d in m
    requires Releasing(a, m, c') && c'.notifiers.Keys == c.notifiers.Keys
    requires c'.notifiers[m[d]].disposed
    requires forall k :: k in c.notifiers && c.notifiers[k].disposed ==> c'.notifiers[k].disposed
    ensures Withdrawing(a, m, done + {d}, c')
  {
  }

  lemma ReleaseKeeps(b: Arena, n: NotifierId, g: seq<ProviderId>, h: Handles)
    requires Inv(b, g, h) && n in b.notifiers
    ensures Listed(b, n) && Inv(Unsubscribed(b, n, g, h), g, h)
    ensures Unsubscribed(b, n, g, h).notifiers.Keys == b.notifiers.Keys
  {
    UnsubscribedKeeps(b, n, g, h);
    UnsubscribedFields(b, n, g, h);
  }

  /** Disposing one notifier of m keeps Releasing and every notifier already disposed. */
  lemma ReleaseMeaning(a: Arena, m: map<Edge, NotifierId>, b: Arena, n: NotifierId, g: seq<ProviderId>, h: Handles)
    requires Releasing(a, m, b) && Listed(b, n) && n in m.Values
    ensures var c := Unsubscribed(b, n, g, h);
      Releasing(a, m, c) && c.notifiers[n].disposed &&
      forall k :: k in b.notifiers && b.notifiers[k].disposed ==> c.notifiers[k].disposed
  {
    UnsubscribedFields(b, n, g, h);
    UnsubscribedRules(b, n, g, h);
  }

  // ----- Both loops together -----

  /** The outcome of DeclarationsChanged's installation on x, from arena a to arena b: x's
      active declarations are all, its dependency map is rebound to deps, and no other rule
      state changes. */
  ghost predicate Installation(a: Arena, b: Arena, x: ElemId, all: RuleCascade.Declarations, deps: set<Edge>) {
    x in a.elems && x in b.elems && RulesAside(a.elems, b.elems, x) &&
    b.elems[x].rules == a.elems[x].rules.(active := all, dependencyNotifiers := b.elems[x].rules.dependencyNotifiers) &&
    Rebound(a.elems[x].rules.dependencyNotifiers, a.nextNotifier, deps, b.elems[x].rules.dependencyNotifiers,
            b.notifiers, x)
  }

  /** The second loop leaves the new map's notifiers alone: they are fresh or moved out of
      the map whose notifiers it disposes. */
  lemma InstallingOwns(a1: Arena, a2: Arena, a3: Arena, x: ElemId, deps: set<Edge>, updated: map<Edge, NotifierId>)
    requires Resubscription(a1, a2, x, deps, updated)
    requires Withdrawing(a2, a2.elems[x].rules.dependencyNotifiers, a2.elems[x].rules.dependencyNotifiers.Keys, a3)
    requires forall d :: d in a1.elems[x].rules.dependencyNotifiers ==> a1.elems[x].rules.dependencyNotifiers[d] < a1.nextNotifier
    ensures Renewed(a1.elems[x].rules.dependencyNotifiers, a1.nextNotifier, updated, a3.notifiers, x)
    ensures OwnsAll(a3.notifiers, updated, x)
  {
    var m1 := a2.elems[x].rules.dependencyNotifiers;
    forall n | n in a2.notifiers && a1.nextNotifier <= n
      ensures a3.notifiers[n] == a2.notifiers[n]
    {
      assert forall d :: d in m1 ==> m1[d] == a1.elems[x].rules.dependencyNotifiers[d];
      assert n !in m1.Values;
    }
    RenewedRetires(a1.elems[x].rules.dependencyNotifiers, a1.nextNotifier, updated, a2.notifiers, a3.notifiers, x);
  }

  /** Storing the declarations, the two loops and storing the new map make up Installation. */
  lemma InstalledMeaning(a0: Arena, a1: Arena, a2: Arena, a3: Arena, a4: Arena, x: ElemId,
                         all: RuleCascade.Declarations, deps: set<Edge>, updated: map<Edge, NotifierId>)
    requires x in a0.elems
    requires a1.elems == a0.elems[x := a0.elems[x].(rules := a0.elems[x].rules.(active := all,
                                       dependencyNotifiers := a0.elems[x].rules.dependencyNotifiers))]
    requires a1.notifiers == a0.notifiers && a1.nextNotifier == a0.nextNotifier
    requires Resubscription(a1, a2, x, deps, updated)
    requires Withdrawing(a2, a2.elems[x].rules.dependencyNotifiers, a2.elems[x].rules.dependencyNotifiers.Keys, a3)
    requires Renewed(a1.elems[x].rules.dependencyNotifiers, a1.nextNotifier, updated, a3.notifiers, x)
    requires x in a3.elems
    requires a4.elems == a3.elems[x := a3.elems[x].(rules := a3.elems[x].rules.(active := all, dependencyNotifiers := updated))]
    requires a4.notifiers == a3.notifiers
    ensures Installation(a0, a4, x, all, deps)
  {
    InstalledRules(a0, a1, a2, a3, a4, x, all, deps, updated);
    InstalledDeps(a0.elems[x].rules.dependencyNotifiers, a2, a3, a4, x, deps, updated);
  }

  lemma InstalledRules(a0: Arena, a1: Arena, a2: Arena, a3: Arena, a4: Arena, x: ElemId,
                       all: RuleCascade.Declarations, deps: set<Edge>, updated: map<Edge, NotifierId>)
    requires x in a0.elems
    requires a1.elems == a0.elems[x := a0.elems[x].(rules := a0.elems[x].rules.(active := all,
                                       dependencyNotifiers := a0.elems[x].rules.dependencyNotifiers))]
    requires x in a2.elems && RulesAside(a1.elems, a2.elems, x)
    requires a2.elems[x].rules == a1.elems[x].rules.(dependencyNotifiers := a2.elems[x].rules.dependencyNotifiers)
    requires a3.elems.Keys == a2.elems.Keys && forall y :: y in a2.elems ==> a3.elems[y].rules == a2.elems[y].rules
    requires a4.elems == a3.elems[x := a3.elems[x].(rules := a3.elems[x].rules.(active := all, dependencyNotifiers := updated))]
    ensures x in a4.elems && RulesAside(a0.elems, a4.elems, x)
    ensures a4.elems[x].rules == a0.elems[x].rules.(active := all, dependencyNotifiers := updated)
  {
  }

  lemma InstalledDeps(m0: map<Edge, NotifierId>, a2: Arena, a3: Arena, a4: Arena, x: ElemId,
                      deps: set<Edge>, updated: map<Edge, NotifierId>)
    requires x in a2.elems && Kept(m0, a2.elems[x].rules.dependencyNotifiers, deps) && updated.Keys == deps
    requires Withdrawing(a2, a2.elems[x].rules.dependencyNotifiers, a2.elems[x].rules.dependencyNotifiers.Keys, a3)
    requires a4.notifiers == a3.notifiers
    ensures forall d :: d in m0 && d !in deps ==> m0[d] in a4.notifiers && a4.notifiers[m0[d]].disposed
  {
    var m1 := a2.elems[x].rules.dependencyNotifiers;
    forall d | d in m0 && d !in deps
      ensures m0[d] in a4.notifiers && a4.notifiers[m0[d]].disposed
    {
      assert d in m1;
    }
  }

  /** What DeclarationsChanged leaves x with once the changed properties are announced:
      its active declarations are all and its dependency map is rebound to deps. */
  ghost predicate Declared(a: Arena, b: Arena, x: ElemId, all: RuleCascade.Declarations, deps: set<Edge>) {
    x in a.elems && x in b.elems && b.elems[x].rules.active == all &&
    Rebound(a.elems[x].rules.dependencyNotifiers, a.nextNotifier, deps, b.elems[x].rules.dependencyNotifiers,
            b.notifiers, x)
  }

  /** Whatever leaves x's declarations, its dependency map and the notifiers alone keeps
      what the installation did to x. */
  lemma DeclaredKept(a: Arena, a1: Arena, b: Arena, x: ElemId, all: RuleCascade.Declarations, deps: set<Edge>)
    requires Installation(a, a1, x, all, deps) && b.notifiers == a1.notifiers && x in b.elems
    requires b.elems[x].rules == a1.elems[x].rules.(updatingRules := b.elems[x].rules.updatingRules)
    ensures Declared(a, b, x, all, deps)
  {
  }

  /** Waking elements after the installation keeps what it did to x. */
  lemma DeclaredAfter(a: Arena, a1: Arena, b: Arena, x: ElemId, all: RuleCascade.Declarations, deps: set<Edge>,
                      w: set<ElemId>)
    requires Installation(a, a1, x, all, deps) && b.notifiers == a1.notifiers
    requires b.elems == a1.elems || b.elems == Wake(a1.elems, w)
    ensures Declared(a, b, x, all, deps)
  {
    WakeRules(a1.elems, w, x);
    DeclaredKept(a, a1, b, x, all, deps);
  }
}
