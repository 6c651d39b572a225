/** The element tree of UiDomElement. The elements live in one arena object whose methods
    change them in place: an element id stands for the C# object reference and the fields
    of an element are the record UiDomState.ElementState. */
module UiDom {
  import opened UiDomValues
  import opened UiDomState
  import opened UiDomSteps
  import opened UiDomDispatch
  import opened UiDomRebind
  import opened UiDomTree
  import opened UiDomLife
  import RuleCascade
  import Polling
  import Win32TabControl
  import Reconcile
  import Resolution

  class Dom {
    var elems: map<ElemId, ElementState>
    var notifiers: map<NotifierId, Notifier>
    var idle: seq<IdleTask>
    var log: seq<Effect>
    var watchCalls: seq<WatchCall>
    var nextElem: ElemId
    var nextNotifier: NotifierId

    /** The root's global providers, in order. */
    const globalProviders: seq<ProviderId>
    /** Whether provider p claims (un)watching expression ex on element x; a provider answers
        watching and unwatching alike. */
    const providerHandles: Handles
    /** What each global provider's GetTrackedProperties returns. */
    const trackedProperties: ProviderId -> Option<seq<string>>
    /** The root's style sheet. */
    const rules: seq<Block>

    function Snapshot(): Arena
      reads this`elems, this`notifiers, this`idle, this`watchCalls, this`nextElem, this`nextNotifier
    {
      Arena(elems, notifiers, idle, watchCalls, nextElem, nextNotifier)
    }

    ghost predicate Valid()
      reads this`elems, this`notifiers, this`idle, this`watchCalls, this`nextElem, this`nextNotifier
    {
      Inv(Snapshot(), globalProviders, providerHandles)
    }

    /** Part way through DeclarationsChanged's first loop for x, started on arena a, having
        visited the dependencies in done and built the map updated. */
    ghost predicate Visited(a: Arena, x: ElemId, done: set<Edge>, updated: map<Edge, NotifierId>)
      reads this`elems, this`notifiers, this`idle, this`watchCalls, this`nextElem, this`nextNotifier
    {
      Midway(a, x, done, Rebinding(Snapshot(), updated))
    }

    /** Part way through DeclarationsChanged's second loop over m, started on arena a,
        having disposed the notifiers of the dependencies in done; no element has changed
        more than a teardown may change it. */
    ghost predicate Withdrawn(a: Arena, l0: seq<Effect>, m: map<Edge, NotifierId>, done: set<Edge>)
      reads this`elems, this`notifiers, this`idle, this`watchCalls, this`nextElem, this`nextNotifier, this`log
    {
      Withdrawing(a, m, done, Snapshot()) && Settled(a.elems, elems, {}) && QuietSince(l0, log)
    }

    /** x's declarations and dependencies installed since arena a. */
    ghost predicate Installed(a: Arena, x: ElemId, all: RuleCascade.Declarations, deps: set<Edge>)
      reads this`elems, this`notifiers, this`idle, this`watchCalls, this`nextElem, this`nextNotifier
    {
      Installation(a, Snapshot(), x, all, deps)
    }

    /** Since e0 every element has changed only as a teardown may change it (the elements
        of p may have had their child lists edited). */
    ghost predicate Since(e0: map<ElemId, ElementState>, p: set<ElemId>)
      reads this`elems
    {
      Settled(e0, elems, p)
    }

    /** The fields hold the arena b. */
    predicate Is(b: Arena)
      reads this`elems, this`notifiers, this`idle, this`watchCalls, this`nextElem, this`nextNotifier
    {
      Snapshot() == b
    }

    constructor (globalProviders: seq<ProviderId>, providerHandles: Handles,
                 trackedProperties: ProviderId -> Option<seq<string>>, rules: seq<Block>)
      ensures Valid()
      ensures elems == map[] && notifiers == map[] && idle == [] && log == [] && watchCalls == []
      ensures this.globalProviders == globalProviders && this.providerHandles == providerHandles &&
              this.trackedProperties == trackedProperties && this.rules == rules
    {
      elems := map[];
      notifiers := map[];
      idle := [];
      log := [];
      watchCalls := [];
      nextElem := 0;
      nextNotifier := 0;
      this.globalProviders := globalProviders;
      this.providerHandles := providerHandles;
      this.trackedProperties := trackedProperties;
      this.rules := rules;
    }

    /** The UiDomElement constructor: a new element that is not alive and has no parent. */
    method CreateElement(debugId: string, kind: Kind) returns (x: ElemId)
      requires Valid()
      modifies this`elems, this`nextElem
      ensures Valid()
      ensures x == old(nextElem) && x !in old(elems)
      ensures elems == old(elems)[x := NewElement(debugId, kind)] && nextElem == x + 1
    {
      ghost var a := Snapshot();
      x := nextElem;
      elems := elems[x := NewElement(debugId, kind)];
      nextElem := nextElem + 1;
      CreatedKeeps(a, Snapshot(), debugId, kind, globalProviders, providerHandles);
    }

    // ----- Scheduling -----

    /** A pass is queued only for a live element that has none pending. */
    method QueueEvaluateRules(x: ElemId) returns (queued: bool)
      requires x in elems
      modifies this`elems, this`idle
      ensures queued <==> old(elems[x].tree.isAlive && !elems[x].rules.updatingRules)
      ensures queued ==> elems == old(elems)[x := old(elems[x]).(rules := old(elems[x].rules).(updatingRules := true))] &&
                         idle == old(idle) + [EvaluateRulesOf(x)]
      ensures !queued ==> elems == old(elems) && idle == old(idle)
    {
      if !elems[x].tree.isAlive {
        return false;
      }
      var wasUpdating := elems[x].rules.updatingRules;
      if !wasUpdating {
        elems := elems[x := elems[x].(rules := elems[x].rules.(updatingRules := true))];
        idle := idle + [EvaluateRulesOf(x)];
      }
      queued := !wasUpdating;
    }

    // ----- Polling -----

    /** PollProperty: starts a loop unless the expression is already flagged as polling. */
    method PollProperty(x: ElemId, ex: Expr, r: Polling.Refresher, interval: int)
      requires x in elems
      modifies this`elems
      ensures elems == old(elems)[x := old(elems[x]).(polls := Polling.Poll(old(elems[x].polls), ex, r, interval))]
      ensures Polling.IsPolling(elems[x].polls, ex)
    {
      elems := elems[x := elems[x].(polls := Polling.Poll(elems[x].polls, ex, r, interval))];
    }

    /** EndPollProperty: clears the flag and cancels the current token, if any. */
    method EndPollProperty(x: ElemId, ex: Expr)
      requires x in elems
      modifies this`elems
      ensures elems == old(elems)[x := old(elems[x]).(polls := Polling.EndPoll(old(elems[x].polls), ex))]
      ensures !Polling.IsPolling(elems[x].polls, ex)
    {
      elems := elems[x := elems[x].(polls := Polling.EndPoll(elems[x].polls, ex))];
    }

    /** The refresh of x's poll loop k completed (DoPollProperty after `await refresh`):
        the loop ends if polling was ended meanwhile, else it records a fresh token and
        starts its delay. */
    method RefreshDone(x: ElemId, k: nat)
      requires Valid() && x in elems && Polling.AwaitsRefresh(elems[x].polls, k)
      modifies this`elems
      ensures Valid()
      ensures elems == old(elems)[x := old(elems[x]).(polls := Polling.AfterRefresh(old(elems[x].polls), k))]
    {
      RefreshDoneKeeps(Snapshot(), x, k, globalProviders, providerHandles);
      elems := elems[x := elems[x].(polls := Polling.AfterRefresh(elems[x].polls, k))];
    }

    /** The delay of x's poll loop k ended: a cancelled delay ends the loop, an elapsed one
        restarts it (the corrected DoPollProperty). */
    method DelayDone(x: ElemId, k: nat)
      requires Valid() && x in elems && Polling.AwaitsDelay(elems[x].polls, k)
      modifies this`elems
      ensures Valid()
      ensures elems == old(elems)[x := old(elems[x]).(polls := Polling.AfterDelay(old(elems[x].polls), k))]
    {
      DelayDoneKeeps(Snapshot(), x, k, globalProviders, providerHandles);
      elems := elems[x := elems[x].(polls := Polling.AfterDelay(elems[x].polls, k))];
    }

    /** RefreshSelectionIndex of a tab control, `i` being the TCM_GETCURSEL result: the
        cached selection takes the corrected refresh's state, and a change is announced as a
        change of win32_selection_index; mid is the arena between the two. */
    method RefreshSelectionIndex(x: ElemId, i: Win32TabControl.int32) returns (ghost mid: map<ElemId, ElementState>)
      requires Valid() && x in elems && elems[x].kind.TabControl?
      modifies this`elems, this`idle, this`log
      ensures Valid()
      ensures var r := Win32TabControl.RefreshCorrected(old(elems[x].kind.tab), i);
        mid == old(elems)[x := Retabbed(old(elems[x]), r.state)] &&
        (r.announced.None? || !old(elems[x].tree.isAlive) ==> elems == mid && idle == old(idle) && log == old(log))
      ensures var r := Win32TabControl.RefreshCorrected(old(elems[x].kind.tab), i);
        r.announced.Some? && old(elems[x].tree.isAlive) ==>
        var w := Woken(old(notifiers), mid[x], {SelectionIndexProperty});
        elems == Wake(mid, w) &&
        |idle| >= |old(idle)| && idle[..|old(idle)|] == old(idle) &&
        Lists(idle[|old(idle)|..], PassesFor(Newly(mid, w))) &&
        |log| >= |old(log)| && log[..|old(log)|] == old(log) &&
        Lists(log[|old(log)|..], Called(old(notifiers), mid[x], x, {SelectionIndexProperty}))
    {
      var r := Win32TabControl.RefreshCorrected(elems[x].kind.tab, i);
      RetabbedKeeps(Snapshot(), x, r.state, globalProviders, providerHandles);
      elems := elems[x := Retabbed(elems[x], r.state)];
      mid := elems;
      if r.announced.Some? {
        PropertiesChanged(x, {SelectionIndexProperty});
      }
    }

    // ----- AssignProperty -----

    /** AssignProperty (corrected): the assignment changes x's assigned values, and a change
        of them is announced as a change of the identifier; mid is the arena between. */
    method AssignProperty(x: ElemId, name: string, v: Value) returns (ghost mid: map<ElemId, ElementState>)
      requires Valid() && x in elems
      modifies this`elems, this`idle, this`log
      ensures Valid()
      ensures var r := Resolution.Assign(old(elems[x].rules.assignedProperties), name, v);
        mid == old(elems)[x := Reassigned(old(elems[x]), r.values)] &&
        (!r.changed || !old(elems[x].tree.isAlive) ==> elems == mid && idle == old(idle) && log == old(log))
      ensures var r := Resolution.Assign(old(elems[x].rules.assignedProperties), name, v);
        r.changed && old(elems[x].tree.isAlive) ==>
        var w := Woken(old(notifiers), mid[x], {Identifier(name)});
        elems == Wake(mid, w) &&
        |idle| >= |old(idle)| && idle[..|old(idle)|] == old(idle) &&
        Lists(idle[|old(idle)|..], PassesFor(Newly(mid, w))) &&
        |log| >= |old(log)| && log[..|old(log)|] == old(log) &&
        Lists(log[|old(log)|..], Called(old(notifiers), mid[x], x, {Identifier(name)}))
    {
      var r := Resolution.Assign(elems[x].rules.assignedProperties, name, v);
      ReassignedKeeps(Snapshot(), x, r.values, globalProviders, providerHandles);
      elems := elems[x := Reassigned(elems[x], r.values)];
      mid := elems;
      if r.changed {
        PropertiesChanged(x, {Identifier(name)});
      }
    }

    // ----- The WatchProperty and UnwatchProperty hooks -----

    /** Asks the element's providers, then the global ones, until one claims ex; `watch`
        says whether WatchProperty or UnwatchProperty asks. */
    method ConsultProviders(x: ElemId, ex: Expr, watch: bool) returns (handled: bool)
      requires x in elems
      modifies this`log
      ensures var ps := elems[x].providers + globalProviders;
        handled == Handled(providerHandles, ps, x, ex) &&
        log == old(log) + CallEffects(ps[..Consulted(providerHandles, ps, x, ex)], x, ex, watch)
    {
      var ps := elems[x].providers + globalProviders;
      var calls: seq<Effect> := [];
      var i := 0;
      handled := false;
      while i < |ps| && !handled
        invariant i <= |ps|
        invariant forall j :: 0 <= j < i ==> !providerHandles(ps[j], x, ex) || (handled && j == i - 1)
        invariant handled ==> 0 < i && providerHandles(ps[i - 1], x, ex)
        invariant calls == CallEffects(ps[..i], x, ex, watch) && log == old(log)
      {
        CallEffectsSnoc(ps, i, x, ex, watch);
        calls := calls + [if watch then ProviderWatchCalled(ps[i], x, ex) else ProviderUnwatchCalled(ps[i], x, ex)];
        handled := providerHandles(ps[i], x, ex);
        i := i + 1;
      }
      ConsultedAt(providerHandles, ps, x, ex, i, handled);
      log := log + calls;
    }

    /** WatchProperty, with the tab control's override: watching the selection index starts
        its poll; then, unless the element is disposing, the providers are consulted, and if
        none claims the expression a relationship expression gets a relationship watcher. */
    method WatchProperty(x: ElemId, ex: Expr)
      requires x in elems
      modifies this`elems, this`log
      ensures elems == old(elems)[x := Watched(old(elems[x]), x, ex, globalProviders, providerHandles)]
      ensures log == old(log) + WatchEffects(old(elems[x]), x, ex, globalProviders, providerHandles)
    {
      if elems[x].kind.TabControl? && ex == SelectionIndexProperty {
        PollProperty(x, ex, Polling.SelectionIndexRefresh, SelectionPollInterval);
      }
      if !elems[x].rules.disposing {
        var handled := ConsultProviders(x, ex, true);
        if !handled && IsRelationshipExpression(ex) {
          var s := elems[x];
          elems := elems[x := s.(watch := s.watch.(relationshipWatchers := s.watch.relationshipWatchers + {ex}))];
          log := log + [RelationshipWatcherCreated(x, ex)];
        }
      }
    }

    /** UnwatchProperty, with the tab control's override: the tab control ends the selection
        poll and forgets the index first; then, unless the element is disposing, the providers
        are consulted, and if none claims the expression its relationship watcher, if any, is
        disposed. */
    method UnwatchProperty(x: ElemId, ex: Expr)
      requires x in elems
      modifies this`elems, this`log
      ensures elems == old(elems)[x := Unwatched(old(elems[x]), x, ex, globalProviders, providerHandles)]
      ensures log == old(log) + UnwatchEffects(old(elems[x]), x, ex, globalProviders, providerHandles)
    {
      if elems[x].kind.TabControl? && ex == SelectionIndexProperty {
        EndPollProperty(x, ex);
        var s := elems[x];
        elems := elems[x := s.(kind := s.kind.(tab := s.kind.tab.(selectionIndexKnown := false)))];
      }
      if !elems[x].rules.disposing {
        var handled := ConsultProviders(x, ex, false);
        if !handled && ex in elems[x].watch.relationshipWatchers {
          var s := elems[x];
          elems := elems[x := s.(watch := s.watch.(relationshipWatchers := s.watch.relationshipWatchers - {ex}))];
          log := log + [RelationshipWatcherDisposed(x, ex)];
        }
      }
    }

    // ----- Property-change notifiers -----

    /** AddPropertyChangeNotifier: the notifier joins the end of its expression's list; the
        first one creates the list and then calls WatchProperty. */
    method AddPropertyChangeNotifier(n: NotifierId)
      requires n in notifiers && notifiers[n].element in elems
      modifies this`elems, this`watchCalls, this`log
      ensures var x, ex := notifiers[n].element, notifiers[n].expression;
        var s := old(elems[x]);
        if ex in s.watch.notifiersByExpression then
          elems == old(elems)[x := WithList(s, ex, s.watch.notifiersByExpression[ex] + [n])] &&
          watchCalls == old(watchCalls) && log == old(log)
        else
          elems == old(elems)[x := Watched(WithList(s, ex, [n]), x, ex, globalProviders, providerHandles)] &&
          watchCalls == old(watchCalls) + [WatchCall(x, ex, true)] &&
          log == old(log) + WatchEffects(WithList(s, ex, [n]), x, ex, globalProviders, providerHandles)
    {
      var x, ex := notifiers[n].element, notifiers[n].expression;
      var s := elems[x];
      if ex in s.watch.notifiersByExpression {
        elems := elems[x := WithList(s, ex, s.watch.notifiersByExpression[ex] + [n])];
      } else {
        var w := WithList(s, ex, [n]);
        elems := elems[x := w];
        watchCalls := watchCalls + [WatchCall(x, ex, true)];
        WatchProperty(x, ex);
        UpdateTwice(old(elems), x, w, elems[x]);
      }
    }

    /** NotifyPropertyChanged: a new PropertyChangeNotifier for ex on x, whose constructor
        hands it to AddPropertyChangeNotifier. */
    method NotifyPropertyChanged(x: ElemId, ex: Expr, hd: Handler) returns (n: NotifierId)
      requires x in elems
      modifies this`elems, this`notifiers, this`nextNotifier, this`watchCalls, this`log
      ensures n == old(nextNotifier)
      ensures Is(Notified(old(Snapshot()), x, ex, hd, globalProviders, providerHandles))
      ensures log == old(log) + NotifiedEffects(old(Snapshot()), x, ex, globalProviders, providerHandles)
    {
      n := nextNotifier;
      notifiers := notifiers[n := Notifier(x, ex, hd, false)];
      nextNotifier := n + 1;
      AddPropertyChangeNotifier(n);
    }

    /** RemovePropertyChangeNotifier: the last notifier of a list takes the list with it and
        UnwatchProperty runs; otherwise the notifier leaves the list. */
    method RemovePropertyChangeNotifier(n: NotifierId)
      requires Listed(Snapshot(), n) && !notifiers[n].disposed
      modifies this`elems, this`watchCalls, this`log
      ensures elems == Unsubscribed(old(Snapshot()), n, globalProviders, providerHandles).elems
      ensures watchCalls == Unsubscribed(old(Snapshot()), n, globalProviders, providerHandles).watchCalls
      ensures log == old(log) + UnsubscribeEffects(old(Snapshot()), n, globalProviders, providerHandles)
    {
      ghost var a := Snapshot();
      var x, ex := notifiers[n].element, notifiers[n].expression;
      var s := elems[x];
      var l := s.watch.notifiersByExpression[ex];
      if |l| == 1 {
        elems := elems[x := WithoutList(s, ex)];
        watchCalls := watchCalls + [WatchCall(x, ex, false)];
        UnwatchProperty(x, ex);
        UpdateTwice(a.elems, x, WithoutList(s, ex), elems[x]);
        return;
      }
      elems := elems[x := WithList(s, ex, Without(l, n))];
    }

    /** PropertyChangeNotifier.Dispose: removes the notifier the first time only. */
    method Dispose(n: NotifierId)
      requires Listed(Snapshot(), n)
      modifies this`elems, this`notifiers, this`watchCalls, this`log
      ensures Is(Unsubscribed(old(Snapshot()), n, globalProviders, providerHandles))
      ensures log == old(log) + UnsubscribeEffects(old(Snapshot()), n, globalProviders, providerHandles)
    {
      ghost var a := Snapshot();
      UnsubscribedFields(a, n, globalProviders, providerHandles);
      if !notifiers[n].disposed {
        RemovePropertyChangeNotifier(n);
      }
      // Disposed = true, which it already is on a second call
      notifiers := notifiers[n := notifiers[n].(disposed := true)];
    }

    // ----- Dispatch -----

    /** The inner loop of PropertiesChanged: the handlers of the notifiers subscribed to p on
        x, in list order, over the list as it stands on entry. */
    method CallHandlers(x: ElemId, p: Expr)
      requires x in elems
      requires var l := Subscribers(elems[x], p);
        forall i :: 0 <= i < |l| ==>
          l[i] in notifiers && (notifiers[l[i]].handler.OnDependency? ==> notifiers[l[i]].handler.owner in elems)
      modifies this`elems, this`idle, this`log
      ensures var d := Deliver(old(elems), notifiers, Subscribers(old(elems[x]), p), x, p);
        elems == d.elems && idle == old(idle) + d.passes && log == old(log) + d.calls
    {
      ghost var e0, i0, l0 := elems, idle, log;
      var l := Subscribers(elems[x], p);
      var j := 0;
      while j < |l|
        invariant j <= |l| && elems.Keys == e0.Keys
        invariant var d := Deliver(e0, notifiers, l[..j], x, p);
          elems == d.elems && idle == i0 + d.passes && log == l0 + d.calls
      {
        var n := l[j];
        DeliverSnoc(e0, notifiers, l, j, x, p);
        match notifiers[n].handler {
          case OnDependency(o) =>
            var queued := QueueEvaluateRules(o);
          case External(_) =>
            log := log + [HandlerCalled(n, x, p)];
        }
        j := j + 1;
      }
      assert l[..|l|] == l;
    }

    /** The loop of PropertiesChanged over the changed properties, which a hash set hands
        out in no particular order: order is the order taken. */
    method CallAllHandlers(x: ElemId, changed: set<Expr>) returns (ghost order: seq<Expr>)
      requires x in elems
      requires forall p, i :: 0 <= i < |Subscribers(elems[x], p)| ==>
        Subscribers(elems[x], p)[i] in notifiers &&
        (notifiers[Subscribers(elems[x], p)[i]].handler.OnDependency? ==> notifiers[Subscribers(elems[x], p)[i]].handler.owner in elems)
      modifies this`elems, this`idle, this`log
      ensures Lists(order, changed)
      ensures var b := Broadcast(old(elems), notifiers, old(elems[x]), x, order);
        elems == b.elems && idle == old(idle) + b.passes && log == old(log) + b.calls
    {
      ghost var e0, i0, l0, s := elems, idle, log, elems[x];
      var rest := changed;
      order := [];
      ghost var done: set<Expr> := {};
      ListsNone<Expr>();
      while rest != {}
        invariant rest + done == changed && rest !! done && Lists(order, done)
        invariant var b := Broadcast(e0, notifiers, s, x, order);
          elems == b.elems && idle == i0 + b.passes && log == l0 + b.calls
        decreases rest
      {
        var p :| p in rest;
        rest := rest - {p};
        ghost var b := Broadcast(e0, notifiers, s, x, order);
        ghost var d := Deliver(b.elems, notifiers, Subscribers(s, p), x, p);
        BroadcastShape(e0, notifiers, s, x, order);
        assert Subscribers(elems[x], p) == Subscribers(s, p);
        ghost var i1, l1 := idle, log;
        CallHandlers(x, p);
        assert idle == i1 + d.passes && log == l1 + d.calls;
        Regroup(i0, b.passes, d.passes);
        Regroup(l0, b.calls, d.calls);
        ListsSnoc(order, done, p);
        BroadcastSnoc(e0, notifiers, s, x, order, p);
        order, done := order + [p], done + {p};
      }
    }

    /** PropertiesChanged: on a live element, every notifier subscribed to a changed property
        has its handler called, the properties in any order. A dependency handler queues its
        owner's rule pass, once per owner; each outside handler is called once. */
    method PropertiesChanged(x: ElemId, changed: set<Expr>)
      requires Valid() && x in elems
      modifies this`elems, this`idle, this`log
      ensures Valid()
      ensures !old(elems[x].tree.isAlive) ==> elems == old(elems) && idle == old(idle) && log == old(log)
      ensures old(elems[x].tree.isAlive) ==>
        var w := Woken(old(notifiers), old(elems[x]), changed);
        elems == Wake(old(elems), w) &&
        |idle| >= |old(idle)| && idle[..|old(idle)|] == old(idle) &&
        Lists(idle[|old(idle)|..], PassesFor(Newly(old(elems), w))) &&
        |log| >= |old(log)| && log[..|old(log)|] == old(log) &&
        Lists(log[|old(log)|..], Called(old(notifiers), old(elems[x]), x, changed))
      ensures Announced(old(notifiers), old(elems), old(idle), old(log), x, changed, elems, idle, log)
      ensures notifiers == old(notifiers)
    {
      if elems[x].tree.isAlive {
        Dispatch(x, changed);
      }
    }

    /** PropertiesChanged past its liveness check. */
    method Dispatch(x: ElemId, changed: set<Expr>)
      requires Valid() && x in elems
      modifies this`elems, this`idle, this`log
      ensures Valid()
      ensures var w := Woken(old(notifiers), old(elems[x]), changed);
        elems == Wake(old(elems), w) &&
        |idle| >= |old(idle)| && idle[..|old(idle)|] == old(idle) &&
        Lists(idle[|old(idle)|..], PassesFor(Newly(old(elems), w)))
      ensures |log| >= |old(log)| && log[..|old(log)|] == old(log) &&
        Lists(log[|old(log)|..], Called(old(notifiers), old(elems[x]), x, changed))
      ensures notifiers == old(notifiers)
    {
      ghost var a, l0 := Snapshot(), log;
      SubscribersAllLive(a, x, globalProviders, providerHandles);
      ghost var order := CallAllHandlers(x, changed);
      ghost var b := Broadcast(a.elems, a.notifiers, a.elems[x], x, order);
      BroadcastKeeps(a, Arena(elems, notifiers, idle, watchCalls, nextElem, nextNotifier), x, order, changed,
                     globalProviders, providerHandles);
      assert idle[..|a.idle|] == a.idle && idle[|a.idle|..] == b.passes;
      assert log[..|l0|] == l0 && log[|l0|..] == b.calls;
    }
      // ----- Rule evaluation -----

    /** Stores x's active declarations and dependency notifiers; the notifiers are x's own. */
    method SetRules(x: ElemId, active: RuleCascade.Declarations, m: map<Edge, NotifierId>)
      requires Valid() && x in elems && OwnsAll(notifiers, m, x)
      modifies this`elems
      ensures Valid()
      ensures elems == old(elems)[x := old(elems[x]).(rules := old(elems[x].rules).(active := active, dependencyNotifiers := m))]
    {
      ghost var a := Snapshot();
      var s := elems[x];
      var v := s.(rules := s.rules.(active := active, dependencyNotifiers := m));
      elems := elems[x := v];
      PendKeep(a.elems, a.idle, x, v);
      LocalStep(a, Snapshot(), x, v, globalProviders, providerHandles);
    }

    /** Replaces x's dependency map, as the first loop does when it moves a dependency out. */
    method SetDependencies(x: ElemId, m: map<Edge, NotifierId>)
      requires x in elems
      modifies this`elems
      ensures Is(WithDeps(old(Snapshot()), x, m))
    {
      var s := elems[x];
      elems := elems[x := s.(rules := s.rules.(dependencyNotifiers := m))];
    }

    /** One visit of DeclarationsChanged's first loop: a dependency found in x's old map
        moves out of it into the new map with its notifier; any other gets a fresh notifier
        from NotifyPropertyChanged on the element it names, with x's dependency handler. */
    method ResubscribeStep(x: ElemId, d: Edge, ghost a: Arena, ghost done: set<Edge>, updated: map<Edge, NotifierId>)
      returns (updated': map<Edge, NotifierId>)
      requires Valid() && Visited(a, x, done, updated) && d !in done && d.0 in a.elems
      modifies this`elems, this`notifiers, this`nextNotifier, this`watchCalls, this`log
      ensures Valid() && Visited(a, x, done + {d}, updated')
    {
      var m := elems[x].rules.dependencyNotifiers;
      if d in m {
        updated' := MoveDependency(x, d, a, done, updated);
      } else {
        updated' := SubscribeDependency(x, d, a, done, updated);
      }
    }

    method MoveDependency(x: ElemId, d: Edge, ghost a: Arena, ghost done: set<Edge>, updated: map<Edge, NotifierId>)
      returns (updated': map<Edge, NotifierId>)
      requires Valid() && Visited(a, x, done, updated) && d !in done && d.0 in a.elems
      requires d in elems[x].rules.dependencyNotifiers
      modifies this`elems
      ensures Valid() && Visited(a, x, done + {d}, updated')
    {
      ghost var r := Rebinding(Snapshot(), updated);
      MidwayStep(a, x, done, r, d, globalProviders, providerHandles);
      var m := elems[x].rules.dependencyNotifiers;
      updated' := updated[d := m[d]];
      SetDependencies(x, m - {d});
      assert Rebinding(Snapshot(), updated') == ResubscribeOne(r, x, d, globalProviders, providerHandles);
    }

    method SubscribeDependency(x: ElemId, d: Edge, ghost a: Arena, ghost done: set<Edge>, updated: map<Edge, NotifierId>)
      returns (updated': map<Edge, NotifierId>)
      requires Valid() && Visited(a, x, done, updated) && d !in done && d.0 in a.elems
      requires d !in elems[x].rules.dependencyNotifiers
      modifies this`elems, this`notifiers, this`nextNotifier, this`watchCalls, this`log
      ensures Valid() && Visited(a, x, done + {d}, updated')
      ensures log == old(log) + NotifiedEffects(old(Snapshot()), d.0, d.1, globalProviders, providerHandles)
    {
      ghost var r := Rebinding(Snapshot(), updated);
      MidwayStep(a, x, done, r, d, globalProviders, providerHandles);
      var n := NotifyPropertyChanged(d.0, d.1, OnDependency(x));
      updated' := updated[d := n];
      assert Rebinding(Snapshot(), updated') == ResubscribeOne(r, x, d, globalProviders, providerHandles);
    }

    /** DeclarationsChanged's first loop, in whatever order it visits the hash set: x's map
        keeps exactly the dependencies outside deps and the new map holds deps, renewed from
        the old map; the rest of x's state, the other elements' rules and the notifiers that
        existed are unchanged. */
    method Resubscribe(x: ElemId, deps: set<Edge>) returns (updated: map<Edge, NotifierId>)
      requires Valid() && x in elems && forall d :: d in deps ==> d.0 in elems
      modifies this`elems, this`notifiers, this`nextNotifier, this`watchCalls, this`log
      ensures Valid() && Resubscription(old(Snapshot()), Snapshot(), x, deps, updated)
      ensures old(nextNotifier) <= nextNotifier
    {
      ghost var a := Snapshot();
      DepsAt(a, x, globalProviders, providerHandles);
      NotifiersBelow(a, globalProviders, providerHandles);
      MidwayStart(a, x);
      updated := map[];
      Start(deps);
      var pending := deps;
      ghost var done: set<Edge> := {};
      while pending != {}
        invariant pending + done == deps && pending !! done
        invariant Valid() && Visited(a, x, done, updated)
        decreases |pending|
      {
        var d :| d in pending;
        Move(pending, done, deps, d);
        updated := ResubscribeStep(x, d, a, done, updated);
        done, pending := done + {d}, pending - {d};
      }
      MidwayDone(a, x, deps, Rebinding(Snapshot(), updated));
    }

    /** DeclarationsChanged's second loop over x's remaining dependency notifiers, in
        whatever order it visits the map: every one of them is disposed, no other notifier
        changes and no element's rule state does. */
    method DisposeDependencies(x: ElemId)
      requires Valid() && x in elems
      modifies this`elems, this`notifiers, this`watchCalls, this`log
      ensures Valid()
      ensures Withdrawn(old(Snapshot()), old(log), old(elems[x].rules.dependencyNotifiers), old(elems[x].rules.dependencyNotifiers).Keys)
    {
      ghost var a := Snapshot();
      var m := elems[x].rules.dependencyNotifiers;
      DepsAt(a, x, globalProviders, providerHandles);
      WithdrawingStart(a, m, globalProviders, providerHandles);
      SettledRefl(a.elems);
      QuietRefl(log);
      Start(m.Keys);
      var stale := m.Keys;
      ghost var done: set<Edge> := {};
      while stale != {}
        invariant stale + done == m.Keys && stale !! done
        invariant Valid() && Withdrawn(a, old(log), m, done)
        decreases |stale|
      {
        var d :| d in stale;
        Move(stale, done, m.Keys, d);
        DisposeStep(m, d, a, old(log), done);
        done, stale := done + {d}, stale - {d};
      }
    }

    /** One turn of DisposeDependencies' loop: the notifier of d is disposed. */
    method DisposeStep(m: map<Edge, NotifierId>, d: Edge, ghost a: Arena, ghost l0: seq<Effect>, ghost done: set<Edge>)
      requires Valid() && Withdrawn(a, l0, m, done) && d in m
      modifies this`elems, this`notifiers, this`watchCalls, this`log
      ensures Valid() && Withdrawn(a, l0, m, done + {d})
    {
      ghost var e, l, b := elems, log, Snapshot();
      WithdrawingStep(a, m, done, b, d, globalProviders, providerHandles);
      UnsubscribedSettled(b, m[d], globalProviders, providerHandles);
      UnsubscribeQuiet(b, m[d], globalProviders, providerHandles);
      Dispose(m[d]);
      QuietAppend(l, UnsubscribeEffects(b, m[d], globalProviders, providerHandles));
      QuietTrans(l0, l, log);
      SettledTrans(a.elems, e, elems, {});
    }

    /** DeclarationsChanged before its PropertiesChanged call: the new declarations are
        stored, and x's dependency map is rebound to deps. */
    method InstallDeclarations(x: ElemId, all: RuleCascade.Declarations, deps: set<Edge>) returns (changed: set<Expr>)
      requires Valid() && x in elems && forall d :: d in deps ==> d.0 in elems
      modifies this`elems, this`notifiers, this`nextNotifier, this`watchCalls, this`log
      ensures Valid() && Installed(old(Snapshot()), x, all, deps)
      ensures changed == RuleCascade.Changed(old(elems[x].rules.active), all)
    {
      ghost var a0 := Snapshot();
      var m0 := elems[x].rules.dependencyNotifiers;
      DepsAt(a0, x, globalProviders, providerHandles);
      changed := RuleCascade.Changed(elems[x].rules.active, all);
      SetRules(x, all, m0);
      ghost var a1 := Snapshot();
      var updated := Resubscribe(x, deps);
      ghost var a2 := Snapshot();
      DisposeDependencies(x);
      ghost var a3 := Snapshot();
      InstallingOwns(a1, a2, a3, x, deps, updated);
      SetRules(x, all, updated);
      InstalledMeaning(a0, a1, a2, a3, Snapshot(), x, all, deps, updated);
    }

    /** PropertiesChanged as DeclarationsChanged relies on it: only the rule-pass flags of
        the woken elements change. */
    method Announce(x: ElemId, changed: set<Expr>)
      requires Valid() && x in elems
      modifies this`elems, this`idle, this`log
      ensures Valid()
      ensures elems == old(elems) || elems == Wake(old(elems), Woken(old(notifiers), old(elems[x]), changed))
      ensures !old(elems[x].tree.isAlive) ==> elems == old(elems) && idle == old(idle) && log == old(log)
      ensures old(elems[x].tree.isAlive) ==> elems == Wake(old(elems), Woken(old(notifiers), old(elems[x]), changed))
      ensures Since(old(elems), {}) && x in elems && elems[x].tree == old(elems[x].tree)
      ensures elems[x].rules == old(elems[x].rules).(updatingRules := elems[x].rules.updatingRules)
      ensures old(log) <= log && notifiers == old(notifiers)
    {
      ghost var e, l := elems, log;
      ghost var w := Woken(notifiers, e[x], changed);
      PropertiesChanged(x, changed);
      if e[x].tree.isAlive {
        WakeSettled(e, w);
        WakeTree(e, w, x);
        WakeRules(e, w, x);
        PrefixOf(l, log);
      } else {
        SettledRefl(e);
      }
    }

    /** DeclarationsChanged: nothing once the element is being disposed; otherwise the new
        declarations and dependency notifiers are installed and the changed properties are
        announced. */
    method DeclarationsChanged(x: ElemId, all: RuleCascade.Declarations, deps: set<Edge>)
      requires Valid() && x in elems && forall d :: d in deps ==> d.0 in elems
      modifies this`elems, this`notifiers, this`nextNotifier, this`watchCalls, this`log, this`idle
      ensures Valid()
      ensures old(elems[x].rules.disposing) ==>
        elems == old(elems) && notifiers == old(notifiers) && nextNotifier == old(nextNotifier) &&
        watchCalls == old(watchCalls) && log == old(log) && idle == old(idle)
      ensures !old(elems[x].rules.disposing) ==> Declared(old(Snapshot()), Snapshot(), x, all, deps)
    {
      if !elems[x].rules.disposing {
        Redeclare(x, all, deps);
      }
    }

    /** DeclarationsChanged on an element that is not being disposed. */
    method Redeclare(x: ElemId, all: RuleCascade.Declarations, deps: set<Edge>)
      requires Valid() && x in elems && forall d :: d in deps ==> d.0 in elems
      modifies this`elems, this`notifiers, this`nextNotifier, this`watchCalls, this`log, this`idle
      ensures Valid() && Declared(old(Snapshot()), Snapshot(), x, all, deps)
    {
      ghost var a0 := Snapshot();
      var changed := InstallDeclarations(x, all, deps);
      AnnounceDeclarations(x, changed, a0, all, deps);
    }

    /** DeclarationsChanged's PropertiesChanged call, after the installation since a0. */
    method AnnounceDeclarations(x: ElemId, changed: set<Expr>, ghost a0: Arena, all: RuleCascade.Declarations, deps: set<Edge>)
      requires Valid() && x in elems && Installed(a0, x, all, deps)
      modifies this`elems, this`idle, this`log
      ensures Valid() && Declared(a0, Snapshot(), x, all, deps)
    {
      ghost var a1 := Snapshot();
      Announce(x, changed);
      DeclaredKept(a0, a1, Snapshot(), x, all, deps);
    }

    // ----- EvaluateRules -----

    /** The idle loop runs the rule pass at the head of the queue; the pass first clears the
        flag that promised it. */
    method TakePass() returns (x: ElemId)
      requires Valid() && |idle| > 0 && idle[0].EvaluateRulesOf?
      modifies this`elems, this`idle
      ensures Valid() && x == old(idle[0].element) && x in old(elems)
      ensures elems == old(elems)[x := Unflagged(old(elems[x]))] && idle == old(idle[1..])
    {
      UnflaggedKeeps(Snapshot(), globalProviders, providerHandles);
      x := idle[0].element;
      elems := elems[x := Unflagged(elems[x])];
      idle := idle[1..];
    }

    /** EvaluateRules, run from the idle queue, with eval evaluating expressions on the
        element: the flag is cleared; a dead element stops there; otherwise the sheet's
        cascade gives the declarations and dependencies DeclarationsChanged installs (mid is
        the arena it starts from), and the root raises the declarations-changed event. */
    method EvaluateRules(eval: Expr -> Lookup) returns (ghost mid: Arena)
      requires Valid() && |idle| > 0 && idle[0].EvaluateRulesOf?
      requires RuleCascade.ReadsWithin(eval, elems.Keys)
      modifies this`elems, this`notifiers, this`nextNotifier, this`watchCalls, this`log, this`idle
      ensures Valid() && old(idle[0].element) in old(elems)
      ensures var x := old(idle[0].element);
        mid.elems == old(elems)[x := Unflagged(old(elems[x]))] && mid.idle == old(idle[1..]) &&
        mid.notifiers == old(notifiers) && mid.nextNotifier == old(nextNotifier) && mid.watchCalls == old(watchCalls)
      ensures !old(elems[idle[0].element].tree.isAlive) ==>
        Is(mid) && log == old(log)
      ensures var x, c := old(idle[0].element), RuleCascade.Cascade(rules, eval);
        old(elems[x].tree.isAlive) ==>
          (old(elems[x].rules.disposing) ==> Is(mid)) &&
          (!old(elems[x].rules.disposing) ==> Declared(mid, Snapshot(), x, c.active, c.deps)) &&
          EndsWith(log, DeclarationsChangedRaised(x))
    {
      var x := TakePass();
      mid := Snapshot();
      if !elems[x].tree.isAlive {
        return;
      }
      var active, deps := RuleCascade.EvaluateCascade(rules, eval);
      RuleCascade.CascadeWithin(rules, eval, elems.Keys);
      DeclarationsChanged(x, active, deps);
      log := log + [DeclarationsChangedRaised(x)];
    }

    // ----- SetAlive(true) and AddChild -----

    /** RegisterTrackedProperties: the list joins the end, and an UpdateTrackedProperties
        callback is queued unless one is pending. */
    method RegisterTrackedProperties(x: ElemId, l: seq<string>)
      requires x in elems
      modifies this`elems, this`idle
      ensures elems == old(elems)[x := old(elems[x]).(tracked := Registered(old(elems[x].tracked), [l]))]
      ensures idle == old(idle) + RegisterTasks(old(elems[x].tracked), x, [l])
    {
      var s := elems[x];
      var t := s.tracked.(lists := s.tracked.lists + [l]);
      if !t.updating {
        t := t.(updating := true);
        idle := idle + [UpdateTrackedPropertiesOf(x)];
      }
      elems := elems[x := s.(tracked := t)];
    }

    /** SetAlive(true)'s loop: every global provider's tracked properties, where it has
        some, are registered, in provider order. */
    method RegisterAll(x: ElemId)
      requires x in elems
      modifies this`elems, this`idle
      ensures var s, ls := old(elems[x]), TrackedLists(globalProviders, trackedProperties);
        elems == old(elems)[x := s.(tracked := Registered(s.tracked, ls))] &&
        idle == old(idle) + RegisterTasks(s.tracked, x, ls)
    {
      ghost var s := elems[x];
      RegisterNone(s.tracked, x);
      assert globalProviders[..0] == [];
      for i := 0 to |globalProviders|
        invariant var ls := TrackedLists(globalProviders[..i], trackedProperties);
          elems == old(elems)[x := s.(tracked := Registered(s.tracked, ls))] &&
          idle == old(idle) + RegisterTasks(s.tracked, x, ls)
      {
        ghost var ls := TrackedLists(globalProviders[..i], trackedProperties);
        var tracked := trackedProperties(globalProviders[i]);
        TrackedListsSnoc(globalProviders, i, trackedProperties);
        RegisterSnoc(s.tracked, x, ls, Answer(tracked));
        if tracked.Some? {
          RegisterTrackedProperties(x, tracked.value);
        } else {
          RegisterNone(Registered(s.tracked, ls), x);
          assert ls + [] == ls;
        }
      }
      assert globalProviders[..|globalProviders|] == globalProviders;
    }

    /** SetAlive(true) on an element that is not alive (the tab control's override adds
        nothing when coming alive): alive first, then the tracked properties of the global
        providers registered, then a rule pass queued. */
    method Awaken(x: ElemId)
      requires Valid() && x in elems && !elems[x].tree.isAlive
      modifies this`elems, this`idle
      ensures Valid()
      ensures var ls := TrackedLists(globalProviders, trackedProperties);
        elems == old(elems)[x := Awakened(old(elems[x]), ls)] &&
        idle == old(idle) + AwakenTasks(old(elems[x]), x, ls)
    {
      ghost var a := Snapshot();
      ghost var n := notifiers;
      ghost var s := elems[x];
      ghost var ls := TrackedLists(globalProviders, trackedProperties);
      elems := elems[x := Revived(elems[x])];
      RegisterAll(x);
      ghost var v := elems[x];
      assert v == Revived(s).(tracked := Registered(s.tracked, ls));
      var queued := QueueEvaluateRules(x);
      assert elems[x] == Awakened(s, ls);
      assert elems == a.elems[x := Awakened(s, ls)];
      assert idle == a.idle + AwakenTasks(s, x, ls);
      assert notifiers == n;
      AwakenKeeps(a, Snapshot(), x, ls, globalProviders, providerHandles);
    }

    /** SetAlive, with the tab control's override: nothing when the element already is as
        asked, otherwise it comes alive or is torn down. */
    method SetAlive(x: ElemId, value: bool) returns (o: Outcome)
      requires Valid() && x in elems
      modifies this`elems, this`notifiers, this`watchCalls, this`log, this`idle
      ensures Valid() && x in elems && elems[x].tree.isAlive == value
      ensures value && old(elems[x].tree.isAlive) ==>
        o == Pass && elems == old(elems) && idle == old(idle) && log == old(log) &&
        notifiers == old(notifiers) && watchCalls == old(watchCalls)
      ensures value && !old(elems[x].tree.isAlive) ==>
        var ls := TrackedLists(globalProviders, trackedProperties);
        o == Pass && elems == old(elems)[x := Awakened(old(elems[x]), ls)] &&
        idle == old(idle) + AwakenTasks(old(elems[x]), x, ls) && log == old(log) &&
        notifiers == old(notifiers) && watchCalls == old(watchCalls)
      ensures !value ==> Since(old(elems), {}) && QuietSince(old(log), log) && idle == old(idle)
      ensures !value && old(elems[x].tree.isAlive) && o.Pass? ==>
        TornDown(elems[x]) && Emptied(old(elems[x].tree), elems[x].tree) && EndsWith(log, ElementDied(x)) &&
        Gone(elems, old(elems[x].tree.children))
    {
      if value {
        o := Pass;
        if !elems[x].tree.isAlive {
          Awaken(x);
        }
      } else {
        o := Kill(x);
      }
    }

    /** AddChild's links: child.Parent, the insertion into the list, the cached index and,
        for a recurse-method child, the count. */
    method Attach(p: ElemId, index: int, c: ElemId, rm: bool)
      requires Valid() && p in elems && c in elems && 0 <= index <= |elems[p].tree.children|
      modifies this`elems
      ensures Valid()
      ensures var e1 := old(elems)[c := Adopted(old(elems[c]), p, index)];
        elems == e1[p := Inserted(e1[p], index, c, rm)]
    {
      ghost var a := Snapshot();
      AdoptedKeeps(a, c, p, index, globalProviders, providerHandles);
      elems := elems[c := Adopted(elems[c], p, index)];
      InsertedKeeps(Snapshot(), p, index, c, rm, globalProviders, providerHandles);
      elems := elems[p := Inserted(elems[p], index, c, rm)];
    }

    /** AddChild past its checks, up to the announcement: the child is linked in and, unless
        it already is, made alive. */
    method Link(p: ElemId, index: int, c: ElemId, rm: bool)
      requires Valid() && p in elems && c in elems && 0 <= index <= |elems[p].tree.children|
      modifies this`elems, this`idle
      ensures Valid() && Joined(old(elems), elems, p, index, c, rm) && log == old(log)
      ensures var ls := TrackedLists(globalProviders, trackedProperties);
        elems == Linked(old(elems), p, index, c, rm, ls) && idle == old(idle) + LinkTasks(old(elems[c]), c, ls)
      ensures old(elems[c].tree.isAlive) ==> elems[c].tracked == old(elems[c].tracked)
      ensures !old(elems[c].tree.isAlive) ==>
        elems[c].tracked == Registered(old(elems[c].tracked), TrackedLists(globalProviders, trackedProperties)) &&
        elems[c].rules.updatingRules
    {
      Attach(p, index, c, rm);
      ghost var e2 := elems;
      Rouse(c);
      LinkedIs(old(elems), e2, elems, p, index, c, rm, TrackedLists(globalProviders, trackedProperties));
    }

    /** if (!child.IsAlive) child.SetAlive(true), as AddChild does it. */
    method Rouse(c: ElemId)
      requires Valid() && c in elems
      modifies this`elems, this`idle
      ensures Valid()
      ensures var ls := TrackedLists(globalProviders, trackedProperties);
        (if old(elems[c].tree.isAlive) then elems == old(elems) else elems == old(elems)[c := Awakened(old(elems[c]), ls)]) &&
        idle == old(idle) + LinkTasks(old(elems[c]), c, ls)
    {
      if !elems[c].tree.isAlive {
        Awaken(c);
      }
    }

    /** AddChild: the bound checks, then the single-parent check; the child is linked in,
        made alive, and the parent announces its children changed. */
    method AddChild(p: ElemId, index: int, c: ElemId, rm: bool) returns (o: Outcome, ghost mid: map<ElemId, ElementState>)
      requires Valid() && p in elems && c in elems
      modifies this`elems, this`idle, this`log
      ensures Valid() && old(log) <= log
      ensures !InsertionAllowed(old(elems[p].tree), index, rm) ==>
        o == Fail(IndexOutOfRange) && elems == old(elems) && idle == old(idle) && log == old(log)
      ensures InsertionAllowed(old(elems[p].tree), index, rm) && old(elems[c].tree.parent.Some?) ==>
        o == Fail(AlreadyHasParent) && elems == old(elems) && idle == old(idle) && log == old(log)
      ensures InsertionAllowed(old(elems[p].tree), index, rm) && old(elems[c].tree.parent.None?) ==>
        o == Pass && Joined(old(elems), elems, p, index, c, rm)
      ensures InsertionAllowed(old(elems[p].tree), index, rm) && old(elems[c].tree.parent.None?) ==>
        var ls := TrackedLists(globalProviders, trackedProperties);
        var queued := old(idle) + LinkTasks(old(elems[c]), c, ls);
        mid == Linked(old(elems), p, index, c, rm, ls) && Joined(old(elems), mid, p, index, c, rm) &&
        Announced(old(notifiers), mid, queued, old(log), p, {ChildrenProperty}, elems, idle, log)
      ensures o.Pass? && old(elems[c].tree.isAlive) ==> elems[c].tracked == old(elems[c].tracked)
      ensures o.Pass? && !old(elems[c].tree.isAlive) ==>
        elems[c].tracked == Registered(old(elems[c].tracked), TrackedLists(globalProviders, trackedProperties)) &&
        elems[c].rules.updatingRules
    {
      mid := elems;
      if !InsertionAllowed(elems[p].tree, index, rm) {
        return Fail(IndexOutOfRange), mid;
      }
      if elems[c].tree.parent.Some? {
        return Fail(AlreadyHasParent), mid;
      }
      mid := Join(p, index, c, rm);
      o := Pass;
    }

    /** AddChild past its checks: Link, then PropertiesChanged("children"). */
    method Join(p: ElemId, index: int, c: ElemId, rm: bool) returns (ghost mid: map<ElemId, ElementState>)
      requires Valid() && p in elems && c in elems && 0 <= index <= |elems[p].tree.children|
      modifies this`elems, this`idle, this`log
      ensures Valid() && old(log) <= log && Joined(old(elems), elems, p, index, c, rm)
      ensures var ls := TrackedLists(globalProviders, trackedProperties);
        var queued := old(idle) + LinkTasks(old(elems[c]), c, ls);
        mid == Linked(old(elems), p, index, c, rm, ls) && Joined(old(elems), mid, p, index, c, rm) &&
        Announced(old(notifiers), mid, queued, old(log), p, {ChildrenProperty}, elems, idle, log)
      ensures old(elems[c].tree.isAlive) ==> elems[c].tracked == old(elems[c].tracked)
      ensures !old(elems[c].tree.isAlive) ==>
        elems[c].tracked == Registered(old(elems[c].tracked), TrackedLists(globalProviders, trackedProperties)) &&
        elems[c].rules.updatingRules
    {
      Link(p, index, c, rm);
      mid := elems;
      ghost var w := Woken(notifiers, elems[p], {ChildrenProperty});
      PropertiesChanged(p, {ChildrenProperty});
      if mid[p].tree.isAlive {
        JoinedWake(old(elems), mid, w, p, index, c, rm);
      }
    }

    // ----- IndexInParent -----

    /** RecalculateChildIndices: each child's cached index is set to its position, in list
        order. */
    method RecalculateChildIndices(p: ElemId)
      requires Valid() && p in elems
      modifies this`elems
      ensures Valid() && ChildrenIn(old(elems[p].tree.children), old(elems).Keys)
      ensures elems == Indexed(old(elems), old(elems[p].tree.children), |old(elems[p].tree.children)|)
    {
      ghost var a := Snapshot();
      var cs := elems[p].tree.children;
      ChildrenOf(a, p, globalProviders, providerHandles);
      Reindex(cs);
      IndexedKeeps(a, Snapshot(), cs, |cs|, globalProviders, providerHandles);
    }

    /** The loop of RecalculateChildIndices: child i gets cached index i, in list order. */
    method Reindex(cs: seq<ElemId>)
      requires ChildrenIn(cs, elems.Keys)
      modifies this`elems
      ensures elems == Indexed(old(elems), cs, |cs|)
    {
      for i := 0 to |cs|
        invariant elems == Indexed(old(elems), cs, i)
      {
        elems := elems[cs[i] := Reindexed(elems[cs[i]], i)];
      }
    }

    /** IndexInParent: -1 without a parent; otherwise the cached index, recalculated first
        when it does not point back at the element. An element its parent lists gets a
        position at which the parent lists it. */
    method IndexInParent(c: ElemId) returns (r: int)
      requires Valid() && c in elems
      modifies this`elems
      ensures Valid()
      ensures old(elems[c].tree.parent).None? ==> r == -1 && elems == old(elems)
      ensures old(elems[c].tree.parent).Some? ==>
        var p := old(elems[c].tree.parent.value);
        p in old(elems) && ChildrenIn(old(elems[p].tree.children), old(elems).Keys) &&
        var cs := old(elems[p].tree.children);
        (elems == old(elems) || elems == Indexed(old(elems), cs, |cs|)) &&
        (c in cs ==> 0 <= r < |cs| && cs[r] == c) &&
        (c !in cs ==> r == old(elems[c].tree.cachedIndexInParent))
    {
      if elems[c].tree.parent.None? {
        return -1;
      }
      var p := elems[c].tree.parent.value;
      ChildrenOf(Snapshot(), c, globalProviders, providerHandles);
      ChildrenOf(Snapshot(), p, globalProviders, providerHandles);
      var cs := elems[p].tree.children;
      var k := elems[c].tree.cachedIndexInParent;
      if |cs| <= k || cs[k] != c {
        RecalculateChildIndices(p);
        IndexedMeaning(old(elems), cs, |cs|, c);
        assert cs[..|cs|] == cs;
      }
      r := elems[c].tree.cachedIndexInParent;
    }

    // ----- SyncRecurseMethodChildren -----

    /** The third loop: each slot no old child took gets the element key_to_element makes
        for its key, a new element with the key's id. */
    method MakeChildren(ids: seq<Option<string>>, kinds: seq<Kind>, slots: seq<Option<nat>>, olds: seq<ElemId>)
      returns (placed: seq<ElemId>)
      requires Valid() && |kinds| == |ids| && |slots| == |ids| && ChildrenIn(olds, elems.Keys)
      requires forall j :: 0 <= j < |slots| && slots[j].Some? ==> slots[j].value < |olds|
      modifies this`elems, this`nextElem
      ensures Valid() && ChildrenIn(placed, elems.Keys) && Grows(old(elems), elems)
      ensures Made(old(elems), elems, ids, kinds, slots, olds, placed)
    {
      ghost var e0 := elems;
      placed := [];
      for i := 0 to |ids|
        invariant Valid() && |placed| == i && ChildrenIn(placed, elems.Keys)
        invariant Grows(e0, elems) && MadeUpTo(e0, elems, ids, kinds, slots, olds, placed)
      {
        ghost var e1 := elems;
        var c;
        if slots[i].Some? {
          c := olds[slots[i].value];
        } else {
          c := CreateElement(IdOf(ids[i]), kinds[i]);
        }
        MadeSnoc(e0, e1, elems, ids, kinds, slots, olds, placed, c);
        placed := placed + [c];
      }
    }

    /** The list adjusted to keys.Count recurse-method children, then filled from
        new_elements, and RecurseMethodChildCount = keys.Count. */
    method Arrange(x: ElemId, placed: seq<ElemId>)
      requires Valid() && x in elems && ChildrenIn(placed, elems.Keys)
      requires 0 <= elems[x].tree.recurseMethodChildCount <= |elems[x].tree.children|
      modifies this`elems
      ensures Valid() && elems == old(elems)[x := Arranged(old(elems[x]), placed)]
    {
      ArrangedKeeps(Snapshot(), x, placed, globalProviders, providerHandles);
      elems := elems[x := Arranged(elems[x], placed)];
    }

    /** SyncRecurseMethodChildren past the early return, up to the parent links: the new
        element list is made and becomes the recurse-method part of the children. */
    method Rebuild(x: ElemId, ids: seq<Option<string>>, kinds: seq<Kind>, slots: seq<Option<nat>>)
      returns (placed: seq<ElemId>)
      requires Valid() && x in elems && |kinds| == |ids| && |slots| == |ids|
      requires 0 <= elems[x].tree.recurseMethodChildCount <= |elems[x].tree.children|
      requires forall j :: 0 <= j < |slots| && slots[j].Some? ==> slots[j].value < elems[x].tree.recurseMethodChildCount
      modifies this`elems, this`nextElem
      ensures Valid() && x in elems && ChildrenIn(placed, elems.Keys)
      ensures Made(old(elems), elems, ids, kinds, slots, old(elems[x].tree.children[..elems[x].tree.recurseMethodChildCount]), placed)
      ensures elems[x] == Arranged(old(elems[x]), placed)
      ensures forall y :: y in old(elems) && y != x ==> y in elems && elems[y] == old(elems[y])
    {
      var t := elems[x].tree;
      var olds := t.children[..t.recurseMethodChildCount];
      ChildrenOf(Snapshot(), x, globalProviders, providerHandles);
      placed := MakeChildren(ids, kinds, slots, olds);
      ghost var e1 := elems;
      Arrange(x, placed);
      MadeFrame(old(elems), e1, elems, x, ids, kinds, slots, olds, placed);
    }

    /** child.Parent = this. */
    method Foster(c: ElemId, p: ElemId)
      requires Valid() && c in elems && p in elems
      modifies this`elems
      ensures Valid() && elems == old(elems)[c := Parented(old(elems[c]), p)]
    {
      ParentedKeeps(Snapshot(), c, p, globalProviders, providerHandles);
      elems := elems[c := Parented(elems[c], p)];
    }

    /** The fourth loop: each new child that is not alive gets this element as its parent and
        comes alive. Nothing else changes. */
    method AdoptAll(x: ElemId, placed: seq<ElemId>)
      requires Valid() && x in elems && elems[x].tree.isAlive && ChildrenIn(placed, elems.Keys)
      modifies this`elems, this`idle
      ensures Valid() && Adopting(old(elems), elems, x, placed)
    {
      ghost var e0 := elems;
      for i := 0 to |placed|
        invariant Valid() && Adopting(e0, elems, x, placed[..i])
      {
        Adopt(x, placed[i], e0, placed[..i]);
        TakeOneMore(placed, i);
      }
      assert placed[..|placed|] == placed;
    }

    /** One pass of the fourth loop. */
    method Adopt(x: ElemId, c: ElemId, ghost e0: map<ElemId, ElementState>, ghost done: seq<ElemId>)
      requires Valid() && Adopting(e0, elems, x, done) && c in e0
      modifies this`elems, this`idle
      ensures Valid() && Adopting(e0, elems, x, done + [c])
    {
      ghost var e1 := elems;
      if !elems[c].tree.isAlive {
        Foster(c, x);
        Awaken(c);
      }
      AdoptingSnoc(e0, e1, elems, x, done, c, TrackedLists(globalProviders, trackedProperties));
    }

    /** child.Parent = null. */
    method Orphan(c: ElemId)
      requires Valid() && c in elems
      modifies this`elems
      ensures Valid() && Since(old(elems), {}) && elems == old(elems)[c := Orphaned(old(elems[c]))]
    {
      OrphanedKeeps(Snapshot(), c, globalProviders, providerHandles);
      elems := elems[c := Orphaned(elems[c])];
    }

    /** The fifth loop: each old child whose id is not among the new ids loses its parent and
        is torn down, in list order; a failed teardown ends the loop. */
    method DropAll(olds: seq<ElemId>, oldIds: seq<string>, index: map<string, nat>) returns (o: Outcome)
      requires Valid() && ChildrenIn(olds, elems.Keys) && |oldIds| == |olds|
      modifies this`elems, this`notifiers, this`watchCalls, this`log, this`idle
      ensures Valid() && Since(old(elems), {}) && old(log) <= log
      ensures o.Pass? ==> Dropping(old(elems), elems, olds, oldIds, index, |olds|)
    {
      ghost var e0, l0 := elems, log;
      SettledRefl(e0);
      o := Pass;
      for i := 0 to |olds|
        invariant Valid() && Dropping(e0, elems, olds, oldIds, index, i) && l0 <= log
      {
        o := Drop(olds, oldIds, index, i, e0, l0);
        if o.Fail? {
          return;
        }
      }
    }

    /** One pass of the fifth loop. */
    method Drop(olds: seq<ElemId>, oldIds: seq<string>, index: map<string, nat>, i: nat,
                ghost e0: map<ElemId, ElementState>, ghost l0: seq<Effect>) returns (o: Outcome)
      requires Valid() && Dropping(e0, elems, olds, oldIds, index, i) && i < |olds| && l0 <= log
      modifies this`elems, this`notifiers, this`watchCalls, this`log, this`idle
      ensures Valid() && Settled(e0, elems, {}) && l0 <= log
      ensures o.Pass? ==> Dropping(e0, elems, olds, oldIds, index, i + 1)
    {
      ghost var e1, l1 := elems, log;
      o := Pass;
      if oldIds[i] !in index {
        o := Disown(olds[i]);
        PrefixTrans(l0, l1, log);
      } else {
        SettledRefl(e1);
      }
      DroppingStep(e0, e1, elems, olds, oldIds, index, i);
    }

    /** The body of the fifth loop for an unmatched child: child.Parent = null, then
        child.SetAlive(false). */
    method Disown(c: ElemId) returns (o: Outcome)
      requires Valid() && c in elems
      modifies this`elems, this`notifiers, this`watchCalls, this`log, this`idle
      ensures Valid() && Since(old(elems), {}) && old(log) <= log
      ensures c in elems && !elems[c].tree.isAlive && elems[c].tree.parent.None?
    {
      ghost var e1 := elems;
      Orphan(c);
      ghost var e2 := elems;
      o := Kill(c);
      assert UiDomTree.Kept(e2[c], elems[c], false);
      SettledTrans(e1, e2, elems, {});
    }

    /** The last two loops and the announcement: the new children are adopted (mid is the
        table after that loop), the unmatched old children torn down and, if no teardown
        failed, the element announces its children changed. */
    method Relink(x: ElemId, placed: seq<ElemId>, olds: seq<ElemId>, oldIds: seq<string>, index: map<string, nat>)
      returns (o: Outcome, ghost mid: map<ElemId, ElementState>)
      requires Valid() && x in elems && elems[x].tree.isAlive
      requires ChildrenIn(placed, elems.Keys) && ChildrenIn(olds, elems.Keys) && |oldIds| == |olds|
      modifies this`elems, this`notifiers, this`watchCalls, this`log, this`idle
      ensures Valid() && old(log) <= log
      ensures Adopting(old(elems), mid, x, placed) && Settled(mid, elems, {})
      ensures o.Pass? ==> forall k :: 0 <= k < |olds| && oldIds[k] !in index ==>
        olds[k] in elems && !elems[olds[k]].tree.isAlive && elems[olds[k]].tree.parent.None?
    {
      AdoptAll(x, placed);
      mid := elems;
      ghost var l1 := log;
      o := DropAll(olds, oldIds, index);
      if o.Pass? {
        ghost var e2, l2 := elems, log;
        Announce(x, {ChildrenProperty});
        DroppingLater(mid, e2, elems, olds, oldIds, index);
        PrefixTrans(l1, l2, log);
      }
    }

    /** SyncRecurseMethodChildren, with key_to_id's answers as ids and the kinds of the
        elements key_to_element makes as kinds: nothing on a dead element; an
        ArgumentException on a repeated id; an exception when the recurse-method count does
        not fit the list; nothing when every old child keeps its slot and the count is the
        same; otherwise the list is rebuilt as Resynced says, and every old child whose id
        is gone is torn down unless a teardown fails. */
    method SyncRecurseMethodChildren(x: ElemId, ids: seq<Option<string>>, kinds: seq<Kind>)
      returns (o: Outcome, ghost placed: seq<ElemId>, ghost mid: map<ElemId, ElementState>)
      requires Valid() && x in elems && |kinds| == |ids|
      modifies this`elems, this`nextElem, this`notifiers, this`watchCalls, this`log, this`idle
      ensures Valid() && old(log) <= log
      ensures var t := old(elems[x].tree);
        var olds := RecurseChildren(t);
        var oldIds, index := ChildIds(old(elems), olds), Reconcile.IdIndex(ids);
        !t.isAlive || Reconcile.HasDuplicate(ids) || !CountFits(t) || Reconcile.Unchanged(oldIds, index, |ids|) ==>
          elems == old(elems) && nextElem == old(nextElem) && notifiers == old(notifiers) &&
          watchCalls == old(watchCalls) && log == old(log) && idle == old(idle) &&
          o == (if !t.isAlive then Pass
                else if Reconcile.HasDuplicate(ids) then Fail(DuplicateKey)
                else if !CountFits(t) then Fail(IndexOutOfRange)
                else Pass)
      ensures var t := old(elems[x].tree);
        var olds := RecurseChildren(t);
        var oldIds, index := ChildIds(old(elems), olds), Reconcile.IdIndex(ids);
        t.isAlive && !Reconcile.HasDuplicate(ids) && CountFits(t) && !Reconcile.Unchanged(oldIds, index, |ids|) ==>
          Resynced(old(elems), mid, elems, x, Reconcile.Placement(oldIds, index, |ids|), placed) &&
          (o.Pass? ==> forall k :: 0 <= k < |olds| && oldIds[k] !in index ==>
            olds[k] in elems && !elems[olds[k]].tree.isAlive && elems[olds[k]].tree.parent.None?)
    {
      placed, mid := [], elems;
      if !elems[x].tree.isAlive {
        return Pass, placed, mid;
      }
      var index;
      o, index := Reconcile.IndexKeys(ids);
      if o.Fail? {
        return;
      }
      var t := elems[x].tree;
      if !CountFits(t) {
        return Fail(IndexOutOfRange), placed, mid;
      }
      var olds := RecurseChildren(t);
      var oldIds := ChildIds(elems, olds);
      var slots, changed := Reconcile.MatchOld(oldIds, index, |ids|);
      if !changed && |ids| == t.recurseMethodChildCount {
        return Pass, placed, mid;
      }
      o, placed, mid := Resync(x, ids, kinds, slots, oldIds, index);
    }

    /** SyncRecurseMethodChildren past the early return. */
    method Resync(x: ElemId, ids: seq<Option<string>>, kinds: seq<Kind>, slots: seq<Option<nat>>,
                  oldIds: seq<string>, index: map<string, nat>)
      returns (o: Outcome, ghost placed: seq<ElemId>, ghost mid: map<ElemId, ElementState>)
      requires Valid() && x in elems && elems[x].tree.isAlive && |kinds| == |ids| && |slots| == |ids|
      requires 0 <= elems[x].tree.recurseMethodChildCount <= |elems[x].tree.children|
      requires forall s :: s in index ==> index[s] < |ids|
      requires slots == Reconcile.Placement(oldIds, index, |ids|) && |oldIds| == elems[x].tree.recurseMethodChildCount
      modifies this`elems, this`nextElem, this`notifiers, this`watchCalls, this`log, this`idle
      ensures Valid() && old(log) <= log
      ensures Resynced(old(elems), mid, elems, x, slots, placed)
      ensures var olds := RecurseChildren(old(elems[x].tree));
        o.Pass? ==> forall k :: 0 <= k < |olds| && oldIds[k] !in index ==>
          olds[k] in elems && !elems[olds[k]].tree.isAlive && elems[olds[k]].tree.parent.None?
    {
      ghost var e0 := elems;
      var t := elems[x].tree;
      var olds := t.children[..t.recurseMethodChildCount];
      ChildrenOf(Snapshot(), x, globalProviders, providerHandles);
      assert ChildrenIn(olds, elems.Keys);
      var p := Rebuild(x, ids, kinds, slots);
      ghost var er := elems;
      o, mid := Relink(x, p, olds, oldIds, index);
      placed := p;
      ResyncedIntro(e0, er, mid, elems, x, ids, kinds, slots, placed);
    }

    // ----- SetAlive(false) and RemoveChild -----

    /** SetAlive(false), with the tab control's override first: the override releases the
        remote memory, alive or not; a live element is then torn down. No element comes
        alive and only dying elements lose children. */
    method Kill(x: ElemId) returns (o: Outcome)
      requires Valid() && x in elems
      modifies this`elems, this`notifiers, this`watchCalls, this`log, this`idle
      decreases |AliveSet(elems)|, 7
      ensures Valid() && Since(old(elems), {}) && QuietSince(old(log), log) && idle == old(idle)
      ensures !elems[x].tree.isAlive
      ensures !old(elems[x].tree.isAlive) ==>
        o == Pass && elems == old(elems)[x := Released(old(elems[x]))] &&
        log == old(log) + ReleaseEffects(old(elems[x]), x) &&
        notifiers == old(notifiers) && watchCalls == old(watchCalls) && idle == old(idle)
      ensures old(elems[x].tree.isAlive) ==>
        TornDown(elems[x]) &&
        old(log) + ReleaseEffects(old(elems[x]), x) + Notices(old(elems[x].providers) + globalProviders, x) <= log
      ensures old(elems[x].tree.isAlive) && old(elems[x].tree.recurseMethodChildCount) < 0 ==> o.Fail?
      ensures old(elems[x].tree.isAlive) && o.Pass? ==>
        Emptied(old(elems[x].tree), elems[x].tree) && EndsWith(log, ElementDied(x)) &&
        Gone(elems, old(elems[x].tree.children))
    {
      ReleaseRemoteMemory(x);
      PrefixAppend(old(log), ReleaseEffects(old(elems[x]), x));
      QuietAppend(old(log), ReleaseEffects(old(elems[x]), x));
      if !elems[x].tree.isAlive {
        assert !old(elems[x].tree.isAlive);
        return Pass;
      }
      ghost var er, lr := elems, log;
      SettledAlive(old(elems), er, {}, x);
      o := Teardown(x);
      QuietTrans(old(log), lr, log);
      SettledTrans(old(elems), er, elems, {});
    }

    /** SetAlive(false) on a live element: it stops being alive, has its providers and then
        the global providers told, turns disposing, drops its relationship watchers and
        dependency notifiers, stops polling, cancels its pending rule pass, removes its
        children (the non-recurse-method ones from the end, then the rest) and is reported
        dead. A recurse-method count below zero makes a removal fail. */
    method Teardown(x: ElemId) returns (o: Outcome)
      requires Valid() && x in elems && elems[x].tree.isAlive
      modifies this`elems, this`notifiers, this`watchCalls, this`log, this`idle
      decreases |AliveSet(elems)|, 6
      ensures Valid() && Since(old(elems), {}) && TornDown(elems[x])
      ensures QuietSince(old(log), log) && idle == old(idle)
      ensures old(log) + Notices(old(elems[x].providers) + globalProviders, x) <= log
      ensures old(elems[x].tree.recurseMethodChildCount) < 0 ==> o.Fail?
      ensures o.Pass? ==>
        Emptied(old(elems[x].tree), elems[x].tree) && EndsWith(log, ElementDied(x))
      ensures o.Pass? ==> Gone(elems, old(elems[x].tree.children))
    {
      ghost var e0 := elems;
      ghost var told := old(log) + Notices(elems[x].providers + globalProviders, x);
      PrefixAppend(old(log), Notices(elems[x].providers + globalProviders, x));
      Prepare(x);
      ghost var e4, l4 := elems, log;
      o := RemoveChildren(x);
      SettledWiden(e0, e4, {x});
      SettledTrans(e0, e4, elems, {x});
      PrefixTrans(told, l4, log);
      QuietTrans(old(log), l4, log);
      SettledDrop(e0, elems, x);
    }

    /** SetAlive(false)'s two loops over the children, then the death announcement. */
    method RemoveChildren(x: ElemId) returns (o: Outcome)
      requires Valid() && x in elems && TornDown(elems[x])
      modifies this`elems, this`notifiers, this`watchCalls, this`log, this`idle
      decreases |AliveSet(elems)| + 1, 5
      ensures Valid() && Since(old(elems), {x}) && TornDown(elems[x])
      ensures QuietSince(old(log), log) && idle == old(idle)
      ensures old(elems[x].tree.recurseMethodChildCount) < 0 ==> o.Fail?
      ensures o.Pass? ==> Emptied(old(elems[x].tree), elems[x].tree) && EndsWith(log, ElementDied(x))
      ensures o.Pass? ==> Gone(elems, old(elems[x].tree.children))
    {
      ghost var e0 := elems;
      o := TrimChildren(x);
      if o.Pass? {
        SettledAlive(e0, elems, {x}, x);
        ghost var e1, l1 := elems, log;
        o := ClearAndReport(x);
        SettledTrans(e0, e1, elems, {x});
        QuietTrans(old(log), l1, log);
        if o.Pass? {
          EmptiedByLoops(e0[x].tree, e1[x].tree, elems[x].tree);
          ghost var cs, r := e0[x].tree.children, |e1[x].tree.children|;
          GoneKept(e1, elems, cs[r..], {x});
          assert cs[..r] == e1[x].tree.children;
          GoneSplit(elems, cs, r);
        }
      }
    }

    /** The second loop, then the death announcement when it succeeds. */
    method ClearAndReport(x: ElemId) returns (o: Outcome)
      requires Valid() && x in elems && TornDown(elems[x])
      requires elems[x].tree.recurseMethodChildCount >= |elems[x].tree.children|
      modifies this`elems, this`notifiers, this`watchCalls, this`log, this`idle
      decreases |AliveSet(elems)| + 1, 4
      ensures Valid() && Since(old(elems), {x}) && TornDown(elems[x])
      ensures QuietSince(old(log), log) && idle == old(idle)
      ensures o.Pass? ==>
        elems[x].tree.children == [] && EndsWith(log, ElementDied(x)) &&
        elems[x].tree.recurseMethodChildCount ==
          old(elems[x].tree.recurseMethodChildCount) - |old(elems[x].tree.children)|
      ensures o.Pass? ==> Gone(elems, old(elems[x].tree.children))
    {
      o := ClearChildren(x);
      if o.Pass? {
        ghost var l2 := log;
        RaiseElementDied(x);
        QuietAppend(l2, [ElementDied(x)]);
        QuietTrans(old(log), l2, log);
      }
    }

    /** SetAlive(false) up to the removal of the children. */
    method Prepare(x: ElemId)
      requires Valid() && x in elems && elems[x].tree.isAlive
      modifies this`elems, this`notifiers, this`watchCalls, this`log
      ensures Valid() && Prepared(old(elems), elems, x)
      ensures old(log) + Notices(old(elems[x].providers) + globalProviders, x) <= log
      ensures QuietSince(old(log), log)
    {
      ghost var e0, l0 := elems, log;
      BeginTeardown(x);
      ghost var e1, l1 := elems, log;
      QuietAppend(l0, Notices(e0[x].providers + globalProviders, x));
      ghost var order := DisposeWatchers(x);
      ghost var e2, l2 := elems, log;
      PrefixAppend(l1, WatcherDisposals(x, order));
      QuietAppend(l1, WatcherDisposals(x, order));
      Withdraw(x);
      ghost var e3 := elems;
      PrefixTrans(l1, l2, log);
      QuietTrans(l1, l2, log);
      QuietTrans(l0, l1, log);
      Quiesce(x);
      WatchersOf(elems, x);
      TeardownChain(e0, e1, e2, e3, elems, x);
    }

    /** The root's RaiseElementDiedEvent. */
    method RaiseElementDied(x: ElemId)
      requires Valid()
      modifies this`log
      ensures Valid() && elems == old(elems)
      ensures log == old(log) + [ElementDied(x)]
    {
      log := log + [ElementDied(x)];
    }

    /** The override's part: release the remote memory and forget it. */
    method ReleaseRemoteMemory(x: ElemId)
      requires Valid() && x in elems
      modifies this`elems, this`log
      ensures Valid() && Since(old(elems), {})
      ensures elems == old(elems)[x := Released(old(elems[x]))]
      ensures log == old(log) + ReleaseEffects(old(elems[x]), x)
    {
      ghost var a := Snapshot();
      ReleasedKeeps(a, x, globalProviders, providerHandles);
      var s := elems[x];
      if s.kind.TabControl? && s.kind.remoteMemory.Some? {
        log := log + [RemoteMemoryReleased(x)];
      }
      elems := elems[x := Released(s)];
    }

    /** The element stops being alive and its providers, then the global ones, are told. */
    method BeginTeardown(x: ElemId)
      requires Valid() && x in elems
      modifies this`elems, this`log
      ensures Valid()
      ensures elems == old(elems)[x := Dying(old(elems[x]))]
      ensures log == old(log) + Notices(old(elems[x].providers) + globalProviders, x)
    {
      DyingKeeps(Snapshot(), x, globalProviders, providerHandles);
      elems := elems[x := Dying(elems[x])];
      NotifyRemoved(x, elems[x].providers + globalProviders);
    }

    /** NotifyElementRemoved on each provider in turn. */
    method NotifyRemoved(x: ElemId, ps: seq<ProviderId>)
      modifies this`log
      ensures log == old(log) + Notices(ps, x)
    {
      for i := 0 to |ps|
        invariant log == old(log) + Notices(ps[..i], x)
      {
        assert Notices(ps[..i + 1], x) == Notices(ps[..i], x) + [ElementRemovedNotified(ps[i], x)];
        log := log + [ElementRemovedNotified(ps[i], x)];
      }
      assert ps[..|ps|] == ps;
    }

    /** The element turns disposing and disposes its relationship watchers, in whatever
        order the dictionary hands them out, then forgets them. */
    method DisposeWatchers(x: ElemId) returns (ghost order: seq<Expr>)
      requires Valid() && x in elems
      modifies this`elems, this`log
      ensures Valid()
      ensures elems == old(elems)[x := Disposed(old(elems[x]))]
      ensures Lists(order, old(elems[x].watch.relationshipWatchers))
      ensures log == old(log) + WatcherDisposals(x, order)
    {
      DisposedKeeps(Snapshot(), x, globalProviders, providerHandles);
      var e0, s := elems, elems[x];
      elems := e0[x := s.(rules := s.rules.(disposing := true))];
      order := LogWatcherDisposals(x, s.watch.relationshipWatchers);
      elems := e0[x := Disposed(s)];
    }

    /** UiDomRelationshipWatcher.Dispose on each watcher, in the order taken. */
    method LogWatcherDisposals(x: ElemId, watchers: set<Expr>) returns (ghost order: seq<Expr>)
      modifies this`log
      ensures Lists(order, watchers)
      ensures log == old(log) + WatcherDisposals(x, order)
    {
      var rest := watchers;
      order := [];
      ghost var done: set<Expr> := {};
      ListsNone<Expr>();
      Start(watchers);
      while rest != {}
        invariant rest + done == watchers && rest !! done && Lists(order, done)
        invariant log == old(log) + WatcherDisposals(x, order)
        decreases rest
      {
        var ex :| ex in rest;
        ListsSnoc(order, done, ex);
        assert WatcherDisposals(x, order + [ex]) == WatcherDisposals(x, order) + [RelationshipWatcherDisposed(x, ex)];
        log := log + [RelationshipWatcherDisposed(x, ex)];
        rest, done, order := rest - {ex}, done + {ex}, order + [ex];
      }
    }

    /** The dependency map is cleared, polling is torn down and the pending flag dropped. */
    method Quiesce(x: ElemId)
      requires Valid() && x in elems
      modifies this`elems
      ensures Valid()
      ensures elems == old(elems)[x := Quiesced(old(elems[x]))]
      ensures log == old(log)
    {
      QuiescedKeeps(Snapshot(), x, globalProviders, providerHandles);
      elems := elems[x := Quiesced(elems[x])];
    }

    /** DeclarationsChanged's second loop as SetAlive(false) uses it. */
    method Withdraw(x: ElemId)
      requires Valid() && x in elems
      modifies this`elems, this`notifiers, this`watchCalls, this`log
      ensures Valid() && Since(old(elems), {}) && QuietSince(old(log), log)
      ensures elems[x].rules == old(elems[x].rules)
      ensures forall d :: d in old(elems[x].rules.dependencyNotifiers) ==>
        old(elems[x].rules.dependencyNotifiers)[d] in notifiers && notifiers[old(elems[x].rules.dependencyNotifiers)[d]].disposed
    {
      DisposeDependencies(x);
    }

    /** SetAlive(false)'s first loop: children are removed from the end, as
        non-recurse-method children, until no more are left than the recurse-method count. */
    method TrimChildren(x: ElemId) returns (o: Outcome)
      requires Valid() && x in elems && TornDown(elems[x])
      modifies this`elems, this`notifiers, this`watchCalls, this`log, this`idle
      decreases |AliveSet(elems)| + 1, 3
      ensures Valid() && Since(old(elems), {x}) && TornDown(elems[x])
      ensures QuietSince(old(log), log) && idle == old(idle)
      ensures old(elems[x].tree.recurseMethodChildCount) < 0 ==> o.Fail?
      ensures o.Pass? ==>
        var k, n := old(elems[x].tree.recurseMethodChildCount), |old(elems[x].tree.children)|;
        elems[x].tree.recurseMethodChildCount == k && |elems[x].tree.children| == (if k <= n then k else n)
      ensures o.Pass? ==> Stripped(elems, x, old(elems[x].tree.children))
    {
      ghost var e0 := elems;
      var k := elems[x].tree.recurseMethodChildCount;
      ghost var n := |elems[x].tree.children|;
      SettledRefl(e0);
      StrippedStart(e0, x);
      o := Pass;
      while elems[x].tree.recurseMethodChildCount < |elems[x].tree.children|
        invariant Valid() && x in elems && Since(e0, {x}) && TornDown(elems[x])
        invariant QuietSince(old(log), log) && idle == old(idle)
        invariant elems[x].tree.recurseMethodChildCount == k && |elems[x].tree.children| <= n
        invariant k >= 0 ==> |elems[x].tree.children| >= (if k <= n then k else n)
        invariant Stripped(elems, x, e0[x].tree.children)
        decreases |elems[x].tree.children|
      {
        SettledAlive(e0, elems, {x}, x);
        ghost var e, l := elems, log;
        o := RemoveLast(x, false, e0[x].tree.children);
        SettledTrans(e0, e, elems, {x});
        QuietTrans(old(log), l, log);
        if o.Fail? {
          return;
        }
      }
    }

    /** SetAlive(false)'s second loop: the remaining children are removed from the end, as
        recurse-method children. */
    method ClearChildren(x: ElemId) returns (o: Outcome)
      requires Valid() && x in elems && TornDown(elems[x])
      requires elems[x].tree.recurseMethodChildCount >= |elems[x].tree.children|
      modifies this`elems, this`notifiers, this`watchCalls, this`log, this`idle
      decreases |AliveSet(elems)| + 1, 3
      ensures Valid() && Since(old(elems), {x}) && TornDown(elems[x])
      ensures QuietSince(old(log), log) && idle == old(idle)
      ensures o.Pass? ==>
        elems[x].tree.children == [] &&
        elems[x].tree.recurseMethodChildCount ==
          old(elems[x].tree.recurseMethodChildCount) - |old(elems[x].tree.children)|
      ensures o.Pass? ==> Gone(elems, old(elems[x].tree.children))
    {
      ghost var e0 := elems;
      ghost var d := elems[x].tree.recurseMethodChildCount - |elems[x].tree.children|;
      SettledRefl(e0);
      StrippedStart(e0, x);
      o := Pass;
      while |elems[x].tree.children| != 0
        invariant Valid() && x in elems && Since(e0, {x}) && TornDown(elems[x])
        invariant QuietSince(old(log), log) && idle == old(idle)
        invariant elems[x].tree.recurseMethodChildCount - |elems[x].tree.children| == d
        invariant elems[x].tree.recurseMethodChildCount >= |elems[x].tree.children|
        invariant Stripped(elems, x, e0[x].tree.children)
        decreases |elems[x].tree.children|
      {
        SettledAlive(e0, elems, {x}, x);
        ghost var e, l := elems, log;
        o := RemoveLast(x, true, e0[x].tree.children);
        SettledTrans(e0, e, elems, {x});
        QuietTrans(old(log), l, log);
        if o.Fail? {
          return;
        }
      }
      StrippedAll(elems, x, e0[x].tree.children);
    }

    /** One pass of SetAlive(false)'s child loops: RemoveChild(Children.Count - 1). */
    method RemoveLast(x: ElemId, rm: bool, ghost cs0: seq<ElemId>) returns (o: Outcome)
      requires Valid() && x in elems && TornDown(elems[x]) && Stripped(elems, x, cs0)
      modifies this`elems, this`notifiers, this`watchCalls, this`log, this`idle
      decreases |AliveSet(elems)| + 1, 2
      ensures Valid() && Since(old(elems), {x}) && TornDown(elems[x])
      ensures QuietSince(old(log), log) && idle == old(idle)
      ensures !RemovalAllowed(old(elems[x].tree), |old(elems[x].tree.children)| - 1, rm) ==> o == Fail(IndexOutOfRange)
      ensures o.Pass? ==>
        |old(elems[x].tree.children)| > 0 && |elems[x].tree.children| == |old(elems[x].tree.children)| - 1 &&
        elems[x].tree.children == old(elems[x].tree.children)[..|old(elems[x].tree.children)| - 1] &&
        elems[x].tree.recurseMethodChildCount == old(elems[x].tree.recurseMethodChildCount) - (if rm then 1 else 0)
      ensures o.Pass? ==> var c := old(elems[x].tree.children)[|old(elems[x].tree.children)| - 1];
        c in elems && !elems[c].tree.isAlive && elems[c].tree.parent.None?
      ensures o.Pass? ==> Stripped(elems, x, cs0)
    {
      var cs := elems[x].tree.children;
      ghost var e := elems;
      ghost var m, ml;
      o, m, ml := RemoveChild(x, |cs| - 1, rm);
      if o.Pass? {
        assert cs[..|cs| - 1] + cs[|cs|..] == cs[..|cs| - 1];
        StrippedLast(e, elems, x, cs0, {x});
      }
    }

    /** RemoveChild: after the bound checks, the child leaves the list, loses its parent
        and is torn down; a recurse-method removal lowers the count, and a live parent
        announces its children changed. A failure in the child's teardown passes through. */
    method RemoveChild(p: ElemId, index: int, rm: bool)
      returns (o: Outcome, ghost mid: map<ElemId, ElementState>, ghost ml: seq<Effect>)
      requires Valid() && p in elems
      modifies this`elems, this`notifiers, this`watchCalls, this`log, this`idle
      decreases |AliveSet(elems)| + 1, 1
      ensures Valid() && Since(old(elems), {p}) && old(log) <= log
      ensures !old(elems[p].tree.isAlive) ==> QuietSince(old(log), log) && idle == old(idle)
      ensures !RemovalAllowed(old(elems[p].tree), index, rm) ==>
        o == Fail(IndexOutOfRange) && elems == old(elems) && log == old(log) && idle == old(idle) &&
        notifiers == old(notifiers) && watchCalls == old(watchCalls)
      ensures RemovalAllowed(old(elems[p].tree), index, rm) ==>
        var c := old(elems[p].tree.children[index]); c in elems && !elems[c].tree.isAlive && elems[c].tree.parent.None?
      ensures RemovalAllowed(old(elems[p].tree), index, rm) ==>
        p in mid && Settled(old(elems), mid, {p}) && QuietSince(old(log), ml) &&
        (o.Fail? ==> elems == mid && idle == old(idle) && log == ml) &&
        (o.Pass? ==> Announced(notifiers, mid, old(idle), ml, p, {ChildrenProperty}, elems, idle, log))
      ensures RemovalAllowed(old(elems[p].tree), index, rm) && o.Pass? &&
              (mid[p].tree.isAlive || !old(elems[p].tree.isAlive)) ==>
        mid[p].tree.children == old(elems[p].tree.children[..index] + elems[p].tree.children[index + 1..]) &&
        mid[p].tree.recurseMethodChildCount == old(elems[p].tree.recurseMethodChildCount) - (if rm then 1 else 0)
      ensures RemovalAllowed(old(elems[p].tree), index, rm) && o.Pass? &&
              (elems[p].tree.isAlive || !old(elems[p].tree.isAlive)) ==>
        elems[p].tree.children == old(elems[p].tree.children[..index] + elems[p].tree.children[index + 1..]) &&
        elems[p].tree.recurseMethodChildCount == old(elems[p].tree.recurseMethodChildCount) - (if rm then 1 else 0)
    {
      mid, ml := elems, log;
      if !RemovalAllowed(elems[p].tree, index, rm) {
        return Fail(IndexOutOfRange), mid, ml;
      }
      ghost var e0, l0, i0 := elems, log, idle;
      var c := elems[p].tree.children[index];
      o := Release(p, index);
      ghost var e2, l2 := elems, log;
      assert i0 == idle;
      mid, ml := elems, log;
      if o.Pass? {
        ghost var n2 := notifiers;
        mid := Finish(p, rm);
        RemovedFrame(e0, l0, p, index, c, rm, e2, l2, mid, n2, i0, elems, idle, log);
      }
    }

    /** The middle of RemoveChild: Children.RemoveAt(index), child.Parent = null, then
        child.SetAlive(false). */
    method Release(p: ElemId, index: int) returns (o: Outcome)
      requires Valid() && p in elems && 0 <= index < |elems[p].tree.children|
      modifies this`elems, this`notifiers, this`watchCalls, this`log, this`idle
      decreases |AliveSet(elems)| + 1, 0
      ensures Valid() && Since(old(elems), {p}) && QuietSince(old(log), log) && idle == old(idle)
      ensures var c := old(elems[p].tree.children[index]);
        c in elems && !elems[c].tree.isAlive && elems[c].tree.parent.None?
      ensures p in elems && (elems[p].tree.isAlive || !old(elems[p].tree.isAlive)) ==>
        elems[p].tree.children == old(elems[p].tree.children[..index] + elems[p].tree.children[index + 1..]) &&
        elems[p].tree.recurseMethodChildCount == old(elems[p].tree.recurseMethodChildCount)
    {
      ghost var e0 := elems;
      var c := elems[p].tree.children[index];
      Detach(p, index);
      ghost var e1 := elems;
      o := Kill(c);
      assert UiDomTree.Kept(e1[c], elems[c], false);
      assert UiDomTree.Kept(e1[p], elems[p], false);
      SettledWiden(e1, elems, {p});
      SettledTrans(e0, e1, elems, {p});
    }

    /** The end of RemoveChild: a recurse-method removal lowers the count, and a live parent
        announces its children changed. */
    method Finish(p: ElemId, rm: bool) returns (ghost mid: map<ElemId, ElementState>)
      requires Valid() && p in elems
      modifies this`elems, this`idle, this`log
      ensures Valid() && Since(old(elems), {p}) && old(log) <= log && notifiers == old(notifiers)
      ensures mid == (if rm then old(elems)[p := Lowered(old(elems[p]))] else old(elems)) && Settled(old(elems), mid, {p})
      ensures Announced(old(notifiers), mid, old(idle), old(log), p, {ChildrenProperty}, elems, idle, log)
      ensures !old(elems[p].tree.isAlive) ==> log == old(log) && idle == old(idle)
      ensures elems[p].tree.children == old(elems[p].tree.children)
      ensures elems[p].tree.recurseMethodChildCount == old(elems[p].tree.recurseMethodChildCount) - (if rm then 1 else 0)
    {
      LowerIf(p, rm);
      mid := elems;
      ghost var n1, i1, l1 := notifiers, idle, log;
      assert n1 == old(notifiers) && i1 == old(idle) && l1 == old(log);
      ChildrenChanged(p);
      FinishFrame(old(elems), mid, n1, i1, l1, p, rm, elems, idle, log);
    }

    /** PropertyChanged("children") on p, by its announcement alone. */
    method ChildrenChanged(p: ElemId)
      requires Valid() && p in elems
      modifies this`elems, this`idle, this`log
      ensures Valid() && Announced(old(notifiers), old(elems), old(idle), old(log), p, {ChildrenProperty}, elems, idle, log)
      ensures notifiers == old(notifiers)
    {
      PropertiesChanged(p, {ChildrenProperty});
    }

    /** if (recurse_method) RecurseMethodChildCount--. */
    method LowerIf(p: ElemId, rm: bool)
      requires Valid() && p in elems
      modifies this`elems
      ensures Valid() && Settled(old(elems), elems, {p})
      ensures elems == if rm then old(elems)[p := Lowered(old(elems[p]))] else old(elems)
    {
      SettledRefl(elems);
      SettledWiden(elems, elems, {p});
      if rm {
        LowerCount(p);
      }
    }

    /** Children.RemoveAt(index), then child.Parent = null. */
    method Detach(p: ElemId, index: int)
      requires Valid() && p in elems && 0 <= index < |elems[p].tree.children|
      modifies this`elems
      ensures Valid() && Since(old(elems), {p}) && AliveSet(elems) == AliveSet(old(elems))
      ensures old(elems[p].tree.children[index]) in elems
      ensures var c := old(elems[p].tree.children[index]);
        var e1 := old(elems)[p := Cut(old(elems[p]), index)];
        c in e1 && elems == e1[c := Orphaned(e1[c])] && elems[c].tree.parent.None?
      ensures elems[p].tree.children == old(elems[p].tree.children[..index] + elems[p].tree.children[index + 1..]) &&
              elems[p].tree.recurseMethodChildCount == old(elems[p].tree.recurseMethodChildCount)
    {
      ghost var a := Snapshot();
      var c := elems[p].tree.children[index];
      CutKeeps(a, p, index, globalProviders, providerHandles);
      elems := elems[p := Cut(elems[p], index)];
      ghost var b := Snapshot();
      OrphanedKeeps(b, c, globalProviders, providerHandles);
      elems := elems[c := Orphaned(elems[c])];
      SettledWiden(b.elems, elems, {p});
      SettledTrans(a.elems, b.elems, elems, {p});
    }

    /** RecurseMethodChildCount-- on the parent. */
    method LowerCount(p: ElemId)
      requires Valid() && p in elems
      modifies this`elems
      ensures Valid() && Since(old(elems), {p})
      ensures elems == old(elems)[p := Lowered(old(elems[p]))]
      ensures log == old(log)
    {
      LoweredKeeps(Snapshot(), p, globalProviders, providerHandles);
      elems := elems[p := Lowered(elems[p])];
    }
  }
}
