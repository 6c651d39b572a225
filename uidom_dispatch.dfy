/** What PropertiesChanged does, as values: the subscribers a change reaches, the rule
    passes their dependency handlers queue and the outside handlers they call. The handler
    of a dependency notifier is OnDependencyPropertyChanged, which calls QueueEvaluateRules
    on the notifier's owner; any other handler is outside the model and its call is
    recorded. */
module UiDomDispatch {
  import opened UiDomValues
  import opened UiDomState

  /** The subscriber list of p on an element; empty when nobody subscribes to p. */
  function Subscribers(s: ElementState, p: Expr): seq<NotifierId> {
    if p in s.watch.notifiersByExpression then s.watch.notifiersByExpression[p] else []
  }

  /** The owners of the dependency notifiers in l. */
  function OwnersIn(notifiers: map<NotifierId, Notifier>, l: seq<NotifierId>): set<ElemId> {
    set n | n in l && n in notifiers && notifiers[n].handler.OnDependency? :: notifiers[n].handler.owner
  }

  /** The elements whose rule pass a change of the properties ps of s asks for. */
  function Woken(notifiers: map<NotifierId, Notifier>, s: ElementState, ps: set<Expr>): set<ElemId> {
    set p, n | p in ps && n in Subscribers(s, p) && n in notifiers && notifiers[n].handler.OnDependency? ::
      notifiers[n].handler.owner
  }

  /** The outside handlers called for a change of p on x, one call per notifier in l. */
  function CalledIn(notifiers: map<NotifierId, Notifier>, l: seq<NotifierId>, x: ElemId, p: Expr): set<Effect> {
    set n | n in l && n in notifiers && notifiers[n].handler.External? :: HandlerCalled(n, x, p)
  }

  /** The outside handler calls a change of the properties ps of element x makes. */
  function Called(notifiers: map<NotifierId, Notifier>, s: ElementState, x: ElemId, ps: set<Expr>): set<Effect> {
    set p, n | p in ps && n in Subscribers(s, p) && n in notifiers && notifiers[n].handler.External? ::
      HandlerCalled(n, x, p)
  }

  /** QueueEvaluateRules on every element of w: the live ones have a pass pending. */
  function Wake(e: map<ElemId, ElementState>, w: set<ElemId>): (r: map<ElemId, ElementState>)
    ensures r.Keys == e.Keys
  {
    map y | y in e :: if y in w && e[y].tree.isAlive then e[y].(rules := e[y].rules.(updatingRules := true)) else e[y]
  }

  /** The elements of w for which QueueEvaluateRules queues a new pass. */
  function Newly(e: map<ElemId, ElementState>, w: set<ElemId>): set<ElemId> {
    set y | y in w && y in e && e[y].tree.isAlive && !e[y].rules.updatingRules
  }

  /** The rule passes queued for the elements of w. */
  function PassesFor(w: set<ElemId>): set<IdleTask> {
    set y | y in w :: EvaluateRulesOf(y)
  }

  predicate Distinct<T(==)>(s: seq<T>) {
    forall i, j :: 0 <= i < j < |s| ==> s[i] != s[j]
  }

  /** A sequence with no repeats whose elements are those of the set t. */
  ghost predicate Lists<T(!new)>(s: seq<T>, t: set<T>) {
    Distinct(s) && forall v :: v in s <==> v in t
  }

  /** PropertiesChanged of the properties ps on x, under the subscriptions notifiers, taking
      the table, idle queue and log from e0, i0, l0 to e1, i1, l1: nothing on a dead element;
      on a live one every woken element is flagged, the rule passes of the newly flagged ones
      are queued, and every outside handler subscribed to a changed property is called, each
      once. */
  ghost predicate Announced(notifiers: map<NotifierId, Notifier>, e0: map<ElemId, ElementState>, i0: seq<IdleTask>,
                            l0: seq<Effect>, x: ElemId, ps: set<Expr>,
                            e1: map<ElemId, ElementState>, i1: seq<IdleTask>, l1: seq<Effect>) {
    x in e0 &&
    (!e0[x].tree.isAlive ==> e1 == e0 && i1 == i0 && l1 == l0) &&
    (e0[x].tree.isAlive ==>
      var w := Woken(notifiers, e0[x], ps);
      e1 == Wake(e0, w) &&
      |i1| >= |i0| && i1[..|i0|] == i0 && Lists(i1[|i0|..], PassesFor(Newly(e0, w))) &&
      |l1| >= |l0| && l1[..|l0|] == l0 && Lists(l1[|l0|..], Called(notifiers, e0[x], x, ps)))
  }

  // ----- How the sets grow, one subscriber at a time -----

  lemma WakeNone(e: map<ElemId, ElementState>)
    ensures Wake(e, {}) == e
  {
  }

  lemma NoneIn(notifiers: map<NotifierId, Notifier>, l: seq<NotifierId>, x: ElemId, p: Expr)
    ensures OwnersIn(notifiers, l[..0]) == {} && CalledIn(notifiers, l[..0], x, p) == {}
  {
    assert l[..0] == [];
  }

  /** Queueing one more owner o: Wake grows exactly as QueueEvaluateRules changes the
      record, and o is newly queued exactly when QueueEvaluateRules returns true. */
  lemma WakeOne(e: map<ElemId, ElementState>, w: set<ElemId>, o: ElemId)
    requires o in e
    ensures var c := Wake(e, w);
      var queued := c[o].tree.isAlive && !c[o].rules.updatingRules;
      Wake(e, w + {o}) == (if queued then c[o := c[o].(rules := c[o].rules.(updatingRules := true))] else c) &&
      Newly(e, w + {o}) == (if queued then Newly(e, w) + {o} else Newly(e, w)) &&
      (queued ==> o !in Newly(e, w))
  {
    var c := Wake(e, w);
    var queued := c[o].tree.isAlive && !c[o].rules.updatingRules;
    if queued {
      assert Wake(e, w + {o}) == c[o := c[o].(rules := c[o].rules.(updatingRules := true))];
    } else {
      assert Wake(e, w + {o}) == c;
    }
  }

  lemma OwnersSnoc(notifiers: map<NotifierId, Notifier>, l: seq<NotifierId>, j: nat)
    requires j < |l|
    ensures OwnersIn(notifiers, l[..j + 1]) ==
      OwnersIn(notifiers, l[..j]) +
      (if l[j] in notifiers && notifiers[l[j]].handler.OnDependency? then {notifiers[l[j]].handler.owner} else {})
  {
    assert forall n :: n in l[..j + 1] <==> n in l[..j] || n == l[j];
  }

  lemma CalledSnoc(notifiers: map<NotifierId, Notifier>, l: seq<NotifierId>, j: nat, x: ElemId, p: Expr)
    requires j < |l|
    ensures CalledIn(notifiers, l[..j + 1], x, p) ==
      CalledIn(notifiers, l[..j], x, p) +
      (if l[j] in notifiers && notifiers[l[j]].handler.External? then {HandlerCalled(l[j], x, p)} else {})
  {
    assert forall n :: n in l[..j + 1] <==> n in l[..j] || n == l[j];
  }

  /** A property done: its whole subscriber list joins the sets. */
  lemma WokenAdd(notifiers: map<NotifierId, Notifier>, s: ElementState, ps: set<Expr>, p: Expr, x: ElemId)
    ensures var l := Subscribers(s, p);
      Woken(notifiers, s, ps + {p}) == Woken(notifiers, s, ps) + OwnersIn(notifiers, l[..|l|]) &&
      Called(notifiers, s, x, ps + {p}) == Called(notifiers, s, x, ps) + CalledIn(notifiers, l[..|l|], x, p)
  {
    var l := Subscribers(s, p);
    assert l[..|l|] == l;
  }

  /** The calls made for a property not yet done are not among those made already. */
  lemma CalledFresh(notifiers: map<NotifierId, Notifier>, s: ElementState, x: ElemId, ps: set<Expr>, p: Expr, n: NotifierId)
    requires p !in ps
    ensures HandlerCalled(n, x, p) !in Called(notifiers, s, x, ps)
  {
  }

  lemma PassesAdd(w: set<ElemId>, o: ElemId)
    ensures PassesFor(w + {o}) == PassesFor(w) + {EvaluateRulesOf(o)}
    ensures o !in w ==> EvaluateRulesOf(o) !in PassesFor(w)
  {
  }

  lemma ListsSnoc<T(!new)>(s: seq<T>, t: set<T>, v: T)
    requires Lists(s, t) && v !in t
    ensures Lists(s + [v], t + {v})
  {
  }

  /** Appending in two steps is appending once. */
  lemma Regroup<T>(s: seq<T>, u: seq<T>, v: seq<T>)
    ensures (s + u) + v == s + (u + v)
  {
  }

  /** The first i + 1 entries of s are its first i and then s[i]. */
  lemma TakeOneMore<T>(s: seq<T>, i: nat)
    requires i < |s|
    ensures s[..i + 1] == s[..i] + [s[i]]
  {
  }

  /** Before the first turn, all is pending and nothing is done. */
  lemma Start<T>(all: set<T>)
    ensures all + {} == all && all !! {}
  {
  }

  /** Taking v out of the pending set s shrinks it, and moving it to done keeps the split
      of all into pending and done. */
  lemma Move<T>(s: set<T>, done: set<T>, all: set<T>, v: T)
    requires s + done == all && s !! done && v in s
    ensures (s - {v}) + (done + {v}) == all && (s - {v}) !! (done + {v}) && |s - {v}| < |s|
  {
  }

  // ----- Putting the properties together -----

  /** Waking w and then o is waking both. */
  lemma WakeWake(e: map<ElemId, ElementState>, w: set<ElemId>, o: set<ElemId>)
    ensures Wake(Wake(e, w), o) == Wake(e, w + o)
  {
  }

  /** What waking o after w queues anew: the elements of w + o not queued by w. */
  lemma NewlyWake(e: map<ElemId, ElementState>, w: set<ElemId>, o: set<ElemId>)
    ensures Newly(Wake(e, w), o) == Newly(e, w + o) - Newly(e, w)
    ensures Newly(e, w) <= Newly(e, w + o)
  {
  }

  lemma PassesUnion(a: set<ElemId>, b: set<ElemId>)
    ensures PassesFor(a + b) == PassesFor(a) + PassesFor(b)
    ensures a !! b ==> PassesFor(a) !! PassesFor(b)
  {
  }

  lemma ListsAppend<T(!new)>(s: seq<T>, t: set<T>, s': seq<T>, t': set<T>)
    requires Lists(s, t) && Lists(s', t') && t !! t'
    ensures Lists(s + s', t + t')
  {
    forall i, j | 0 <= i < j < |s + s'| ensures (s + s')[i] != (s + s')[j] {
      if j >= |s| && i < |s| {
        assert (s + s')[i] in t && (s + s')[j] in t';
      }
    }
    forall v ensures v in s + s' <==> v in t + t' {
    }
  }

  lemma ListsNone<T(!new)>()
    ensures Lists<T>([], {})
  {
  }

  /** One round of the outer loop of PropertiesChanged: the calls for p, made on the map
      already woken for the properties done, extend the record to done + {p}. */
  lemma DispatchRound(e0: map<ElemId, ElementState>, notifiers: map<NotifierId, Notifier>, s: ElementState,
                      x: ElemId, done: set<Expr>, p: Expr,
                      q: seq<IdleTask>, q': seq<IdleTask>, r: seq<Effect>, r': seq<Effect>)
    requires p !in done
    requires var w := Woken(notifiers, s, done);
      Lists(q, PassesFor(Newly(e0, w))) &&
      Lists(q', PassesFor(Newly(Wake(e0, w), OwnersIn(notifiers, Subscribers(s, p)))))
    requires Lists(r, Called(notifiers, s, x, done)) && Lists(r', CalledIn(notifiers, Subscribers(s, p), x, p))
    ensures Wake(Wake(e0, Woken(notifiers, s, done)), OwnersIn(notifiers, Subscribers(s, p))) ==
      Wake(e0, Woken(notifiers, s, done + {p}))
    ensures Lists(q + q', PassesFor(Newly(e0, Woken(notifiers, s, done + {p}))))
    ensures Lists(r + r', Called(notifiers, s, x, done + {p}))
  {
    var w := Woken(notifiers, s, done);
    var l := Subscribers(s, p);
    var o := OwnersIn(notifiers, l);
    WokenAdd(notifiers, s, done, p, x);
    assert l[..|l|] == l;
    WakeWake(e0, w, o);
    NewlyWake(e0, w, o);
    PassesUnion(Newly(e0, w), Newly(e0, w + o) - Newly(e0, w));
    assert Newly(e0, w) + (Newly(e0, w + o) - Newly(e0, w)) == Newly(e0, w + o);
    ListsAppend(q, PassesFor(Newly(e0, w)), q', PassesFor(Newly(e0, w + o) - Newly(e0, w)));
    forall n ensures HandlerCalled(n, x, p) !in Called(notifiers, s, x, done) {
      CalledFresh(notifiers, s, x, done, p, n);
    }
    ListsAppend(r, Called(notifiers, s, x, done), r', CalledIn(notifiers, l, x, p));
  }

  /** Dropping the last element of a listing lists the rest of the set. */
  lemma ListsInit<T(!new)>(s: seq<T>, t: set<T>)
    requires Lists(s, t) && |s| > 0
    ensures s[|s| - 1] in t && Lists(s[..|s| - 1], t - {s[|s| - 1]})
  {
    var k := |s| - 1;
    assert forall i :: 0 <= i < k ==> s[..k][i] == s[i];
    forall v ensures v in s[..k] <==> v in t - {s[k]} {
      if v in s[..k] {
        var i :| 0 <= i < k && s[..k][i] == v;
        assert s[i] != s[k];
      }
      if v in t - {s[k]} {
        var i :| 0 <= i < |s| && s[i] == v;
        assert i != k;
      }
    }
  }

  // ----- The dispatch in order -----

  /** What a run of handlers leaves behind: the element records, the rule passes queued
      and the outside handler calls made, in order. */
  datatype Round = Round(elems: map<ElemId, ElementState>, passes: seq<IdleTask>, calls: seq<Effect>)

  /** The handlers of the notifiers l for a change of p on x, called in list order on the
      records e: a dependency handler runs QueueEvaluateRules on its owner, an outside
      handler is recorded. Only rule flags change. */
  function Deliver(e: map<ElemId, ElementState>, notifiers: map<NotifierId, Notifier>, l: seq<NotifierId>,
                   x: ElemId, p: Expr): Round
  {
    if l == [] then Round(e, [], [])
    else Handle(Deliver(e, notifiers, l[..|l| - 1], x, p), notifiers, l[|l| - 1], x, p)
  }

  /** The handler of notifier n, called for a change of p on x after the round r. */
  function Handle(r: Round, notifiers: map<NotifierId, Notifier>, n: NotifierId, x: ElemId, p: Expr): Round
  {
    if n !in notifiers then r
    else match notifiers[n].handler
      case OnDependency(o) =>
        if o in r.elems && r.elems[o].tree.isAlive && !r.elems[o].rules.updatingRules then
          Round(r.elems[o := r.elems[o].(rules := r.elems[o].rules.(updatingRules := true))],
                r.passes + [EvaluateRulesOf(o)], r.calls)
        else r
      case External(_) => Round(r.elems, r.passes, r.calls + [HandlerCalled(n, x, p)])
  }

  lemma DeliverSnoc(e: map<ElemId, ElementState>, notifiers: map<NotifierId, Notifier>, l: seq<NotifierId>,
                    j: nat, x: ElemId, p: Expr)
    requires j < |l|
    ensures Deliver(e, notifiers, l[..j + 1], x, p) == Handle(Deliver(e, notifiers, l[..j], x, p), notifiers, l[j], x, p)
  {
    assert l[..j + 1][..j] == l[..j];
  }

  /** The handlers change nothing but rule flags: the same elements, each with its
      subscriber lists. */
  lemma {:induction false} DeliverShape(e: map<ElemId, ElementState>, notifiers: map<NotifierId, Notifier>,
                                        l: seq<NotifierId>, x: ElemId, p: Expr)
    ensures var r := Deliver(e, notifiers, l, x, p);
      r.elems.Keys == e.Keys && forall y :: y in e ==> r.elems[y].watch == e[y].watch
    decreases |l|
  {
    if l != [] {
      DeliverShape(e, notifiers, l[..|l| - 1], x, p);
    }
  }

  /** Deliver over distinct notifiers whose owners are elements: the owners are woken, each
      newly queued owner gets exactly one pass, and each outside notifier exactly one call. */
  lemma {:induction false} DeliverMeaning(e: map<ElemId, ElementState>, notifiers: map<NotifierId, Notifier>,
                                          l: seq<NotifierId>, x: ElemId, p: Expr)
    requires Distinct(l)
    requires forall i :: 0 <= i < |l| ==>
      l[i] in notifiers && (notifiers[l[i]].handler.OnDependency? ==> notifiers[l[i]].handler.owner in e)
    ensures var r := Deliver(e, notifiers, l, x, p);
      r.elems == Wake(e, OwnersIn(notifiers, l)) &&
      Lists(r.passes, PassesFor(Newly(e, OwnersIn(notifiers, l)))) &&
      Lists(r.calls, CalledIn(notifiers, l, x, p))
    decreases |l|
  {
    NoneIn(notifiers, l, x, p);
    if l == [] {
      WakeNone(e);
      assert l[..0] == l;
      ListsNone<IdleTask>();
      ListsNone<Effect>();
    } else {
      var k := |l| - 1;
      var l' := l[..k];
      var n := l[k];
      assert forall i :: 0 <= i < |l'| ==> l'[i] == l[i];
      DeliverMeaning(e, notifiers, l', x, p);
      var r := Deliver(e, notifiers, l', x, p);
      var w := OwnersIn(notifiers, l');
      OwnersSnoc(notifiers, l, k);
      CalledSnoc(notifiers, l, k, x, p);
      assert l[..k + 1] == l;
      match notifiers[n].handler
      case OnDependency(o) =>
        assert OwnersIn(notifiers, l) == w + {o};
        assert CalledIn(notifiers, l, x, p) == CalledIn(notifiers, l', x, p);
        WakeOne(e, w, o);
        PassesAdd(Newly(e, w), o);
        if r.elems[o].tree.isAlive && !r.elems[o].rules.updatingRules {
          ListsSnoc(r.passes, PassesFor(Newly(e, w)), EvaluateRulesOf(o));
          assert PassesFor(Newly(e, OwnersIn(notifiers, l))) == PassesFor(Newly(e, w)) + {EvaluateRulesOf(o)};
        } else {
          assert PassesFor(Newly(e, OwnersIn(notifiers, l))) == PassesFor(Newly(e, w));
        }
      case External(_) =>
        assert OwnersIn(notifiers, l) == w;
        assert CalledIn(notifiers, l, x, p) == CalledIn(notifiers, l', x, p) + {HandlerCalled(n, x, p)};
        assert n !in l';
        ListsSnoc(r.calls, CalledIn(notifiers, l', x, p), HandlerCalled(n, x, p));
    }
  }

  /** Deliver for each property of ps in turn, over the subscriber lists of the record s. */
  function Broadcast(e: map<ElemId, ElementState>, notifiers: map<NotifierId, Notifier>, s: ElementState,
                     x: ElemId, ps: seq<Expr>): Round
  {
    if ps == [] then Round(e, [], [])
    else Then(Broadcast(e, notifiers, s, x, ps[..|ps| - 1]), notifiers, s, x, ps[|ps| - 1])
  }

  /** The round r followed by the calls for a change of p. */
  function Then(r: Round, notifiers: map<NotifierId, Notifier>, s: ElementState, x: ElemId, p: Expr): Round
  {
    var d := Deliver(r.elems, notifiers, Subscribers(s, p), x, p);
    Round(d.elems, r.passes + d.passes, r.calls + d.calls)
  }

  lemma BroadcastSnoc(e: map<ElemId, ElementState>, notifiers: map<NotifierId, Notifier>, s: ElementState,
                      x: ElemId, ps: seq<Expr>, p: Expr)
    ensures Broadcast(e, notifiers, s, x, ps + [p]) == Then(Broadcast(e, notifiers, s, x, ps), notifiers, s, x, p)
  {
    assert (ps + [p])[..|ps|] == ps;
  }

  lemma {:induction false} BroadcastShape(e: map<ElemId, ElementState>, notifiers: map<NotifierId, Notifier>,
                                          s: ElementState, x: ElemId, ps: seq<Expr>)
    ensures var r := Broadcast(e, notifiers, s, x, ps);
      r.elems.Keys == e.Keys && forall y :: y in e ==> r.elems[y].watch == e[y].watch
    decreases |ps|
  {
    if ps != [] {
      var r := Broadcast(e, notifiers, s, x, ps[..|ps| - 1]);
      var p := ps[|ps| - 1];
      BroadcastShape(e, notifiers, s, x, ps[..|ps| - 1]);
      DeliverShape(r.elems, notifiers, Subscribers(s, p), x, p);
    }
  }

  /** Broadcast over distinct properties whose subscribers are distinct notifiers with
      owners among the elements: the result depends only on the set of properties. */
  lemma {:induction false} BroadcastMeaning(e: map<ElemId, ElementState>, notifiers: map<NotifierId, Notifier>,
                                            s: ElementState, x: ElemId, ps: seq<Expr>, done: set<Expr>)
    requires Lists(ps, done)
    requires forall p :: Distinct(Subscribers(s, p))
    requires forall p, i :: 0 <= i < |Subscribers(s, p)| ==>
      Subscribers(s, p)[i] in notifiers &&
      (notifiers[Subscribers(s, p)[i]].handler.OnDependency? ==> notifiers[Subscribers(s, p)[i]].handler.owner in e)
    ensures var r := Broadcast(e, notifiers, s, x, ps);
      r.elems == Wake(e, Woken(notifiers, s, done)) &&
      Lists(r.passes, PassesFor(Newly(e, Woken(notifiers, s, done)))) &&
      Lists(r.calls, Called(notifiers, s, x, done))
    decreases |ps|
  {
    if ps == [] {
      assert done == {};
      assert Woken(notifiers, s, done) == {} && Called(notifiers, s, x, done) == {};
      WakeNone(e);
      ListsNone<IdleTask>();
      ListsNone<Effect>();
    } else {
      var k := |ps| - 1;
      var ps' := ps[..k];
      var p := ps[k];
      var done' := done - {p};
      ListsInit(ps, done);
      BroadcastMeaning(e, notifiers, s, x, ps', done');
      var r := Broadcast(e, notifiers, s, x, ps');
      var w := Woken(notifiers, s, done');
      var l := Subscribers(s, p);
      forall i | 0 <= i < |l| && notifiers[l[i]].handler.OnDependency?
        ensures notifiers[l[i]].handler.owner in r.elems
      {
      }
      DeliverMeaning(r.elems, notifiers, l, x, p);
      var d := Deliver(r.elems, notifiers, l, x, p);
      DispatchRound(e, notifiers, s, x, done', p, r.passes, d.passes, r.calls, d.calls);
      assert done' + {p} == done;
      assert Woken(notifiers, s, done' + {p}) == Woken(notifiers, s, done);
      assert Called(notifiers, s, x, done' + {p}) == Called(notifiers, s, x, done);
      assert Broadcast(e, notifiers, s, x, ps) == Round(d.elems, r.passes + d.passes, r.calls + d.calls);
    }
  }
}
