/** Property polling of an element: PollProperty, the DoPollProperty loop and EndPollProperty.

    A poll loop is an asynchronous task. Here each running loop is an entry of `loops`
    with the phase it is suspended in; the scheduler resumes a loop by one of the step
    functions below (the refresh completed, the delay elapsed). A cancellation-token source
    is a number; cancelling it puts it in `cancelled`. */
module Polling {
  import opened UiDomValues

  type TokenId = nat

  /** The refresh function a loop calls: the tab control's selection-index refresh, or a
      provider's refresh (opaque, named by a tag). */
  datatype Refresher = SelectionIndexRefresh | ProviderRefresh(tag: nat)

  /** Where a loop is suspended: awaiting its refresh, awaiting the delay that holds the
      token, or returned. */
  datatype Phase = Refreshing | Delaying(token: TokenId) | Finished

  datatype PollLoop = PollLoop(expression: Expr, refresh: Refresher, interval: int, phase: Phase)

  /** polling_properties, polling_refresh_tokens (None for a null entry), the cancelled
      token sources and the loops started for this element. */
  datatype PollState = PollState(
    polling: map<Expr, bool>,
    tokens: map<Expr, Option<TokenId>>,
    cancelled: set<TokenId>,
    loops: seq<PollLoop>,
    nextToken: TokenId)

  const Empty: PollState := PollState(map[], map[], {}, [], 0)

  predicate IsPolling(ps: PollState, e: Expr) {
    e in ps.polling && ps.polling[e]
  }

  /** PollProperty: a loop is started only when the expression is not flagged as polling.
      The new loop's first flag check runs at once and passes, so it starts refreshing. */
  function Poll(ps: PollState, e: Expr, r: Refresher, interval: int): (q: PollState)
    ensures IsPolling(q, e)
    ensures IsPolling(ps, e) ==> q == ps
    ensures !IsPolling(ps, e) ==>
      q == ps.(polling := ps.polling[e := true], loops := ps.loops + [PollLoop(e, r, interval, Refreshing)])
  {
    if IsPolling(ps, e) then ps
    else ps.(polling := ps.polling[e := true], loops := ps.loops + [PollLoop(e, r, interval, Refreshing)])
  }

  /** EndPollProperty: clears the flag and cancels and forgets the current token; no
      effect when the expression is not polling. */
  function EndPoll(ps: PollState, e: Expr): (q: PollState)
    ensures !IsPolling(q, e)
    ensures q.loops == ps.loops && ps.cancelled <= q.cancelled
    ensures IsPolling(ps, e) && e in ps.tokens && ps.tokens[e].Some? ==>
      ps.tokens[e].value in q.cancelled && e in q.tokens && q.tokens[e] == None
    ensures !IsPolling(ps, e) ==> q == ps
    ensures forall x :: x != e ==> (IsPolling(q, x) <==> IsPolling(ps, x))
  {
    if !IsPolling(ps, e) then ps
    else
      var ps' := ps.(polling := ps.polling[e := false]);
      if e in ps.tokens && ps.tokens[e].Some? then
        ps'.(cancelled := ps.cancelled + {ps.tokens[e].value}, tokens := ps.tokens[e := None])
      else ps'
  }

  /** A loop that is waiting for its refresh. */
  predicate AwaitsRefresh(ps: PollState, k: nat) {
    k < |ps.loops| && ps.loops[k].phase.Refreshing?
  }

  /** A loop that is waiting for its delay. */
  predicate AwaitsDelay(ps: PollState, k: nat) {
    k < |ps.loops| && ps.loops[k].phase.Delaying?
  }

  function SetPhase(ps: PollState, k: nat, p: Phase): PollState
    requires k < |ps.loops|
  {
    ps.(loops := ps.loops[k := ps.loops[k].(phase := p)])
  }

  /** The refresh of loop k completed: the loop re-checks the flag and either returns or
      creates a fresh token source, records it and starts the delay. */
  function AfterRefresh(ps: PollState, k: nat): (q: PollState)
    requires AwaitsRefresh(ps, k)
    ensures |q.loops| == |ps.loops| && q.cancelled == ps.cancelled
    ensures !IsPolling(ps, ps.loops[k].expression) ==> q.loops[k].phase == Finished
    ensures IsPolling(ps, ps.loops[k].expression) ==>
      q.loops[k].phase == Delaying(ps.nextToken) && ps.loops[k].expression in q.tokens &&
      q.tokens[ps.loops[k].expression] == Some(ps.nextToken)
  {
    var e := ps.loops[k].expression;
    if !IsPolling(ps, e) then SetPhase(ps, k, Finished)
    else
      var t := ps.nextToken;
      SetPhase(ps.(tokens := ps.tokens[e := Some(t)], nextToken := t + 1), k, Delaying(t))
  }

  /** The delay of loop k elapsed, as written: Task.Delay is not given the token, so a
      cancellation never reaches it. The loop nulls the token entry and restarts, and the
      restarted loop's first flag check decides whether it refreshes again. */
  function AfterDelayAsWritten(ps: PollState, k: nat): (q: PollState)
    requires AwaitsDelay(ps, k)
    ensures |q.loops| == |ps.loops| && q.cancelled == ps.cancelled
    ensures q.loops[k].phase == (if IsPolling(ps, ps.loops[k].expression) then Refreshing else Finished)
  {
    var e := ps.loops[k].expression;
    var ps' := ps.(tokens := ps.tokens[e := None]);
    SetPhase(ps', k, if IsPolling(ps, e) then Refreshing else Finished)
  }

  /** The delay of loop k ended, as evidently intended by the handler for a cancelled
      delay: a cancelled token ends the loop; otherwise as written. */
  function AfterDelay(ps: PollState, k: nat): (q: PollState)
    requires AwaitsDelay(ps, k)
    ensures |q.loops| == |ps.loops| && q.cancelled == ps.cancelled
    ensures ps.loops[k].phase.token in ps.cancelled ==> q.loops[k].phase == Finished
    ensures ps.loops[k].phase.token !in ps.cancelled ==> q == AfterDelayAsWritten(ps, k)
  {
    var e := ps.loops[k].expression;
    if ps.loops[k].phase.token in ps.cancelled then
      SetPhase(ps.(tokens := ps.tokens[e := None]), k, Finished)
    else AfterDelayAsWritten(ps, k)
  }

  /** The polling part of SetAlive(false): every recorded token is cancelled and both
      dictionaries are cleared. Loops are left to end at their next flag check. */
  function Teardown(ps: PollState): (q: PollState)
    ensures q.polling == map[] && q.tokens == map[]
    ensures forall e :: e in ps.tokens && ps.tokens[e].Some? ==> ps.tokens[e].value in q.cancelled
    ensures q.loops == ps.loops && ps.cancelled <= q.cancelled
  {
    PollState(map[], map[],
              ps.cancelled + set e | e in ps.tokens && ps.tokens[e].Some? :: ps.tokens[e].value,
              ps.loops, ps.nextToken)
  }

  // ----- Properties -----

  /** Token sources are numbered in creation order: every token mentioned is below the
      next number, so a fresh token is never one already cancelled. */
  predicate Valid(ps: PollState) {
    (forall t :: t in ps.cancelled ==> t < ps.nextToken) &&
    (forall e :: e in ps.tokens && ps.tokens[e].Some? ==> ps.tokens[e].value < ps.nextToken) &&
    (forall k :: 0 <= k < |ps.loops| && ps.loops[k].phase.Delaying? ==> ps.loops[k].phase.token < ps.nextToken)
  }

  /** Starting, ending and tearing down keep token numbering valid. */
  lemma PollEndTeardownPreserveValid(ps: PollState, e: Expr, r: Refresher, interval: int)
    requires Valid(ps)
    ensures Valid(Poll(ps, e, r, interval)) && Valid(EndPoll(ps, e)) && Valid(Teardown(ps))
  {
    var p := Poll(ps, e, r, interval);
    assert forall j :: 0 <= j < |ps.loops| ==> p.loops[j] == ps.loops[j];
  }

  /** A refresh step keeps token numbering valid, and the token it creates is not cancelled. */
  lemma AfterRefreshPreservesValid(ps: PollState, k: nat)
    requires Valid(ps) && AwaitsRefresh(ps, k)
    ensures Valid(AfterRefresh(ps, k))
    ensures IsPolling(ps, ps.loops[k].expression) ==> AfterRefresh(ps, k).loops[k].phase.token !in AfterRefresh(ps, k).cancelled
  {
    var q := AfterRefresh(ps, k);
    assert forall j :: 0 <= j < |ps.loops| && j != k ==> q.loops[j] == ps.loops[j];
  }

  /** A delay step keeps token numbering valid, as written and corrected. */
  lemma AfterDelayPreservesValid(ps: PollState, k: nat)
    requires Valid(ps) && AwaitsDelay(ps, k)
    ensures Valid(AfterDelayAsWritten(ps, k)) && Valid(AfterDelay(ps, k))
  {
    var q := AfterDelayAsWritten(ps, k);
    assert forall j :: 0 <= j < |ps.loops| && j != k ==> q.loops[j] == ps.loops[j];
    var q' := AfterDelay(ps, k);
    assert forall j :: 0 <= j < |ps.loops| && j != k ==> q'.loops[j] == ps.loops[j];
  }

  /** EndPollProperty is idempotent. */
  lemma EndPollIdempotent(ps: PollState, e: Expr)
    ensures EndPoll(EndPoll(ps, e), e) == EndPoll(ps, e)
  {
  }

  /** Once polling of an expression has ended (by EndPollProperty or by teardown) and is not
      restarted, none of its loops refreshes again: each ends at its next step. */
  lemma NoRefreshAfterEnd(ps: PollState, k: nat)
    requires k < |ps.loops| && !IsPolling(ps, ps.loops[k].expression)
    ensures ps.loops[k].phase.Refreshing? ==> AfterRefresh(ps, k).loops[k].phase == Finished
    ensures ps.loops[k].phase.Delaying? ==> AfterDelayAsWritten(ps, k).loops[k].phase == Finished
    ensures ps.loops[k].phase.Delaying? ==> AfterDelay(ps, k).loops[k].phase == Finished
  {
  }

  /** Ending and restarting polling while a loop is in its delay: as written the old loop
      survives, so two loops refresh the same expression. */
  lemma RestartDuringDelayAsWritten(e: Expr, r: Refresher)
    ensures var s1 := AfterRefresh(Poll(Empty, e, r, 200), 0);
            var s2 := Poll(EndPoll(s1, e), e, r, 200);
            var s3 := AfterDelayAsWritten(s2, 0);
            |s3.loops| == 2 && s3.loops[0].phase == Refreshing && s3.loops[1].phase == Refreshing &&
            s3.loops[0].expression == s3.loops[1].expression == e && s2.loops[0].phase.token in s2.cancelled
  {
    var s0 := Poll(Empty, e, r, 200);
    assert AwaitsRefresh(s0, 0);
    var s1 := AfterRefresh(s0, 0);
    assert s1.loops[0].phase == Delaying(0);
    var s2 := Poll(EndPoll(s1, e), e, r, 200);
    assert s2.loops[0] == s1.loops[0];
  }

  /** With the delay honouring the token, the same sequence ends the old loop. */
  lemma RestartDuringDelay(e: Expr, r: Refresher)
    ensures var s1 := AfterRefresh(Poll(Empty, e, r, 200), 0);
            var s2 := Poll(EndPoll(s1, e), e, r, 200);
            var s3 := AfterDelay(s2, 0);
            |s3.loops| == 2 && s3.loops[0].phase == Finished && s3.loops[1].phase == Refreshing
  {
    var s0 := Poll(Empty, e, r, 200);
    assert AwaitsRefresh(s0, 0);
    var s1 := AfterRefresh(s0, 0);
    var s2 := Poll(EndPoll(s1, e), e, r, 200);
    assert s2.loops[0] == s1.loops[0];
  }

  /** The loop that is delaying on the expression's recorded token never refreshes again
      once polling has ended, even if polling is restarted before its delay ends. */
  lemma CancelledLoopStays(ps: PollState, k: nat, r: Refresher, interval: int)
    requires AwaitsDelay(ps, k)
    requires var e := ps.loops[k].expression;
      IsPolling(ps, e) && e in ps.tokens && ps.tokens[e] == Some(ps.loops[k].phase.token)
    ensures var e := ps.loops[k].expression;
      var q := Poll(EndPoll(ps, e), e, r, interval);
      AwaitsDelay(q, k) && AfterDelay(q, k).loops[k].phase == Finished
  {
  }
}
