/** The RB-001 reference boundary and its falsifier (oat/reference_boundaries/rb001.py:142-271,
    oat/falsifiers/rb001.py:67-110): one execution in logical ticks, and the predicate read off its trace. */
module Rb001 {
  import opened Wrappers

  datatype Status = Active | Revoked | OtherStatus(text: string)

  datatype Authority = Authority(maxQuantity: int, validFrom: int, validUntil: int, status: Status)

  datatype Variation = Variation(checkTick: int, revocationTick: int, commitTick: int, propagationDelay: int,
                                 retryIndex: int, duplicateRequest: bool)

  datatype Enforcement = CheckOnceCached | StalePropagation | RecheckAtCommit

  datatype Scenario = Scenario(enforcement: Enforcement, authority: Authority, actionQuantity: int)

  datatype Source = CachedDecision | LaggingReplica | AuthoritativeSource

  datatype Observation =
    | ActionProposed(quantity: int)
    | AuthorizationChecked(observed: Status, withinLimit: bool, allow: bool)
    | AuthorityTransition
    | CommitRequested(retryIndex: int, duplicate: bool)
    | CommitDecision(used: Status, observedAt: int, source: Source, allowed: bool)
    | ConsequenceCommitted(committed: bool, quantity: int)

  datatype TraceEvent = TraceEvent(number: nat, tick: int, observation: Observation)

  datatype Trace = Trace(variation: Variation, commitTick: int, effectiveAtCommit: Status, events: seq<TraceEvent>)

  /** The authority's status at a tick, whatever any enforcement path observed. */
  function EffectiveStatus(a: Authority, revocationTick: int, tick: int): (r: Status)
    ensures r.Active? <==> Live(a, revocationTick, tick)
    ensures r.OtherStatus? ==> r == a.status && tick < revocationTick && a.validFrom <= tick <= a.validUntil
    ensures revocationTick <= tick || tick < a.validFrom || a.validUntil < tick ==> r.Revoked?
    ensures !(revocationTick <= tick || tick < a.validFrom || a.validUntil < tick) ==> r == a.status
  {
    if tick >= revocationTick then Revoked
    else if tick < a.validFrom || tick > a.validUntil then Revoked
    else a.status
  }

  datatype Reading = Reading(status: Status, observedAt: int, source: Source)

  function ObservedStatus(s: Scenario, v: Variation, commitTick: int): Reading {
    match s.enforcement
    case CheckOnceCached =>
      Reading(EffectiveStatus(s.authority, v.revocationTick, v.checkTick), v.checkTick, CachedDecision)
    case StalePropagation =>
      var replica := commitTick - v.propagationDelay;
      Reading(EffectiveStatus(s.authority, v.revocationTick, replica), replica, LaggingReplica)
    case RecheckAtCommit =>
      Reading(EffectiveStatus(s.authority, v.revocationTick, commitTick), commitTick, AuthoritativeSource)
  }

  function CommitTick(v: Variation): int {
    v.commitTick + v.retryIndex
  }

  function Emit(events: seq<TraceEvent>, tick: int, o: Observation): seq<TraceEvent> {
    events + [TraceEvent(|events|, tick, o)]
  }

  // ----- what a trace has to be -----

  /** The grant is in force at a tick. */
  predicate Live(a: Authority, revocationTick: int, tick: int) {
    a.status == Active && tick < revocationTick && a.validFrom <= tick <= a.validUntil
  }

  /** The commit goes through: live at the check, and live where the enforcement path looks again. */
  predicate Allowed(s: Scenario, v: Variation) {
    && s.actionQuantity <= s.authority.maxQuantity
    && Live(s.authority, v.revocationTick, v.checkTick)
    && match s.enforcement
       case CheckOnceCached => true
       case StalePropagation => Live(s.authority, v.revocationTick, CommitTick(v) - v.propagationDelay)
       case RecheckAtCommit => Live(s.authority, v.revocationTick, CommitTick(v))
  }

  /** A commit that goes through although the grant is no longer in force at the tick of the commit. */
  predicate Crosses(s: Scenario, v: Variation) {
    Allowed(s, v) && !Live(s.authority, v.revocationTick, CommitTick(v))
  }

  predicate IsCommitted(e: TraceEvent) {
    e.observation.ConsequenceCommitted?
  }

  ghost predicate Numbered(events: seq<TraceEvent>) {
    forall i :: 0 <= i < |events| ==> events[i].number == i
  }

  /** The consequence is the last event and the only one of its kind. */
  ghost predicate OneConsequence(events: seq<TraceEvent>, e: TraceEvent) {
    && events != [] && events[|events| - 1] == e && IsCommitted(e)
    && forall i :: 0 <= i < |events| - 1 ==> !IsCommitted(events[i])
  }

  /** The proposal, the check and the revocation come first, each at its own tick. */
  ghost predicate Opening(s: Scenario, v: Variation, events: seq<TraceEvent>) {
    && |events| >= 3
    && events[0].tick == v.checkTick && events[0].observation == ActionProposed(s.actionQuantity)
    && events[1].tick == v.checkTick && events[1].observation.AuthorizationChecked?
    && (events[1].observation.observed.Active? <==> Live(s.authority, v.revocationTick, v.checkTick))
    && (events[1].observation.withinLimit <==> s.actionQuantity <= s.authority.maxQuantity)
    && (events[1].observation.allow <==>
          s.actionQuantity <= s.authority.maxQuantity && Live(s.authority, v.revocationTick, v.checkTick))
    && events[2].tick == v.revocationTick && events[2].observation.AuthorityTransition?
  }

  /** Then the request, after its duplicate if there is one, at the tick of the commit. */
  ghost predicate Requests(v: Variation, events: seq<TraceEvent>) {
    && |events| >= (if v.duplicateRequest then 5 else 4)
    && (v.duplicateRequest ==>
          events[3].tick == CommitTick(v) && events[3].observation == CommitRequested(v.retryIndex, true)
          && events[4].tick == CommitTick(v) && events[4].observation == CommitRequested(v.retryIndex, false))
    && (!v.duplicateRequest ==>
          events[3].tick == CommitTick(v) && events[3].observation == CommitRequested(v.retryIndex, false))
  }

  /** Then the decision: which tick the path looked at, through which source, what it saw there, and the outcome. */
  ghost predicate Decision(s: Scenario, v: Variation, e: TraceEvent) {
    && e.tick == CommitTick(v) && e.observation.CommitDecision?
    && e.observation.observedAt == (match s.enforcement
                                    case CheckOnceCached => v.checkTick
                                    case StalePropagation => CommitTick(v) - v.propagationDelay
                                    case RecheckAtCommit => CommitTick(v))
    && e.observation.source == (match s.enforcement
                                case CheckOnceCached => CachedDecision
                                case StalePropagation => LaggingReplica
                                case RecheckAtCommit => AuthoritativeSource)
    && (e.observation.used.Active? <==> Live(s.authority, v.revocationTick, e.observation.observedAt))
    && e.observation.allowed == Allowed(s, v)
  }

  /** What an execution's trace says: its ticks, and one consequence, committed exactly when allowed. */
  ghost predicate TraceOf(s: Scenario, v: Variation, trace: Trace) {
    var n := |trace.events|;
    && trace.variation == v && trace.commitTick == CommitTick(v)
    && trace.effectiveAtCommit == EffectiveStatus(s.authority, v.revocationTick, CommitTick(v))
    && Numbered(trace.events)
    && n == (if v.duplicateRequest then 7 else 6)
    && Opening(s, v, trace.events) && Requests(v, trace.events) && Decision(s, v, trace.events[n - 2])
    && OneConsequence(trace.events,
         TraceEvent(n - 1, CommitTick(v),
                    ConsequenceCommitted(Allowed(s, v), if Allowed(s, v) then s.actionQuantity else 0)))
  }

  /** One execution: what was proposed, checked and committed, in order. */
  method Execute(s: Scenario, v: Variation) returns (trace: Trace)
    ensures TraceOf(s, v, trace)
  {
    var commitTick := v.commitTick + v.retryIndex;
    var events := Emit([], v.checkTick, ActionProposed(s.actionQuantity));
    var checkStatus := EffectiveStatus(s.authority, v.revocationTick, v.checkTick);
    var withinLimit := s.actionQuantity <= s.authority.maxQuantity;
    var checkAllows := checkStatus == Active && withinLimit;
    events := Emit(events, v.checkTick, AuthorizationChecked(checkStatus, withinLimit, checkAllows));
    events := Emit(events, v.revocationTick, AuthorityTransition);
    if v.duplicateRequest {
      events := Emit(events, commitTick, CommitRequested(v.retryIndex, true));
    }
    events := Emit(events, commitTick, CommitRequested(v.retryIndex, false));
    events := Conclude(s, v, commitTick, withinLimit, checkAllows, events);
    trace := Trace(v, commitTick, EffectiveStatus(s.authority, v.revocationTick, commitTick), events);
  }

  /** The decision at the commit, and its consequence. */
  method Conclude(s: Scenario, v: Variation, commitTick: int, withinLimit: bool, checkAllows: bool,
                  events0: seq<TraceEvent>)
    returns (events: seq<TraceEvent>)
    requires commitTick == CommitTick(v) && withinLimit == (s.actionQuantity <= s.authority.maxQuantity)
    requires checkAllows == (withinLimit && Live(s.authority, v.revocationTick, v.checkTick))
    ensures |events| == |events0| + 2 && events0 <= events
    ensures events[|events0|].number == |events0| && Decision(s, v, events[|events0|])
    ensures events[|events0| + 1] ==
      TraceEvent(|events0| + 1, CommitTick(v),
                 ConsequenceCommitted(Allowed(s, v), if Allowed(s, v) then s.actionQuantity else 0))
  {
    var reading := ObservedStatus(s, v, commitTick);
    var allowed := reading.status == Active && withinLimit && checkAllows;
    events := Emit(events0, commitTick, CommitDecision(reading.status, reading.observedAt, reading.source, allowed));
    events := Emit(events, commitTick, ConsequenceCommitted(allowed, if allowed then s.actionQuantity else 0));
  }

  // ----- the falsifier -----

  datatype Evaluation = Evaluation(committed: bool, number: nat, revoked: bool) {
    predicate Counterexample() { committed && revoked }
  }

  function CommitEvents(events: seq<TraceEvent>): seq<TraceEvent> {
    if events == [] then [] else (if IsCommitted(events[0]) then [events[0]] else []) + CommitEvents(events[1..])
  }

  /** None when there is not exactly one consequence to judge. */
  function Evaluate(trace: Trace): Option<Evaluation> {
    var commits := CommitEvents(trace.events);
    if |commits| != 1 || !commits[0].observation.ConsequenceCommitted? then None
    else Some(Evaluation(commits[0].observation.committed, commits[0].number, trace.effectiveAtCommit == Revoked))
  }

  lemma {:induction false} OneConsequenceIsFound(events: seq<TraceEvent>, e: TraceEvent)
    requires OneConsequence(events, e)
    ensures CommitEvents(events) == [e]
  {
    if |events| == 1 {
      assert events[1..] == [];
    } else {
      OneConsequenceIsFound(events[1..], e);
    }
  }

  /** The closed form, path by path. */
  lemma CrossesIff(s: Scenario, v: Variation)
    ensures Crosses(s, v) <==>
      && s.actionQuantity <= s.authority.maxQuantity
      && Live(s.authority, v.revocationTick, v.checkTick)
      && !Live(s.authority, v.revocationTick, CommitTick(v))
      && match s.enforcement
         case CheckOnceCached => true
         case StalePropagation => Live(s.authority, v.revocationTick, CommitTick(v) - v.propagationDelay)
         case RecheckAtCommit => false
  {
  }

  /** The falsifier never errs on an execution's trace, and its predicate is the closed form in ticks, path by path. */
  lemma EvaluationMeans(s: Scenario, v: Variation, trace: Trace)
    requires TraceOf(s, v, trace)
    ensures Evaluate(trace).Some?
    ensures var e := Evaluate(trace).value;
      && (e.committed <==> Allowed(s, v)) && e.number == |trace.events| - 1
      && (e.revoked <==> EffectiveStatus(s.authority, v.revocationTick, CommitTick(v)) == Revoked)
    ensures Evaluate(trace).value.Counterexample() <==> Crosses(s, v)
    ensures Evaluate(trace).value.Counterexample() <==>
      && s.actionQuantity <= s.authority.maxQuantity
      && Live(s.authority, v.revocationTick, v.checkTick)
      && !Live(s.authority, v.revocationTick, CommitTick(v))
      && match s.enforcement
         case CheckOnceCached => true
         case StalePropagation => Live(s.authority, v.revocationTick, CommitTick(v) - v.propagationDelay)
         case RecheckAtCommit => false
  {
    OneConsequenceIsFound(trace.events, trace.events[|trace.events| - 1]);
    CrossesIff(s, v);
  }

  /** On the stale path a commit that goes through crosses exactly when the replica lags and the grant has ended by
      then, or the replica is ahead and the grant has not begun: without delay the path is as good as rechecking. */
  lemma StaleCrossesIff(s: Scenario, v: Variation)
    requires s.enforcement == StalePropagation && Allowed(s, v)
    ensures Crosses(s, v) <==>
      || (v.propagationDelay > 0 && (v.revocationTick <= CommitTick(v) || s.authority.validUntil < CommitTick(v)))
      || (v.propagationDelay < 0 && CommitTick(v) < s.authority.validFrom)
  {
  }
}
