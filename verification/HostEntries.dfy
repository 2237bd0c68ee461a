/** What one call to the host does, written out on the fields of its request: the commit it makes, what it takes to be
    admitted, and everything it leaves behind (oat/integration/host_sink.py:287-354, 401-428). */
module HostEntries {
  import opened Wrappers
  import opened Consequence
  import opened CurrentState
  import opened Authorizations
  import Delegation
  import opened Verifier
  import opened HostSink
  import PaymentSink

  // ----- the commit -----

  /** `row` is the row of request `p` on route `route`, field by field. */
  ghost predicate RowOf(s: Scheme, epochs: seq<AuthorityState>, p: Payload, route: string, row: Row) {
    && p.Payload?
    && row.token == p.token
    && row.event.commitId == p.commitId
    && row.event.routeId == route
    && row.event.committedAt == p.committedAt
    && row.event.idempotencyKey == p.idempotencyKey
    && row.event.sinkId == p.action.sinkId
    && row.event.tenantId == p.action.tenantId
    && row.event.principalId == p.action.principalId
    && row.event.releaseId == p.action.releaseId
    && row.event.action == p.action
    && row.event.actionDigest == s.actionDigest(p.action)
    && (p.agentId.Some? ==> row.event.agentId == p.agentId.value)
    && (p.agentId.None? ==> row.event.agentId == "agent.integration-test")
    && (p.traceRef.Some? ==> row.event.traceRef == p.traceRef.value)
    && (p.traceRef.None? ==> row.event.traceRef == "trace-" + p.commitId)
    && (NamesRecord(p) ==> row.event.authorizationRef == p.authorizationId)
    && (!NamesRecord(p) ==> row.event.authorizationRef == None)
    && (At(epochs, p.committedAt).Some? ==>
          row.event.authorityStateRef == Some(s.stateDigest(At(epochs, p.committedAt).value)))
    && (At(epochs, p.committedAt).None? ==> row.event.authorityStateRef == None)
  }

  /** The request names a record: an empty id is none. */
  ghost predicate NamesRecord(p: Payload)
    requires p.Payload?
  {
    p.authorizationId.Some? && |p.authorizationId.value| > 0
  }

  lemma EventIsOfRequest(s: Scheme, epochs: seq<AuthorityState>, p: Payload, route: string)
    requires p.Payload?
    ensures RowOf(s, epochs, p, route, Row(BuildEvent(s, epochs, p, route), p.token))
  {
  }

  // ----- what admission takes -----

  /** The record that the request names. */
  ghost predicate Names(st: HostState, p: Payload, a: Authorization) {
    p.Payload? && NamesRecord(p)
    && p.authorizationId.value in st.authorizations && st.authorizations[p.authorizationId.value] == a
  }

  /** The agent the request speaks for. */
  ghost predicate SpeaksFor(p: Payload, agent: string)
    requires p.Payload?
  {
    if p.agentId.Some? then agent == p.agentId.value else agent == "agent.integration-test"
  }

  /** Record and request agree on every identity that the record binds. */
  ghost predicate IdentitiesAgree(s: Scheme, p: Payload, a: Authorization)
    requires p.Payload?
  {
    && a.decision == "ALLOW"
    && Fits(a.tenantId, p.action.tenantId)
    && Fits(a.principalId, p.action.principalId)
    && (exists agent :: SpeaksFor(p, agent) && Fits(a.agentId, agent))
    && Fits(a.releaseId, p.action.releaseId)
    && Fits(a.sinkId, p.action.sinkId)
    && Fits(a.actionDigest, s.actionDigest(p.action))
    && Fits(a.idempotencyKey, p.idempotencyKey)
  }

  /** The record stands at the request's tick, with a use left: its grant is active in the epoch in force, and listed
      there neither as revoked nor as superseded. */
  ghost predicate RecordStands(s: Scheme, st: HostState, p: Payload, a: Authorization)
    requires p.Payload?
  {
    var now := At(st.epochs, p.committedAt);
    && a.scope != ""
    && a.integrity == s.mac(st.secret, a.(integrity := ""))
    && a.notBefore <= p.committedAt <= a.notAfter
    && now.Some? && Fits(a.authorityStateDigest, s.stateDigest(now.value))
    && a.grantId in now.value.activeGrants
    && a.grantId !in now.value.revokedGrants && a.grantId !in now.value.supersededGrants
    && (a.delegation.Some? ==> Delegation.Acceptable(a.delegation.value, p.action.principalId, a.scope))
    && UsesOf(st.uses, a.authorizationId) + 1 <= a.maxUses
    && p.token.Some? && Fits(s.authorizationDigest(a), p.token.value)
  }

  ghost predicate Authorizes(s: Scheme, st: HostState, p: Payload, a: Authorization) {
    Names(st, p, a) && IdentitiesAgree(s, p, a) && RecordStands(s, st, p, a)
  }

  lemma ClaimIsWhatIsNamed(st: HostState, p: Payload)
    requires p.Payload?
    ensures forall a :: ClaimedAuthorization(st, p) == Some(a) <==> Names(st, p, a)
  {
  }

  lemma AdmissionWrittenOut(s: Scheme, st: HostState, p: Payload, route: string)
    requires p.Payload?
    ensures var auth := ClaimedAuthorization(st, p);
      IsValid(ReportOn(s, auth, BuildEvent(s, st.epochs, p, route), AdmissionGrounds(st, p))) <==>
        auth.Some? && Authorizes(s, st, p, auth.value)
  {
    var auth, c, g := ClaimedAuthorization(st, p), BuildEvent(s, st.epochs, p, route), AdmissionGrounds(st, p);
    ClaimIsWhatIsNamed(st, p);
    if auth.None? {
      if IsValid(ReportOn(s, auth, c, g)) {
        ValidMeansPresent(s, auth, c, g);
      }
    } else {
      ReportMeans(s, auth.value, c, g);
      ValidAuthorizationWrittenOut(s, auth.value, c, g);
      EventIsOfRequest(s, st.epochs, p, route);
      assert SpeaksFor(p, c.agentId);
      assert forall agent :: SpeaksFor(p, agent) ==> agent == c.agentId;
    }
  }

  // ----- what the entries leave behind -----

  /** One more arrival of the given kind. */
  ghost predicate Arrived(st: HostState, next: HostState, route: string, tick: int, commitId: Option<string>) {
    && |next.arrivals| == |st.arrivals| + 1 && st.arrivals <= next.arrivals
    && var last := next.arrivals[|st.arrivals|];
       && last.routeId == route && last.tick == tick
       && last.commitId == commitId && last.admitted == commitId.Some? && last.committed == commitId.Some?
  }

  /** Refused: one arrival that was neither admitted nor committed, and nothing else. */
  ghost predicate OnlyRefused(st: HostState, next: HostState, route: string, tick: int) {
    && Arrived(st, next, route, tick, None)
    && next == st.(arrivals := next.arrivals)
  }

  /** One more receipt, with the fields of the commit. */
  ghost predicate Receipted(st: HostState, next: HostState, event: CommitEvent) {
    && |next.receipts| == |st.receipts| + 1 && st.receipts <= next.receipts
    && var last := next.receipts[|st.receipts|];
       && last.receiptId == "receipt-" + event.commitId && last.commitId == event.commitId
       && last.sinkId == event.sinkId && last.routeId == event.routeId
       && last.observedAt == event.committedAt && last.actionDigest == event.actionDigest
  }

  /** Committed: one row, that of the request, one committed arrival, and a receipt if one is to be emitted. */
  ghost predicate Committed(s: Scheme, st: HostState, next: HostState, p: Payload, route: string, receipt: bool)
    requires p.Payload?
  {
    && |next.rows| == |st.rows| + 1 && st.rows <= next.rows
    && RowOf(s, st.epochs, p, route, next.rows[|st.rows|])
    && Arrived(st, next, route, p.committedAt, Some(p.commitId))
    && (if receipt then Receipted(st, next, next.rows[|st.rows|].event) else next.receipts == st.receipts)
    && next == st.(rows := next.rows, arrivals := next.arrivals, receipts := next.receipts, uses := next.uses)
  }

  /** The key, or the id, of some row. */
  ghost predicate KeyTaken(st: HostState, key: string) {
    exists i :: 0 <= i < |st.rows| && st.rows[i].event.idempotencyKey == key
  }

  ghost predicate IdTaken(st: HostState, commitId: string) {
    exists i :: 0 <= i < |st.rows| && st.rows[i].event.commitId == commitId
  }

  lemma TakenMeansSeen(st: HostState, key: string, commitId: string)
    ensures KeySeen(st.rows, key) <==> KeyTaken(st, key)
    ensures IdSeen(st.rows, commitId) <==> IdTaken(st, commitId)
  {
  }

  /** The count of one record, and of that record only, has gone up by one. */
  ghost predicate SpentOne(st: HostState, next: HostState, id: string) {
    forall other :: UsesOf(next.uses, other) == UsesOf(st.uses, other) + if other == id then 1 else 0
  }

  /** A guarded call in full. A malformed request changes nothing. A taken key, or a request that its record does not
      authorize, leaves one refused arrival. Otherwise a use of the record is spent, and the request's row goes in
      unless its id is taken. */
  lemma GuardedCallWrittenOut(s: Scheme, st: HostState, p: Payload, route: string)
    ensures var (next, reply) := GuardedStep(s, st, p, route);
      if p.Malformed? then next == st && reply == Raised
      else if KeyTaken(st, p.idempotencyKey) then OnlyRefused(st, next, route, p.committedAt) && reply == ReplayRefused
      else if !exists a :: Authorizes(s, st, p, a) then
        OnlyRefused(st, next, route, p.committedAt) && reply.BindingRefused?
      else
        && (forall a :: Authorizes(s, st, p, a) ==> SpentOne(st, next, a.authorizationId))
        && if IdTaken(st, p.commitId) then next == st.(uses := next.uses) && reply == Raised
           else Committed(s, st, next, p, route, true) && reply == Admitted(p.commitId)
  {
    if p.Payload? {
      var event, auth := BuildEvent(s, st.epochs, p, route), ClaimedAuthorization(st, p);
      TakenMeansSeen(st, p.idempotencyKey, p.commitId);
      ClaimIsWhatIsNamed(st, p);
      AdmissionWrittenOut(s, st, p, route);
      RefusalWrittenOut(st, route, p.committedAt);
      if auth.Some? && !KeyTaken(st, p.idempotencyKey) {
        AdmitWrittenOut(s, st, p, route, auth.value);
        GuardedStepAdmits(s, st, p, route, auth.value);
      }
    }
  }

  lemma RefusalWrittenOut(st: HostState, route: string, tick: int)
    ensures OnlyRefused(st, Refused(st, route, tick), route, tick)
  {
  }

  lemma GuardedStepAdmits(s: Scheme, st: HostState, p: Payload, route: string, a: Authorization)
    requires p.Payload? && !KeySeen(st.rows, p.idempotencyKey) && ClaimedAuthorization(st, p) == Some(a)
    ensures var report := ReportOn(s, Some(a), BuildEvent(s, st.epochs, p, route), AdmissionGrounds(st, p));
      GuardedStep(s, st, p, route) ==
        if IsValid(report) then AdmitStep(st, a, BuildEvent(s, st.epochs, p, route), p.token)
        else (Refused(st, route, p.committedAt), BindingRefused(FailedDimensions(report)))
  {
  }

  lemma AdmitWrittenOut(s: Scheme, st: HostState, p: Payload, route: string, a: Authorization)
    requires p.Payload? && !KeyTaken(st, p.idempotencyKey)
    ensures var (next, reply) := AdmitStep(st, a, BuildEvent(s, st.epochs, p, route), p.token);
      && SpentOne(st, next, a.authorizationId)
      && if IdTaken(st, p.commitId) then next == st.(uses := next.uses) && reply == Raised
         else Committed(s, st, next, p, route, true) && reply == Admitted(p.commitId)
  {
    EventIsOfRequest(s, st.epochs, p, route);
    TakenMeansSeen(st, p.idempotencyKey, p.commitId);
  }

  /** A hidden call in full: only the keys stand in its way, and no use is ever spent. */
  lemma HiddenCallWrittenOut(s: Scheme, st: HostState, p: Payload, emitReceipt: bool)
    ensures var (next, reply) := HiddenStep(s, st, p, emitReceipt);
      if p.Malformed? then next == st && reply == Raised
      else if KeyTaken(st, p.idempotencyKey) then
        OnlyRefused(st, next, "route.hidden-batch", p.committedAt) && reply == ReplayRefused
      else if IdTaken(st, p.commitId) then next == st && reply == Raised
      else
        && Committed(s, st, next, p, "route.hidden-batch", emitReceipt) && next.uses == st.uses
        && reply == Reply.Committed(p.commitId)
  {
    if p.Payload? {
      EventIsOfRequest(s, st.epochs, p, ROUTE_HIDDEN_BATCH);
      TakenMeansSeen(st, p.idempotencyKey, p.commitId);
    }
  }

  /** A guarded call whose record contradicts the request in any bound identity adds no row and spends no use. */
  lemma DisagreementIsRefused(s: Scheme, st: HostState, p: Payload, route: string, a: Authorization)
    requires Names(st, p, a)
    requires
      || a.decision != "ALLOW"
      || Misfits(a.tenantId, p.action.tenantId) || Misfits(a.principalId, p.action.principalId)
      || (p.agentId.Some? && Misfits(a.agentId, p.agentId.value))
      || (p.agentId.None? && Misfits(a.agentId, "agent.integration-test"))
      || Misfits(a.releaseId, p.action.releaseId) || Misfits(a.sinkId, p.action.sinkId)
      || Misfits(a.actionDigest, s.actionDigest(p.action)) || Misfits(a.idempotencyKey, p.idempotencyKey)
    ensures var next := GuardedStep(s, st, p, route).0;
      next.rows == st.rows && next.receipts == st.receipts && next.uses == st.uses
  {
    GuardedCallWrittenOut(s, st, p, route);
    assert forall b :: Authorizes(s, st, p, b) ==> b == a;
    assert !Authorizes(s, st, p, a);
  }

  /** A refusal names the dimensions that contradict the record, or, when none does, those that lack something. */
  lemma RefusalNamesDimensions(s: Scheme, st: HostState, p: Payload, route: string, a: Authorization,
                               event: CommitEvent)
    requires Names(st, p, a) && RowOf(s, st.epochs, p, route, Row(event, p.token))
    requires GuardedStep(s, st, p, route).1.BindingRefused?
    ensures var failed, g := GuardedStep(s, st, p, route).1.failed, AdmissionGrounds(st, p);
      if exists d :: Contradicts(s, d, a, event, g) then forall d :: d in failed <==> Contradicts(s, d, a, event, g)
      else forall d :: d in failed <==> Lacks(d, a, g)
  {
    var built, g := BuildEvent(s, st.epochs, p, route), AdmissionGrounds(st, p);
    EventIsOfRequest(s, st.epochs, p, route);
    assert built == event;
    ClaimIsWhatIsNamed(st, p);
    GuardedStepRefuses(s, st, p, route, a);
    ReportWrittenOut(s, a, event, g);
    var mismatches := Select(ReportOn(s, Some(a), event, g), Mismatch);
    if mismatches != [] {
      assert mismatches[0] in mismatches;
    }
  }

  /** Without a record the missing record is named. */
  lemma NoRecordIsNamed(s: Scheme, st: HostState, p: Payload, route: string)
    requires p.Payload? && !KeyTaken(st, p.idempotencyKey) && (forall a :: !Names(st, p, a))
    ensures GuardedStep(s, st, p, route).1 == BindingRefused([AuthorizationPresent])
  {
    if ClaimedAuthorization(st, p).Some? {
      assert Names(st, p, ClaimedAuthorization(st, p).value);
    }
  }

  lemma GuardedStepRefuses(s: Scheme, st: HostState, p: Payload, route: string, a: Authorization)
    requires p.Payload? && ClaimedAuthorization(st, p) == Some(a) && GuardedStep(s, st, p, route).1.BindingRefused?
    ensures GuardedStep(s, st, p, route).1.failed ==
      FailedDimensions(ReportOn(s, Some(a), BuildEvent(s, st.epochs, p, route), AdmissionGrounds(st, p)))
  {
    if !KeySeen(st.rows, p.idempotencyKey) {
      GuardedStepAdmits(s, st, p, route, a);
    }
  }

  /** The grounds of the interlock: the epoch in force, the host's secret, the count with this use, the token. */
  lemma GroundsWrittenOut(st: HostState, p: Payload, a: Authorization)
    requires Names(st, p, a)
    ensures var g := AdmissionGrounds(st, p);
      && g.authority == At(st.epochs, p.committedAt) && g.issuer == Some(st.secret) && g.token == p.token
      && g.uses == Some(UsesOf(st.uses, a.authorizationId) + 1)
  {
  }

  // ----- revoked grants -----

  /** A grant that the epoch in force at `tick` does not keep active. */
  ghost predicate GrantIsDown(epochs: seq<AuthorityState>, tick: int, grantId: string) {
    At(epochs, tick).Some? &&
      var now := At(epochs, tick).value;
      grantId in now.revokedGrants || grantId in now.supersededGrants || grantId !in now.activeGrants
  }

  /** The host's guarded entries never commit on a grant that is down at the tick of the commit. */
  lemma NoCommitOnADownGrant(s: Scheme, st: HostState, p: Payload, route: string, a: Authorization)
    requires Names(st, p, a) && GrantIsDown(st.epochs, p.committedAt, a.grantId)
    ensures var next := GuardedStep(s, st, p, route).0;
      next.rows == st.rows && next.receipts == st.receipts && next.uses == st.uses
  {
    GuardedCallWrittenOut(s, st, p, route);
    assert forall b :: Authorizes(s, st, p, b) ==> b == a;
    assert !Authorizes(s, st, p, a);
  }

  /** Neither does the in-memory sink's guarded entry. */
  lemma NoSubmissionOnADownGrant(s: Scheme, st: PaymentSink.SinkState, c: CommitEvent, a: Authorization,
                                 token: Option<string>)
    requires GrantIsDown(st.epochs, c.committedAt, a.grantId)
    ensures var next := PaymentSink.SubmitStep(s, st, c, Some(a), token);
      next.commits == st.commits && next.receipts == st.receipts && next.uses == st.uses
  {
    if PaymentSink.Decide(s, st, c, Some(a), token).Admitted? {
      PaymentSink.AdmittedIsValid(s, st, c, Some(a), token);
      ValidAuthorizationWrittenOut(s, a, c, PaymentSink.SubmitGrounds(st, c, Some(a), token));
    }
  }

  // ----- routing -----

  /** The three paths and what they reach. */
  lemma RoutingWrittenOut(s: Scheme, st: HostState, path: string, p: Payload)
    ensures path == "/v1/payments" ==>
      (Served(s, st, path, p), ReplyTo(s, st, path, p)) == GuardedStep(s, st, p, "route.http-guarded")
    ensures path == "/v1/async-payments" ==>
      (Served(s, st, path, p), ReplyTo(s, st, path, p)) == EnqueueStep(s, st, p)
    ensures path == "/internal/batch-commit" ==>
      (Served(s, st, path, p), ReplyTo(s, st, path, p)) == HiddenStep(s, st, p, true)
    ensures path !in {"/v1/payments", "/v1/async-payments", "/internal/batch-commit"} ==>
      Served(s, st, path, p) == st && ReplyTo(s, st, path, p) == NotFound
  {
    assert |"/v1/payments"| == 12 && |"/v1/async-payments"| == 18 && |"/internal/batch-commit"| == 22;
  }

  /** A queued call on an idle worker is a guarded call on the worker's route, whose reply is passed on; only a raise is
      lasting. */
  lemma QueuedCallWrittenOut(s: Scheme, st: HostState, p: Payload)
    requires st.workerAlive && st.jobs == []
    ensures var (next, reply) := GuardedStep(s, st, p, "route.queue-worker");
      EnqueueStep(s, st, p) == (if reply.Raised? then next.(workerAlive := false) else next, reply)
  {
    var queued := st.(jobs := st.jobs + [p]);
    assert queued.jobs == [p] && queued.(jobs := queued.jobs[1..]) == st;
  }

  /** A new epoch is in force from its tick on, up to the next later one, and nothing else changes. */
  lemma NewEpochWrittenOut(s: Scheme, st: HostState, e: AuthorityState, tick: int)
    requires Sorted(st.epochs)
    ensures var next, now := Step(s, st, AddEpoch(e)), At(st.epochs, tick);
      && next == st.(epochs := next.epochs)
      && At(next.epochs, tick) ==
         if e.effectiveFrom <= tick && (now.None? || now.value.effectiveFrom <= e.effectiveFrom) then Some(e) else now
  {
    assert (st.epochs + [e])[..|st.epochs|] == st.epochs;
    LookupMatchesHistory(st.epochs, tick);
    LookupMatchesHistory(st.epochs + [e], tick);
    SortingSortedChangesNothing(st.epochs);
  }
}
