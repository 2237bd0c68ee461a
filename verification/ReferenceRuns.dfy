/** Runs of the reference host and its reference record (oat/integration/host_sink.py:472-544) on which stronger claims
    fail: one payment sent twice at once, an id registered twice, and a commit that names no record. */
module ReferenceRuns {
  import opened Wrappers
  import opened Consequence
  import opened CurrentState
  import opened Authorizations
  import opened Verifier
  import opened HostSink
  import opened HostRuns
  import opened Interleaving
  import opened ConcurrentUses
  import opened Overspending
  import opened SequenceClosure
  import PaymentSink
  import HostEntries

  /** The payment that the reference record authorizes, with the record's token, at some tick. */
  function PaymentAt(s: Scheme, tick: int): Payload {
    Payload(REFERENCE_ACTION, Some("authz-1"), "c1", tick, "idem-1", Some(DEFAULT_AGENT),
            Some(s.authorizationDigest(ReferenceAuthorization(s))), None)
  }

  function ReferencePayment(s: Scheme): Payload { PaymentAt(s, 10) }

  function ReferenceEvent(s: Scheme, route: string): CommitEvent {
    BuildEvent(s, [FIRST_EPOCH, SECOND_EPOCH], ReferencePayment(s), route)
  }

  function ReferenceGrounds(s: Scheme): Grounds {
    Grounds(Some(FIRST_EPOCH), Some(REFERENCE_SECRET), Some(1), ReferencePayment(s).token)
  }

  lemma ReferenceRecordValidates(s: Scheme, route: string, ref: Option<string>)
    ensures ValidAuthorization(s, ReferenceAuthorization(s), ReferenceEvent(s, route).(authorizationRef := ref),
                               ReferenceGrounds(s))
  {
    var a, c := ReferenceAuthorization(s), ReferenceEvent(s, route).(authorizationRef := ref);
    IntactIffSealed(s, REFERENCE_SECRET, a);
    assert |a.scope| > 0;
    assert FIRST_EPOCH.StatusOf("grant.treasury").Active?;
    ValidAuthorizationWrittenOut(s, a, c, ReferenceGrounds(s));
  }

  lemma ReferencePaymentIsAdmissible(s: Scheme)
    ensures Admissible(s, ReferenceState(s), ReferencePayment(s))
    ensures ClaimedAuthorization(ReferenceState(s), ReferencePayment(s)) == Some(ReferenceAuthorization(s))
    ensures AdmissionGrounds(ReferenceState(s), ReferencePayment(s)) == ReferenceGrounds(s)
  {
    ReferenceClaim(s);
    ReferenceGroundsAre(s);
    ReferenceRecordValidates(s, ROUTE_HTTP_GUARDED, Some("authz-1"));
    ReferenceRefIs(s);
  }

  /** The reference record authorizes its payment from tick 0 to tick 40, and at no other. */
  lemma PaymentIsAuthorizedIff(s: Scheme, tick: int)
    ensures HostEntries.Authorizes(s, ReferenceState(s), PaymentAt(s, tick), ReferenceAuthorization(s)) <==>
      0 <= tick <= 40
  {
    var a, st, p := ReferenceAuthorization(s), ReferenceState(s), PaymentAt(s, tick);
    IntactIffSealed(s, REFERENCE_SECRET, a);
    ReferenceClaim(s);
    if 0 <= tick <= 40 {
      FirstEpochIsInForce(tick);
      assert HostEntries.SpeaksFor(p, a.agentId);
      assert HostEntries.IdentitiesAgree(s, p, a);
      assert |a.scope| > 0;
      assert HostEntries.RecordStands(s, st, p, a);
    }
  }

  lemma FirstEpochIsInForce(tick: int)
    requires 0 <= tick < 50
    ensures At([FIRST_EPOCH, SECOND_EPOCH], tick) == Some(FIRST_EPOCH)
  {
    assert [FIRST_EPOCH, SECOND_EPOCH][1..] == [SECOND_EPOCH];
  }

  lemma ReferenceClaim(s: Scheme)
    ensures ClaimedId(ReferencePayment(s)) == Some("authz-1")
    ensures ClaimedAuthorization(ReferenceState(s), ReferencePayment(s)) == Some(ReferenceAuthorization(s))
  {
    assert |"authz-1"| == 7;
  }

  lemma ReferenceGroundsAre(s: Scheme)
    ensures AdmissionGrounds(ReferenceState(s), ReferencePayment(s)) == ReferenceGrounds(s)
  {
    ReferenceClaim(s);
    ReferenceEpochsAreSorted();
  }

  lemma ReferenceRefIs(s: Scheme)
    ensures ReferenceEvent(s, ROUTE_HTTP_GUARDED).(authorizationRef := Some("authz-1")) ==
      ReferenceEvent(s, ROUTE_HTTP_GUARDED)
  {
    ReferenceClaim(s);
  }

  // ----- one payment, sent twice at once -----

  /** The reference record binds its idempotency key and allows one use. The same request sent twice at once can spend
      it twice; the ledger takes one row, and the verifier finds that one payment to be a crossing. */
  lemma DuplicateRequestOverspends(s: Scheme) returns (moves: seq<Move>)
    ensures Launched(moves) == [ReferencePayment(s), ReferencePayment(s)]
    ensures var end := Execute(s, Opened(ReferenceState(s)), moves);
      && Quiescent(end)
      && UsesOf(end.host.uses, "authz-1") == 2
      && |end.host.rows| == 1
      && !IsHidden(end.host.rows[0])
      && AdjudicateCommit(s, end.host.rows[0].event, EvidenceOf(end.host)).disposition == BoundaryFailure
  {
    PaymentTwiceClaims(s);
    moves := DuplicateOverspends(s, ReferenceState(s), ReferencePayment(s), ReferenceAuthorization(s));
  }

  lemma PaymentTwiceClaims(s: Scheme)
    ensures Claimants(s, ReferenceState(s), [ReferencePayment(s), ReferencePayment(s)], ReferenceAuthorization(s))
    ensures var a := ReferenceAuthorization(s);
      && a.authorizationId == "authz-1" && a.idempotencyKey != NOT_APPLICABLE
      && UsesOf(ReferenceState(s).uses, a.authorizationId) + 1 == a.maxUses == 1
    ensures ReferenceState(s).rows == []
  {
    EmptyStoresBegin(s, ReferenceState(s));
    ReferencePaymentIsAdmissible(s);
    assert |ReferenceAuthorization(s).idempotencyKey| == 6 && |NOT_APPLICABLE| == 14;
  }

  // ----- one id, registered twice -----

  /** A host as it is before anything is registered. */
  function EmptyHost(): HostState {
    HostState(REFERENCE_SINK, REFERENCE_SECRET, [FIRST_EPOCH, SECOND_EPOCH], map[], [], [], [], map[], true, [])
  }

  /** Register the reference record, pay with it, and register a denied record under the same id: the payment was clean,
      and now it is a crossing. */
  lemma ReusedIdUnmakesAPayment(s: Scheme) returns (row: Row)
    ensures var events := [Register(ReferenceAuthorization(s)), Http(ReferencePayment(s))];
      var st := Run(s, EmptyHost(), events);
      var next := Step(s, st, Register(ReferenceAuthorization(s).(decision := "DENY")));
      && Initial(EmptyHost()) && LawfulRun(s, EmptyHost(), events)
      && row in st.rows && row in next.rows
      && AdjudicateCommit(s, row.event, EvidenceOf(st)).disposition == NoCounterexample
      && AdjudicateCommit(s, row.event, EvidenceOf(next)).disposition == BoundaryFailure
  {
    var a, p := ReferenceAuthorization(s), ReferencePayment(s);
    var events := [Register(a), Http(p)];
    row := Row(ReferenceEvent(s, ROUTE_HTTP_GUARDED), p.token);
    assert events[..1] == [Register(a)] && events[..0] == [];
    assert Run(s, EmptyHost(), [Register(a)]) == ReferenceState(s) by {
      assert [Register(a)][..0] == [];
      assert map[][a.authorizationId := a] == map["authz-1" := a];
    }
    var st := Run(s, EmptyHost(), events);
    assert st == GuardedStep(s, ReferenceState(s), p, ROUTE_HTTP_GUARDED).0;
    ReferencePaymentCommits(s);
    DeclaredRoutesAreNotHidden();
    assert Sorted(EmptyHost().epochs);
    GuardedRowsAreClean(s, EmptyHost(), events, row);
    DenialUnmakes(s, st, row);
  }

  lemma ReferencePaymentCommits(s: Scheme)
    ensures var st := GuardedStep(s, ReferenceState(s), ReferencePayment(s), ROUTE_HTTP_GUARDED).0;
      var row := Row(ReferenceEvent(s, ROUTE_HTTP_GUARDED), ReferencePayment(s).token);
      && st.rows == [row] && st.receipts == [ReceiptOf(row.event)]
      && row.event.authorizationRef == Some("authz-1")
      && st.authorizations == ReferenceState(s).authorizations
  {
    var st, p, a := ReferenceState(s), ReferencePayment(s), ReferenceAuthorization(s);
    ReferencePaymentIsAdmissible(s);
    assert ClaimedId(p) == Some("authz-1");
    ReportMeans(s, a, ReferenceEvent(s, ROUTE_HTTP_GUARDED), AdmissionGrounds(st, p));
  }

  lemma DenialUnmakes(s: Scheme, st: HostState, row: Row)
    requires st.rows == [row] && st.receipts == [ReceiptOf(row.event)]
    requires row.event.authorizationRef == Some("authz-1") && |"authz-1"| > 0
    ensures var next := Step(s, st, Register(ReferenceAuthorization(s).(decision := "DENY")));
      && row in next.rows
      && AdjudicateCommit(s, row.event, EvidenceOf(next)).disposition == BoundaryFailure
  {
    var b := ReferenceAuthorization(s).(decision := "DENY");
    var next := Step(s, st, Register(b));
    assert next.rows[0] == row && next.receipts[0] in next.receipts;
    FindingOnHost(s, next, row);
    assert b.decision[0] == 'D' && "ALLOW"[0] == 'A';
    assert OutcomeOf(s, PositiveDecision, b, row.event, RowGrounds(next, row)).Mismatch?;
  }

  // ----- a commit that names no record -----

  /** The in-memory sink, with the reference record presented, admits a commit that refers to nothing; with all evidence
      gathered the verifier finds it to be a crossing. */
  lemma UnnamedCommitIsAdmitted(s: Scheme) returns (st: PaymentSink.SinkState, c: CommitEvent, e: Evidence)
    ensures PaymentSink.Initial(st) && c.authorizationRef == None
    ensures var a := ReferenceAuthorization(s);
      && PaymentSink.Decide(s, st, c, Some(a), ReferencePayment(s).token).Admitted?
      && PaymentSink.Gathered(s, st, c, a, ReferencePayment(s).token, e)
      && c in PaymentSink.SubmitStep(s, st, c, Some(a), ReferencePayment(s).token).commits
      && AdjudicateCommit(s, c, e).disposition == BoundaryFailure
  {
    var a, epochs, token := ReferenceAuthorization(s), [FIRST_EPOCH, SECOND_EPOCH], ReferencePayment(s).token;
    st := PaymentSink.SinkState(REFERENCE_SECRET, epochs, map[], [], [], [], [], {});
    c := ReferenceEvent(s, ROUTE_HTTP_GUARDED).(authorizationRef := None);
    e := Evidence(REFERENCE_SINK, [c], [ReceiptOf(c)], map["authz-1" := a], Some(epochs), Some(REFERENCE_SECRET),
                  map[c.commitId := token.value], map["authz-1" := 1], None, [], []);
    ReferenceRecordValidates(s, ROUTE_HTTP_GUARDED, None);
    ReferenceEpochsAreSorted();
    assert PaymentSink.SubmitGrounds(st, c, Some(a), token) == ReferenceGrounds(s);
    ReportMeans(s, a, c, ReferenceGrounds(s));
    assert e.receipts[0] in e.receipts;
    FindingMeans(s, c, e);
  }
}
