/** What holds over every serial run of the host: guarded rows stay clean, failures come from hidden rows only,
    failures never go away, and replay without use counters reaches the same verdict. */
module HostRuns {
  import opened Wrappers
  import opened Consequence
  import opened CurrentState
  import opened Authorizations
  import opened Verifier
  import opened HostSink

  // ----- the run invariant -----

  ghost predicate UniqueIds(rows: seq<Row>) {
    forall i, j :: 0 <= i < j < |rows| ==> rows[i].event.commitId != rows[j].event.commitId
  }

  ghost predicate UniqueKeys(rows: seq<Row>) {
    forall i, j :: 0 <= i < j < |rows| ==> rows[i].event.idempotencyKey != rows[j].event.idempotencyKey
  }

  predicate IsHidden(row: Row) {
    row.event.routeId == ROUTE_HIDDEN_BATCH
  }

  ghost predicate Witnessed(st: HostState, row: Row) {
    exists r :: r in st.receipts && r.commitId == row.event.commitId
  }

  predicate Registered(st: HostState, row: Row) {
    var ref := row.event.authorizationRef;
    ref.Some? && ref.value != "" && ref.value in st.authorizations
  }

  function RecordOf(st: HostState, row: Row): Authorization
    requires Registered(st, row)
  {
    st.authorizations[row.event.authorizationRef.value]
  }

  /** What the verifier will know about a row of this host. */
  function RowGrounds(st: HostState, row: Row): Grounds
    requires Registered(st, row)
  {
    Grounds(At(st.epochs, row.event.committedAt), Some(st.secret),
            Some(UsesOf(st.uses, row.event.authorizationRef.value)), row.token)
  }

  ghost predicate Backed(s: Scheme, st: HostState, row: Row) {
    && Witnessed(st, row)
    && Registered(st, row)
    && ValidAuthorization(s, RecordOf(st, row), row.event, RowGrounds(st, row))
  }

  /** No use count above its limit: the count is absent or between 1 and `maxUses`. */
  ghost predicate UsesWithinLimits(st: HostState) {
    forall k :: k in st.uses ==> k in st.authorizations && 1 <= st.uses[k] <= st.authorizations[k].maxUses
  }

  ghost predicate RoutesObserved(st: HostState) {
    && (forall a :: a in st.arrivals ==> a.routeId in DECLARED_ROUTES + {ROUTE_HIDDEN_BATCH})
    && (forall row :: row in st.rows ==> row.event.routeId in ObservedRoutes(st.arrivals))
  }

  ghost predicate Inv(s: Scheme, st: HostState) {
    && Sorted(st.epochs)
    && UniqueIds(st.rows)
    && UniqueKeys(st.rows)
    && FiledById(st.authorizations)
    && UsesWithinLimits(st)
    && RoutesObserved(st)
    && (forall row :: row in st.rows && !IsHidden(row) ==> Backed(s, st, row))
  }

  ghost predicate Initial(st: HostState) {
    && Sorted(st.epochs)
    && st.rows == [] && st.receipts == [] && st.arrivals == []
    && st.uses == map[] && st.authorizations == map[]
    && st.workerAlive && st.jobs == []
  }

  /** Registration under fresh ids only; epochs only later than everything committed. Calls are never restricted. */
  ghost predicate Lawful(st: HostState, ev: Event) {
    match ev
    case Register(a) => a.authorizationId !in st.authorizations
    case AddEpoch(e) => forall row :: row in st.rows ==> row.event.committedAt < e.effectiveFrom
    case _ => true
  }

  ghost predicate LawfulRun(s: Scheme, st: HostState, events: seq<Event>) {
    forall i :: 0 <= i < |events| ==> Lawful(Run(s, st, events[..i]), events[i])
  }

  lemma LawfulFront(s: Scheme, st: HostState, events: seq<Event>)
    requires LawfulRun(s, st, events) && events != []
    ensures LawfulRun(s, st, events[..|events| - 1])
    ensures Lawful(Run(s, st, events[..|events| - 1]), events[|events| - 1])
  {
    var front := events[..|events| - 1];
    forall i | 0 <= i < |front| ensures Lawful(Run(s, st, front[..i]), front[i]) {
      assert front[..i] == events[..i];
    }
  }

  // ----- how states evolve -----

  /** Nothing recorded is lost or changed: rows, receipts and records persist, counts grow, and the authority
      at every committed tick stays what it was. */
  ghost predicate Evolves(st: HostState, next: HostState) {
    && next.sink == st.sink && next.secret == st.secret
    && st.rows <= next.rows && st.receipts <= next.receipts && st.arrivals <= next.arrivals
    && FillsMap(st.authorizations, next.authorizations)
    && (forall k :: UsesOf(st.uses, k) <= UsesOf(next.uses, k))
    && (forall row :: row in st.rows ==>
          At(next.epochs, row.event.committedAt) == At(st.epochs, row.event.committedAt))
  }

  lemma EvolvesTransitive(a: HostState, b: HostState, c: HostState)
    requires Evolves(a, b) && Evolves(b, c)
    ensures Evolves(a, c)
  {
    forall row | row in a.rows ensures row in b.rows {
      var i :| 0 <= i < |a.rows| && a.rows[i] == row;
      assert b.rows[i] == row;
    }
  }

  lemma RowsStay(st: HostState, next: HostState, row: Row)
    requires Evolves(st, next) && row in st.rows
    ensures row in next.rows
    ensures Witnessed(st, row) ==> Witnessed(next, row)
    ensures Registered(st, row) ==> Registered(next, row) && RecordOf(next, row) == RecordOf(st, row)
  {
    var i :| 0 <= i < |st.rows| && st.rows[i] == row;
    assert next.rows[i] == row;
    if Witnessed(st, row) {
      var j :| 0 <= j < |st.receipts| && st.receipts[j].commitId == row.event.commitId;
      assert next.receipts[j] == st.receipts[j];
    }
  }

  lemma GuardedEvolves(s: Scheme, st: HostState, p: Payload, route: string)
    ensures Evolves(st, GuardedStep(s, st, p, route).0)
  {
    if p.Payload? {
      var event, auth := BuildEvent(s, st.epochs, p, route), ClaimedAuthorization(st, p);
      RefusedEvolves(st, route, event.committedAt);
      if auth.Some? {
        AdmissionEvolves(st, auth.value, event, p.token);
      }
    }
  }

  lemma RefusedEvolves(st: HostState, route: string, tick: int)
    ensures Evolves(st, Refused(st, route, tick))
  {
  }

  lemma AdmissionEvolves(st: HostState, a: Authorization, event: CommitEvent, token: Option<string>)
    ensures Evolves(st, AdmitStep(st, a, event, token).0)
  {
  }

  lemma HiddenEvolves(s: Scheme, st: HostState, p: Payload, emit: bool)
    ensures Evolves(st, HiddenStep(s, st, p, emit).0)
  {
  }

  lemma WorkEvolves(s: Scheme, st: HostState)
    requires st.workerAlive && st.jobs != []
    ensures Evolves(st, WorkStep(s, st).0)
  {
    GuardedEvolves(s, st.(jobs := st.jobs[1..]), st.jobs[0], ROUTE_QUEUE_WORKER);
  }

  lemma {:induction false} DrainEvolves(s: Scheme, st: HostState)
    ensures Evolves(st, Drain(s, st).0)
    decreases |st.jobs|
  {
    if !st.workerAlive || st.jobs == [] {
    } else {
      WorkEvolves(s, st);
      var (next, reply) := WorkStep(s, st);
      if !reply.Raised? && next.jobs != [] {
        DrainEvolves(s, next);
        EvolvesTransitive(st, next, Drain(s, next).0);
      }
    }
  }

  lemma StepEvolves(s: Scheme, st: HostState, ev: Event)
    requires Sorted(st.epochs) && Lawful(st, ev)
    ensures Evolves(st, Step(s, st, ev))
  {
    match ev
    case Http(p) => GuardedEvolves(s, st, p, ROUTE_HTTP_GUARDED);
    case Async(p) =>
      DrainEvolves(s, st.(jobs := st.jobs + [p]));
    case Late(p) =>
    case Work =>
      if st.workerAlive && st.jobs != [] {
        WorkEvolves(s, st);
      }
    case Batch(p, emit) => HiddenEvolves(s, st, p, emit);
    case Register(a) =>
    case AddEpoch(e) =>
      forall row | row in st.rows
        ensures At(StableSort(st.epochs + [e]), row.event.committedAt) == At(st.epochs, row.event.committedAt)
      {
        LaterEpochChangesNothing(st.epochs, e, row.event.committedAt);
      }
  }

  // ----- the invariant is kept -----

  lemma BackedSurvives(s: Scheme, st: HostState, next: HostState, row: Row)
    requires Evolves(st, next) && UsesWithinLimits(next)
    requires row in st.rows && Backed(s, st, row)
    ensures Backed(s, next, row)
  {
    RowsStay(st, next, row);
    var a, c, g, h := RecordOf(st, row), row.event, RowGrounds(st, row), RowGrounds(next, row);
    assert OutcomeOf(s, UseCount, a, c, g).Satisfied();
    UsesMatterOnlyToUseCount(s, a, c, g, h.uses);
    assert h == g.(uses := h.uses);
    forall d ensures OutcomeOf(s, d, a, c, h).Satisfied() {
      assert OutcomeOf(s, d, a, c, g).Satisfied();
    }
  }

  /** Rows only ever come at the end, and whoever keeps the tables in order keeps the old rows backed. */
  lemma InvFromParts(s: Scheme, st: HostState, next: HostState)
    requires Inv(s, st) && Evolves(st, next)
    requires Sorted(next.epochs) && UniqueIds(next.rows) && UniqueKeys(next.rows)
    requires FiledById(next.authorizations) && UsesWithinLimits(next) && RoutesObserved(next)
    requires forall row :: row in next.rows && row !in st.rows && !IsHidden(row) ==> Backed(s, next, row)
    ensures Inv(s, next)
  {
    forall row | row in next.rows && !IsHidden(row) ensures Backed(s, next, row) {
      if row in st.rows {
        BackedSurvives(s, st, next, row);
      }
    }
  }

  lemma DeclaredRoutesAreNotHidden()
    ensures ROUTE_HIDDEN_BATCH !in DECLARED_ROUTES
  {
    assert ROUTE_HTTP_GUARDED[7] == 't' && ROUTE_QUEUE_WORKER[6] == 'q';
    assert ROUTE_HIDDEN_BATCH[7] == 'i' && ROUTE_HIDDEN_BATCH[6] == 'h';
  }

  lemma ArrivalKeepsRoutes(st: HostState, next: HostState, a: Arrival)
    requires RoutesObserved(st)
    requires next.arrivals == st.arrivals + [a] && a.routeId in DECLARED_ROUTES + {ROUTE_HIDDEN_BATCH}
    requires forall row :: row in next.rows ==> row in st.rows || row.event.routeId == a.routeId
    ensures RoutesObserved(next)
  {
    assert a in next.arrivals;
    assert forall x :: x in next.arrivals <==> x in st.arrivals || x == a;
    forall row | row in next.rows ensures row.event.routeId in ObservedRoutes(next.arrivals) {
      if row in st.rows {
        var b :| b in st.arrivals && b.routeId == row.event.routeId;
        assert b in next.arrivals;
      }
    }
  }

  /** A guarded call that reaches the admission step carries a record that validates it with the count it leaves. */
  lemma AdmissionIsBacked(s: Scheme, st: HostState, p: Payload, route: string)
    requires FiledById(st.authorizations) && p.Payload? && ClaimedAuthorization(st, p).Some?
    requires IsValid(ReportOn(s, ClaimedAuthorization(st, p), BuildEvent(s, st.epochs, p, route),
                              AdmissionGrounds(st, p)))
    ensures var a, event := ClaimedAuthorization(st, p).value, BuildEvent(s, st.epochs, p, route);
      && a.authorizationId == ClaimedId(p).value
      && UsesOf(st.uses, a.authorizationId) + 1 <= a.maxUses
      && Backed(s, Recorded(st.(uses := WithUse(st.uses, a.authorizationId)), event, p.token, true),
                Row(event, p.token))
  {
    var a, event, g := ClaimedAuthorization(st, p).value, BuildEvent(s, st.epochs, p, route), AdmissionGrounds(st, p);
    ReportMeans(s, a, event, g);
    assert OutcomeOf(s, UseCount, a, event, g).Satisfied();
    AdmittedRowIsBacked(s, st, a, event, p.token);
  }

  lemma AdmittedRowIsBacked(s: Scheme, st: HostState, a: Authorization, event: CommitEvent, token: Option<string>)
    requires event.authorizationRef == Some(a.authorizationId) && a.authorizationId != ""
    requires a.authorizationId in st.authorizations && st.authorizations[a.authorizationId] == a
    requires ValidAuthorization(s, a, event, Grounds(At(st.epochs, event.committedAt), Some(st.secret),
                                                     Some(UsesOf(st.uses, a.authorizationId) + 1), token))
    ensures Backed(s, Recorded(st.(uses := WithUse(st.uses, a.authorizationId)), event, token, true), Row(event, token))
  {
    var next := Recorded(st.(uses := WithUse(st.uses, a.authorizationId)), event, token, true);
    assert next.receipts[|st.receipts|] == ReceiptOf(event);
  }

  lemma RecordedKeepsKeys(rows: seq<Row>, row: Row)
    requires UniqueIds(rows) && UniqueKeys(rows) && Insertable(rows, row.event)
    ensures UniqueIds(rows + [row]) && UniqueKeys(rows + [row])
  {
    assert forall i :: 0 <= i < |rows| ==> rows[i] in rows;
  }

  lemma GuardedKeepsInv(s: Scheme, st: HostState, p: Payload, route: string)
    requires Inv(s, st) && route in DECLARED_ROUTES
    ensures Inv(s, GuardedStep(s, st, p, route).0)
  {
    var next := GuardedStep(s, st, p, route).0;
    GuardedEvolves(s, st, p, route);
    if p.Payload? {
      var event, auth := BuildEvent(s, st.epochs, p, route), ClaimedAuthorization(st, p);
      if KeySeen(st.rows, event.idempotencyKey)
        || !IsValid(ReportOn(s, auth, event, AdmissionGrounds(st, p))) || auth.None? {
        ArrivalKeepsRoutes(st, next, RefusedArrival(route, event.committedAt));
      } else {
        AdmissionIsBacked(s, st, p, route);
        if Insertable(st.rows, event) {
          RecordedKeepsKeys(st.rows, Row(event, p.token));
          ArrivalKeepsRoutes(st, next, CommittedArrival(event));
        } else {
          assert RoutesObserved(next);
        }
      }
      InvFromParts(s, st, next);
    }
  }

  lemma InvIgnoresTheQueue(s: Scheme, st: HostState, jobs: seq<Payload>, alive: bool)
    requires Inv(s, st)
    ensures Inv(s, st.(jobs := jobs, workerAlive := alive))
  {
    InvFromParts(s, st, st.(jobs := jobs, workerAlive := alive));
  }

  lemma WorkKeepsInv(s: Scheme, st: HostState)
    requires Inv(s, st) && st.workerAlive && st.jobs != []
    ensures Inv(s, WorkStep(s, st).0)
  {
    InvIgnoresTheQueue(s, st, st.jobs[1..], st.workerAlive);
    GuardedKeepsInv(s, st.(jobs := st.jobs[1..]), st.jobs[0], ROUTE_QUEUE_WORKER);
    var next := GuardedStep(s, st.(jobs := st.jobs[1..]), st.jobs[0], ROUTE_QUEUE_WORKER).0;
    InvIgnoresTheQueue(s, next, next.jobs, false);
  }

  lemma {:induction false} DrainKeepsInv(s: Scheme, st: HostState)
    requires Inv(s, st)
    ensures Inv(s, Drain(s, st).0)
    decreases |st.jobs|
  {
    if !st.workerAlive || st.jobs == [] {
    } else {
      WorkKeepsInv(s, st);
      var (next, reply) := WorkStep(s, st);
      if !reply.Raised? && next.jobs != [] {
        DrainKeepsInv(s, next);
      }
    }
  }

  lemma HiddenKeepsInv(s: Scheme, st: HostState, p: Payload, emit: bool)
    requires Inv(s, st)
    ensures Inv(s, HiddenStep(s, st, p, emit).0)
  {
    var next := HiddenStep(s, st, p, emit).0;
    StepEvolves(s, st, Batch(p, emit));
    if p.Payload? {
      var event := BuildEvent(s, st.epochs, p, ROUTE_HIDDEN_BATCH);
      if Insertable(st.rows, event) {
        RecordedKeepsKeys(st.rows, Row(event, p.token));
        ArrivalKeepsRoutes(st, next, CommittedArrival(event));
      } else if KeySeen(st.rows, event.idempotencyKey) {
        ArrivalKeepsRoutes(st, next, RefusedArrival(ROUTE_HIDDEN_BATCH, event.committedAt));
      }
      InvFromParts(s, st, next);
    }
  }

  lemma StepKeepsInv(s: Scheme, st: HostState, ev: Event)
    requires Inv(s, st) && Lawful(st, ev)
    ensures Inv(s, Step(s, st, ev))
  {
    match ev
    case Http(p) => GuardedKeepsInv(s, st, p, ROUTE_HTTP_GUARDED);
    case Async(p) =>
      InvIgnoresTheQueue(s, st, st.jobs + [p], st.workerAlive);
      DrainKeepsInv(s, st.(jobs := st.jobs + [p]));
    case Late(p) => InvIgnoresTheQueue(s, st, st.jobs + [p], st.workerAlive);
    case Work =>
      if st.workerAlive && st.jobs != [] {
        WorkKeepsInv(s, st);
      }
    case Batch(p, emit) => HiddenKeepsInv(s, st, p, emit);
    case Register(a) =>
      StepEvolves(s, st, ev);
      InvFromParts(s, st, Step(s, st, ev));
    case AddEpoch(e) =>
      StepEvolves(s, st, ev);
      StableSortSorts(st.epochs + [e]);
      InvFromParts(s, st, Step(s, st, ev));
  }

  /** Every lawful serial run keeps the invariant. */
  lemma {:induction false} RunKeepsInv(s: Scheme, st: HostState, events: seq<Event>)
    requires Inv(s, st) && LawfulRun(s, st, events)
    ensures Inv(s, Run(s, st, events))
  {
    if events == [] {
    } else {
      LawfulFront(s, st, events);
      RunKeepsInv(s, st, events[..|events| - 1]);
      StepKeepsInv(s, Run(s, st, events[..|events| - 1]), events[|events| - 1]);
    }
  }

  // ----- what the verifier finds on a host state -----

  lemma {:induction false} TokenOfRow(rows: seq<Row>, i: nat)
    requires i < |rows| && UniqueIds(rows)
    ensures Get(Tokens(rows), rows[i].event.commitId) == rows[i].token
  {
    var front, last := rows[..|rows| - 1], rows[|rows| - 1];
    if i < |front| {
      TokenOfRow(front, i);
    } else {
      TokensNameRows(front);
    }
  }

  lemma {:induction false} TokensNameRows(rows: seq<Row>)
    ensures forall id :: id in Tokens(rows) ==> IdSeen(rows, id)
  {
    if rows == [] {
    } else {
      TokensNameRows(rows[..|rows| - 1]);
      assert forall r :: r in rows[..|rows| - 1] ==> r in rows;
      assert rows[|rows| - 1] in rows;
    }
  }

  /** A row some witness saw, that names no record, or a registered one with a mismatching dimension. */
  ghost predicate Crossing(s: Scheme, st: HostState, row: Row) {
    && Witnessed(st, row)
    && (row.event.authorizationRef.None?
        || (Registered(st, row) && SomeMismatch(s, RecordOf(st, row), row.event, RowGrounds(st, row))))
  }

  lemma FindingOnHost(s: Scheme, st: HostState, row: Row)
    requires UniqueIds(st.rows) && row in st.rows
    ensures AdjudicateCommit(s, row.event, EvidenceOf(st)).disposition ==
      if Crossing(s, st, row) then BoundaryFailure else if Backed(s, st, row) then NoCounterexample else Unknown
  {
    var e := EvidenceOf(st);
    FindingMeans(s, row.event, e);
    var i :| 0 <= i < |st.rows| && st.rows[i] == row;
    TokenOfRow(st.rows, i);
    assert e.Witnessed(row.event.commitId) <==> Witnessed(st, row);
    if Registered(st, row) {
      assert e.GroundsFor(row.event, row.event.authorizationRef.value) == RowGrounds(st, row);
    }
  }

  lemma CommitFoundOnHost(s: Scheme, st: HostState, d: Disposition)
    requires UniqueIds(st.rows)
    ensures SomeCommitFound(s, EvidenceOf(st), d) <==>
      exists row :: row in st.rows && st.sink.Protects(row.event) &&
        AdjudicateCommit(s, row.event, EvidenceOf(st)).disposition == d
  {
    var e := EvidenceOf(st);
    forall c | c in e.commits ensures exists row :: row in st.rows && row.event == c {
      var i :| 0 <= i < |e.commits| && e.commits[i] == c;
      assert st.rows[i].event == c;
    }
    forall row | row in st.rows ensures row.event in e.commits {
      var i :| 0 <= i < |st.rows| && st.rows[i] == row;
      assert e.commits[i] == row.event;
    }
  }

  /** Guarded rows are found clean, by the verifier, at every later moment of every lawful run. */
  lemma GuardedRowsAreClean(s: Scheme, st: HostState, events: seq<Event>, row: Row)
    requires Initial(st) && LawfulRun(s, st, events)
    requires var end := Run(s, st, events); row in end.rows && !IsHidden(row)
    ensures var end := Run(s, st, events);
      AdjudicateCommit(s, row.event, EvidenceOf(end)).disposition == NoCounterexample
  {
    RunKeepsInv(s, st, events);
    var end := Run(s, st, events);
    FindingOnHost(s, end, row);
    assert Backed(s, end, row);
  }

  /** Why fresh ids: registering `b` under an id that a clean row refers to leaves the row clean exactly when `b` is
      the record already there, and turns it into a failure otherwise. */
  lemma ReusedIdKeepsRowIff(s: Scheme, st: HostState, row: Row, b: Authorization)
    requires s.CollisionFree() && UniqueIds(st.rows) && row in st.rows && Backed(s, st, row)
    requires row.event.authorizationRef == Some(b.authorizationId)
    ensures var next := Step(s, st, Register(b));
      AdjudicateCommit(s, row.event, EvidenceOf(next)).disposition ==
        if b == RecordOf(st, row) then NoCounterexample else BoundaryFailure
  {
    var a, next := RecordOf(st, row), Step(s, st, Register(b));
    FindingOnHost(s, next, row);
    assert Witnessed(next, row) && RowGrounds(next, row) == RowGrounds(st, row);
    ValidTokenIsDigest(s, a, row.event, RowGrounds(st, row));
    if b != a {
      OtherRecordMismatches(s, b, row.event, RowGrounds(next, row));
    }
  }

  ghost predicate HiddenProtected(st: HostState, row: Row) {
    row in st.rows && IsHidden(row) && st.sink.Protects(row.event)
  }

  /** The verdict of every lawful run, decided by its hidden rows and hidden arrivals alone. */
  lemma VerdictIsDecidedByHiddenRows(s: Scheme, st: HostState, events: seq<Event>)
    requires Initial(st) && LawfulRun(s, st, events)
    ensures var end := Run(s, st, events);
      VerdictOf(s, end).disposition ==
        if exists row :: HiddenProtected(end, row) && Crossing(s, end, row) then BoundaryFailure
        else if exists row :: HiddenProtected(end, row) && !Backed(s, end, row) then Unknown
        else if ROUTE_HIDDEN_BATCH in ObservedRoutes(end.arrivals) then IntegrationFailure
        else NoCounterexample
  {
    RunKeepsInv(s, st, events);
    VerdictOnHost(s, Run(s, st, events));
  }

  lemma VerdictOnHost(s: Scheme, st: HostState)
    requires Inv(s, st)
    ensures VerdictOf(s, st).disposition ==
      if exists row :: HiddenProtected(st, row) && Crossing(s, st, row) then BoundaryFailure
      else if exists row :: HiddenProtected(st, row) && !Backed(s, st, row) then Unknown
      else if ROUTE_HIDDEN_BATCH in ObservedRoutes(st.arrivals) then IntegrationFailure
      else NoCounterexample
  {
    VerdictMeans(s, EvidenceOf(st));
    CrossingsAreHiddenRows(s, st);
    UnknownsAreHiddenRows(s, st);
    DeclaredRoutesAreNotHidden();
    assert EvidenceOf(st).reconciliation.value.UnknownObserved() ==
      if ROUTE_HIDDEN_BATCH in ObservedRoutes(st.arrivals) then {ROUTE_HIDDEN_BATCH} else {};
  }

  lemma CrossingsAreHiddenRows(s: Scheme, st: HostState)
    requires Inv(s, st)
    ensures SomeCommitFound(s, EvidenceOf(st), BoundaryFailure) <==>
      exists row :: HiddenProtected(st, row) && Crossing(s, st, row)
  {
    CommitFoundOnHost(s, st, BoundaryFailure);
    forall row | row in st.rows { FindingOnHost(s, st, row); }
  }

  lemma UnknownsAreHiddenRows(s: Scheme, st: HostState)
    requires Inv(s, st)
    ensures SomeCommitFound(s, EvidenceOf(st), Unknown) <==>
      exists row :: HiddenProtected(st, row) && !Crossing(s, st, row) && !Backed(s, st, row)
  {
    CommitFoundOnHost(s, st, Unknown);
    forall row | row in st.rows { FindingOnHost(s, st, row); }
  }

  /** Without hidden calls the run always ends without a counterexample. */
  lemma GuardedOnlyRunsAreClean(s: Scheme, st: HostState, events: seq<Event>)
    requires Initial(st) && LawfulRun(s, st, events)
    requires forall ev :: ev in events ==> !ev.Batch?
    ensures VerdictOf(s, Run(s, st, events)).disposition == NoCounterexample
  {
    RunKeepsInv(s, st, events);
    NoHiddenArrivals(s, st, events);
    VerdictOnHost(s, Run(s, st, events));
  }

  ghost predicate Unhidden(st: HostState) {
    forall a :: a in st.arrivals ==> a.routeId != ROUTE_HIDDEN_BATCH
  }

  lemma GuardedKeepsUnhidden(s: Scheme, st: HostState, p: Payload, route: string)
    requires Unhidden(st) && route in DECLARED_ROUTES
    ensures Unhidden(GuardedStep(s, st, p, route).0)
  {
    DeclaredRoutesAreNotHidden();
  }

  lemma WorkKeepsUnhidden(s: Scheme, st: HostState)
    requires Unhidden(st) && st.workerAlive && st.jobs != []
    ensures Unhidden(WorkStep(s, st).0)
  {
    GuardedKeepsUnhidden(s, st.(jobs := st.jobs[1..]), st.jobs[0], ROUTE_QUEUE_WORKER);
  }

  lemma {:induction false} DrainKeepsUnhidden(s: Scheme, st: HostState)
    requires Unhidden(st)
    ensures Unhidden(Drain(s, st).0)
    decreases |st.jobs|
  {
    if !st.workerAlive || st.jobs == [] {
    } else {
      WorkKeepsUnhidden(s, st);
      var (next, reply) := WorkStep(s, st);
      if !reply.Raised? && next.jobs != [] {
        DrainKeepsUnhidden(s, next);
      }
    }
  }

  lemma {:induction false} NoHiddenArrivals(s: Scheme, st: HostState, events: seq<Event>)
    requires Unhidden(st) && forall ev :: ev in events ==> !ev.Batch?
    ensures Unhidden(Run(s, st, events))
  {
    if events == [] {
    } else {
      var front, last := events[..|events| - 1], events[|events| - 1];
      NoHiddenArrivals(s, st, front);
      var mid := Run(s, st, front);
      match last
      case Http(p) => GuardedKeepsUnhidden(s, mid, p, ROUTE_HTTP_GUARDED);
      case Async(p) => DrainKeepsUnhidden(s, mid.(jobs := mid.jobs + [p]));
      case Work =>
        if mid.workerAlive && mid.jobs != [] {
          WorkKeepsUnhidden(s, mid);
        }
      case _ =>
    }
  }

  // ----- failure is absorbing -----

  lemma CrossingPersists(s: Scheme, st: HostState, next: HostState, row: Row)
    requires Evolves(st, next) && row in st.rows && Crossing(s, st, row)
    ensures Crossing(s, next, row)
  {
    RowsStay(st, next, row);
    if row.event.authorizationRef.Some? {
      var a, c, g, h := RecordOf(st, row), row.event, RowGrounds(st, row), RowGrounds(next, row);
      var d :| OutcomeOf(s, d, a, c, g).Mismatch?;
      UsesMatterOnlyToUseCount(s, a, c, g, h.uses);
      assert h == g.(uses := h.uses);
      assert OutcomeOf(s, d, a, c, h).Mismatch?;
    }
  }

  /** Once the verdict is a failure, no lawful event makes it anything else. */
  lemma FailureIsAbsorbing(s: Scheme, st: HostState, ev: Event)
    requires Inv(s, st) && Lawful(st, ev)
    requires VerdictOf(s, st).disposition == BoundaryFailure
    ensures VerdictOf(s, Step(s, st, ev)).disposition == BoundaryFailure
  {
    VerdictOnHost(s, st);
    var row :| HiddenProtected(st, row) && Crossing(s, st, row);
    StepEvolves(s, st, ev);
    StepKeepsInv(s, st, ev);
    var next := Step(s, st, ev);
    RowsStay(st, next, row);
    CrossingPersists(s, st, next, row);
    VerdictOnHost(s, next);
    assert HiddenProtected(next, row);
  }

  lemma {:induction false} FailureIsForever(s: Scheme, st: HostState, events: seq<Event>)
    requires Inv(s, st) && LawfulRun(s, st, events)
    requires VerdictOf(s, st).disposition == BoundaryFailure
    ensures VerdictOf(s, Run(s, st, events)).disposition == BoundaryFailure
  {
    if events == [] {
    } else {
      var front := events[..|events| - 1];
      LawfulFront(s, st, events);
      FailureIsForever(s, st, front);
      RunKeepsInv(s, st, front);
      FailureIsAbsorbing(s, Run(s, st, front), events[|events| - 1]);
    }
  }

  // ----- replay without use counters -----

  /** The same two stores, records and epochs, with every use counter back at zero and a fresh worker. */
  function Reopened(st: HostState): HostState {
    st.(uses := map[], workerAlive := true, jobs := [])
  }

  lemma ReopenedRowsReadTheSame(s: Scheme, st: HostState, row: Row)
    requires UsesWithinLimits(st)
    ensures Crossing(s, Reopened(st), row) == Crossing(s, st, row)
    ensures Backed(s, Reopened(st), row) == Backed(s, st, row)
  {
    assert Witnessed(Reopened(st), row) == Witnessed(st, row);
    if Registered(st, row) {
      var a, c, g, h := RecordOf(st, row), row.event, RowGrounds(st, row), RowGrounds(Reopened(st), row);
      UsesMatterOnlyToUseCount(s, a, c, g, h.uses);
      assert h == g.(uses := h.uses);
      assert OutcomeOf(s, UseCount, a, c, g) == OutcomeOf(s, UseCount, a, c, h);
      assert forall d :: OutcomeOf(s, d, a, c, g) == OutcomeOf(s, d, a, c, h);
    }
  }

  lemma ReopenedKeepsInv(s: Scheme, st: HostState)
    requires Inv(s, st)
    ensures Inv(s, Reopened(st))
  {
    forall row | row in st.rows && !IsHidden(row) ensures Backed(s, Reopened(st), row) {
      ReopenedRowsReadTheSame(s, st, row);
    }
  }

  /** Replay from the preserved stores gives the disposition the live host gave. */
  lemma ReplayReachesTheSameVerdict(s: Scheme, st: HostState, events: seq<Event>)
    requires Initial(st) && LawfulRun(s, st, events)
    ensures VerdictOf(s, Reopened(Run(s, st, events))).disposition == VerdictOf(s, Run(s, st, events)).disposition
  {
    RunKeepsInv(s, st, events);
    ReopenedReachesTheSameVerdict(s, Run(s, st, events));
  }

  lemma ReopenedReachesTheSameVerdict(s: Scheme, st: HostState)
    requires Inv(s, st)
    ensures VerdictOf(s, Reopened(st)).disposition == VerdictOf(s, st).disposition
  {
    ReopenedKeepsInv(s, st);
    VerdictOnHost(s, st);
    VerdictOnHost(s, Reopened(st));
    forall row {
      ReopenedRowsReadTheSame(s, st, row);
    }
    forall row ensures HiddenProtected(Reopened(st), row) == HiddenProtected(st, row) {}
  }

  // ----- the use bound -----

  /** Guarded rows that refer to `id`. */
  function GuardedRowsFor(rows: seq<Row>, id: string): nat {
    if rows == [] then 0
    else
      var last := rows[|rows| - 1];
      GuardedRowsFor(rows[..|rows| - 1], id)
      + if !IsHidden(last) && last.event.authorizationRef == Some(id) then 1 else 0
  }

  ghost predicate RowsWithinUses(st: HostState) {
    forall id :: GuardedRowsFor(st.rows, id) <= UsesOf(st.uses, id)
  }

  lemma AppendedRowCounts(rows: seq<Row>, row: Row, id: string)
    ensures GuardedRowsFor(rows + [row], id) ==
      GuardedRowsFor(rows, id) + if !IsHidden(row) && row.event.authorizationRef == Some(id) then 1 else 0
  {
    assert (rows + [row])[..|rows|] == rows;
  }

  lemma GuardedKeepsRowsWithinUses(s: Scheme, st: HostState, p: Payload, route: string)
    requires RowsWithinUses(st) && FiledById(st.authorizations)
    ensures RowsWithinUses(GuardedStep(s, st, p, route).0)
  {
    if p.Payload? && ClaimedAuthorization(st, p).Some? {
      var event, a := BuildEvent(s, st.epochs, p, route), ClaimedAuthorization(st, p).value;
      assert event.authorizationRef == Some(a.authorizationId);
      AdmissionKeepsRowsWithinUses(st, a, event, p.token);
    }
  }

  lemma AdmissionKeepsRowsWithinUses(st: HostState, a: Authorization, event: CommitEvent, token: Option<string>)
    requires RowsWithinUses(st) && event.authorizationRef == Some(a.authorizationId)
    ensures RowsWithinUses(AdmitStep(st, a, event, token).0)
  {
    var next := AdmitStep(st, a, event, token).0;
    forall id ensures GuardedRowsFor(next.rows, id) <= UsesOf(next.uses, id) {
      AppendedRowCounts(st.rows, Row(event, token), id);
      assert GuardedRowsFor(st.rows, id) <= UsesOf(st.uses, id);
    }
  }

  lemma WorkKeepsRowsWithinUses(s: Scheme, st: HostState)
    requires RowsWithinUses(st) && FiledById(st.authorizations) && st.workerAlive && st.jobs != []
    ensures RowsWithinUses(WorkStep(s, st).0) && WorkStep(s, st).0.authorizations == st.authorizations
  {
    GuardedKeepsRowsWithinUses(s, st.(jobs := st.jobs[1..]), st.jobs[0], ROUTE_QUEUE_WORKER);
  }

  lemma {:induction false} DrainKeepsRowsWithinUses(s: Scheme, st: HostState)
    requires RowsWithinUses(st) && FiledById(st.authorizations)
    ensures RowsWithinUses(Drain(s, st).0)
    decreases |st.jobs|
  {
    if !st.workerAlive || st.jobs == [] {
    } else {
      WorkKeepsRowsWithinUses(s, st);
      var (next, reply) := WorkStep(s, st);
      if !reply.Raised? && next.jobs != [] {
        DrainKeepsRowsWithinUses(s, next);
      }
    }
  }

  lemma HiddenKeepsRowsWithinUses(s: Scheme, st: HostState, p: Payload, emit: bool)
    requires RowsWithinUses(st)
    ensures RowsWithinUses(HiddenStep(s, st, p, emit).0)
  {
    if p.Payload? {
      var row := Row(BuildEvent(s, st.epochs, p, ROUTE_HIDDEN_BATCH), p.token);
      forall id { AppendedRowCounts(st.rows, row, id); }
    }
  }

  lemma {:induction false} RunKeepsRowsWithinUses(s: Scheme, st: HostState, events: seq<Event>)
    requires Initial(st) && LawfulRun(s, st, events)
    ensures RowsWithinUses(Run(s, st, events))
  {
    if events == [] {
    } else {
      var front, last := events[..|events| - 1], events[|events| - 1];
      LawfulFront(s, st, events);
      RunKeepsRowsWithinUses(s, st, front);
      RunKeepsInv(s, st, front);
      var mid := Run(s, st, front);
      match last
      case Http(p) => GuardedKeepsRowsWithinUses(s, mid, p, ROUTE_HTTP_GUARDED);
      case Async(p) => DrainKeepsRowsWithinUses(s, mid.(jobs := mid.jobs + [p]));
      case Work =>
        if mid.workerAlive && mid.jobs != [] {
          WorkKeepsRowsWithinUses(s, mid);
        }
      case Batch(p, emit) => HiddenKeepsRowsWithinUses(s, mid, p, emit);
      case _ =>
    }
  }

  /** In serial runs a record never backs more guarded rows than it allows uses, whatever its idempotency key. */
  lemma GuardedRowsWithinMaxUses(s: Scheme, st: HostState, events: seq<Event>, id: string)
    requires Initial(st) && LawfulRun(s, st, events)
    requires var end := Run(s, st, events); id in end.authorizations && GuardedRowsFor(end.rows, id) > 0
    ensures var end := Run(s, st, events);
      GuardedRowsFor(end.rows, id) <= UsesOf(end.uses, id) <= end.authorizations[id].maxUses
  {
    RunKeepsInv(s, st, events);
    RunKeepsRowsWithinUses(s, st, events);
  }
}
