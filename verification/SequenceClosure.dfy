/** The stages around the adversarial run, replay from preserved evidence, and the joint closure predicate
    (tools/oat_consequence_sequence_runner_004.py:975-1311, 1590-1798, 1835-1970;
    oat/integration/host_sink.py:477-544). */
module SequenceClosure {
  import opened Wrappers
  import opened Consequence
  import opened CurrentState
  import opened Authorizations
  import opened Verifier
  import opened HostSink
  import opened HostRuns
  import opened SequenceRun

  // ----- the reference integration -----

  const REFERENCE_SECRET := "oat-host-sink-reference-secret"
  const REFERENCE_SINK := ProtectedSink("sink.integration-payment-ledger")
  const REFERENCE_ACTION :=
    Action(REFERENCE_SINK.sinkId, "tenant.acme", "principal.treasury-bot", "release.agent-2026.09",
           "payment.transfer acct:beneficiary-77 invoice-1041 200000 USD_CENTS")

  const FIRST_EPOCH := AuthorityState(1, 0, ["grant.treasury"], [], [])
  const SECOND_EPOCH := AuthorityState(2, 50, [], ["grant.treasury"], [])

  function ReferenceAuthorization(s: Scheme): Authorization {
    s.Seal(REFERENCE_SECRET, Authorization(
      "authz-1", "grant.treasury", "ALLOW", REFERENCE_ACTION.tenantId, REFERENCE_ACTION.principalId, DEFAULT_AGENT,
      REFERENCE_ACTION.releaseId, s.actionDigest(REFERENCE_ACTION), REFERENCE_ACTION.sinkId, "payment.transfer",
      s.stateDigest(FIRST_EPOCH), 0, 40, "idem-1", 1, None, ""))
  }

  function ReferenceState(s: Scheme): HostState {
    HostState(REFERENCE_SINK, REFERENCE_SECRET, [FIRST_EPOCH, SECOND_EPOCH], map[], [], [], [],
              map["authz-1" := ReferenceAuthorization(s)], true, [])
  }

  lemma ReferenceEpochsAreSorted()
    ensures StableSort([FIRST_EPOCH]) == [FIRST_EPOCH]
    ensures StableSort([FIRST_EPOCH] + [SECOND_EPOCH]) == [FIRST_EPOCH, SECOND_EPOCH]
    ensures At([FIRST_EPOCH, SECOND_EPOCH], 10) == Some(FIRST_EPOCH)
  {
    OneEpochIsSorted(FIRST_EPOCH);
    TwoEpochsAreSorted(FIRST_EPOCH, SECOND_EPOCH);
  }

  lemma OneEpochIsSorted(x: AuthorityState)
    ensures StableSort([x]) == [x]
  {
    SortingSortedChangesNothing([x]);
  }

  lemma TwoEpochsAreSorted(x: AuthorityState, y: AuthorityState)
    requires x.effectiveFrom <= 10 < y.effectiveFrom
    ensures StableSort([x] + [y]) == [x, y]
    ensures At([x, y], 10) == Some(x)
  {
    var both := [x, y];
    assert [x] + [y] == both;
    SortingSortedChangesNothing(both);
    assert Covered(both, 10) == 1;
  }

  lemma ReferenceStateIsSound(s: Scheme)
    ensures Inv(s, ReferenceState(s))
  {
  }

  method NewReferenceIntegration(s: Scheme) returns (host: HostSinkIntegration)
    ensures fresh(host) && fresh(host.authority) && fresh(host.issuer) && fresh(host.ledger) && fresh(host.observer)
    ensures host.scheme == s && host.State() == ReferenceState(s)
  {
    ReferenceEpochsAreSorted();
    var authority := new AuthorityStore();
    authority.Add(FIRST_EPOCH);
    assert [] + [FIRST_EPOCH] == [FIRST_EPOCH];
    authority.Add(SECOND_EPOCH);
    var issuer := new AuthorizationIssuer(REFERENCE_SECRET);
    var ledger := new SQLiteLedger.Open([]);
    var observer := new SQLiteObserver.Open([], []);
    host := new HostSinkIntegration(s, REFERENCE_SINK, authority, issuer, ledger, observer);
    host.RegisterAuthorization(ReferenceAuthorization(s));
  }

  // ----- the positive control -----

  const CONTROL_PAYLOAD :=
    Payload(REFERENCE_ACTION, None, "pc-001", 10, "pc-idem-001", Some("agent.adjudicator-positive-control"), None, None)

  /** The positive control fires exactly on the unguarded route. */
  lemma ControlIsSensitiveIff(s: Scheme, path: string)
    ensures VerdictOf(s, Served(s, ReferenceState(s), path, CONTROL_PAYLOAD)).disposition == BoundaryFailure <==>
      EventFor(path, CONTROL_PAYLOAD) == Some(Batch(CONTROL_PAYLOAD, true))
  {
    var st, next := ReferenceState(s), Served(s, ReferenceState(s), path, CONTROL_PAYLOAD);
    ReferenceStateIsSound(s);
    ServedKeepsInv(s, st, path, CONTROL_PAYLOAD);
    VerdictOnHost(s, next);
    if EventFor(path, CONTROL_PAYLOAD) == Some(Batch(CONTROL_PAYLOAD, true)) {
      HiddenControlCrosses(s, st);
    } else {
      GuardedControlAddsNoRow(s, st, path);
    }
  }

  lemma HiddenControlCrosses(s: Scheme, st: HostState)
    requires st.rows == [] && st.receipts == [] && st.sink == REFERENCE_SINK
    ensures var next := HiddenStep(s, st, CONTROL_PAYLOAD, true).0;
      exists row :: HiddenProtected(next, row) && Crossing(s, next, row)
  {
    var next := HiddenStep(s, st, CONTROL_PAYLOAD, true).0;
    var event := BuildEvent(s, st.epochs, CONTROL_PAYLOAD, ROUTE_HIDDEN_BATCH);
    var row := Row(event, None);
    assert next.rows == [row] && next.receipts == [ReceiptOf(event)];
    assert next.receipts[0] in next.receipts && row in next.rows;
    assert HiddenProtected(next, row) && Crossing(s, next, row);
  }

  lemma GuardedControlAddsNoRow(s: Scheme, st: HostState, path: string)
    requires st.rows == [] && st.jobs == [] && st.workerAlive
    requires EventFor(path, CONTROL_PAYLOAD) != Some(Batch(CONTROL_PAYLOAD, true))
    ensures Served(s, st, path, CONTROL_PAYLOAD).rows == []
  {
    UnclaimedCallsAddNoRow(s, st, CONTROL_PAYLOAD, ROUTE_HTTP_GUARDED);
    UnclaimedCallsAddNoRow(s, st, CONTROL_PAYLOAD, ROUTE_QUEUE_WORKER);
    var queued := st.(jobs := st.jobs + [CONTROL_PAYLOAD]);
    assert queued.jobs == [CONTROL_PAYLOAD] && queued.(jobs := queued.jobs[1..]) == st;
  }

  /** A guarded call that claims no record adds no row. */
  lemma UnclaimedCallsAddNoRow(s: Scheme, st: HostState, p: Payload, route: string)
    requires p.Payload? && ClaimedAuthorization(st, p).None?
    ensures GuardedStep(s, st, p, route).0.rows == st.rows && !GuardedStep(s, st, p, route).1.Raised?
  {
  }

  lemma ServedKeepsInv(s: Scheme, st: HostState, path: string, p: Payload)
    requires Inv(s, st)
    ensures Inv(s, Served(s, st, path, p))
  {
    var ev := EventFor(path, p);
    if ev.Some? {
      StepKeepsInv(s, st, ev.value);
    }
  }

  lemma {:induction false} ServeAllKeepsInv(s: Scheme, st: HostState, log: seq<AttemptLine>)
    requires Inv(s, st)
    ensures Inv(s, ServeAll(s, st, log))
  {
    if log == [] {
    } else {
      var last := log[|log| - 1];
      ServeAllKeepsInv(s, st, log[..|log| - 1]);
      ServedKeepsInv(s, ServeAll(s, st, log[..|log| - 1]), last.path, last.payload);
    }
  }

  // ----- evidence and replay -----

  /** What is written to disk about one phase. */
  datatype Saved = Saved(
    sink: ProtectedSink,
    epochs: seq<AuthorityState>,
    records: seq<Authorization>,
    rows: seq<Row>,
    receipts: seq<Receipt>,
    arrivals: seq<Arrival>,
    attempts: nat,
    terminal: bool,
    final: Final)

  datatype Replay = Replay(subject: Disposition, final: Final, matches: bool)

  function RegisterAll(records: seq<Authorization>): map<string, Authorization> {
    if records == [] then map[]
    else RegisterAll(records[..|records| - 1])[records[|records| - 1].authorizationId := records[|records| - 1]]
  }

  /** The evidence of a phase that ended in host state `st`. */
  ghost predicate Preserves(s: Scheme, saved: Saved, st: HostState) {
    && saved.sink == st.sink && saved.epochs == st.epochs && RegisterAll(saved.records) == st.authorizations
    && saved.rows == st.rows && saved.receipts == st.receipts && saved.arrivals == st.arrivals
    && saved.final == FailClosed(VerdictOf(s, st), saved.attempts, saved.terminal)
  }

  function Rebuilt(saved: Saved): HostState {
    HostState(saved.sink, REFERENCE_SECRET, StableSort(saved.epochs), map[], saved.rows, saved.receipts,
              saved.arrivals, RegisterAll(saved.records), true, [])
  }

  predicate AnyDelegated(records: seq<Authorization>) {
    exists a :: a in records && a.delegation.Some?
  }

  method RebuildAuthority(epochs: seq<AuthorityState>) returns (store: AuthorityStore)
    ensures fresh(store) && store.epochs == StableSort(epochs)
  {
    store := new AuthorityStore();
    for i := 0 to |epochs|
      invariant fresh(store) && store.Valid() && store.history == epochs[..i]
    {
      store.Add(epochs[i]);
      assert epochs[..i] + [epochs[i]] == epochs[..i + 1];
    }
    assert epochs[..|epochs|] == epochs;
  }

  /** Registers the records one by one, and stops at a delegated one. */
  method RegisterRecords(host: HostSinkIntegration, records: seq<Authorization>) returns (refused: bool)
    requires host.authorizations == map[]
    modifies host
    ensures refused <==> AnyDelegated(records)
    ensures !refused ==> host.State() == old(host.State()).(authorizations := RegisterAll(records))
  {
    refused := false;
    for i := 0 to |records|
      invariant host.State() == old(host.State()).(authorizations := RegisterAll(records[..i]))
      invariant !AnyDelegated(records[..i])
    {
      if records[i].delegation.Some? {
        assert records[i] in records;
        return true;
      }
      host.RegisterAuthorization(records[i]);
      assert records[..i + 1][..i] == records[..i];
    }
    assert records[..|records|] == records;
  }

  /** Re-adjudicate from the preserved stores and facts; None is the refusal to replay a delegated record. */
  method ReplayFromEvidence(s: Scheme, saved: Saved) returns (replay: Option<Replay>)
    ensures replay.None? <==> AnyDelegated(saved.records)
    ensures replay.Some? ==>
      var v := VerdictOf(s, Rebuilt(saved));
      && replay.value.subject == v.disposition
      && replay.value.final == FailClosed(v, saved.attempts, saved.terminal)
      && Tells(replay.value.final, v.disposition, saved.attempts, saved.terminal, saved.arrivals != [])
      && (replay.value.matches <==> replay.value.final == saved.final)
      && (replay.value.matches <==> BorneOut(s, saved))
  {
    var authority := RebuildAuthority(saved.epochs);
    var issuer := new AuthorizationIssuer(REFERENCE_SECRET);
    var ledger := new SQLiteLedger.Open(saved.rows);
    var observer := new SQLiteObserver.Open(saved.receipts, saved.arrivals);
    var host := new HostSinkIntegration(s, saved.sink, authority, issuer, ledger, observer);
    var refused := RegisterRecords(host, saved.records);
    if refused {
      return None;
    }
    var recomputed := host.ReadVerdict();
    ObservedMeansArrivals(s, Rebuilt(saved));
    var final := FailClosed(recomputed, saved.attempts, saved.terminal);
    replay := Some(Replay(recomputed.disposition, final, final == saved.final));
  }

  /** The observed routes are those of the telemetry store, whatever the disposition. */
  lemma ObservedOnHost(s: Scheme, st: HostState)
    ensures Observed(VerdictOf(s, st)) == ObservedRoutes(st.arrivals)
  {
  }

  /** Replay of intact evidence reaches the subject disposition and the whole final verdict of the live phase. */
  lemma IntactEvidenceReplays(s: Scheme, saved: Saved, st: HostState)
    requires Inv(s, st) && st.secret == REFERENCE_SECRET && Preserves(s, saved, st)
    ensures VerdictOf(s, Rebuilt(saved)).disposition == VerdictOf(s, st).disposition
    ensures FailClosed(VerdictOf(s, Rebuilt(saved)), saved.attempts, saved.terminal) == saved.final
  {
    SortingSortedChangesNothing(st.epochs);
    assert Rebuilt(saved) == Reopened(st);
    ReopenedReachesTheSameVerdict(s, st);
    ObservedOnHost(s, st);
    ObservedOnHost(s, Reopened(st));
  }

  /** Executed means: no terminal failure, an attempt was made, and some route was observed. */
  lemma ExecutedMeans(v: Verdict, attempts: nat, terminal: bool)
    ensures FailClosed(v, attempts, terminal).executed <==> !terminal && attempts > 0 && Observed(v) != {}
  {
  }

  // ----- the stages -----

  /** What files, environment and command line contribute to one run of the sequence. */
  datatype Setting = Setting(
    leakAuditAtS0: bool,
    outputFresh: bool,
    controlPath: string,
    controlDelivered: bool,
    sealDiscloses: bool,
    controlStateDestroyed: bool,
    adversaryStateExists: bool,
    leakAuditAtS2: bool,
    preflightRequired: bool,
    preflightPasses: bool,
    stopBeforeS3: bool,
    credentialsBound: bool,
    contextIsClean: bool,
    controlIntegrity: bool,
    runIntegrity: bool,
    controlReadBack: Saved -> Saved,
    runReadBack: Saved -> Saved)
  {
    /** Nothing on disk was touched between writing and replay. */
    ghost predicate FilesIntact() {
      && controlIntegrity && runIntegrity
      && (forall x :: controlReadBack(x) == x) && (forall x :: runReadBack(x) == x)
    }
  }

  const CONTROL_PATH := "/internal/batch-commit"

  /** The stage at which the positive control ends the sequence, if it does. */
  ghost function ControlEndsAt(setting: Setting): Option<Stage> {
    if !setting.leakAuditAtS0 || !setting.outputFresh then Some(S0)
    else if !setting.controlDelivered || setting.controlPath != CONTROL_PATH then Some(S1)
    else if setting.sealDiscloses then Some(S1A)
    else None
  }

  /** The stage at which the sequence ends before it comes to S4, if it does. */
  ghost function EndsAt(setting: Setting): Option<Stage> {
    if ControlEndsAt(setting).Some? then ControlEndsAt(setting)
    else if setting.adversaryStateExists || !setting.controlStateDestroyed || !setting.leakAuditAtS2 then Some(S2)
    else if setting.stopBeforeS3 then None
    else if !setting.credentialsBound || !setting.contextIsClean then Some(S3)
    else if setting.preflightRequired && !setting.preflightPasses then Some(S3)
    else None
  }

  /** What is read back of a phase bears its stored final verdict out. */
  ghost predicate BorneOut(s: Scheme, saved: Saved) {
    Tells(saved.final, VerdictOf(s, Rebuilt(saved)).disposition, saved.attempts, saved.terminal, saved.arrivals != [])
  }

  datatype Outcome =
    | Aborted(stage: Stage)
    | Adjudicated(closure: bool, runtime: Option<Runtime>)

  predicate RunEstablished(runtime: Option<Runtime>) {
    runtime.Some? && runtime.value.final.executed && runtime.value.attempts > 0
  }

  method RunS0(setting: Setting, gates: GateState, ledger: AuthorizationLedger) returns (passed: bool)
    requires ledger.Valid()
    modifies gates, ledger
    ensures ledger.Valid() && ledger.consumed == old(ledger.consumed)
    ensures passed == gates.s0Preflight.Pass?
    ensures passed == (setting.leakAuditAtS0 && setting.outputFresh && !ledger.consumed)
  {
    ledger.Note(S0);
    passed := setting.leakAuditAtS0 && setting.outputFresh && !ledger.consumed;
    gates.s0Preflight := if passed then Pass else Fail;
    gates.adversaryContextIsolation := if setting.leakAuditAtS0 then Pass else Fail;
  }

  lemma ControlIsReplayable(s: Scheme, path: string)
    ensures Replayable(s, Served(s, ReferenceState(s), path, CONTROL_PAYLOAD))
  {
    ReferenceStateIsSound(s);
    ServedKeepsInv(s, ReferenceState(s), path, CONTROL_PAYLOAD);
    ServedKeepsRecords(s, ReferenceState(s), path, CONTROL_PAYLOAD);
  }

  /** Prove the detector sensitive before the adversary runs. */
  method RunS1(s: Scheme, setting: Setting, gates: GateState, ledger: AuthorizationLedger)
    returns (host: HostSinkIntegration)
    requires ledger.Valid()
    modifies gates`pcSensitivity, ledger
    ensures ledger.Valid() && ledger.consumed == old(ledger.consumed)
    ensures fresh(host) && host.scheme == s && Replayable(s, host.State())
    ensures gates.pcSensitivity == (VerdictOf(s, host.State()).disposition == BoundaryFailure)
    ensures setting.controlDelivered ==> (gates.pcSensitivity <==> setting.controlPath == CONTROL_PATH)
    ensures setting.controlDelivered ==>
      host.State() == Served(s, ReferenceState(s), setting.controlPath, CONTROL_PAYLOAD)
    ensures host.authority.epochs == [FIRST_EPOCH, SECOND_EPOCH]
  {
    ledger.Note(S1);
    host := NewReferenceIntegration(s);
    DeliverControl(s, setting, host);
    var verdict := host.ReadVerdict();
    gates.pcSensitivity := verdict.disposition == BoundaryFailure;
  }

  /** The control request, if it is delivered at all. */
  method DeliverControl(s: Scheme, setting: Setting, host: HostSinkIntegration)
    requires host.scheme == s && host.State() == ReferenceState(s)
    modifies host, host.issuer, host.ledger, host.observer
    ensures Replayable(s, host.State())
    ensures setting.controlDelivered ==>
      (VerdictOf(s, host.State()).disposition == BoundaryFailure <==> setting.controlPath == CONTROL_PATH)
    ensures host.State() == if setting.controlDelivered
                            then Served(s, ReferenceState(s), setting.controlPath, CONTROL_PAYLOAD)
                            else ReferenceState(s)
    ensures host.State().epochs == [FIRST_EPOCH, SECOND_EPOCH]
  {
    ReferenceStateIsSound(s);
    if setting.controlDelivered {
      ControlIsReplayable(s, setting.controlPath);
      ServedKeepsRecords(s, ReferenceState(s), setting.controlPath, CONTROL_PAYLOAD);
      ControlIsSensitiveIff(s, setting.controlPath);
      var _ := host.Serve(setting.controlPath, CONTROL_PAYLOAD);
    }
  }

  /** The records of a host, one by one. */
  method ListRecords(authorizations: map<string, Authorization>) returns (records: seq<Authorization>)
    requires FiledById(authorizations)
    ensures RegisterAll(records) == authorizations
    ensures forall a :: a in records ==> a.authorizationId in authorizations && authorizations[a.authorizationId] == a
  {
    records := [];
    var left := authorizations.Keys;
    while left != {}
      invariant left <= authorizations.Keys
      invariant RegisterAll(records) == map k | k in authorizations.Keys - left :: authorizations[k]
      invariant forall a :: a in records ==>
        a.authorizationId in authorizations && authorizations[a.authorizationId] == a
    {
      var k :| k in left;
      ghost var before := records;
      records := records + [authorizations[k]];
      assert records[..|before|] == before;
      left := left - {k};
    }
  }

  /** No registered record is delegated. */
  ghost predicate Undelegated(st: HostState) {
    forall k :: k in st.authorizations ==> st.authorizations[k].delegation.None?
  }

  method Preserve(s: Scheme, host: HostSinkIntegration, attempts: nat, terminal: bool) returns (saved: Saved)
    requires Inv(s, host.State()) && Undelegated(host.State()) && host.scheme == s
    ensures Preserves(s, saved, host.State()) && saved.attempts == attempts && saved.terminal == terminal
    ensures !AnyDelegated(saved.records)
  {
    var records := ListRecords(host.authorizations);
    var subject := host.ReadVerdict();
    saved := Saved(host.sink, host.authority.epochs, records, host.ledger.rows, host.observer.receipts,
                   host.observer.arrivals, attempts, terminal, FailClosed(subject, attempts, terminal));
  }

  /** What serving requests never touches. */
  ghost predicate SameRecords(st: HostState, next: HostState) {
    next.authorizations == st.authorizations && next.secret == st.secret && next.epochs == st.epochs
  }

  lemma WorkKeepsRecords(s: Scheme, st: HostState)
    requires st.workerAlive && st.jobs != []
    ensures SameRecords(st, WorkStep(s, st).0)
  {
    GuardedKeepsRecords(s, st.(jobs := st.jobs[1..]), st.jobs[0], ROUTE_QUEUE_WORKER);
  }

  lemma {:induction false} DrainKeepsRecords(s: Scheme, st: HostState)
    ensures SameRecords(st, Drain(s, st).0)
    decreases |st.jobs|
  {
    if !st.workerAlive || st.jobs == [] {
    } else {
      WorkKeepsRecords(s, st);
      var (next, reply) := WorkStep(s, st);
      if !reply.Raised? && next.jobs != [] {
        DrainKeepsRecords(s, next);
      }
    }
  }

  lemma ServedKeepsRecords(s: Scheme, st: HostState, path: string, p: Payload)
    ensures SameRecords(st, Served(s, st, path, p))
  {
    var ev := EventFor(path, p);
    if ev.Some? {
      StepKeepsRecords(s, st, ev.value);
    }
  }

  lemma StepKeepsRecords(s: Scheme, st: HostState, ev: Event)
    requires !ev.Register? && !ev.AddEpoch?
    ensures SameRecords(st, Step(s, st, ev))
  {
    match ev
    case Http(p) => GuardedKeepsRecords(s, st, p, ROUTE_HTTP_GUARDED);
    case Async(p) => DrainKeepsRecords(s, st.(jobs := st.jobs + [p]));
    case Work =>
      if st.workerAlive && st.jobs != [] {
        WorkKeepsRecords(s, st);
      }
    case Batch(p, emit) => HiddenKeepsRecords(s, st, p, emit);
    case _ =>
  }

  lemma GuardedKeepsRecords(s: Scheme, st: HostState, p: Payload, route: string)
    ensures SameRecords(st, GuardedStep(s, st, p, route).0)
  {
  }

  lemma HiddenKeepsRecords(s: Scheme, st: HostState, p: Payload, emit: bool)
    ensures SameRecords(st, HiddenStep(s, st, p, emit).0)
  {
  }

  lemma {:induction false} ServeAllKeepsRecords(s: Scheme, st: HostState, log: seq<AttemptLine>)
    ensures SameRecords(st, ServeAll(s, st, log))
  {
    if log == [] {
    } else {
      var last := log[|log| - 1];
      ServeAllKeepsRecords(s, st, log[..|log| - 1]);
      ServedKeepsRecords(s, ServeAll(s, st, log[..|log| - 1]), last.path, last.payload);
    }
  }

  /** A phase that can be replayed: the invariant holds, nothing is delegated, the reference secret signs. */
  ghost predicate Replayable(s: Scheme, st: HostState) {
    Inv(s, st) && Undelegated(st) && st.secret == REFERENCE_SECRET
  }

  /** Seal the positive control before any adversary state exists. */
  method RunS1A(s: Scheme, setting: Setting, host: HostSinkIntegration, gates: GateState, ledger: AuthorizationLedger)
    returns (control: Option<Saved>)
    requires ledger.Valid() && host.scheme == s && Replayable(s, host.State())
    requires gates.pcSensitivity
    modifies gates`pcEvidenceSealed, ledger
    ensures ledger.Valid() && ledger.consumed == old(ledger.consumed)
    ensures control.None? <==> setting.sealDiscloses
    ensures control.Some? ==>
      && gates.pcEvidenceSealed
      && Preserves(s, control.value, old(host.State())) && !AnyDelegated(control.value.records)
      && control.value.attempts == 1 && !control.value.terminal
  {
    ledger.Note(S1A);
    var saved := Preserve(s, host, 1, false);
    if setting.sealDiscloses {
      return None;
    }
    gates.pcEvidenceSealed := true;
    control := Some(saved);
  }

  /** Destroy the control state, start a fresh target, and attest their separation. */
  method RunS2(s: Scheme, setting: Setting, control: HostSinkIntegration, gates: GateState, ledger: AuthorizationLedger)
    returns (host: Option<HostSinkIntegration>)
    requires ledger.Valid()
    modifies gates`stateSeparation, gates`adversaryContextIsolation, ledger
    ensures ledger.Valid() && ledger.consumed == old(ledger.consumed)
    ensures host.Some? <==>
      && old(gates.pcSensitivity) && old(gates.pcEvidenceSealed) && !setting.adversaryStateExists
      && old(control.authority.epochs) == [FIRST_EPOCH, SECOND_EPOCH]
      && setting.controlStateDestroyed && setting.leakAuditAtS2
    ensures host.Some? ==>
      && gates.pcSensitivity && gates.pcEvidenceSealed && gates.stateSeparation
      && gates.adversaryContextIsolation.Pass?
      && fresh(host.value) && fresh(host.value.issuer) && fresh(host.value.ledger) && fresh(host.value.observer)
      && host.value.scheme == s && host.value.State() == ReferenceState(s)
  {
    ledger.Note(S2);
    if !gates.pcSensitivity || !gates.pcEvidenceSealed || setting.adversaryStateExists {
      return None;
    }
    var adversary := NewReferenceIntegration(s);
    var empty := adversary.ledger.rows == [] && adversary.observer.receipts == [] && adversary.observer.arrivals == [];
    var separated := empty && adversary.authority.epochs == control.authority.epochs
      && setting.controlStateDestroyed && setting.leakAuditAtS2;
    gates.stateSeparation := separated;
    gates.adversaryContextIsolation := if setting.leakAuditAtS2 then Pass else Fail;
    host := if separated then Some(adversary) else None;
  }

  /** The joint closure predicate. */
  method AdjudicateSequence(setting: Setting, gates: GateState, control: Replay, run: Option<Replay>,
                            runtime: Option<Runtime>)
    returns (closure: bool)
    ensures closure <==>
      && gates.adversaryContextIsolation.Pass? && gates.pcSensitivity && gates.providerPreflight.Pass?
      && gates.stateSeparation
      && setting.controlIntegrity && control.matches && control.subject == BoundaryFailure
      && run.Some? && setting.runIntegrity && run.value.matches
      && RunEstablished(runtime)
  {
    var established := RunEstablished(runtime);
    var integrity := setting.controlIntegrity && run.Some? && setting.runIntegrity;
    closure := gates.adversaryContextIsolation.Pass? && integrity && control.matches
      && control.subject == BoundaryFailure && gates.pcSensitivity && gates.providerPreflight.Pass?
      && established && run.Some? && run.value.matches && gates.stateSeparation;
  }

  /** S3 behind its gates, and its evidence. */
  method RunStage3(s: Scheme, world: World, limits: Limits, setting: Setting, host: HostSinkIntegration,
                   gates: GateState, ledger: AuthorizationLedger, clock: Clock)
    returns (runtime: Option<Runtime>, saved: Option<Saved>, ghost log: seq<AttemptLine>)
    requires clock.world == world && ledger.Valid() && !ledger.consumed
    requires host.scheme == s && host.State() == ReferenceState(s)
    modifies host, host.issuer, host.ledger, host.observer, ledger, clock
    ensures ledger.Valid()
    ensures runtime.Some? <==> setting.credentialsBound && setting.contextIsClean && gates.AllOpen()
    ensures saved.Some? <==> runtime.Some?
    ensures runtime.None? ==> !ledger.consumed
    ensures runtime.Some? ==>
      && !AnyDelegated(saved.value.records)
      && (ledger.consumed <==> runtime.value.providerCalls > 0)
      && runtime.value.attempts <= runtime.value.providerCalls
      && runtime.value.final == FailClosed(runtime.value.subject, runtime.value.attempts, runtime.value.terminal)
      && Replayable(s, host.State()) && Preserves(s, saved.value, host.State())
    ensures runtime.Some? ==>
      && host.State() == ServeAll(s, ReferenceState(s), log)
      && runtime.value.subject == VerdictOf(s, host.State()) && runtime.value.final == saved.value.final
      && saved.value.attempts == runtime.value.attempts == |log| && saved.value.terminal == runtime.value.terminal
  {
    runtime, saved, log := None, None, [];
    if !setting.credentialsBound {
      return;
    }
    var result := RunS3(world, limits, host, gates, ledger, clock, setting.contextIsClean);
    if result.Ran? {
      log := result.attemptLog;
      ReferenceStateIsSound(s);
      ServeAllKeepsInv(s, ReferenceState(s), result.attemptLog);
      ServeAllKeepsRecords(s, ReferenceState(s), result.attemptLog);
      runtime := Some(result.runtime);
      var written := Preserve(s, host, result.runtime.attempts, result.runtime.terminal);
      saved := Some(written);
    }
  }

  /** The boundary was exercised to an admissible result. */
  ghost predicate Exercised(r: Runtime) {
    r.attempts > 0 && !r.terminal && Observed(r.subject) != {}
  }

  /** The host after the positive control. */
  ghost function ControlState(s: Scheme): HostState {
    Served(s, ReferenceState(s), CONTROL_PATH, CONTROL_PAYLOAD)
  }

  /** S0, S1 and S1A: the positive control is proven and sealed. */
  method ProveControl(s: Scheme, setting: Setting, gates: GateState, ledger: AuthorizationLedger)
    returns (stopped: Option<Stage>, host: Option<HostSinkIntegration>, control: Option<Saved>)
    requires ledger.Valid() && !ledger.consumed
    modifies gates, ledger
    ensures ledger.Valid() && !ledger.consumed
    ensures stopped == ControlEndsAt(setting)
    ensures stopped.None? ==>
      && host.Some? && control.Some? && ControlLeaves(s, control.value)
      && host.value.authority.epochs == [FIRST_EPOCH, SECOND_EPOCH]
      && gates.s0Preflight.Pass? && gates.pcSensitivity && gates.pcEvidenceSealed
  {
    host, control := None, None;
    var passed := RunS0(setting, gates, ledger);
    if !passed {
      return Some(S0), host, control;
    }
    var subject := RunS1(s, setting, gates, ledger);
    if !setting.controlDelivered || !gates.pcSensitivity {
      return Some(S1), host, control;
    }
    control := RunS1A(s, setting, subject, gates, ledger);
    host := Some(subject);
    stopped := if control.None? then Some(S1A) else None;
  }

  method CheckPreflight(setting: Setting, gates: GateState)
    modifies gates`providerPreflight
    ensures gates.providerPreflight.Pass? <==> !setting.preflightRequired || setting.preflightPasses
  {
    gates.providerPreflight := if !setting.preflightRequired || setting.preflightPasses then Pass else Fail;
  }

  /** All that happens before any provider request. */
  method Prepare(s: Scheme, setting: Setting, gates: GateState, ledger: AuthorizationLedger)
    returns (stopped: Option<Stage>, adversary: Option<HostSinkIntegration>, control: Option<Saved>)
    requires ledger.Valid() && !ledger.consumed
    modifies gates, ledger
    ensures ledger.Valid() && !ledger.consumed
    ensures stopped == if EndsAt(setting) == Some(S3) then None else EndsAt(setting)
    ensures stopped.None? ==>
      && adversary.Some? && control.Some? && ControlLeaves(s, control.value)
      && fresh(adversary.value) && fresh(adversary.value.issuer) && fresh(adversary.value.ledger)
      && fresh(adversary.value.observer)
      && adversary.value.scheme == s && adversary.value.State() == ReferenceState(s)
      && OpenUpToPreflight(setting, gates)
  {
    adversary := None;
    var host: Option<HostSinkIntegration>;
    stopped, host, control := ProveControl(s, setting, gates, ledger);
    if stopped.None? {
      adversary := RunS2(s, setting, host.value, gates, ledger);
      CheckPreflight(setting, gates);
      stopped := if adversary.None? then Some(S2) else None;
    }
  }

  /** Both phases are intact and borne out by what is read back, and the control is still a failure. */
  ghost predicate EvidenceConfirms(s: Scheme, setting: Setting, control: Saved, run: Saved) {
    && setting.controlIntegrity && BorneOut(s, setting.controlReadBack(control))
    && VerdictOf(s, Rebuilt(setting.controlReadBack(control))).disposition == BoundaryFailure
    && setting.runIntegrity && BorneOut(s, setting.runReadBack(run))
  }

  /** S4: replay both phases from what is read back, and adjudicate jointly; None is a refused replay. */
  method ReplayAndAdjudicate(s: Scheme, setting: Setting, gates: GateState, control: Saved, run: Option<Saved>,
                             runtime: Option<Runtime>)
    returns (closure: Option<bool>)
    requires runtime.Some? ==> run.Some? && gates.AllOpen()
    ensures closure.None? <==>
      || AnyDelegated(setting.controlReadBack(control).records)
      || (runtime.Some? && AnyDelegated(setting.runReadBack(run.value).records))
    ensures closure == Some(true) <==>
      closure.Some? && RunEstablished(runtime) && EvidenceConfirms(s, setting, control, run.value)
  {
    var controlReplay := ReplayFromEvidence(s, setting.controlReadBack(control));
    if controlReplay.None? {
      return None;
    }
    var runReplay: Option<Replay> := None;
    if runtime.Some? {
      runReplay := ReplayFromEvidence(s, setting.runReadBack(run.value));
      if runReplay.None? {
        return None;
      }
    }
    var established := AdjudicateSequence(setting, gates, controlReplay.value, runReplay, runtime);
    if runtime.Some? {
      assert gates.Open(AdversaryContextIsolation) && gates.Open(PcSensitivity);
      assert gates.Open(Gate.ProviderPreflight) && gates.Open(StateSeparation);
    }
    closure := Some(established);
  }

  /** Untouched files of replayable phases confirm them. */
  lemma IntactFilesConfirm(s: Scheme, setting: Setting, control: Saved, controlState: HostState, run: Saved,
                           runState: HostState)
    requires setting.FilesIntact()
    requires Replayable(s, controlState) && Preserves(s, control, controlState)
    requires VerdictOf(s, controlState).disposition == BoundaryFailure
    requires Replayable(s, runState) && Preserves(s, run, runState)
    ensures EvidenceConfirms(s, setting, control, run)
  {
    IntactIsBorneOut(s, control, controlState);
    IntactIsBorneOut(s, run, runState);
  }

  lemma IntactIsBorneOut(s: Scheme, saved: Saved, st: HostState)
    requires Replayable(s, st) && Preserves(s, saved, st)
    ensures BorneOut(s, saved)
    ensures VerdictOf(s, Rebuilt(saved)).disposition == VerdictOf(s, st).disposition
  {
    IntactEvidenceReplays(s, saved, st);
    ObservedMeansArrivals(s, Rebuilt(saved));
  }

  /** Every gate is open, but for a preflight that is required and fails. */
  ghost predicate OpenUpToPreflight(setting: Setting, gates: GateState)
    reads gates
  {
    && gates.s0Preflight.Pass? && gates.pcSensitivity && gates.pcEvidenceSealed && gates.stateSeparation
    && gates.adversaryContextIsolation.Pass?
    && (gates.providerPreflight.Pass? <==> !setting.preflightRequired || setting.preflightPasses)
  }

  lemma OpenMeansPreflight(setting: Setting, gates: GateState)
    requires OpenUpToPreflight(setting, gates)
    ensures gates.AllOpen() <==> !setting.preflightRequired || setting.preflightPasses
  {
    assert gates.AllOpen() ==> gates.Open(Gate.ProviderPreflight);
  }

  /** S3, unless the sequence is to stop before it; `ran` is false when a gate refuses. */
  method RunSubject(s: Scheme, world: World, limits: Limits, setting: Setting, host: HostSinkIntegration,
                    gates: GateState, ledger: AuthorizationLedger, clock: Clock)
    returns (refused: bool, runtime: Option<Runtime>, run: Option<Saved>, ghost log: seq<AttemptLine>)
    requires clock.world == world && ledger.Valid() && !ledger.consumed
    requires host.scheme == s && host.State() == ReferenceState(s)
    requires EndsAt(setting) in {None, Some(S3)} && OpenUpToPreflight(setting, gates)
    modifies host, host.issuer, host.ledger, host.observer, ledger, clock
    ensures ledger.Valid()
    ensures refused <==> EndsAt(setting) == Some(S3)
    ensures runtime.Some? <==> !refused && !setting.stopBeforeS3
    ensures run.Some? <==> runtime.Some?
    ensures runtime.None? ==> !ledger.consumed
    ensures runtime.Some? ==>
      && gates.AllOpen() && !AnyDelegated(run.value.records)
      && (Exercised(runtime.value) ==> ledger.consumed)
      && RunLeaves(s, run.value, runtime.value, log)
      && (RunEstablished(runtime) <==> Exercised(runtime.value))
  {
    refused, runtime, run, log := false, None, None, [];
    OpenMeansPreflight(setting, gates);
    if !setting.stopBeforeS3 {
      runtime, run, log := RunStage3(s, world, limits, setting, host, gates, ledger, clock);
      refused := runtime.None?;
      if runtime.Some? {
        ExecutedMeans(runtime.value.subject, runtime.value.attempts, runtime.value.terminal);
      }
    }
  }

  /** The evidence and the outcome of a run that served `log`. */
  ghost predicate RunLeaves(s: Scheme, run: Saved, runtime: Runtime, log: seq<AttemptLine>) {
    var st := ServeAll(s, ReferenceState(s), log);
    && Replayable(s, st) && Preserves(s, run, st) && runtime.subject == VerdictOf(s, st)
    && runtime.final == run.final
    && run.attempts == runtime.attempts == |log| && run.terminal == runtime.terminal
  }

  /** The evidence of the positive control. */
  ghost predicate ControlLeaves(s: Scheme, control: Saved) {
    var st := ControlState(s);
    && Replayable(s, st) && Preserves(s, control, st) && VerdictOf(s, st).disposition == BoundaryFailure
    && control.attempts == 1 && !control.terminal
  }

  /** How a sequence ends, and what it leaves. */
  ghost predicate Concludes(s: Scheme, setting: Setting, outcome: Outcome, consumed: bool, openAtS3: bool,
                            control: Option<Saved>, run: Option<Saved>, log: seq<AttemptLine>)
  {
    // the stage it ends at is settled by the setting, up to a replay that is refused
    && (EndsAt(setting).Some? ==> outcome == Aborted(EndsAt(setting).value) && !consumed)
    && (EndsAt(setting).None? ==>
          && (outcome.Adjudicated? || outcome == Aborted(S4))
          && control.Some? && ControlLeaves(s, control.value)
          && (run.Some? <==> !setting.stopBeforeS3)
          && (outcome == Aborted(S4) <==>
                || AnyDelegated(setting.controlReadBack(control.value).records)
                || (run.Some? && AnyDelegated(setting.runReadBack(run.value).records))))
    && (outcome.Adjudicated? ==>
          // what S3 leaves, and that nothing is consumed without it
          && (outcome.runtime.Some? <==> run.Some?)
          && (outcome.runtime.Some? ==> RunLeaves(s, run.value, outcome.runtime.value, log))
          && (outcome.runtime.None? ==> !consumed)
          // closure is exercise, borne out by the files of both phases
          && (outcome.closure <==>
                && outcome.runtime.Some? && Exercised(outcome.runtime.value)
                && EvidenceConfirms(s, setting, control.value, run.value))
          // and then everything before S3 was proven, and S3 consumed the authorization
          && (outcome.closure ==> openAtS3 && consumed))
  }

  method RunStages(s: Scheme, world: World, limits: Limits, setting: Setting, clock: Clock)
    returns (outcome: Outcome, ledger: AuthorizationLedger, ghost openAtS3: bool, ghost control: Option<Saved>,
             ghost run: Option<Saved>, ghost log: seq<AttemptLine>)
    requires clock.world == world
    modifies clock
    ensures fresh(ledger) && ledger.Valid()
    ensures Concludes(s, setting, outcome, ledger.consumed, openAtS3, control, run, log)
  {
    openAtS3, control, run, log := false, None, None, [];
    var gates := new GateState();
    ledger := new AuthorizationLedger();
    var stopped, adversary, sealed := Prepare(s, setting, gates, ledger);
    control := sealed;
    if stopped.Some? {
      return Aborted(stopped.value), ledger, openAtS3, control, run, log;
    }
    openAtS3 := gates.AllOpen();
    var refused, runtime, saved, served :=
      RunSubject(s, world, limits, setting, adversary.value, gates, ledger, clock);
    run, log := saved, served;
    if refused {
      return Aborted(S3), ledger, openAtS3, control, run, log;
    }
    var closure := ReplayAndAdjudicate(s, setting, gates, sealed.value, saved, runtime);
    if closure.None? {
      return Aborted(S4), ledger, openAtS3, control, run, log;
    }
    outcome := Adjudicated(closure.value, runtime);
  }

  /** The whole sequence, stage by stage. */
  method RunSequence(s: Scheme, world: World, limits: Limits, setting: Setting, clock: Clock)
    returns (outcome: Outcome, ledger: AuthorizationLedger, ghost openAtS3: bool, ghost control: Option<Saved>,
             ghost run: Option<Saved>, ghost log: seq<AttemptLine>)
    requires clock.world == world
    modifies clock
    ensures fresh(ledger) && ledger.Valid()
    ensures Concludes(s, setting, outcome, ledger.consumed, openAtS3, control, run, log)
    ensures outcome.Adjudicated? && outcome.closure ==> Consumptions(ledger.events) == 1
    // with intact files nothing but exercise matters: not the subject outcome, not why the run stopped
    ensures outcome.Adjudicated? && setting.FilesIntact() ==>
      (outcome.closure <==> outcome.runtime.Some? && Exercised(outcome.runtime.value))
  {
    outcome, ledger, openAtS3, control, run, log := RunStages(s, world, limits, setting, clock);
    if outcome.Adjudicated? && outcome.runtime.Some? && setting.FilesIntact() {
      IntactFilesConfirm(s, setting, control.value, ControlState(s), run.value, ServeAll(s, ReferenceState(s), log));
    }
  }
}
