/** The protected host: guarded, queued and unguarded entries over a ledger and a separate telemetry store
    (oat/integration/host_sink.py). Each entry is a function on the whole host state, and a class whose
    methods update the stores in the order the host does. */
module HostSink {
  import opened Wrappers
  import opened Consequence
  import opened CurrentState
  import opened Authorizations
  import opened Verifier

  const ROUTE_HTTP_GUARDED := "route.http-guarded"
  const ROUTE_QUEUE_WORKER := "route.queue-worker"
  const ROUTE_HIDDEN_BATCH := "route.hidden-batch"
  const DECLARED_ROUTES: set<string> := {ROUTE_HTTP_GUARDED, ROUTE_QUEUE_WORKER}

  const DEFAULT_AGENT := "agent.integration-test"

  /** A request body; `Malformed` is any body from which no commit event can be built. */
  datatype Payload =
    | Malformed
    | Payload(
        action: Action,
        authorizationId: Option<string>,
        commitId: string,
        committedAt: int,
        idempotencyKey: string,
        agentId: Option<string>,
        token: Option<string>,
        traceRef: Option<string>)

  datatype Row = Row(event: CommitEvent, token: Option<string>)

  datatype Arrival = Arrival(routeId: string, tick: int, admitted: bool, committed: bool, commitId: Option<string>)

  datatype Reply =
    | Raised
    | ReplayRefused
    | BindingRefused(failed: seq<Dimension>)
    | Admitted(commitId: string)
    | Committed(commitId: string)
    | WorkerTimeout
    | NotFound

  datatype HostState = HostState(
    sink: ProtectedSink,
    secret: string,
    epochs: seq<AuthorityState>,
    uses: map<string, nat>,
    rows: seq<Row>,
    receipts: seq<Receipt>,
    arrivals: seq<Arrival>,
    authorizations: map<string, Authorization>,
    workerAlive: bool,
    jobs: seq<Payload>)

  // ----- the ledger and the telemetry store -----

  predicate KeySeen(rows: seq<Row>, key: string) {
    exists r :: r in rows && r.event.idempotencyKey == key
  }

  predicate IdSeen(rows: seq<Row>, commitId: string) {
    exists r :: r in rows && r.event.commitId == commitId
  }

  /** PRIMARY KEY on the commit id, UNIQUE on the idempotency key. */
  predicate Insertable(rows: seq<Row>, event: CommitEvent) {
    !IdSeen(rows, event.commitId) && !KeySeen(rows, event.idempotencyKey)
  }

  function CommittedArrival(event: CommitEvent): Arrival {
    Arrival(event.routeId, event.committedAt, true, true, Some(event.commitId))
  }

  function RefusedArrival(routeId: string, tick: int): Arrival {
    Arrival(routeId, tick, false, false, None)
  }

  function ReceiptOf(event: CommitEvent): Receipt {
    Receipt("receipt-" + event.commitId, event.commitId, event.sinkId, event.routeId, event.committedAt,
            event.actionDigest)
  }

  // ----- one call -----

  /** `payload.get("authorization_id")`, where an empty id counts as none. */
  function ClaimedId(p: Payload): Option<string>
    requires p.Payload?
  {
    if p.authorizationId == Some("") then None else p.authorizationId
  }

  function ClaimedAuthorization(st: HostState, p: Payload): Option<Authorization>
    requires p.Payload?
  {
    if ClaimedId(p).Some? then Get(st.authorizations, ClaimedId(p).value) else None
  }

  function BuildEvent(s: Scheme, epochs: seq<AuthorityState>, p: Payload, routeId: string): CommitEvent
    requires p.Payload?
  {
    var state := At(epochs, p.committedAt);
    CommitEvent(
      p.commitId, p.action.sinkId, routeId, p.action.tenantId, p.action.principalId,
      if p.agentId.Some? then p.agentId.value else DEFAULT_AGENT,
      p.action.releaseId, s.actionDigest(p.action), p.action, p.committedAt, ClaimedId(p),
      if state.Some? then Some(s.stateDigest(state.value)) else None,
      p.idempotencyKey,
      if p.traceRef.Some? then p.traceRef.value else "trace-" + p.commitId)
  }

  /** What the interlock checks: the count the call itself is about to bring the record to. */
  function AdmissionGrounds(st: HostState, p: Payload): Grounds
    requires p.Payload?
  {
    var a := ClaimedAuthorization(st, p);
    Grounds(
      At(st.epochs, p.committedAt), Some(st.secret),
      if a.Some? then Some(UsesOf(st.uses, a.value.authorizationId) + 1) else None,
      p.token)
  }

  function Recorded(st: HostState, event: CommitEvent, token: Option<string>, emitReceipt: bool): HostState {
    st.(rows := st.rows + [Row(event, token)],
        arrivals := st.arrivals + [CommittedArrival(event)],
        receipts := st.receipts + if emitReceipt then [ReceiptOf(event)] else [])
  }

  function Refused(st: HostState, routeId: string, tick: int): HostState {
    st.(arrivals := st.arrivals + [RefusedArrival(routeId, tick)])
  }

  function GuardedStep(s: Scheme, st: HostState, p: Payload, routeId: string): (r: (HostState, Reply))
    ensures r.0.jobs == st.jobs && r.0.workerAlive == st.workerAlive
  {
    if p.Malformed? then (st, Raised)
    else
      var event := BuildEvent(s, st.epochs, p, routeId);
      if KeySeen(st.rows, event.idempotencyKey) then (Refused(st, routeId, event.committedAt), ReplayRefused)
      else InterlockStep(s, st, p, event)
  }

  /** Refuse unless every binding is satisfied. */
  function InterlockStep(s: Scheme, st: HostState, p: Payload, event: CommitEvent): (r: (HostState, Reply))
    requires p.Payload?
    ensures r.0.jobs == st.jobs && r.0.workerAlive == st.workerAlive
  {
    var auth := ClaimedAuthorization(st, p);
    ResolveStep(st, auth, event, p.token, ReportOn(s, auth, event, AdmissionGrounds(st, p)))
  }

  function ResolveStep(st: HostState, auth: Option<Authorization>, event: CommitEvent, token: Option<string>,
                       report: Report): (r: (HostState, Reply))
    ensures r.0.jobs == st.jobs && r.0.workerAlive == st.workerAlive
  {
    if !IsValid(report) || auth.None? then
      (Refused(st, event.routeId, event.committedAt), BindingRefused(FailedDimensions(report)))
    else AdmitStep(st, auth.value, event, token)
  }

  /** The use is spent before the ledger has accepted the row. */
  function AdmitStep(st: HostState, a: Authorization, event: CommitEvent, token: Option<string>)
    : (r: (HostState, Reply))
    ensures r.0.jobs == st.jobs && r.0.workerAlive == st.workerAlive
  {
    var used := st.(uses := WithUse(st.uses, a.authorizationId));
    if !Insertable(st.rows, event) then (used, Raised)
    else (Recorded(used, event, token, true), Admitted(event.commitId))
  }

  function FailedDimensions(report: Report): seq<Dimension> {
    var mismatches := Select(report, Mismatch);
    if mismatches != [] then mismatches else Select(report, Undetermined)
  }

  function HiddenStep(s: Scheme, st: HostState, p: Payload, emitReceipt: bool): (HostState, Reply) {
    if p.Malformed? then (st, Raised)
    else
      var event := BuildEvent(s, st.epochs, p, ROUTE_HIDDEN_BATCH);
      if KeySeen(st.rows, event.idempotencyKey) then
        (Refused(st, ROUTE_HIDDEN_BATCH, event.committedAt), ReplayRefused)
      else if !Insertable(st.rows, event) then (st, Raised)
      else (Recorded(st, event, p.token, emitReceipt), Committed(event.commitId))
  }

  /** The worker takes one job; a job that raises ends the thread. */
  function WorkStep(s: Scheme, st: HostState): (r: (HostState, Reply))
    requires st.workerAlive && st.jobs != []
    ensures r.0.jobs == st.jobs[1..]
  {
    var (next, reply) := GuardedStep(s, st.(jobs := st.jobs[1..]), st.jobs[0], ROUTE_QUEUE_WORKER);
    (if reply.Raised? then next.(workerAlive := false) else next, reply)
  }

  /** The worker takes jobs in order until the queue is empty or a job has ended the thread. */
  function Drain(s: Scheme, st: HostState): (HostState, Option<Reply>)
    decreases |st.jobs|
  {
    if !st.workerAlive || st.jobs == [] then (st, None)
    else
      var (next, reply) := WorkStep(s, st);
      if reply.Raised? || next.jobs == [] then (next, Some(reply)) else Drain(s, next)
  }

  function EnqueueStep(s: Scheme, st: HostState, p: Payload): (HostState, Reply) {
    var (next, last) := Drain(s, st.(jobs := st.jobs + [p]));
    (next, if last.Some? && next.jobs == [] then last.value else WorkerTimeout)
  }

  // ----- runs -----

  /** `Async` is a queued call that is answered in time; `Late` one that the caller gives up waiting for, whose job the
      worker takes by some later `Work`. */
  datatype Event =
    | Http(payload: Payload)
    | Async(payload: Payload)
    | Late(payload: Payload)
    | Work
    | Batch(payload: Payload, emitReceipt: bool)
    | Register(authorization: Authorization)
    | AddEpoch(state: AuthorityState)

  function Step(s: Scheme, st: HostState, ev: Event): HostState {
    match ev
    case Http(p) => GuardedStep(s, st, p, ROUTE_HTTP_GUARDED).0
    case Async(p) => EnqueueStep(s, st, p).0
    case Late(p) => st.(jobs := st.jobs + [p])
    case Work => if st.workerAlive && st.jobs != [] then WorkStep(s, st).0 else st
    case Batch(p, emit) => HiddenStep(s, st, p, emit).0
    case Register(a) => st.(authorizations := st.authorizations[a.authorizationId := a])
    case AddEpoch(e) => st.(epochs := StableSort(st.epochs + [e]))
  }

  function Run(s: Scheme, st: HostState, events: seq<Event>): HostState {
    if events == [] then st else Step(s, Run(s, st, events[..|events| - 1]), events[|events| - 1])
  }

  /** The routing of POST paths. */
  function EventFor(path: string, p: Payload): Option<Event> {
    if path == "/v1/payments" then Some(Http(p))
    else if path == "/v1/async-payments" then Some(Async(p))
    else if path == "/internal/batch-commit" then Some(Batch(p, true))
    else None
  }

  function Served(s: Scheme, st: HostState, path: string, p: Payload): HostState {
    var ev := EventFor(path, p);
    if ev.Some? then Step(s, st, ev.value) else st
  }

  function ReplyTo(s: Scheme, st: HostState, path: string, p: Payload): Reply {
    var ev := EventFor(path, p);
    if ev.None? then NotFound
    else
      match ev.value
      case Http(q) => GuardedStep(s, st, q, ROUTE_HTTP_GUARDED).1
      case Async(q) => EnqueueStep(s, st, q).1
      case Batch(q, emit) => HiddenStep(s, st, q, emit).1
      case _ => NotFound
  }

  // ----- evidence -----

  function Events(rows: seq<Row>): (r: seq<CommitEvent>)
    ensures |r| == |rows| && forall i :: 0 <= i < |rows| ==> r[i] == rows[i].event
  {
    seq(|rows|, i requires 0 <= i < |rows| => rows[i].event)
  }

  function Tokens(rows: seq<Row>): map<string, string> {
    if rows == [] then map[]
    else
      var earlier, last := Tokens(rows[..|rows| - 1]), rows[|rows| - 1];
      if last.token.Some? then earlier[last.event.commitId := last.token.value] else earlier
  }

  function ObservedRoutes(arrivals: seq<Arrival>): set<string> {
    set a | a in arrivals :: a.routeId
  }

  function EvidenceOf(st: HostState): Evidence {
    Evidence(
      st.sink, Events(st.rows), st.receipts, st.authorizations, Some(st.epochs), Some(st.secret), Tokens(st.rows),
      map k | k in st.authorizations :: UsesOf(st.uses, k),
      Some(Reconciliation(DECLARED_ROUTES, ObservedRoutes(st.arrivals))), [], [])
  }

  function VerdictOf(s: Scheme, st: HostState): Verdict {
    Adjudicate(s, EvidenceOf(st))
  }

  // ----- the objects -----

  class SQLiteLedger {
    var rows: seq<Row>

    /** Opens the store with the rows it already holds. */
    constructor Open(rows: seq<Row>)
      ensures this.rows == rows
    {
      this.rows := rows;
    }

    method IdempotencySeen(key: string) returns (seen: bool)
      ensures seen == KeySeen(rows, key)
    {
      seen := exists r :: r in rows && r.event.idempotencyKey == key;
    }

    /** False stands for the integrity error of a violated key. */
    method Commit(event: CommitEvent, token: Option<string>) returns (ok: bool)
      modifies this
      ensures ok == Insertable(old(rows), event)
      ensures rows == if ok then old(rows) + [Row(event, token)] else old(rows)
    {
      ok := !IdSeen(rows, event.commitId) && !KeySeen(rows, event.idempotencyKey);
      if ok {
        rows := rows + [Row(event, token)];
      }
    }
  }

  class SQLiteObserver {
    var receipts: seq<Receipt>
    var arrivals: seq<Arrival>

    constructor Open(receipts: seq<Receipt>, arrivals: seq<Arrival>)
      ensures this.receipts == receipts && this.arrivals == arrivals
    {
      this.receipts, this.arrivals := receipts, arrivals;
    }

    method RecordArrival(arrival: Arrival)
      modifies this
      ensures arrivals == old(arrivals) + [arrival] && receipts == old(receipts)
    {
      arrivals := arrivals + [arrival];
    }

    method RecordCommit(event: CommitEvent, emitReceipt: bool)
      modifies this
      ensures arrivals == old(arrivals) + [CommittedArrival(event)]
      ensures receipts == old(receipts) + if emitReceipt then [ReceiptOf(event)] else []
    {
      RecordArrival(CommittedArrival(event));
      if emitReceipt {
        receipts := receipts + [ReceiptOf(event)];
      }
    }
  }

  class HostSinkIntegration {
    const scheme: Scheme
    const sink: ProtectedSink
    const authority: AuthorityStore
    const issuer: AuthorizationIssuer
    const ledger: SQLiteLedger
    const observer: SQLiteObserver
    var authorizations: map<string, Authorization>
    var jobs: seq<Payload>
    var workerAlive: bool

    function State(): HostState
      reads this, authority, issuer, ledger, observer
    {
      HostState(sink, issuer.secret, authority.epochs, issuer.uses, ledger.rows, observer.receipts,
                observer.arrivals, authorizations, workerAlive, jobs)
    }

    constructor (scheme: Scheme, sink: ProtectedSink, authority: AuthorityStore, issuer: AuthorizationIssuer,
                 ledger: SQLiteLedger, observer: SQLiteObserver)
      ensures this.scheme == scheme && this.sink == sink && this.authority == authority && this.issuer == issuer
      ensures this.ledger == ledger && this.observer == observer
      ensures State() == HostState(sink, issuer.secret, authority.epochs, issuer.uses, ledger.rows,
                                   observer.receipts, observer.arrivals, map[], true, [])
    {
      this.scheme, this.sink, this.authority, this.issuer := scheme, sink, authority, issuer;
      this.ledger, this.observer := ledger, observer;
      authorizations, jobs, workerAlive := map[], [], true;
    }

    method RegisterAuthorization(a: Authorization)
      modifies this
      ensures State() == old(State()).(authorizations := old(authorizations)[a.authorizationId := a])
    {
      authorizations := authorizations[a.authorizationId := a];
    }

    method Guarded(p: Payload, routeId: string) returns (reply: Reply)
      modifies issuer, ledger, observer
      ensures (State(), reply) == GuardedStep(scheme, old(State()), p, routeId)
    {
      if p.Malformed? {
        return Raised;
      }
      var event := BuildEvent(scheme, authority.epochs, p, routeId);
      var seen := ledger.IdempotencySeen(event.idempotencyKey);
      if seen {
        observer.RecordArrival(RefusedArrival(routeId, event.committedAt));
        return ReplayRefused;
      }
      reply := Interlock(p, event);
    }

    method Interlock(p: Payload, event: CommitEvent) returns (reply: Reply)
      requires p.Payload? && event.committedAt == p.committedAt
      modifies issuer, ledger, observer
      ensures (State(), reply) == InterlockStep(scheme, old(State()), p, event)
    {
      var auth, report := Assess(p, event);
      reply := Resolve(auth, event, p.token, report);
    }

    /** The claimed record and its report, with the count that this use would bring. */
    method Assess(p: Payload, event: CommitEvent) returns (auth: Option<Authorization>, report: Report)
      requires p.Payload? && event.committedAt == p.committedAt
      ensures auth == ClaimedAuthorization(State(), p)
      ensures report == ReportOn(scheme, auth, event, AdmissionGrounds(State(), p))
    {
      auth := ClaimedAuthorization(State(), p);
      var prior := if auth.Some? then Some(UsesOf(issuer.uses, auth.value.authorizationId) + 1) else None;
      var authorityAtCommit := authority.Lookup(event.committedAt);
      var grounds := Grounds(authorityAtCommit, Some(issuer.secret), prior, p.token);
      report := ValidateAuthorization(scheme, auth, event, grounds);
    }

    method Resolve(auth: Option<Authorization>, event: CommitEvent, token: Option<string>, report: Report)
      returns (reply: Reply)
      modifies issuer, ledger, observer
      ensures (State(), reply) == ResolveStep(old(State()), auth, event, token, report)
    {
      if !IsValid(report) || auth.None? {
        observer.RecordArrival(RefusedArrival(event.routeId, event.committedAt));
        return BindingRefused(FailedDimensions(report));
      }
      reply := Admit(auth.value, event, token);
    }

    method Admit(a: Authorization, event: CommitEvent, token: Option<string>) returns (reply: Reply)
      modifies issuer, ledger, observer
      ensures (State(), reply) == AdmitStep(old(State()), a, event, token)
    {
      var _ := issuer.RecordUse(a.authorizationId);
      var ok := ledger.Commit(event, token);
      if !ok {
        return Raised;
      }
      observer.RecordCommit(event, true);
      return Admitted(event.commitId);
    }

    method Hidden(p: Payload, emitReceipt: bool) returns (reply: Reply)
      modifies ledger, observer
      ensures (State(), reply) == HiddenStep(scheme, old(State()), p, emitReceipt)
    {
      if p.Malformed? {
        return Raised;
      }
      var event := BuildEvent(scheme, authority.epochs, p, ROUTE_HIDDEN_BATCH);
      var seen := ledger.IdempotencySeen(event.idempotencyKey);
      if seen {
        observer.RecordArrival(RefusedArrival(ROUTE_HIDDEN_BATCH, event.committedAt));
        return ReplayRefused;
      }
      var ok := ledger.Commit(event, p.token);
      if !ok {
        return Raised;
      }
      observer.RecordCommit(event, emitReceipt);
      return Committed(event.commitId);
    }

    method TakeJob() returns (reply: Reply)
      requires workerAlive && jobs != []
      modifies this, issuer, ledger, observer
      ensures (State(), reply) == WorkStep(scheme, old(State()))
    {
      var job := jobs[0];
      jobs := jobs[1..];
      reply := Guarded(job, ROUTE_QUEUE_WORKER);
      if reply.Raised? {
        workerAlive := false;
      }
    }

    method WorkerLoop() returns (last: Option<Reply>)
      modifies this, issuer, ledger, observer
      ensures (State(), last) == Drain(scheme, old(State()))
    {
      last := None;
      ghost var before := State();
      while workerAlive && jobs != []
        invariant last.None? ==> State() == before
        invariant last.Some? && workerAlive && jobs != [] ==> Drain(scheme, State()) == Drain(scheme, before)
        invariant last.Some? && (!workerAlive || jobs == []) ==> (State(), last) == Drain(scheme, before)
        decreases |jobs|, workerAlive
      {
        var reply := TakeJob();
        last := Some(reply);
      }
    }

    /** The caller waits for the job, and gives up when it is not done in time. */
    method Enqueue(p: Payload, inTime: bool) returns (reply: Reply)
      modifies this, issuer, ledger, observer
      ensures inTime ==> (State(), reply) == EnqueueStep(scheme, old(State()), p)
      ensures !inTime ==> State() == Step(scheme, old(State()), Late(p)) && reply == WorkerTimeout
    {
      jobs := jobs + [p];
      if !inTime {
        return WorkerTimeout;
      }
      var last := WorkerLoop();
      reply := if last.Some? && jobs == [] then last.value else WorkerTimeout;
    }

    /** POST routing; the route id is the host's, never the caller's. */
    method Serve(path: string, p: Payload) returns (reply: Reply)
      modifies this, issuer, ledger, observer
      ensures State() == Served(scheme, old(State()), path, p)
      ensures reply == ReplyTo(scheme, old(State()), path, p)
    {
      if path == "/v1/payments" {
        reply := Guarded(p, ROUTE_HTTP_GUARDED);
      } else if path == "/v1/async-payments" {
        reply := Enqueue(p, true);
      } else if path == "/internal/batch-commit" {
        reply := Hidden(p, true);
      } else {
        reply := NotFound;
      }
    }

    method ReadVerdict() returns (v: Verdict)
      ensures v == VerdictOf(scheme, State())
    {
      v := Adjudicate(scheme, EvidenceOf(State()));
    }
  }
}
