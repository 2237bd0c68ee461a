/** Concurrent guarded and hidden calls, one atomic store access per step. The threaded server holds no lock across
    these steps; only the ledger's keys protect it (oat/integration/host_sink.py:76-124, 194-226, 313-376). */
module Interleaving {
  import opened Wrappers
  import opened Consequence
  import opened CurrentState
  import opened Authorizations
  import opened Verifier
  import opened HostSink
  import opened HostRuns

  /** Where a call stands: what its next store access will be. */
  datatype Pc =
    | Checking
    | Counting
    | Validating(prior: nat)
    | Spending
    | Inserting
    | Announcing
    | Receipting
    | Refusing
    | Finished
    | Crashed
  {
    function StepsLeft(): nat {
      match this
      case Checking => 7
      case Counting => 6
      case Validating(_) => 5
      case Spending => 4
      case Inserting => 3
      case Announcing => 2
      case Receipting => 1
      case Refusing => 1
      case Finished => 0
      case Crashed => 0
    }
  }

  datatype Call = Call(guarded: bool, emitReceipt: bool, event: CommitEvent, token: Option<string>, pc: Pc) {
    predicate Over() { pc.Finished? || pc.Crashed? }
    predicate HasInserted() { pc.Announcing? || pc.Receipting? }
    predicate For(id: string) { guarded && event.authorizationRef == Some(id) }
    function ToRow(): Row { Row(event, token) }
  }

  /** The shared host, the calls made to it so far, and the rows that were there before them. */
  datatype System = System(host: HostState, calls: seq<Call>, before: seq<Row>)

  /** A host to which nobody has called yet. */
  function Opened(st: HostState): System {
    System(st, [], st.rows)
  }

  datatype Move =
    | StartGuarded(payload: Payload, routeId: string)
    | StartHidden(payload: Payload, emitReceipt: bool)
    | Advance(call: nat)

  function GroundsAt(st: HostState, c: Call, uses: nat): Grounds {
    Grounds(At(st.epochs, c.event.committedAt), Some(st.secret), Some(uses), c.token)
  }

  function RecordFor(st: HostState, c: Call): Option<Authorization> {
    if c.event.authorizationRef.Some? then Get(st.authorizations, c.event.authorizationRef.value) else None
  }

  function RefusedBy(st: HostState, c: Call): HostState {
    Refused(st, c.event.routeId, c.event.committedAt)
  }

  /** One atomic access of call `c`: the host after it, and where the call stands then. */
  function Access(s: Scheme, st: HostState, c: Call): (HostState, Pc) {
    match c.pc
    case Checking =>
      (st, if KeySeen(st.rows, c.event.idempotencyKey) then Refusing else if c.guarded then Counting else Inserting)
    case Counting =>
      if RecordFor(st, c).None? then (st, Refusing)
      else (st, Validating(UsesOf(st.uses, RecordFor(st, c).value.authorizationId)))
    case Validating(prior) =>
      (st, if IsValid(ReportOn(s, RecordFor(st, c), c.event, GroundsAt(st, c, prior + 1)))
           then Spending else Refusing)
    case Spending =>
      if RecordFor(st, c).None? then (st, Crashed)
      else (st.(uses := WithUse(st.uses, RecordFor(st, c).value.authorizationId)), Inserting)
    case Inserting =>
      if Insertable(st.rows, c.event) then (st.(rows := st.rows + [c.ToRow()]), Announcing) else (st, Crashed)
    case Announcing =>
      (st.(arrivals := st.arrivals + [CommittedArrival(c.event)]), if c.emitReceipt then Receipting else Finished)
    case Receipting =>
      if exists r :: r in st.receipts && r.receiptId == ReceiptOf(c.event).receiptId then (st, Crashed)
      else (st.(receipts := st.receipts + [ReceiptOf(c.event)]), Finished)
    case Refusing => (RefusedBy(st, c), Finished)
    case _ => (st, c.pc)
  }

  function Perform(s: Scheme, sys: System, act: Move): System {
    match act
    case StartGuarded(p, routeId) =>
      if p.Malformed? || routeId !in DECLARED_ROUTES then sys
      else sys.(calls := sys.calls + [NewCall(s, sys.host, true, true, p, routeId)])
    case StartHidden(p, emit) =>
      if p.Malformed? then sys
      else sys.(calls := sys.calls + [NewCall(s, sys.host, false, emit, p, ROUTE_HIDDEN_BATCH)])
    case Advance(i) =>
      if i >= |sys.calls| then sys
      else
        var (host, pc) := Access(s, sys.host, sys.calls[i]);
        sys.(host := host, calls := sys.calls[i := sys.calls[i].(pc := pc)])
  }

  function NewCall(s: Scheme, st: HostState, guarded: bool, emit: bool, p: Payload, routeId: string): Call
    requires p.Payload?
  {
    Call(guarded, emit, BuildEvent(s, st.epochs, p, routeId), p.token, Checking)
  }

  function Execute(s: Scheme, sys: System, moves: seq<Move>): System {
    if moves == [] then sys
    else Perform(s, Execute(s, sys, moves[..|moves| - 1]), moves[|moves| - 1])
  }

  /** Nobody has called yet, and the stores are as serial runs leave them: empty, or with rows that have satisfied their
      bindings, have receipts unless they are hidden, and come with their arrivals and recorded uses. */
  ghost predicate Begin(s: Scheme, sys: System) {
    && sys == Opened(sys.host)
    && SoundStores(s, sys.host)
    && RowsWithinUses(sys.host)
    && forall route :: RowsOn(sys.host.rows, route) == CommittedOn(sys.host.arrivals, route)
  }

  ghost predicate SoundStores(s: Scheme, st: HostState) {
    && FiledById(st.authorizations) && UniqueIds(st.rows) && UniqueKeys(st.rows) && ReceiptsMatchRows(st)
    && forall row :: row in st.rows ==> RowIsBound(s, st, row) && (IsHidden(row) || Witnessed(st, row))
  }

  lemma EmptyStoresBegin(s: Scheme, st: HostState)
    requires st.rows == [] && st.receipts == [] && st.arrivals == [] && FiledById(st.authorizations)
    ensures Begin(s, Opened(st))
  {
  }

  ghost predicate Quiescent(sys: System) {
    forall i :: 0 <= i < |sys.calls| ==> sys.calls[i].Over()
  }

  // ----- what every interleaving keeps -----

  ghost predicate CallWellFormed(c: Call) {
    && (c.guarded ==> c.event.routeId in DECLARED_ROUTES && c.emitReceipt)
    && (!c.guarded ==> c.event.routeId == ROUTE_HIDDEN_BATCH)
    && c.event.authorizationRef != Some("")
  }

  /** Every receipt is the receipt of a ledger row: same commit, digest and route. */
  ghost predicate ReceiptsMatchRows(st: HostState) {
    forall r :: r in st.receipts ==> exists row :: row in st.rows && r == ReceiptOf(row.event)
  }

  /** The call that put `row` in the ledger, when it is still on the way or was told not to emit a receipt. */
  ghost predicate Accounts(c: Call, row: Row) {
    c.ToRow() == row && (c.HasInserted() || (c.pc.Finished? && !c.guarded && !c.emitReceipt))
  }

  ghost predicate RowsAreAccountedFor(sys: System) {
    forall row :: row in sys.host.rows ==>
      || Witnessed(sys.host, row)
      || (IsHidden(row) && row in sys.before)
      || exists j :: 0 <= j < |sys.calls| && Accounts(sys.calls[j], row)
  }

  ghost predicate InsertedCallsOwnTheirRows(sys: System) {
    && (forall i :: 0 <= i < |sys.calls| && sys.calls[i].HasInserted() ==>
          sys.calls[i].ToRow() in sys.host.rows && !Witnessed(sys.host, sys.calls[i].ToRow()))
    && (forall i, j :: 0 <= i < j < |sys.calls| && sys.calls[i].HasInserted() && sys.calls[j].HasInserted() ==>
          sys.calls[i].event.commitId != sys.calls[j].event.commitId)
  }

  /** A call past the interlock satisfies every binding but, possibly by now, the use count. */
  ghost predicate BoundButForUses(s: Scheme, st: HostState, a: Authorization, event: CommitEvent, token: Option<string>)
  {
    forall d :: d != UseCount ==>
      OutcomeOf(s, d, a, event,
                Grounds(At(st.epochs, event.committedAt), Some(st.secret), Some(0), token)).Satisfied()
  }

  ghost predicate PastInterlock(c: Call) {
    c.guarded && (c.pc.Spending? || c.pc.Inserting? || c.HasInserted())
  }

  ghost predicate CallIsBound(s: Scheme, st: HostState, c: Call) {
    PastInterlock(c) ==>
      RecordFor(st, c).Some? && BoundButForUses(s, st, RecordFor(st, c).value, c.event, c.token)
  }

  ghost predicate RowIsBound(s: Scheme, st: HostState, row: Row) {
    !IsHidden(row) ==> Registered(st, row) && BoundButForUses(s, st, RecordOf(st, row), row.event, row.token)
  }

  ghost predicate SystemInv(s: Scheme, sys: System) {
    && FiledById(sys.host.authorizations)
    && UniqueIds(sys.host.rows)
    && UniqueKeys(sys.host.rows)
    && (forall i :: 0 <= i < |sys.calls| ==> CallWellFormed(sys.calls[i]) && CallIsBound(s, sys.host, sys.calls[i]))
    && (forall row :: row in sys.host.rows ==> RowIsBound(s, sys.host, row))
    && ReceiptsMatchRows(sys.host)
    && RowsAreAccountedFor(sys)
    && InsertedCallsOwnTheirRows(sys)
  }

  lemma ReceiptIdsNameCommits(a: CommitEvent, b: CommitEvent)
    requires ReceiptOf(a).receiptId == ReceiptOf(b).receiptId
    ensures a.commitId == b.commitId
  {
    var n := |"receipt-"|;
    assert ReceiptOf(a).receiptId[n..] == a.commitId;
    assert ReceiptOf(b).receiptId[n..] == b.commitId;
  }

  /** The telemetry store's own key is never violated. */
  lemma ReceiptNeverClashes(s: Scheme, sys: System, i: nat)
    requires SystemInv(s, sys) && i < |sys.calls| && sys.calls[i].pc.Receipting?
    ensures forall r :: r in sys.host.receipts ==> r.receiptId != ReceiptOf(sys.calls[i].event).receiptId
  {
    var c := sys.calls[i];
    forall r | r in sys.host.receipts ensures r.receiptId != ReceiptOf(c.event).receiptId {
      var row :| row in sys.host.rows && r == ReceiptOf(row.event);
      if r.receiptId == ReceiptOf(c.event).receiptId {
        ReceiptIdsNameCommits(row.event, c.event);
        assert false;
      }
    }
  }

  /** Only the moving call and the tables no other invariant reads have changed. */
  ghost predicate QuietMove(sys: System, next: System, i: nat) {
    && i < |sys.calls| == |next.calls| && next.before == sys.before
    && next.host == sys.host.(uses := next.host.uses, arrivals := next.host.arrivals)
    && next.calls == sys.calls[i := sys.calls[i].(pc := next.calls[i].pc)]
    && !sys.calls[i].HasInserted() && !sys.calls[i].Over() && !next.calls[i].HasInserted()
    && (sys.calls[i].pc.Refusing? || !next.calls[i].pc.Finished?)
  }

  lemma CallBindingIgnoresCounts(s: Scheme, st: HostState, next: HostState, c: Call)
    requires next == st.(uses := next.uses, arrivals := next.arrivals, receipts := next.receipts, rows := next.rows)
    ensures CallIsBound(s, next, c) == CallIsBound(s, st, c)
  {
    assert RecordFor(next, c) == RecordFor(st, c);
    if RecordFor(st, c).Some? {
      var a := RecordFor(st, c).value;
      assert BoundButForUses(s, next, a, c.event, c.token) == BoundButForUses(s, st, a, c.event, c.token);
    }
  }

  lemma RowBindingIgnoresCounts(s: Scheme, st: HostState, next: HostState, row: Row)
    requires next == st.(uses := next.uses, arrivals := next.arrivals, receipts := next.receipts, rows := next.rows)
    ensures RowIsBound(s, next, row) == RowIsBound(s, st, row)
  {
    if Registered(st, row) {
      var a := RecordOf(st, row);
      assert BoundButForUses(s, next, a, row.event, row.token) == BoundButForUses(s, st, a, row.event, row.token);
    }
  }

  lemma BindingsCarryOver(s: Scheme, sys: System, next: System, i: nat)
    requires SystemInv(s, sys) && i < |sys.calls|
    requires next.host == sys.host.(uses := next.host.uses, arrivals := next.host.arrivals,
                                    receipts := next.host.receipts, rows := next.host.rows)
    requires |next.calls| == |sys.calls| && next.calls == sys.calls[i := sys.calls[i].(pc := next.calls[i].pc)]
    requires PastInterlock(next.calls[i]) ==> CallIsBound(s, sys.host, next.calls[i])
    requires forall row :: row in next.host.rows ==> row in sys.host.rows || RowIsBound(s, sys.host, row)
    ensures forall j :: 0 <= j < |next.calls| ==>
      CallWellFormed(next.calls[j]) && CallIsBound(s, next.host, next.calls[j])
    ensures forall row :: row in next.host.rows ==> RowIsBound(s, next.host, row)
  {
    forall j | 0 <= j < |next.calls|
      ensures CallWellFormed(next.calls[j]) && CallIsBound(s, next.host, next.calls[j])
    {
      assert CallWellFormed(sys.calls[j]);
      CallBindingIgnoresCounts(s, sys.host, next.host, next.calls[j]);
    }
    forall row | row in next.host.rows ensures RowIsBound(s, next.host, row) {
      RowBindingIgnoresCounts(s, sys.host, next.host, row);
    }
  }

  lemma QuietMovesKeepInv(s: Scheme, sys: System, next: System, i: nat)
    requires SystemInv(s, sys) && QuietMove(sys, next, i)
    requires PastInterlock(next.calls[i]) ==> CallIsBound(s, sys.host, next.calls[i])
    ensures SystemInv(s, next)
  {
    BindingsCarryOver(s, sys, next, i);
    forall row | row in next.host.rows
      ensures || Witnessed(next.host, row)
              || (IsHidden(row) && row in next.before)
              || exists j :: 0 <= j < |next.calls| && Accounts(next.calls[j], row)
    {
      if !Witnessed(sys.host, row) && !(IsHidden(row) && row in sys.before) {
        var j :| 0 <= j < |sys.calls| && Accounts(sys.calls[j], row);
        assert next.calls[j] == sys.calls[j];
      }
    }
    assert forall row :: row in sys.host.rows ==> Witnessed(next.host, row) == Witnessed(sys.host, row);
  }

  /** The interlock's verdict, read off the report, is the binding of every dimension. */
  lemma PassingTheInterlockBinds(s: Scheme, sys: System, i: nat)
    requires i < |sys.calls| && sys.calls[i].pc.Validating?
    requires Access(s, sys.host, sys.calls[i]).1.Spending?
    ensures CallIsBound(s, sys.host, sys.calls[i].(pc := Spending))
  {
    var c := sys.calls[i];
    var a, g := RecordFor(sys.host, c), GroundsAt(sys.host, c, c.pc.prior + 1);
    ValidMeansPresent(s, a, c.event, g);
    ReportMeans(s, a.value, c.event, g);
    UsesMatterOnlyToUseCount(s, a.value, c.event, g, Some(0));
    forall d | d != UseCount
      ensures OutcomeOf(s, d, a.value, c.event, g.(uses := Some(0))).Satisfied()
    {
      assert OutcomeOf(s, d, a.value, c.event, g).Satisfied();
    }
  }

  lemma InsertingKeepsInv(s: Scheme, sys: System, i: nat)
    requires SystemInv(s, sys) && i < |sys.calls| && sys.calls[i].pc.Inserting?
    requires Insertable(sys.host.rows, sys.calls[i].event)
    ensures SystemInv(s, Perform(s, sys, Advance(i)))
  {
    var next, c := Perform(s, sys, Advance(i)), sys.calls[i];
    RecordedKeepsKeys(sys.host.rows, c.ToRow());
    assert forall row :: row in next.host.rows <==> row in sys.host.rows || row == c.ToRow();
    assert CallIsBound(s, sys.host, c) && CallWellFormed(c);
    DeclaredRoutesAreNotHidden();
    assert RowIsBound(s, sys.host, c.ToRow());
    BindingsCarryOver(s, sys, next, i);
    forall row | row in next.host.rows
      ensures || Witnessed(next.host, row)
              || (IsHidden(row) && row in next.before)
              || exists j :: 0 <= j < |next.calls| && Accounts(next.calls[j], row)
    {
      if row == c.ToRow() {
        assert Accounts(next.calls[i], row);
      } else if !Witnessed(sys.host, row) && !(IsHidden(row) && row in sys.before) {
        var j :| 0 <= j < |sys.calls| && Accounts(sys.calls[j], row);
        assert next.calls[j] == sys.calls[j];
      }
    }
    forall j | 0 <= j < |next.calls| && next.calls[j].HasInserted()
      ensures next.calls[j].ToRow() in next.host.rows && !Witnessed(next.host, next.calls[j].ToRow())
      ensures j != i ==> next.calls[j].event.commitId != c.event.commitId
    {
      if j != i {
        assert next.calls[j] == sys.calls[j];
      }
    }
  }

  lemma AnnouncingKeepsInv(s: Scheme, sys: System, i: nat)
    requires SystemInv(s, sys) && i < |sys.calls| && sys.calls[i].pc.Announcing?
    ensures SystemInv(s, Perform(s, sys, Advance(i)))
  {
    var next := Perform(s, sys, Advance(i));
    assert CallWellFormed(sys.calls[i]) && CallIsBound(s, sys.host, sys.calls[i]);
    BindingsCarryOver(s, sys, next, i);
    forall row | row in next.host.rows
      ensures || Witnessed(next.host, row)
              || (IsHidden(row) && row in next.before)
              || exists j :: 0 <= j < |next.calls| && Accounts(next.calls[j], row)
    {
      if !Witnessed(sys.host, row) && !(IsHidden(row) && row in sys.before) {
        var j :| 0 <= j < |sys.calls| && Accounts(sys.calls[j], row);
        assert Accounts(next.calls[j], row);
      }
    }
  }

  lemma ReceiptingKeepsInv(s: Scheme, sys: System, i: nat)
    requires SystemInv(s, sys) && i < |sys.calls| && sys.calls[i].pc.Receipting?
    ensures SystemInv(s, Perform(s, sys, Advance(i)))
  {
    var next, c := Perform(s, sys, Advance(i)), sys.calls[i];
    ReceiptNeverClashes(s, sys, i);
    assert next.host.receipts[|sys.host.receipts|] == ReceiptOf(c.event);
    assert forall r :: r in next.host.receipts <==> r in sys.host.receipts || r == ReceiptOf(c.event);
    BindingsCarryOver(s, sys, next, i);
    forall row | row in next.host.rows
      ensures || Witnessed(next.host, row)
              || (IsHidden(row) && row in next.before)
              || exists j :: 0 <= j < |next.calls| && Accounts(next.calls[j], row)
    {
      if row == c.ToRow() {
        assert ReceiptOf(c.event).commitId == row.event.commitId;
      } else if Witnessed(sys.host, row) {
        var r :| r in sys.host.receipts && r.commitId == row.event.commitId;
        assert r in next.host.receipts;
      } else if !(IsHidden(row) && row in sys.before) {
        var j :| 0 <= j < |sys.calls| && Accounts(sys.calls[j], row);
        assert next.calls[j] == sys.calls[j];
      }
    }
    assert c.ToRow() in sys.host.rows;
  }

  lemma StartKeepsInv(s: Scheme, sys: System, c: Call)
    requires SystemInv(s, sys) && CallWellFormed(c) && c.pc.Checking?
    ensures SystemInv(s, sys.(calls := sys.calls + [c]))
  {
    var next := sys.(calls := sys.calls + [c]);
    forall row | row in next.host.rows
      ensures || Witnessed(next.host, row)
              || (IsHidden(row) && row in next.before)
              || exists j :: 0 <= j < |next.calls| && Accounts(next.calls[j], row)
    {
      if !Witnessed(sys.host, row) && !(IsHidden(row) && row in sys.before) {
        var j :| 0 <= j < |sys.calls| && Accounts(sys.calls[j], row);
        assert next.calls[j] == sys.calls[j];
      }
    }
  }

  lemma ActionKeepsInv(s: Scheme, sys: System, act: Move)
    requires SystemInv(s, sys)
    ensures SystemInv(s, Perform(s, sys, act))
  {
    match act
    case StartGuarded(p, routeId) =>
      if p.Payload? && routeId in DECLARED_ROUTES {
        StartKeepsInv(s, sys, NewCall(s, sys.host, true, true, p, routeId));
      }
    case StartHidden(p, emit) =>
      if p.Payload? {
        StartKeepsInv(s, sys, NewCall(s, sys.host, false, emit, p, ROUTE_HIDDEN_BATCH));
      }
    case Advance(i) =>
      if i < |sys.calls| {
        AdvanceKeepsInv(s, sys, i);
      }
  }

  lemma AdvanceKeepsInv(s: Scheme, sys: System, i: nat)
    requires SystemInv(s, sys) && i < |sys.calls|
    ensures SystemInv(s, Perform(s, sys, Advance(i)))
  {
    var next, c := Perform(s, sys, Advance(i)), sys.calls[i];
    assert CallWellFormed(c) && CallIsBound(s, sys.host, c);
    if c.Over() {
      assert next.calls == sys.calls;
    } else if c.pc.Announcing? {
      AnnouncingKeepsInv(s, sys, i);
    } else if c.pc.Receipting? {
      ReceiptingKeepsInv(s, sys, i);
    } else if c.pc.Inserting? && Insertable(sys.host.rows, c.event) {
      InsertingKeepsInv(s, sys, i);
    } else {
      if c.pc.Validating? && next.calls[i].pc.Spending? {
        PassingTheInterlockBinds(s, sys, i);
      }
      QuietMovesKeepInv(s, sys, next, i);
    }
  }

  /** Every interleaving keeps the invariant: unique keys, matching receipts, every row accounted for. */
  lemma {:induction false} EveryInterleavingKeepsInv(s: Scheme, sys: System, moves: seq<Move>)
    requires Begin(s, sys)
    ensures SystemInv(s, Execute(s, sys, moves))
  {
    if moves == [] {
    } else {
      EveryInterleavingKeepsInv(s, sys, moves[..|moves| - 1]);
      ActionKeepsInv(s, Execute(s, sys, moves[..|moves| - 1]), moves[|moves| - 1]);
    }
  }

  /** In every interleaving a record with a bound idempotency key has at most one row that satisfies its bindings. */
  lemma {:induction false} OneRowPerBoundKey(s: Scheme, sys: System, moves: seq<Move>, a: Authorization, i: nat, j: nat,
                                             g: Grounds)
    requires Begin(s, sys) && a.idempotencyKey != NOT_APPLICABLE
    requires var rows := Execute(s, sys, moves).host.rows;
      && i < |rows| && j < |rows|
      && OutcomeOf(s, IdempotencyBinding, a, rows[i].event, g).Satisfied()
      && OutcomeOf(s, IdempotencyBinding, a, rows[j].event, g).Satisfied()
    ensures i == j
  {
    EveryInterleavingKeepsInv(s, sys, moves);
    var rows := Execute(s, sys, moves).host.rows;
    assert rows[i].event.idempotencyKey == a.idempotencyKey == rows[j].event.idempotencyKey;
  }

  lemma {:induction false} StoresGrow(s: Scheme, sys: System, moves: seq<Move>)
    ensures var end := Execute(s, sys, moves);
      end.before == sys.before && sys.host.rows <= end.host.rows && end.host.authorizations == sys.host.authorizations
  {
    if moves == [] {
    } else {
      StoresGrow(s, sys, moves[..|moves| - 1]);
      MoveGrows(s, Execute(s, sys, moves[..|moves| - 1]), moves[|moves| - 1]);
    }
  }

  lemma MoveGrows(s: Scheme, sys: System, act: Move)
    ensures var end := Perform(s, sys, act);
      end.before == sys.before && sys.host.rows <= end.host.rows && end.host.authorizations == sys.host.authorizations
  {
    if act.Advance? && act.call < |sys.calls| {
      AccessGrows(s, sys.host, sys.calls[act.call]);
    }
  }

  lemma AccessGrows(s: Scheme, st: HostState, c: Call)
    ensures var next := Access(s, st, c).0; st.rows <= next.rows && next.authorizations == st.authorizations
  {
  }

  /** When every call is over, every row is witnessed unless a hidden call was told to stay silent: one of these, or one
      before. */
  lemma QuiescentRowsAreWitnessed(s: Scheme, sys: System, moves: seq<Move>, row: Row)
    requires Begin(s, sys)
    requires Quiescent(Execute(s, sys, moves)) && row in Execute(s, sys, moves).host.rows
    ensures var end := Execute(s, sys, moves);
      || Witnessed(end.host, row)
      || (IsHidden(row) && row in sys.host.rows)
      || (exists i :: 0 <= i < |end.calls| && end.calls[i].ToRow() == row && !end.calls[i].guarded
                      && !end.calls[i].emitReceipt)
  {
    EveryInterleavingKeepsInv(s, sys, moves);
    var end := Execute(s, sys, moves);
    StoresGrow(s, sys, moves);
    if !Witnessed(end.host, row) && !(IsHidden(row) && row in end.before) {
      var j :| 0 <= j < |end.calls| && Accounts(end.calls[j], row);
    }
  }

  // ----- arrivals against rows -----

  function RowsOn(rows: seq<Row>, route: string): nat {
    if rows == [] then 0
    else RowsOn(rows[..|rows| - 1], route) + if rows[|rows| - 1].event.routeId == route then 1 else 0
  }

  function CommittedOn(arrivals: seq<Arrival>, route: string): nat {
    if arrivals == [] then 0
    else
      var last := arrivals[|arrivals| - 1];
      CommittedOn(arrivals[..|arrivals| - 1], route) + if last.committed && last.routeId == route then 1 else 0
  }

  function CountCalls(calls: seq<Call>, p: Call -> bool): nat {
    if calls == [] then 0
    else CountCalls(calls[..|calls| - 1], p) + if p(calls[|calls| - 1]) then 1 else 0
  }

  lemma {:induction false} MovedCallCounts(calls: seq<Call>, i: nat, c: Call, p: Call -> bool)
    requires i < |calls|
    ensures CountCalls(calls[i := c], p) + (if p(calls[i]) then 1 else 0)
      == CountCalls(calls, p) + (if p(c) then 1 else 0)
  {
    var n := |calls| - 1;
    if i < n {
      MovedCallCounts(calls[..n], i, c, p);
      assert calls[i := c][..n] == calls[..n][i := c];
    } else {
      assert calls[i := c][..n] == calls[..n];
    }
  }

  lemma {:induction false} NobodyCounts(calls: seq<Call>, p: Call -> bool)
    requires forall c :: c in calls ==> !p(c)
    ensures CountCalls(calls, p) == 0
  {
    if calls == [] {
    } else {
      assert calls[|calls| - 1] in calls;
      NobodyCounts(calls[..|calls| - 1], p);
    }
  }

  lemma StartedCallCounts(calls: seq<Call>, c: Call, p: Call -> bool)
    ensures CountCalls(calls + [c], p) == CountCalls(calls, p) + if p(c) then 1 else 0
  {
    assert (calls + [c])[..|calls|] == calls;
  }

  /** The calls on `route` that have a row and no arrival yet. */
  function Announcers(route: string): Call -> bool {
    (c: Call) => c.pc.Announcing? && c.event.routeId == route
  }

  ghost predicate ArrivalsBalance(sys: System) {
    forall route ::
      RowsOn(sys.host.rows, route) == CommittedOn(sys.host.arrivals, route) + CountCalls(sys.calls, Announcers(route))
  }

  lemma AppendedArrivalCounts(arrivals: seq<Arrival>, a: Arrival, route: string)
    ensures CommittedOn(arrivals + [a], route) ==
      CommittedOn(arrivals, route) + if a.committed && a.routeId == route then 1 else 0
  {
    assert (arrivals + [a])[..|arrivals|] == arrivals;
  }

  lemma AppendedRowOnRoute(rows: seq<Row>, row: Row, route: string)
    ensures RowsOn(rows + [row], route) == RowsOn(rows, route) + if row.event.routeId == route then 1 else 0
  {
    assert (rows + [row])[..|rows|] == rows;
  }

  function Announces(c: Call, route: string): nat {
    if Announcers(route)(c) then 1 else 0
  }

  /** One access moves rows, arrivals and announcing calls in step. */
  ghost predicate StepBalances(st: HostState, next: HostState, c: Call, pc: Pc, route: string) {
    RowsOn(next.rows, route) + CommittedOn(st.arrivals, route) + Announces(c, route) ==
    RowsOn(st.rows, route) + CommittedOn(next.arrivals, route) + Announces(c.(pc := pc), route)
  }

  lemma AccessBalances(s: Scheme, st: HostState, c: Call, route: string)
    ensures StepBalances(st, Access(s, st, c).0, c, Access(s, st, c).1, route)
  {
    match c.pc
    case Inserting => InsertingBalances(s, st, c, route);
    case Announcing => AnnouncingBalances(s, st, c, route);
    case Refusing => RefusingBalances(s, st, c, route);
    case _ => AccessLeavesTheStores(s, st, c);
  }

  lemma InsertingBalances(s: Scheme, st: HostState, c: Call, route: string)
    requires c.pc.Inserting?
    ensures StepBalances(st, Access(s, st, c).0, c, Access(s, st, c).1, route)
  {
    AppendedRowOnRoute(st.rows, c.ToRow(), route);
  }

  lemma AnnouncingBalances(s: Scheme, st: HostState, c: Call, route: string)
    requires c.pc.Announcing?
    ensures StepBalances(st, Access(s, st, c).0, c, Access(s, st, c).1, route)
  {
    AppendedArrivalCounts(st.arrivals, CommittedArrival(c.event), route);
  }

  lemma RefusingBalances(s: Scheme, st: HostState, c: Call, route: string)
    requires c.pc.Refusing?
    ensures StepBalances(st, Access(s, st, c).0, c, Access(s, st, c).1, route)
  {
    AppendedArrivalCounts(st.arrivals, RefusedArrival(c.event.routeId, c.event.committedAt), route);
  }

  lemma AccessLeavesTheStores(s: Scheme, st: HostState, c: Call)
    requires !c.pc.Inserting? && !c.pc.Announcing? && !c.pc.Refusing?
    ensures var (next, pc) := Access(s, st, c);
      next.rows == st.rows && next.arrivals == st.arrivals && !pc.Announcing?
  {
  }

  lemma AdvanceKeepsBalance(s: Scheme, sys: System, i: nat)
    requires ArrivalsBalance(sys) && i < |sys.calls|
    ensures ArrivalsBalance(Perform(s, sys, Advance(i)))
  {
    var next := Perform(s, sys, Advance(i));
    forall route
      ensures RowsOn(next.host.rows, route) ==
        CommittedOn(next.host.arrivals, route) + CountCalls(next.calls, Announcers(route))
    {
      AccessBalances(s, sys.host, sys.calls[i], route);
      MovedCallCounts(sys.calls, i, next.calls[i], Announcers(route));
      assert RowsOn(sys.host.rows, route) ==
        CommittedOn(sys.host.arrivals, route) + CountCalls(sys.calls, Announcers(route));
    }
  }

  lemma {:induction false} EveryInterleavingKeepsBalance(s: Scheme, sys: System, moves: seq<Move>)
    requires Begin(s, sys)
    ensures ArrivalsBalance(Execute(s, sys, moves))
  {
    if moves == [] {
    } else {
      var mid, act := Execute(s, sys, moves[..|moves| - 1]), moves[|moves| - 1];
      EveryInterleavingKeepsBalance(s, sys, moves[..|moves| - 1]);
      if act.Advance? && act.call < |mid.calls| {
        AdvanceKeepsBalance(s, mid, act.call);
      } else {
        var next := Execute(s, sys, moves);
        forall route ensures CountCalls(next.calls, Announcers(route)) == CountCalls(mid.calls, Announcers(route)) {
          if |next.calls| > |mid.calls| {
            StartedCallCounts(mid.calls, next.calls[|mid.calls|], Announcers(route));
          }
        }
      }
    }
  }

  /** At quiescence the committed arrivals on each route are exactly the ledger rows on that route. */
  lemma QuiescentArrivalsEqualRows(s: Scheme, sys: System, moves: seq<Move>, route: string)
    requires Begin(s, sys)
    requires Quiescent(Execute(s, sys, moves))
    ensures var end := Execute(s, sys, moves);
      CommittedOn(end.host.arrivals, route) == RowsOn(end.host.rows, route)
  {
    EveryInterleavingKeepsBalance(s, sys, moves);
    var end := Execute(s, sys, moves);
    forall c | c in end.calls ensures c.Over() {
      var i :| 0 <= i < |end.calls| && end.calls[i] == c;
    }
    NobodyCounts(end.calls, Announcers(route));
  }

  // ----- what the verifier says about concurrently admitted rows -----

  /** The use count is all that concurrency can spoil: a witnessed guarded row is found clean exactly when the final
      count of its record is within the limit, and is found a crossing otherwise. */
  lemma ConcurrentFindingsHangOnTheUseCount(s: Scheme, sys: System, moves: seq<Move>, row: Row)
    requires Begin(s, sys)
    requires row in Execute(s, sys, moves).host.rows && !IsHidden(row)
    requires Witnessed(Execute(s, sys, moves).host, row)
    ensures var st := Execute(s, sys, moves).host;
      && Registered(st, row)
      && AdjudicateCommit(s, row.event, EvidenceOf(st)).disposition ==
        if UsesOf(st.uses, RecordOf(st, row).authorizationId) <= RecordOf(st, row).maxUses
        then NoCounterexample else BoundaryFailure
  {
    EveryInterleavingKeepsInv(s, sys, moves);
    BoundRowsHangOnTheUseCount(s, Execute(s, sys, moves).host, row);
  }

  lemma BoundRowsHangOnTheUseCount(s: Scheme, st: HostState, row: Row)
    requires UniqueIds(st.rows) && row in st.rows && Witnessed(st, row) && FiledById(st.authorizations)
    requires Registered(st, row) && BoundButForUses(s, st, RecordOf(st, row), row.event, row.token)
    ensures AdjudicateCommit(s, row.event, EvidenceOf(st)).disposition ==
      if UsesOf(st.uses, RecordOf(st, row).authorizationId) <= RecordOf(st, row).maxUses
      then NoCounterexample else BoundaryFailure
  {
    FindingOnHost(s, st, row);
    UseCountDecides(s, RecordOf(st, row), row.event, RowGrounds(st, row), Some(0));
  }

  // ----- one call on its own is the serial call -----

  lemma AccessMovesOn(s: Scheme, st: HostState, c: Call)
    ensures c.Over() || Access(s, st, c).1.StepsLeft() < c.pc.StepsLeft()
  {
  }

  /** Let one call run to its end with nobody in between. */
  function Complete(s: Scheme, st: HostState, c: Call): (HostState, Call)
    decreases c.pc.StepsLeft()
  {
    if c.Over() then (st, c)
    else
      AccessMovesOn(s, st, c);
      var (next, pc) := Access(s, st, c);
      Complete(s, next, c.(pc := pc))
  }

  lemma InsertedCallCompletes(s: Scheme, st: HostState, c: Call)
    requires c.pc.Inserting? && ReceiptsMatchRows(st) && CallWellFormed(c)
    ensures Complete(s, st, c).0 ==
      if Insertable(st.rows, c.event) then Recorded(st, c.event, c.token, c.emitReceipt) else st
  {
    if Insertable(st.rows, c.event) {
      var placed := Access(s, st, c).0;
      var announced := Access(s, placed, c.(pc := Announcing)).0;
      assert Complete(s, st, c) == Complete(s, placed, c.(pc := Announcing));
      if c.emitReceipt {
        assert Complete(s, placed, c.(pc := Announcing)) == Complete(s, announced, c.(pc := Receipting));
        forall r | r in st.receipts ensures r.receiptId != ReceiptOf(c.event).receiptId {
          var row :| row in st.rows && r == ReceiptOf(row.event);
          if r.receiptId == ReceiptOf(c.event).receiptId {
            ReceiptIdsNameCommits(row.event, c.event);
          }
        }
        var written := Access(s, announced, c.(pc := Receipting));
        assert written == (Recorded(st, c.event, c.token, true), Finished);
        assert Complete(s, announced, c.(pc := Receipting)) == Complete(s, written.0, c.(pc := Finished));
      } else {
        assert Complete(s, placed, c.(pc := Announcing)) == Complete(s, announced, c.(pc := Finished));
        assert st.receipts + [] == st.receipts;
      }
    }
  }

  /** Run alone, the small steps of a guarded call are the serial guarded call. */
  lemma GuardedCallAloneIsSerial(s: Scheme, st: HostState, p: Payload, routeId: string)
    requires p.Payload? && routeId in DECLARED_ROUTES && ReceiptsMatchRows(st)
    ensures Complete(s, st, NewCall(s, st, true, true, p, routeId)).0 == GuardedStep(s, st, p, routeId).0
  {
    var c := NewCall(s, st, true, true, p, routeId);
    assert RecordFor(st, c) == ClaimedAuthorization(st, p);
    DeclaredRoutesAreNotHidden();
    if KeySeen(st.rows, c.event.idempotencyKey) {
      RefusingCompletes(s, st, c.(pc := Refusing));
    } else {
      assert Complete(s, st, c) == Complete(s, st, c.(pc := Counting));
      CountedCallCompletes(s, st, p, c.(pc := Counting));
    }
  }

  lemma RefusingCompletes(s: Scheme, st: HostState, c: Call)
    requires c.pc.Refusing?
    ensures Complete(s, st, c).0 == RefusedBy(st, c)
  {
  }

  lemma CountedCallCompletes(s: Scheme, st: HostState, p: Payload, c: Call)
    requires p.Payload? && c.pc.Counting? && c.guarded && CallWellFormed(c) && ReceiptsMatchRows(st)
    requires c.event.committedAt == p.committedAt && c.token == p.token
    requires RecordFor(st, c) == ClaimedAuthorization(st, p)
    ensures Complete(s, st, c).0 == InterlockStep(s, st, p, c.event).0
  {
    if RecordFor(st, c).None? {
      UnregisteredCallCompletes(s, st, p, c);
    } else {
      var a := RecordFor(st, c).value;
      RegisteredCallCompletes(s, st, p, c, a);
      AdmissionIsDecided(s, st, p, c.event, a);
    }
  }

  lemma RegisteredCallCompletes(s: Scheme, st: HostState, p: Payload, c: Call, a: Authorization)
    requires p.Payload? && c.pc.Counting? && c.guarded && CallWellFormed(c) && ReceiptsMatchRows(st)
    requires c.event.committedAt == p.committedAt && c.token == p.token
    requires RecordFor(st, c) == ClaimedAuthorization(st, p) == Some(a)
    ensures Complete(s, st, c).0 == Decided(s, st, c.event, a, AdmissionGrounds(st, p))
  {
    var validating := c.(pc := Validating(UsesOf(st.uses, a.authorizationId)));
    SameGrounds(st, p, validating, a);
    CountingReadsTheCount(s, st, c, a);
    ValidatedCallCompletes(s, st, validating, a, AdmissionGrounds(st, p));
  }

  /** What the interlock does with a record on given grounds. */
  function Decided(s: Scheme, st: HostState, event: CommitEvent, a: Authorization, g: Grounds): HostState {
    if IsValid(ReportOn(s, Some(a), event, g)) then AdmitStep(st, a, event, g.token).0
    else Refused(st, event.routeId, event.committedAt)
  }

  lemma CountingReadsTheCount(s: Scheme, st: HostState, c: Call, a: Authorization)
    requires c.pc.Counting? && RecordFor(st, c) == Some(a)
    ensures Complete(s, st, c) == Complete(s, st, c.(pc := Validating(UsesOf(st.uses, a.authorizationId))))
  {
  }

  lemma SameGrounds(st: HostState, p: Payload, c: Call, a: Authorization)
    requires p.Payload? && c.event.committedAt == p.committedAt && c.token == p.token
    requires ClaimedAuthorization(st, p) == Some(a)
    ensures GroundsAt(st, c, UsesOf(st.uses, a.authorizationId) + 1) == AdmissionGrounds(st, p)
  {
  }

  lemma AdmissionIsDecided(s: Scheme, st: HostState, p: Payload, event: CommitEvent, a: Authorization)
    requires p.Payload? && ClaimedAuthorization(st, p) == Some(a)
    ensures InterlockStep(s, st, p, event).0 == Decided(s, st, event, a, AdmissionGrounds(st, p))
  {
  }

  lemma UnregisteredCallCompletes(s: Scheme, st: HostState, p: Payload, c: Call)
    requires p.Payload? && c.pc.Counting? && RecordFor(st, c).None? && ClaimedAuthorization(st, p).None?
    ensures Complete(s, st, c).0 == InterlockStep(s, st, p, c.event).0
  {
    assert Complete(s, st, c) == Complete(s, st, c.(pc := Refusing));
    RefusingCompletes(s, st, c.(pc := Refusing));
  }

  lemma ValidatedCallCompletes(s: Scheme, st: HostState, c: Call, a: Authorization, g: Grounds)
    requires c.pc.Validating? && c.guarded && CallWellFormed(c) && ReceiptsMatchRows(st) && RecordFor(st, c) == Some(a)
    requires g == GroundsAt(st, c, c.pc.prior + 1)
    ensures Complete(s, st, c).0 == Decided(s, st, c.event, a, g)
  {
    if IsValid(ReportOn(s, Some(a), c.event, g)) {
      ValidationMoves(s, st, c, a, g, Spending);
      SpendingCallCompletes(s, st, c.(pc := Spending), a);
    } else {
      ValidationMoves(s, st, c, a, g, Refusing);
      RefusingCompletes(s, st, c.(pc := Refusing));
    }
  }

  lemma ValidationMoves(s: Scheme, st: HostState, c: Call, a: Authorization, g: Grounds, pc: Pc)
    requires c.pc.Validating? && RecordFor(st, c) == Some(a) && g == GroundsAt(st, c, c.pc.prior + 1)
    requires pc == if IsValid(ReportOn(s, Some(a), c.event, g)) then Spending else Refusing
    ensures Access(s, st, c) == (st, pc) && Complete(s, st, c) == Complete(s, st, c.(pc := pc))
  {
  }

  lemma SpendingCallCompletes(s: Scheme, st: HostState, c: Call, a: Authorization)
    requires c.pc.Spending? && c.guarded && CallWellFormed(c) && ReceiptsMatchRows(st) && RecordFor(st, c) == Some(a)
    ensures Complete(s, st, c).0 == AdmitStep(st, a, c.event, c.token).0
  {
    var used := st.(uses := WithUse(st.uses, a.authorizationId));
    assert Complete(s, st, c) == Complete(s, used, c.(pc := Inserting));
    InsertedCallCompletes(s, used, c.(pc := Inserting));
  }

  /** Run alone, the small steps of a hidden call are the serial hidden call. */
  lemma HiddenCallAloneIsSerial(s: Scheme, st: HostState, p: Payload, emit: bool)
    requires p.Payload? && ReceiptsMatchRows(st)
    ensures Complete(s, st, NewCall(s, st, false, emit, p, ROUTE_HIDDEN_BATCH)).0 == HiddenStep(s, st, p, emit).0
  {
    var c := NewCall(s, st, false, emit, p, ROUTE_HIDDEN_BATCH);
    if KeySeen(st.rows, c.event.idempotencyKey) {
      RefusingCompletes(s, st, c.(pc := Refusing));
    } else {
      assert Complete(s, st, c) == Complete(s, st, c.(pc := Inserting));
      InsertedCallCompletes(s, st, c.(pc := Inserting));
    }
  }
}
