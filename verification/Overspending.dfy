/** When overlapping guarded calls can leave a record overspent: the count is read before the use is recorded, and the
    use is recorded before the ledger's keys are checked (oat/integration/host_sink.py:313-339). */
module Overspending {
  import opened Wrappers
  import opened Consequence
  import opened CurrentState
  import opened Authorizations
  import opened Verifier
  import opened HostSink
  import opened HostRuns
  import opened Interleaving
  import opened ConcurrentUses

  // ----- building interleavings -----

  lemma OneMore(s: Scheme, sys: System, moves: seq<Move>, mid: System, act: Move) returns (more: seq<Move>)
    requires Execute(s, sys, moves) == mid
    ensures Execute(s, sys, more) == Perform(s, mid, act)
    ensures act.Advance? ==> Launched(more) == Launched(moves)
    ensures act.StartGuarded? && act.payload.Payload? && act.routeId in DECLARED_ROUTES ==>
      Launched(more) == Launched(moves) + [act.payload]
  {
    more := moves + [act];
    assert more[..|moves|] == moves;
  }

  lemma OneAccess(s: Scheme, sys: System, moves: seq<Move>, mid: System, i: nat, host: HostState, pc: Pc)
    returns (more: seq<Move>)
    requires Execute(s, sys, moves) == mid && i < |mid.calls|
    requires Access(s, mid.host, mid.calls[i]) == (host, pc)
    ensures Execute(s, sys, more) == mid.(host := host, calls := mid.calls[i := mid.calls[i].(pc := pc)])
    ensures Launched(more) == Launched(moves)
  {
    more := OneMore(s, sys, moves, mid, Advance(i));
  }

  lemma LastUpdateWins(calls: seq<Call>, i: nat, c: Call, d: Call)
    requires i < |calls|
    ensures calls[i := c][i := d] == calls[i := d]
  {
  }

  lemma InterlockAccesses(s: Scheme, st: HostState, c: Call, a: Authorization, prior: nat)
    requires c.pc.Checking? && c.guarded && !KeySeen(st.rows, c.event.idempotencyKey)
    requires RecordFor(st, c) == Some(a) && prior == UsesOf(st.uses, a.authorizationId)
    requires ValidAuthorization(s, a, c.event, GroundsAt(st, c, prior + 1))
    ensures Access(s, st, c) == (st, Counting)
    ensures Access(s, st, c.(pc := Counting)) == (st, Validating(prior))
    ensures Access(s, st, c.(pc := Validating(prior))) == (st, Spending)
  {
    ValidationPasses(s, st, c.(pc := Validating(prior)), a);
  }

  lemma ValidationPasses(s: Scheme, st: HostState, c: Call, a: Authorization)
    requires c.pc.Validating? && RecordFor(st, c) == Some(a)
    requires ValidAuthorization(s, a, c.event, GroundsAt(st, c, c.pc.prior + 1))
    ensures Access(s, st, c) == (st, Spending)
  {
    var g := GroundsAt(st, c, c.pc.prior + 1);
    ReportMeans(s, a, c.event, g);
    ValidationMoves(s, st, c, a, g, Spending);
  }

  /** A new guarded call nothing stands in the way of. */
  ghost predicate Ready(s: Scheme, st: HostState, c: Call) {
    && c.pc.Checking? && c.guarded
    && !KeySeen(st.rows, c.event.idempotencyKey)
    && RecordFor(st, c).Some?
    && var a := RecordFor(st, c).value;
       ValidAuthorization(s, a, c.event, GroundsAt(st, c, UsesOf(st.uses, a.authorizationId) + 1))
  }

  /** Three accesses take an admissible call through the interlock; the host does not change. */
  lemma ThroughTheInterlock(s: Scheme, sys: System, moves: seq<Move>, mid: System, i: nat)
    returns (more: seq<Move>)
    requires Execute(s, sys, moves) == mid
    requires i < |mid.calls| && Ready(s, mid.host, mid.calls[i])
    ensures Execute(s, sys, more) == mid.(calls := mid.calls[i := mid.calls[i].(pc := Spending)])
    ensures Launched(more) == Launched(moves)
  {
    var c := mid.calls[i];
    var a := RecordFor(mid.host, c).value;
    var prior := UsesOf(mid.host.uses, a.authorizationId);
    InterlockAccesses(s, mid.host, c, a, prior);
    var counting, validating := c.(pc := Counting), c.(pc := Validating(prior));
    more := OneAccess(s, sys, moves, mid, i, mid.host, Counting);
    more := OneAccess(s, sys, more, mid.(calls := mid.calls[i := counting]), i, mid.host, Validating(prior));
    LastUpdateWins(mid.calls, i, counting, validating);
    more := OneAccess(s, sys, more, mid.(calls := mid.calls[i := validating]), i, mid.host, Spending);
    LastUpdateWins(mid.calls, i, validating, c.(pc := Spending));
  }

  /** A guarded call the interlock is right to admit. */
  ghost predicate Admissible(s: Scheme, st: HostState, p: Payload) {
    && p.Payload?
    && ClaimedAuthorization(st, p).Some?
    && ValidAuthorization(s, ClaimedAuthorization(st, p).value, BuildEvent(s, st.epochs, p, ROUTE_HTTP_GUARDED),
                          AdmissionGrounds(st, p))
  }

  lemma AdmissibleCallsAreReady(s: Scheme, st: HostState, p: Payload)
    requires Admissible(s, st, p) && !KeySeen(st.rows, p.idempotencyKey)
    ensures Ready(s, st, CallOf(s, st, p)) && RecordFor(st, CallOf(s, st, p)) == ClaimedAuthorization(st, p)
  {
    var c, a := CallOf(s, st, p), ClaimedAuthorization(st, p).value;
    assert GroundsAt(st, c, UsesOf(st.uses, a.authorizationId) + 1) == AdmissionGrounds(st, p);
  }

  function CallOf(s: Scheme, st: HostState, p: Payload): Call
    requires p.Payload?
  {
    NewCall(s, st, true, true, p, ROUTE_HTTP_GUARDED)
  }

  /** Guarded calls on a host that serial runs have left, each right to be admitted on its own, all claiming the record
      `a`, their keys not used before. Beyond that nothing is asked of their commit ids and idempotency keys: they may
      all be the same request. */
  ghost predicate Claimants(s: Scheme, st: HostState, ps: seq<Payload>, a: Authorization) {
    && Begin(s, Opened(st)) && ps != []
    && forall i :: 0 <= i < |ps| ==>
         && Admissible(s, st, ps[i]) && ClaimedAuthorization(st, ps[i]) == Some(a)
         && !KeySeen(st.rows, ps[i].idempotencyKey)
  }

  /** The calls of `ps`, the first `n` of them at `there` and the others at `here`. */
  ghost predicate Lined(s: Scheme, st: HostState, ps: seq<Payload>, calls: seq<Call>, n: nat, there: Pc, here: Pc) {
    && |calls| == |ps|
    && forall i :: 0 <= i < |ps| ==>
         ps[i].Payload? && calls[i] == CallOf(s, st, ps[i]).(pc := if i < n then there else here)
  }

  function CallsOf(s: Scheme, st: HostState, ps: seq<Payload>): (calls: seq<Call>)
    requires forall i :: 0 <= i < |ps| ==> ps[i].Payload?
    ensures |calls| == |ps| && forall i :: 0 <= i < |ps| ==> calls[i] == CallOf(s, st, ps[i])
  {
    seq(|ps|, i requires 0 <= i < |ps| => CallOf(s, st, ps[i]))
  }

  lemma AllStart(s: Scheme, st: HostState, ps: seq<Payload>) returns (moves: seq<Move>)
    requires forall i :: 0 <= i < |ps| ==> ps[i].Payload?
    ensures Execute(s, Opened(st), moves) == Opened(st).(calls := CallsOf(s, st, ps))
    ensures Launched(moves) == ps
  {
    moves := [];
    for n := 0 to |ps|
      invariant Execute(s, Opened(st), moves) == Opened(st).(calls := CallsOf(s, st, ps[..n]))
      invariant Launched(moves) == ps[..n]
    {
      moves := StartOne(s, st, moves, Opened(st).(calls := CallsOf(s, st, ps[..n])), ps[n]);
      CallsGrow(s, st, ps, n);
    }
    assert ps[..|ps|] == ps;
  }

  lemma CallsGrow(s: Scheme, st: HostState, ps: seq<Payload>, n: nat)
    requires n < |ps| && forall i :: 0 <= i < |ps| ==> ps[i].Payload?
    ensures ps[..n + 1] == ps[..n] + [ps[n]]
    ensures CallsOf(s, st, ps[..n + 1]) == CallsOf(s, st, ps[..n]) + [CallOf(s, st, ps[n])]
  {
    var calls, more := CallsOf(s, st, ps[..n]), CallsOf(s, st, ps[..n + 1]);
    forall i | 0 <= i <= n ensures more[i] == if i < n then calls[i] else CallOf(s, st, ps[n]) {
      assert ps[..n + 1][i] == ps[i] && (i < n ==> ps[..n][i] == ps[i]);
    }
    AppendedSeq(calls, CallOf(s, st, ps[n]), more);
  }

  lemma AppendedSeq(calls: seq<Call>, c: Call, more: seq<Call>)
    requires |more| == |calls| + 1 && more[|calls|] == c && forall i :: 0 <= i < |calls| ==> more[i] == calls[i]
    ensures more == calls + [c]
  {
  }

  lemma StartOne(s: Scheme, st: HostState, moves: seq<Move>, mid: System, p: Payload) returns (more: seq<Move>)
    requires Execute(s, Opened(st), moves) == mid && mid.host == st && p.Payload?
    ensures Execute(s, Opened(st), more) == mid.(calls := mid.calls + [CallOf(s, st, p)])
    ensures Launched(more) == Launched(moves) + [p]
  {
    StartAddsTheCall(s, st, mid, p);
    more := OneMore(s, Opened(st), moves, mid, StartGuarded(p, ROUTE_HTTP_GUARDED));
  }

  lemma StartAddsTheCall(s: Scheme, st: HostState, mid: System, p: Payload)
    requires mid.host == st && p.Payload?
    ensures Perform(s, mid, StartGuarded(p, ROUTE_HTTP_GUARDED)) == mid.(calls := mid.calls + [CallOf(s, st, p)])
  {
  }

  /** All of them read the count before any of them records its use. */
  lemma AllPassTheInterlock(s: Scheme, st: HostState, ps: seq<Payload>, a: Authorization) returns (moves: seq<Move>)
    requires Claimants(s, st, ps, a)
    ensures var end := Execute(s, Opened(st), moves);
      end.host == st && Lined(s, st, ps, end.calls, |ps|, Spending, Checking)
    ensures Launched(moves) == ps
  {
    moves := AllStart(s, st, ps);
    var sys := Opened(st);
    assert Lined(s, st, ps, CallsOf(s, st, ps), 0, Spending, Checking);
    for n := 0 to |ps|
      invariant Execute(s, sys, moves).host == st
      invariant Lined(s, st, ps, Execute(s, sys, moves).calls, n, Spending, Checking)
      invariant Launched(moves) == ps
    {
      AdmissibleCallsAreReady(s, st, ps[n]);
      moves := ThroughTheInterlock(s, sys, moves, Execute(s, sys, moves), n);
    }
  }

  /** Then all of them record it. */
  lemma AllSpend(s: Scheme, st: HostState, ps: seq<Payload>, a: Authorization) returns (moves: seq<Move>)
    requires Claimants(s, st, ps, a)
    ensures SpentBy(s, st, ps, a, Execute(s, Opened(st), moves), |ps|)
    ensures Launched(moves) == ps
  {
    moves := AllPassTheInterlock(s, st, ps, a);
    var sys := Opened(st);
    for n := 0 to |ps|
      invariant SpentBy(s, st, ps, a, Execute(s, sys, moves), n)
      invariant Launched(moves) == ps
    {
      var mid := Execute(s, sys, moves);
      OneSpends(s, st, ps, a, mid, n);
      moves := OneMore(s, sys, moves, mid, Advance(n));
    }
  }

  /** The first `n` calls have spent their use, and nothing else has happened to the host. */
  ghost predicate SpentBy(s: Scheme, st: HostState, ps: seq<Payload>, a: Authorization, mid: System, n: nat) {
    && mid.host == st.(uses := mid.host.uses)
    && UsesOf(mid.host.uses, a.authorizationId) == UsesOf(st.uses, a.authorizationId) + n
    && Lined(s, st, ps, mid.calls, n, Inserting, Spending)
  }

  lemma OneSpends(s: Scheme, st: HostState, ps: seq<Payload>, a: Authorization, mid: System, n: nat)
    requires Claimants(s, st, ps, a) && n < |ps| && SpentBy(s, st, ps, a, mid, n)
    ensures SpentBy(s, st, ps, a, Perform(s, mid, Advance(n)), n + 1)
  {
    AdmissibleCallsAreReady(s, st, ps[n]);
    var c := mid.calls[n];
    assert RecordFor(mid.host, c) == RecordFor(st, CallOf(s, st, ps[n])) == Some(a);
    var used := mid.host.(uses := WithUse(mid.host.uses, a.authorizationId));
    assert Access(s, mid.host, c) == (used, Inserting);
  }

  // ----- running on to quiescence -----

  /** Every call is a guarded call for `id` that has spent its use; those past the ledger have found it taken or made
      it so; and all new rows are theirs. */
  ghost predicate Placing(sys: System, id: string) {
    && (forall c :: c in sys.calls ==> PlacingCall(sys.host, c, id))
    && (forall row :: row in sys.host.rows ==>
          row in sys.before || (row.event.routeId in DECLARED_ROUTES && row.event.authorizationRef == Some(id)))
  }

  ghost predicate PlacingCall(st: HostState, c: Call, id: string) {
    && c.guarded && c.emitReceipt && c.event.routeId in DECLARED_ROUTES && c.event.authorizationRef == Some(id)
    && (c.pc.Inserting? || ((c.HasInserted() || c.Over()) && !Insertable(st.rows, c.event)))
  }

  /** What running on leaves alone. */
  ghost predicate SameClaims(st: HostState, next: HostState) {
    next.uses == st.uses && next.authorizations == st.authorizations
  }

  lemma PlacingAccess(s: Scheme, st: HostState, c: Call, id: string)
    requires PlacingCall(st, c, id)
    ensures var (next, pc) := Access(s, st, c);
      && SameClaims(st, next) && PlacingCall(next, c.(pc := pc), id)
      && (next.rows == st.rows || next.rows == st.rows + [c.ToRow()])
  {
    if c.pc.Inserting? && Insertable(st.rows, c.event) {
      var next := Access(s, st, c).0;
      assert c.ToRow() in next.rows;
    }
  }

  lemma PlacingMove(s: Scheme, sys: System, i: nat, id: string)
    requires Placing(sys, id) && i < |sys.calls|
    ensures var next := Perform(s, sys, Advance(i));
      Placing(next, id) && SameClaims(sys.host, next.host)
  {
    var next, c := Perform(s, sys, Advance(i)), sys.calls[i];
    PlacingAccess(s, sys.host, c, id);
    assert forall row :: row in sys.host.rows ==> row in next.host.rows;
    forall x | x in next.calls ensures PlacingCall(next.host, x, id) {
      assert x == next.calls[i] || x in sys.calls;
    }
  }

  /** Let call `i` run to its end. */
  lemma {:induction false} OneFinishes(s: Scheme, sys: System, moves: seq<Move>, i: nat, id: string)
    returns (more: seq<Move>)
    requires var mid := Execute(s, sys, moves); Placing(mid, id) && i < |mid.calls|
    ensures var mid, end := Execute(s, sys, moves), Execute(s, sys, more);
      && Placing(end, id) && SameClaims(mid.host, end.host)
      && |end.calls| == |mid.calls| && end.calls[i].Over()
      && (forall j :: 0 <= j < |mid.calls| ==>
            end.calls[j].event == mid.calls[j].event && (j != i ==> end.calls[j] == mid.calls[j]))
    ensures Launched(more) == Launched(moves)
    decreases Execute(s, sys, moves).calls[i].pc.StepsLeft()
  {
    var mid := Execute(s, sys, moves);
    if mid.calls[i].Over() {
      more := moves;
    } else {
      AccessMovesOn(s, mid.host, mid.calls[i]);
      PlacingMove(s, mid, i, id);
      var next := OneMore(s, sys, moves, mid, Advance(i));
      more := OneFinishes(s, sys, next, i, id);
    }
  }

  lemma AllFinish(s: Scheme, sys: System, moves: seq<Move>, id: string) returns (more: seq<Move>)
    requires Placing(Execute(s, sys, moves), id)
    ensures var mid, end := Execute(s, sys, moves), Execute(s, sys, more);
      && Placing(end, id) && SameClaims(mid.host, end.host) && Quiescent(end)
      && |end.calls| == |mid.calls|
      && forall j :: 0 <= j < |mid.calls| ==> end.calls[j].event == mid.calls[j].event
    ensures Launched(more) == Launched(moves)
  {
    more := moves;
    var mid := Execute(s, sys, moves);
    for n := 0 to |mid.calls|
      invariant var end := Execute(s, sys, more);
        && Placing(end, id) && SameClaims(mid.host, end.host) && |end.calls| == |mid.calls|
        && (forall j :: 0 <= j < |mid.calls| ==> end.calls[j].event == mid.calls[j].event)
        && (forall j :: 0 <= j < n ==> end.calls[j].Over())
      invariant Launched(more) == Launched(moves)
    {
      more := OneFinishes(s, sys, more, n, id);
    }
  }

  // ----- the exact condition -----

  /** A guarded row for the record `id`. */
  ghost predicate RowFor(st: HostState, row: Row, id: string) {
    row in st.rows && !IsHidden(row) && row.event.authorizationRef == Some(id)
  }

  ghost predicate AnyRowFor(st: HostState, id: string) {
    exists row :: RowFor(st, row, id)
  }

  /** All guarded rows for `id` are witnessed, and the verifier finds them `d`. */
  ghost predicate AllFound(s: Scheme, st: HostState, id: string, d: Disposition) {
    forall row :: RowFor(st, row, id) ==>
      Witnessed(st, row) && AdjudicateCommit(s, row.event, EvidenceOf(st)).disposition == d
  }

  /** Some request gives a commit id that is not in the ledger. */
  ghost predicate SomeIdIsFree(st: HostState, ps: seq<Payload>) {
    exists i :: 0 <= i < |ps| && ps[i].Payload? && !IdSeen(st.rows, ps[i].commitId)
  }

  /** Whatever the calls are, they can overlap so that every one of them spends a use: also those that the ledger's keys
      then refuse. Each request finds its id or key taken in the end, the record has a row if it had one or some id was
      free, and all its rows are clean or all are crossings, by the number of calls. */
  lemma OverlapSpendsAll(s: Scheme, st: HostState, ps: seq<Payload>, a: Authorization) returns (moves: seq<Move>)
    requires Claimants(s, st, ps, a)
    ensures Launched(moves) == ps && Quiescent(Execute(s, Opened(st), moves))
    ensures var end := Execute(s, Opened(st), moves).host;
      && UsesOf(end.uses, a.authorizationId) == UsesOf(st.uses, a.authorizationId) + |ps|
      && (forall i :: 0 <= i < |ps| ==> IdSeen(end.rows, ps[i].commitId) || KeySeen(end.rows, ps[i].idempotencyKey))
      && (AnyRowFor(st, a.authorizationId) || SomeIdIsFree(st, ps) ==> AnyRowFor(end, a.authorizationId))
      && (forall row :: row in end.rows ==> row in st.rows || RowFor(end, row, a.authorizationId))
      && AllFound(s, end, a.authorizationId,
                  if UsesOf(st.uses, a.authorizationId) + |ps| <= a.maxUses then NoCounterexample else BoundaryFailure)
  {
    var sys, id := Opened(st), a.authorizationId;
    moves := AllSpend(s, st, ps, a);
    var spent := Execute(s, sys, moves);
    StoresGrow(s, sys, moves);
    SpentCallsArePlacing(s, st, ps, a, spent);
    moves := AllFinish(s, sys, moves, id);
    var end := Execute(s, sys, moves);
    forall i | 0 <= i < |ps|
      ensures IdSeen(end.host.rows, ps[i].commitId) || KeySeen(end.host.rows, ps[i].idempotencyKey)
    {
      assert end.calls[i] in end.calls && end.calls[i].event == CallOf(s, st, ps[i]).event;
      assert PlacingCall(end.host, end.calls[i], id);
    }
    StoresGrow(s, sys, moves);
    if AnyRowFor(st, id) || SomeIdIsFree(st, ps) {
      RecordKeepsOrGetsARow(s, st, ps, a, end);
    }
    DeclaredRoutesAreNotHidden();
    CallsClaimTheRecord(s, st, ps, a);
    PlacedRowsHangOnTheUseCount(s, sys, moves, a);
  }

  lemma RecordKeepsOrGetsARow(s: Scheme, st: HostState, ps: seq<Payload>, a: Authorization, end: System)
    requires Claimants(s, st, ps, a) && Placing(end, a.authorizationId)
    requires end.before == st.rows <= end.host.rows
    requires forall i :: 0 <= i < |ps| ==>
      IdSeen(end.host.rows, ps[i].commitId) || KeySeen(end.host.rows, ps[i].idempotencyKey)
    requires AnyRowFor(st, a.authorizationId) || SomeIdIsFree(st, ps)
    ensures AnyRowFor(end.host, a.authorizationId)
  {
    if row :| RowFor(st, row, a.authorizationId) {
      var i :| 0 <= i < |st.rows| && st.rows[i] == row;
      assert end.host.rows[i] == row;
      assert RowFor(end.host, row, a.authorizationId);
    } else {
      DeclaredRoutesAreNotHidden();
      var i :| 0 <= i < |ps| && ps[i].Payload? && !IdSeen(st.rows, ps[i].commitId);
      var row :| row in end.host.rows
        && (row.event.commitId == ps[i].commitId || row.event.idempotencyKey == ps[i].idempotencyKey);
      assert row !in st.rows;
      assert RowFor(end.host, row, a.authorizationId);
    }
  }

  lemma SpentCallsArePlacing(s: Scheme, st: HostState, ps: seq<Payload>, a: Authorization, spent: System)
    requires Claimants(s, st, ps, a) && SpentBy(s, st, ps, a, spent, |ps|) && spent.before == st.rows
    ensures Placing(spent, a.authorizationId)
  {
    CallsClaimTheRecord(s, st, ps, a);
    forall c | c in spent.calls ensures PlacingCall(spent.host, c, a.authorizationId) {
      var i :| 0 <= i < |spent.calls| && spent.calls[i] == c;
    }
  }

  lemma PlacedRowsHangOnTheUseCount(s: Scheme, sys: System, moves: seq<Move>, a: Authorization)
    requires Begin(s, sys)
    requires var end := Execute(s, sys, moves);
      && Quiescent(end) && Placing(end, a.authorizationId)
      && Get(end.host.authorizations, a.authorizationId) == Some(a)
    ensures var end := Execute(s, sys, moves).host;
      AllFound(s, end, a.authorizationId,
               if UsesOf(end.uses, a.authorizationId) <= a.maxUses then NoCounterexample else BoundaryFailure)
  {
    var end := Execute(s, sys, moves);
    forall row | RowFor(end.host, row, a.authorizationId)
      ensures Witnessed(end.host, row)
      ensures AdjudicateCommit(s, row.event, EvidenceOf(end.host)).disposition ==
        if UsesOf(end.host.uses, a.authorizationId) <= a.maxUses then NoCounterexample else BoundaryFailure
    {
      QuiescentRowsAreWitnessed(s, sys, moves, row);
      assert forall i :: 0 <= i < |end.calls| ==> end.calls[i] in end.calls;
      ConcurrentFindingsHangOnTheUseCount(s, sys, moves, row);
    }
  }

  lemma CallsClaimTheRecord(s: Scheme, st: HostState, ps: seq<Payload>, a: Authorization)
    requires Claimants(s, st, ps, a)
    ensures forall i :: 0 <= i < |ps| ==>
      && ClaimedId(ps[i]) == Some(a.authorizationId)
      && CallOf(s, st, ps[i]).event.authorizationRef == Some(a.authorizationId)
    ensures Get(st.authorizations, a.authorizationId) == Some(a)
  {
    forall i | 0 <= i < |ps|
      ensures ClaimedId(ps[i]) == Some(a.authorizationId) && Get(st.authorizations, a.authorizationId) == Some(a)
    {
      assert ClaimedAuthorization(st, ps[i]) == Some(a);
    }
    assert Get(st.authorizations, a.authorizationId) == Some(a) by {
      assert ClaimedAuthorization(st, ps[0]) == Some(a);
    }
  }

  /** A guarded row for the record, admitted by the interlock, is found a crossing. */
  ghost predicate SomeFailureFor(s: Scheme, st: HostState, id: string) {
    exists row :: RowFor(st, row, id) && Witnessed(st, row)
      && AdjudicateCommit(s, row.event, EvidenceOf(st)).disposition == BoundaryFailure
  }

  lemma {:induction false} ClaimsOfClaimants(ps: seq<Payload>, id: string)
    requires forall i :: 0 <= i < |ps| ==> ps[i].Payload? && ClaimedId(ps[i]) == Some(id)
    ensures ClaimsFor(ps, id) == |ps|
  {
    if ps == [] {
    } else {
      ClaimsOfClaimants(ps[..|ps| - 1], id);
    }
  }

  /** The id of some call in `ps`. */
  ghost predicate IdOfSome(ps: seq<Payload>, commitId: string) {
    exists i :: 0 <= i < |ps| && ps[i].Payload? && ps[i].commitId == commitId
  }

  /** Guarded calls, and the guarded rows that were not there before, carry the ids of the calls made. */
  lemma {:induction false} NewRowsAreOfCalls(s: Scheme, sys: System, moves: seq<Move>)
    requires Begin(s, sys)
    ensures var end, ps := Execute(s, sys, moves), Launched(moves);
      && (forall c :: c in end.calls && c.guarded ==> IdOfSome(ps, c.event.commitId))
      && (forall row :: row in end.host.rows ==>
            row in sys.host.rows || IsHidden(row) || IdOfSome(ps, row.event.commitId))
  {
    if moves == [] {
    } else {
      var front, act := moves[..|moves| - 1], moves[|moves| - 1];
      NewRowsAreOfCalls(s, sys, front);
      EveryInterleavingKeepsInv(s, sys, front);
      IdsOfMoreCalls(Launched(front), Launched(moves));
      MoveKeepsIds(s, sys, Execute(s, sys, front), act, Launched(moves));
    }
  }

  lemma IdsOfMoreCalls(ps: seq<Payload>, more: seq<Payload>)
    requires ps <= more
    ensures forall id :: IdOfSome(ps, id) ==> IdOfSome(more, id)
  {
    forall id | IdOfSome(ps, id) ensures IdOfSome(more, id) {
      var i :| 0 <= i < |ps| && ps[i].Payload? && ps[i].commitId == id;
      assert more[i] == ps[i];
    }
  }

  lemma MoveKeepsIds(s: Scheme, sys: System, mid: System, act: Move, ps: seq<Payload>)
    requires forall i :: 0 <= i < |mid.calls| ==> CallWellFormed(mid.calls[i])
    requires forall c :: c in mid.calls && c.guarded ==> IdOfSome(ps, c.event.commitId)
    requires forall row :: row in mid.host.rows ==>
      row in sys.host.rows || IsHidden(row) || IdOfSome(ps, row.event.commitId)
    requires act.StartGuarded? && act.payload.Payload? && act.routeId in DECLARED_ROUTES ==>
      ps != [] && ps[|ps| - 1] == act.payload
    ensures var end := Perform(s, mid, act);
      && (forall c :: c in end.calls && c.guarded ==> IdOfSome(ps, c.event.commitId))
      && (forall row :: row in end.host.rows ==>
            row in sys.host.rows || IsHidden(row) || IdOfSome(ps, row.event.commitId))
  {
    var end := Perform(s, mid, act);
    if act.Advance? && act.call < |mid.calls| {
      var c := mid.calls[act.call];
      assert c in mid.calls;
      RowsOfAccess(s, mid.host, c);
      assert forall x :: x in end.calls ==> x in mid.calls || (x.event == c.event && x.guarded == c.guarded);
    } else if |end.calls| > |mid.calls| {
      assert forall x :: x in end.calls ==> x in mid.calls || x == end.calls[|mid.calls|];
    }
  }

  lemma RowsOfAccess(s: Scheme, st: HostState, c: Call)
    ensures forall row :: row in Access(s, st, c).0.rows ==> row in st.rows || row == c.ToRow()
  {
  }

  /** A new row's id was free. */
  lemma NewRowHadAFreeId(s: Scheme, st: HostState, ps: seq<Payload>, moves: seq<Move>, row: Row)
    requires Begin(s, Opened(st)) && Launched(moves) == ps
    requires var end := Execute(s, Opened(st), moves).host; row in end.rows && row !in st.rows && !IsHidden(row)
    ensures SomeIdIsFree(st, ps)
  {
    NewRowsAreOfCalls(s, Opened(st), moves);
    EveryInterleavingKeepsInv(s, Opened(st), moves);
    StoresGrow(s, Opened(st), moves);
    var end := Execute(s, Opened(st), moves).host;
    var i :| 0 <= i < |ps| && ps[i].Payload? && ps[i].commitId == row.event.commitId;
    NewRowsHaveNewIds(st.rows, end.rows, row);
  }

  lemma NewRowsHaveNewIds(rows: seq<Row>, more: seq<Row>, row: Row)
    requires UniqueIds(more) && rows <= more && row in more && row !in rows
    ensures !IdSeen(rows, row.event.commitId)
  {
    var k :| 0 <= k < |more| && more[k] == row;
    forall j | 0 <= j < |rows| ensures rows[j].event.commitId != row.event.commitId {
      assert more[j] == rows[j] && rows[j] in rows;
    }
  }

  /** What a crossing row of the record takes. */
  lemma FailureTakesMoreCallsThanUses(s: Scheme, st: HostState, ps: seq<Payload>, a: Authorization, moves: seq<Move>)
    requires Claimants(s, st, ps, a) && Launched(moves) == ps
    requires SomeFailureFor(s, Execute(s, Opened(st), moves).host, a.authorizationId)
    ensures UsesOf(st.uses, a.authorizationId) + |ps| > a.maxUses
    ensures AnyRowFor(st, a.authorizationId) || SomeIdIsFree(st, ps)
  {
    var sys, id := Opened(st), a.authorizationId;
    var end := Execute(s, sys, moves).host;
    var row :| RowFor(end, row, id) && Witnessed(end, row)
      && AdjudicateCommit(s, row.event, EvidenceOf(end)).disposition == BoundaryFailure;
    CallsClaimTheRecord(s, st, ps, a);
    ConcurrentFindingsHangOnTheUseCount(s, sys, moves, row);
    FinalUsesWithinClaims(s, sys, moves, id);
    ClaimsOfClaimants(ps, id);
    StoresGrow(s, sys, moves);
    if row in st.rows {
      assert RowFor(st, row, id);
    } else {
      NewRowHadAFreeId(s, st, ps, moves, row);
    }
  }

  /** For guarded calls that are each right to be admitted, some interleaving ends with a guarded row of their record
      that the verifier finds a crossing exactly when there are more calls than uses left, and the record has a row
      already or some request gives an id that is not in the ledger. */
  lemma OverspendableIff(s: Scheme, st: HostState, ps: seq<Payload>, a: Authorization)
    requires Claimants(s, st, ps, a)
    ensures (exists moves :: Launched(moves) == ps && Quiescent(Execute(s, Opened(st), moves))
                             && SomeFailureFor(s, Execute(s, Opened(st), moves).host, a.authorizationId))
      <==> UsesOf(st.uses, a.authorizationId) + |ps| > a.maxUses
           && (AnyRowFor(st, a.authorizationId) || SomeIdIsFree(st, ps))
  {
    if UsesOf(st.uses, a.authorizationId) + |ps| > a.maxUses
       && (AnyRowFor(st, a.authorizationId) || SomeIdIsFree(st, ps)) {
      var moves := OverlapSpendsAll(s, st, ps, a);
      var end := Execute(s, Opened(st), moves).host;
      var row :| RowFor(end, row, a.authorizationId);
      assert SomeFailureFor(s, end, a.authorizationId);
    }
    if moves :| Launched(moves) == ps && Quiescent(Execute(s, Opened(st), moves))
                && SomeFailureFor(s, Execute(s, Opened(st), moves).host, a.authorizationId) {
      FailureTakesMoreCallsThanUses(s, st, ps, a, moves);
    }
  }

  // ----- one request, sent twice -----

  /** A record that binds its idempotency key, with one use left, and one request for it on an empty ledger: sent twice
      at once it can spend two uses. The key still admits one row only, and that row is found a crossing. */
  lemma DuplicateOverspends(s: Scheme, st: HostState, p: Payload, a: Authorization) returns (moves: seq<Move>)
    requires Claimants(s, st, [p, p], a) && st.rows == []
    requires a.idempotencyKey != NOT_APPLICABLE && UsesOf(st.uses, a.authorizationId) + 1 == a.maxUses
    ensures Launched(moves) == [p, p] && Quiescent(Execute(s, Opened(st), moves))
    ensures var end := Execute(s, Opened(st), moves).host;
      && UsesOf(end.uses, a.authorizationId) == a.maxUses + 1
      && |end.rows| == 1 && RowFor(end, end.rows[0], a.authorizationId)
      && AdjudicateCommit(s, end.rows[0].event, EvidenceOf(end)).disposition == BoundaryFailure
  {
    var ps := [p, p];
    moves := OverlapSpendsAll(s, st, ps, a);
    var end := Execute(s, Opened(st), moves).host;
    CallsClaimTheRecord(s, st, ps, a);
    assert ps[0].Payload? && !IdSeen(st.rows, ps[0].commitId);
    OneRowForABoundKey(s, st, moves, a);
    var row :| RowFor(end, row, a.authorizationId);
    assert end.rows[0] == row;
  }

  lemma OneRowForABoundKey(s: Scheme, st: HostState, moves: seq<Move>, a: Authorization)
    requires Begin(s, Opened(st)) && a.idempotencyKey != NOT_APPLICABLE
    requires Get(st.authorizations, a.authorizationId) == Some(a)
    requires var end := Execute(s, Opened(st), moves).host;
      forall row :: row in end.rows ==> RowFor(end, row, a.authorizationId)
    ensures |Execute(s, Opened(st), moves).host.rows| <= 1
  {
    var rows := Execute(s, Opened(st), moves).host.rows;
    var g := Grounds(None, None, None, None);
    if |rows| > 1 {
      RowsBindTheKey(s, st, moves, a, rows[0], g);
      RowsBindTheKey(s, st, moves, a, rows[1], g);
      OneRowPerBoundKey(s, Opened(st), moves, a, 0, 1, g);
    }
  }

  lemma RowsBindTheKey(s: Scheme, st: HostState, moves: seq<Move>, a: Authorization, row: Row, g: Grounds)
    requires Begin(s, Opened(st)) && Get(st.authorizations, a.authorizationId) == Some(a)
    requires RowFor(Execute(s, Opened(st), moves).host, row, a.authorizationId)
    ensures OutcomeOf(s, IdempotencyBinding, a, row.event, g).Satisfied()
  {
    EveryInterleavingKeepsInv(s, Opened(st), moves);
    StoresGrow(s, Opened(st), moves);
    var end := Execute(s, Opened(st), moves).host;
    assert RowIsBound(s, end, row) && RecordOf(end, row) == a;
    assert OutcomeOf(s, IdempotencyBinding, a, row.event,
                     Grounds(At(end.epochs, row.event.committedAt), Some(end.secret), Some(0), row.token)).Satisfied();
  }
}
