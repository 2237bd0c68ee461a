/** Use counts under concurrency: what holds in every interleaving, and an order that keeps the bound
    (oat/integration/host_sink.py:313-339; oat/authority/authorization.py:151-166, 275-287). */
module ConcurrentUses {
  import opened Wrappers
  import opened Consequence
  import opened CurrentState
  import opened Authorizations
  import opened Verifier
  import opened HostSink
  import opened HostRuns
  import opened Interleaving

  // ----- rows against uses -----

  /** The guarded calls for `id` that have spent a use and not yet got a row. */
  function Spenders(id: string): Call -> bool {
    (c: Call) => c.pc.Inserting? && c.For(id)
  }

  ghost predicate RowsWithinSpentUses(sys: System) {
    forall id :: GuardedRowsFor(sys.host.rows, id) + CountCalls(sys.calls, Spenders(id)) <= UsesOf(sys.host.uses, id)
  }

  lemma AccessSpends(s: Scheme, st: HostState, c: Call, id: string)
    requires FiledById(st.authorizations) && CallWellFormed(c)
    ensures var (next, pc) := Access(s, st, c);
      GuardedRowsFor(next.rows, id) + UsesOf(st.uses, id) + (if Spenders(id)(c.(pc := pc)) then 1 else 0)
      <= GuardedRowsFor(st.rows, id) + UsesOf(next.uses, id) + (if Spenders(id)(c) then 1 else 0)
  {
    if c.pc.Inserting? {
      AppendedRowCounts(st.rows, c.ToRow(), id);
    } else {
      OnlyInsertionAddsRows(s, st, c);
    }
  }

  lemma OnlyInsertionAddsRows(s: Scheme, st: HostState, c: Call)
    requires !c.pc.Inserting?
    ensures Access(s, st, c).0.rows == st.rows
  {
  }

  lemma ActionKeepsRowsWithinSpentUses(s: Scheme, sys: System, act: Move)
    requires SystemInv(s, sys) && RowsWithinSpentUses(sys)
    ensures RowsWithinSpentUses(Perform(s, sys, act))
  {
    var next := Perform(s, sys, act);
    forall id
      ensures GuardedRowsFor(next.host.rows, id) + CountCalls(next.calls, Spenders(id)) <= UsesOf(next.host.uses, id)
    {
      assert GuardedRowsFor(sys.host.rows, id) + CountCalls(sys.calls, Spenders(id)) <= UsesOf(sys.host.uses, id);
      if act.Advance? && act.call < |sys.calls| {
        AccessSpends(s, sys.host, sys.calls[act.call], id);
        MovedCallCounts(sys.calls, act.call, next.calls[act.call], Spenders(id));
      } else if |next.calls| > |sys.calls| {
        StartedCallCounts(sys.calls, next.calls[|sys.calls|], Spenders(id));
      }
    }
  }

  lemma {:induction false} RowsNeverOutnumberUses(s: Scheme, sys: System, moves: seq<Move>)
    requires Begin(s, sys)
    ensures RowsWithinSpentUses(Execute(s, sys, moves))
  {
    if moves == [] {
    } else {
      var mid, act := Execute(s, sys, moves[..|moves| - 1]), moves[|moves| - 1];
      RowsNeverOutnumberUses(s, sys, moves[..|moves| - 1]);
      EveryInterleavingKeepsInv(s, sys, moves[..|moves| - 1]);
      ActionKeepsRowsWithinSpentUses(s, mid, act);
    }
  }

  /** In every interleaving the guarded rows of a record never outnumber its recorded uses. */
  lemma GuardedRowsWithinUses(s: Scheme, sys: System, moves: seq<Move>, id: string)
    requires Begin(s, sys)
    ensures var st := Execute(s, sys, moves).host; GuardedRowsFor(st.rows, id) <= UsesOf(st.uses, id)
  {
    RowsNeverOutnumberUses(s, sys, moves);
    var end := Execute(s, sys, moves);
    assert GuardedRowsFor(end.host.rows, id) + CountCalls(end.calls, Spenders(id)) <= UsesOf(end.host.uses, id);
  }

  lemma {:induction false} AGuardedRowCounts(rows: seq<Row>, i: nat, id: string)
    requires i < |rows| && !IsHidden(rows[i]) && rows[i].event.authorizationRef == Some(id)
    ensures GuardedRowsFor(rows, id) >= 1
  {
    if i == |rows| - 1 {
    } else {
      AGuardedRowCounts(rows[..|rows| - 1], i, id);
    }
  }

  // ----- rows and uses against calls -----

  /** The guarded calls that the moves make, in order. */
  function Launched(moves: seq<Move>): seq<Payload> {
    if moves == [] then []
    else
      var last := moves[|moves| - 1];
      Launched(moves[..|moves| - 1])
      + if last.StartGuarded? && last.payload.Payload? && last.routeId in DECLARED_ROUTES then [last.payload] else []
  }

  /** How many of them claim the record `id`. */
  function ClaimsFor(ps: seq<Payload>, id: string): nat {
    if ps == [] then 0
    else
      var last := ps[|ps| - 1];
      ClaimsFor(ps[..|ps| - 1], id) + if last.Payload? && ClaimedId(last) == Some(id) then 1 else 0
  }

  /** The guarded calls for `id` that have not spent a use so far. */
  function Unspent(id: string): Call -> bool {
    (c: Call) => c.For(id) && (c.pc.Checking? || c.pc.Counting? || c.pc.Validating? || c.pc.Spending?)
  }

  /** The guarded calls for `id` that have not come to a row so far. */
  function Unplaced(id: string): Call -> bool {
    (c: Call) =>
      c.For(id) && (c.pc.Checking? || c.pc.Counting? || c.pc.Validating? || c.pc.Spending? || c.pc.Inserting?)
  }

  /** Hidden calls never enter the interlock. */
  ghost predicate OnTrack(c: Call) {
    c.guarded || !(c.pc.Counting? || c.pc.Validating? || c.pc.Spending?)
  }

  function One(b: bool): nat {
    if b then 1 else 0
  }

  lemma AccessSpendsOwnClaim(s: Scheme, st: HostState, c: Call, id: string)
    requires FiledById(st.authorizations) && OnTrack(c)
    ensures var (next, pc) := Access(s, st, c);
      && OnTrack(c.(pc := pc))
      && UsesOf(next.uses, id) + One(Unspent(id)(c.(pc := pc))) <= UsesOf(st.uses, id) + One(Unspent(id)(c))
  {
  }

  lemma AccessPlacesOwnClaim(s: Scheme, st: HostState, c: Call, id: string)
    requires CallWellFormed(c) && OnTrack(c)
    ensures var (next, pc) := Access(s, st, c);
      GuardedRowsFor(next.rows, id) + One(Unplaced(id)(c.(pc := pc)))
      <= GuardedRowsFor(st.rows, id) + One(Unplaced(id)(c))
  {
    if c.pc.Inserting? {
      AppendedRowCounts(st.rows, c.ToRow(), id);
    } else {
      OnlyInsertionAddsRows(s, st, c);
      PlacedCallsStay(s, st, c, id);
    }
  }

  lemma PlacedCallsStay(s: Scheme, st: HostState, c: Call, id: string)
    requires OnTrack(c) && !c.pc.Inserting?
    ensures Unplaced(id)(c.(pc := Access(s, st, c).1)) ==> Unplaced(id)(c)
  {
    assert c.(pc := Access(s, st, c).1).For(id) == c.For(id);
  }

  ghost predicate ClaimsCover(start: HostState, sys: System, claims: nat, id: string) {
    && (forall i :: 0 <= i < |sys.calls| ==> OnTrack(sys.calls[i]))
    && UsesOf(sys.host.uses, id) + CountCalls(sys.calls, Unspent(id)) <= UsesOf(start.uses, id) + claims
    && GuardedRowsFor(sys.host.rows, id) + CountCalls(sys.calls, Unplaced(id))
       <= GuardedRowsFor(start.rows, id) + claims
  }

  lemma AdvanceKeepsClaims(s: Scheme, start: HostState, sys: System, i: nat, claims: nat, id: string)
    requires SystemInv(s, sys) && ClaimsCover(start, sys, claims, id) && i < |sys.calls|
    ensures ClaimsCover(start, Perform(s, sys, Advance(i)), claims, id)
  {
    var next := Perform(s, sys, Advance(i));
    AccessSpendsOwnClaim(s, sys.host, sys.calls[i], id);
    AccessPlacesOwnClaim(s, sys.host, sys.calls[i], id);
    MovedCallCounts(sys.calls, i, next.calls[i], Unspent(id));
    MovedCallCounts(sys.calls, i, next.calls[i], Unplaced(id));
  }

  lemma StartKeepsClaims(start: HostState, sys: System, c: Call, claims: nat, id: string)
    requires ClaimsCover(start, sys, claims, id) && c.pc.Checking?
    ensures ClaimsCover(start, sys.(calls := sys.calls + [c]), claims + One(c.For(id)), id)
  {
    StartedCallCounts(sys.calls, c, Unspent(id));
    StartedCallCounts(sys.calls, c, Unplaced(id));
  }

  lemma LaunchedClaims(moves: seq<Move>, act: Move, id: string)
    ensures ClaimsFor(Launched(moves + [act]), id) == ClaimsFor(Launched(moves), id)
      + One(act.StartGuarded? && act.payload.Payload? && act.routeId in DECLARED_ROUTES
            && ClaimedId(act.payload) == Some(id))
  {
    var more := moves + [act];
    assert more[..|moves|] == moves;
    var ps := Launched(moves);
    if |Launched(more)| > |ps| {
      assert Launched(more)[..|ps|] == ps;
    } else {
      assert Launched(more) == ps;
    }
  }

  /** In every interleaving the uses of a record and its guarded rows grow by at most the guarded calls that claim
      it. */
  lemma {:induction false} UsesWithinClaims(s: Scheme, sys: System, moves: seq<Move>, id: string)
    requires Begin(s, sys)
    ensures ClaimsCover(sys.host, Execute(s, sys, moves), ClaimsFor(Launched(moves), id), id)
  {
    if moves == [] {
    } else {
      var front, act := moves[..|moves| - 1], moves[|moves| - 1];
      var mid, claims := Execute(s, sys, front), ClaimsFor(Launched(front), id);
      UsesWithinClaims(s, sys, front, id);
      EveryInterleavingKeepsInv(s, sys, front);
      assert front + [act] == moves;
      LaunchedClaims(front, act, id);
      var next := Perform(s, mid, act);
      if act.Advance? && act.call < |mid.calls| {
        AdvanceKeepsClaims(s, sys.host, mid, act.call, claims, id);
      } else if |next.calls| > |mid.calls| {
        StartKeepsClaims(sys.host, mid, next.calls[|mid.calls|], claims, id);
      }
    }
  }

  lemma FinalUsesWithinClaims(s: Scheme, sys: System, moves: seq<Move>, id: string)
    requires Begin(s, sys)
    ensures var end := Execute(s, sys, moves).host;
      && UsesOf(end.uses, id) <= UsesOf(sys.host.uses, id) + ClaimsFor(Launched(moves), id)
      && GuardedRowsFor(end.rows, id) <= GuardedRowsFor(sys.host.rows, id) + ClaimsFor(Launched(moves), id)
  {
    UsesWithinClaims(s, sys, moves, id);
  }

  // ----- when the use bound holds -----

  /** Between reading the count and recording the use. */
  ghost predicate InWindow(c: Call, id: string) {
    c.event.authorizationRef == Some(id) && (c.pc.Validating? || c.pc.Spending?)
  }

  /** No two calls for one record are between count and use at the same time. */
  ghost predicate Exclusive(sys: System) {
    forall i, j, id :: 0 <= i < j < |sys.calls| ==> !(InWindow(sys.calls[i], id) && InWindow(sys.calls[j], id))
  }

  ghost predicate CountsAreCurrent(sys: System) {
    && FiledById(sys.host.authorizations)
    && UsesWithinLimits(sys.host)
    && forall i :: 0 <= i < |sys.calls| ==> CountIsCurrent(sys.host, sys.calls[i])
  }

  ghost predicate CountIsCurrent(st: HostState, c: Call) {
    && (c.pc.Validating? || c.pc.Spending? ==> RecordFor(st, c).Some?)
    && (c.pc.Validating? ==> c.pc.prior == UsesOf(st.uses, c.event.authorizationRef.value))
    && (c.pc.Spending? ==> UsesOf(st.uses, c.event.authorizationRef.value) + 1 <= RecordFor(st, c).value.maxUses)
  }

  lemma ValidationChecksTheCount(s: Scheme, st: HostState, c: Call)
    requires c.pc.Validating? && RecordFor(st, c).Some?
    requires IsValid(ReportOn(s, RecordFor(st, c), c.event, GroundsAt(st, c, c.pc.prior + 1)))
    ensures c.pc.prior + 1 <= RecordFor(st, c).value.maxUses
  {
    var a, g := RecordFor(st, c).value, GroundsAt(st, c, c.pc.prior + 1);
    ReportMeans(s, a, c.event, g);
    assert OutcomeOf(s, UseCount, a, c.event, g).Satisfied();
  }

  lemma OtherCountsStay(st: HostState, c: Call, other: Call)
    requires FiledById(st.authorizations) && RecordFor(st, c).Some? && CountIsCurrent(st, other)
    requires c.pc.Spending? && c.event.authorizationRef.Some?
    requires !InWindow(other, c.event.authorizationRef.value)
    ensures CountIsCurrent(st.(uses := WithUse(st.uses, RecordFor(st, c).value.authorizationId)), other)
  {
  }

  lemma SpendingStaysWithinLimits(st: HostState, c: Call)
    requires FiledById(st.authorizations) && UsesWithinLimits(st) && CountIsCurrent(st, c) && c.pc.Spending?
    ensures UsesWithinLimits(st.(uses := WithUse(st.uses, RecordFor(st, c).value.authorizationId)))
  {
  }

  lemma AdvanceKeepsCounts(s: Scheme, sys: System, i: nat)
    requires CountsAreCurrent(sys) && Exclusive(sys) && i < |sys.calls|
    ensures CountsAreCurrent(Perform(s, sys, Advance(i)))
  {
    var next, c := Perform(s, sys, Advance(i)), sys.calls[i];
    assert CountIsCurrent(sys.host, c);
    if c.pc.Spending? {
      SpendingStaysWithinLimits(sys.host, c);
      forall j | 0 <= j < |sys.calls| && j != i ensures CountIsCurrent(next.host, next.calls[j]) {
        var id := c.event.authorizationRef.value;
        assert InWindow(sys.calls[i], id) && CountIsCurrent(sys.host, sys.calls[j]);
        OtherCountsStay(sys.host, c, sys.calls[j]);
      }
    } else {
      MovingCallStaysCurrent(s, sys.host, c);
      assert next.host.uses == sys.host.uses && next.host.authorizations == sys.host.authorizations;
      forall j | 0 <= j < |sys.calls| && j != i ensures CountIsCurrent(next.host, next.calls[j]) {
        assert CountIsCurrent(sys.host, sys.calls[j]);
      }
    }
  }

  lemma MovingCallStaysCurrent(s: Scheme, st: HostState, c: Call)
    requires FiledById(st.authorizations) && CountIsCurrent(st, c) && !c.pc.Spending?
    ensures var (next, pc) := Access(s, st, c); CountIsCurrent(next, c.(pc := pc))
  {
    match c.pc
    case Counting => CountedIsCurrent(s, st, c);
    case Validating(_) => ValidatedIsCurrent(s, st, c);
    case _ => OthersStayOutside(s, st, c);
  }

  lemma CountedIsCurrent(s: Scheme, st: HostState, c: Call)
    requires FiledById(st.authorizations) && c.pc.Counting?
    ensures var (next, pc) := Access(s, st, c); CountIsCurrent(next, c.(pc := pc))
  {
  }

  lemma ValidatedIsCurrent(s: Scheme, st: HostState, c: Call)
    requires FiledById(st.authorizations) && CountIsCurrent(st, c) && c.pc.Validating?
    ensures var (next, pc) := Access(s, st, c); CountIsCurrent(next, c.(pc := pc))
  {
    var a, g := RecordFor(st, c).value, GroundsAt(st, c, c.pc.prior + 1);
    if IsValid(ReportOn(s, Some(a), c.event, g)) {
      ValidationMoves(s, st, c, a, g, Spending);
      ValidationChecksTheCount(s, st, c);
    } else {
      ValidationMoves(s, st, c, a, g, Refusing);
    }
  }

  lemma OthersStayOutside(s: Scheme, st: HostState, c: Call)
    requires !c.pc.Counting? && !c.pc.Validating? && !c.pc.Spending?
    ensures var pc := Access(s, st, c).1; !pc.Validating? && !pc.Spending?
  {
  }

  lemma {:induction false} ExclusiveRunsKeepCounts(s: Scheme, sys: System, moves: seq<Move>)
    requires Begin(s, sys) && UsesWithinLimits(sys.host)
    requires forall n :: 0 <= n <= |moves| ==> Exclusive(Execute(s, sys, moves[..n]))
    ensures CountsAreCurrent(Execute(s, sys, moves))
  {
    if moves == [] {
    } else {
      var front, act := moves[..|moves| - 1], moves[|moves| - 1];
      forall n | 0 <= n <= |front| ensures Exclusive(Execute(s, sys, front[..n])) {
        assert front[..n] == moves[..n];
      }
      ExclusiveRunsKeepCounts(s, sys, front);
      assert front[..|front|] == front;
      if act.Advance? && act.call < |Execute(s, sys, front).calls| {
        AdvanceKeepsCounts(s, Execute(s, sys, front), act.call);
      }
    }
  }

  /** Serialising the count-to-use window per record is enough for every witnessed guarded row to be found clean. */
  lemma ExclusiveRunsAreClean(s: Scheme, sys: System, moves: seq<Move>, row: Row)
    requires Begin(s, sys) && UsesWithinLimits(sys.host)
    requires forall n :: 0 <= n <= |moves| ==> Exclusive(Execute(s, sys, moves[..n]))
    requires row in Execute(s, sys, moves).host.rows && !IsHidden(row)
    requires Witnessed(Execute(s, sys, moves).host, row)
    ensures var st := Execute(s, sys, moves).host;
      AdjudicateCommit(s, row.event, EvidenceOf(st)).disposition == NoCounterexample
  {
    ExclusiveRunsKeepCounts(s, sys, moves);
    ConcurrentFindingsHangOnTheUseCount(s, sys, moves, row);
    var st := Execute(s, sys, moves).host;
    var id := RecordOf(st, row).authorizationId;
    GuardedRowsWithinUses(s, sys, moves, id);
    var i :| 0 <= i < |st.rows| && st.rows[i] == row;
    AGuardedRowCounts(st.rows, i, id);
  }
}
