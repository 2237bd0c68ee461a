/** Every lawful serial run leaves a host from which concurrent calls may begin, so what holds of interleavings holds
    after any serial past (oat/integration/host_sink.py:194-226, 313-376). */
module SerialStarts {
  import opened Wrappers
  import opened Consequence
  import opened Authorizations
  import opened Verifier
  import opened HostSink
  import opened HostRuns
  import opened Interleaving

  /** Receipts are those of rows, and rows come with their arrivals. */
  ghost predicate Kept(st: HostState) {
    && ReceiptsMatchRows(st)
    && forall route :: RowsOn(st.rows, route) == CommittedOn(st.arrivals, route)
  }

  /** The tables this is about. */
  ghost predicate SameTables(st: HostState, next: HostState) {
    next.rows == st.rows && next.receipts == st.receipts && next.arrivals == st.arrivals
  }

  lemma SameTablesKeep(st: HostState, next: HostState)
    requires Kept(st) && SameTables(st, next)
    ensures Kept(next)
  {
  }

  lemma RefusedKeeps(st: HostState, routeId: string, tick: int)
    requires Kept(st)
    ensures Kept(Refused(st, routeId, tick))
  {
    var next := Refused(st, routeId, tick);
    forall route ensures RowsOn(next.rows, route) == CommittedOn(next.arrivals, route) {
      AppendedArrivalCounts(st.arrivals, RefusedArrival(routeId, tick), route);
    }
  }

  lemma RecordedKeeps(st: HostState, event: CommitEvent, token: Option<string>, emitReceipt: bool)
    requires Kept(st)
    ensures Kept(Recorded(st, event, token, emitReceipt))
  {
    var next := Recorded(st, event, token, emitReceipt);
    forall route ensures RowsOn(next.rows, route) == CommittedOn(next.arrivals, route) {
      AppendedArrivalCounts(st.arrivals, CommittedArrival(event), route);
      AppendedRowOnRoute(st.rows, Row(event, token), route);
    }
    forall r | r in next.receipts ensures exists row :: row in next.rows && r == ReceiptOf(row.event) {
      if r in st.receipts {
        var row :| row in st.rows && r == ReceiptOf(row.event);
        assert row in next.rows;
      } else {
        assert Row(event, token) in next.rows;
      }
    }
  }

  lemma AdmissionKeeps(st: HostState, a: Authorization, event: CommitEvent, token: Option<string>)
    requires Kept(st)
    ensures Kept(AdmitStep(st, a, event, token).0)
  {
    RecordedKeeps(st.(uses := WithUse(st.uses, a.authorizationId)), event, token, true);
  }

  lemma GuardedKeeps(s: Scheme, st: HostState, p: Payload, route: string)
    requires Kept(st)
    ensures Kept(GuardedStep(s, st, p, route).0)
  {
    if p.Payload? {
      var event, auth := BuildEvent(s, st.epochs, p, route), ClaimedAuthorization(st, p);
      RefusedKeeps(st, route, event.committedAt);
      if auth.Some? {
        AdmissionKeeps(st, auth.value, event, p.token);
      }
    }
  }

  lemma HiddenKeeps(s: Scheme, st: HostState, p: Payload, emit: bool)
    requires Kept(st)
    ensures Kept(HiddenStep(s, st, p, emit).0)
  {
    if p.Payload? {
      var event := BuildEvent(s, st.epochs, p, ROUTE_HIDDEN_BATCH);
      RefusedKeeps(st, ROUTE_HIDDEN_BATCH, event.committedAt);
      RecordedKeeps(st, event, p.token, emit);
    }
  }

  lemma WorkKeeps(s: Scheme, st: HostState)
    requires Kept(st) && st.workerAlive && st.jobs != []
    ensures Kept(WorkStep(s, st).0)
  {
    var shorter := st.(jobs := st.jobs[1..]);
    SameTablesKeep(st, shorter);
    GuardedKeeps(s, shorter, st.jobs[0], ROUTE_QUEUE_WORKER);
    SameTablesKeep(GuardedStep(s, shorter, st.jobs[0], ROUTE_QUEUE_WORKER).0, WorkStep(s, st).0);
  }

  lemma {:induction false} DrainKeeps(s: Scheme, st: HostState)
    requires Kept(st)
    ensures Kept(Drain(s, st).0)
    decreases |st.jobs|
  {
    if !st.workerAlive || st.jobs == [] {
    } else {
      WorkKeeps(s, st);
      var (next, reply) := WorkStep(s, st);
      if !reply.Raised? && next.jobs != [] {
        DrainKeeps(s, next);
      }
    }
  }

  lemma StepKeeps(s: Scheme, st: HostState, ev: Event)
    requires Kept(st)
    ensures Kept(Step(s, st, ev))
  {
    match ev
    case Http(p) => GuardedKeeps(s, st, p, ROUTE_HTTP_GUARDED);
    case Async(p) =>
      SameTablesKeep(st, st.(jobs := st.jobs + [p]));
      DrainKeeps(s, st.(jobs := st.jobs + [p]));
    case Work =>
      if st.workerAlive && st.jobs != [] {
        WorkKeeps(s, st);
      }
    case Batch(p, emit) => HiddenKeeps(s, st, p, emit);
    case _ => SameTablesKeep(st, Step(s, st, ev));
  }

  lemma {:induction false} RunKeeps(s: Scheme, st: HostState, events: seq<Event>)
    requires Kept(st)
    ensures Kept(Run(s, st, events))
  {
    if events == [] {
    } else {
      RunKeeps(s, st, events[..|events| - 1]);
      StepKeeps(s, Run(s, st, events[..|events| - 1]), events[|events| - 1]);
    }
  }

  lemma BackedRowsAreBound(s: Scheme, st: HostState, row: Row)
    requires Backed(s, st, row)
    ensures RowIsBound(s, st, row)
  {
    var a, g := RecordOf(st, row), RowGrounds(st, row);
    UsesMatterOnlyToUseCount(s, a, row.event, g, Some(0));
    forall d | d != UseCount
      ensures OutcomeOf(s, d, a, row.event, g.(uses := Some(0))).Satisfied()
    {
      assert OutcomeOf(s, d, a, row.event, g).Satisfied();
    }
  }

  /** Concurrent calls may begin after any lawful serial run, and its use counts are within their limits. */
  lemma SerialRunsBegin(s: Scheme, st: HostState, events: seq<Event>)
    requires Initial(st) && LawfulRun(s, st, events)
    ensures var end := Run(s, st, events); Begin(s, Opened(end)) && UsesWithinLimits(end)
  {
    RunKeepsInv(s, st, events);
    RunKeepsRowsWithinUses(s, st, events);
    RunKeeps(s, st, events);
    var end := Run(s, st, events);
    forall row | row in end.rows ensures RowIsBound(s, end, row) && (IsHidden(row) || Witnessed(end, row)) {
      if !IsHidden(row) {
        BackedRowsAreBound(s, end, row);
      }
    }
  }
}
