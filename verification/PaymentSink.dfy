/** The in-memory payment ledger with its interlock and observer (oat/consequence/sink.py:33-161). */
module PaymentSink {
  import opened Wrappers
  import opened Consequence
  import opened CurrentState
  import opened Authorizations
  import opened Verifier

  datatype Decision =
    | Admitted
    | IdempotencyReplay(key: string)
    | BindingNotSatisfied(failed: seq<Dimension>)

  datatype RouteObservation = RouteObservation(routeId: string, observedAt: int, admitted: bool, committed: bool,
                                               commitId: Option<string>)

  datatype SinkState = SinkState(
    secret: string,
    epochs: seq<AuthorityState>,
    uses: map<string, nat>,
    commits: seq<CommitEvent>,
    receipts: seq<Receipt>,
    routeLog: seq<RouteObservation>,
    interlockLog: seq<Decision>,
    seen: set<string>)

  /** The number of the next receipt, in at least four digits. */
  function Padded(n: nat): string {
    var digits := Decimal(n);
    if |digits| < 4 then seq(4 - |digits|, _ => '0') + digits else digits
  }

  function ReceiptId(n: nat): string { "receipt-" + Padded(n) }

  lemma ReceiptIdReadsBack(n: nat)
    ensures |ReceiptId(n)| >= |"receipt-"| && Denotes(ReceiptId(n)[|"receipt-"|..]) == n
  {
    assert ReceiptId(n)[|"receipt-"|..] == Padded(n);
    PaddedReadsBack(n);
  }

  /** The number can be read back, and has four digits or more only when it needs them. */
  lemma {:induction false} PaddedReadsBack(n: nat)
    ensures Denotes(Padded(n)) == n
    ensures |Padded(n)| >= 4 && (|Padded(n)| > 4 ==> Padded(n)[0] != '0')
  {
    var digits := Decimal(n);
    DecimalReadsBack(n);
    if |digits| < 4 {
      var k := 4 - |digits|;
      LeadingZerosCountForNothing(seq(k, _ => '0'), digits);
    } else {
      ShortZero();
    }
  }

  lemma ShortZero()
    ensures |Decimal(0)| < 4
  {
  }

  lemma {:induction false} LeadingZerosCountForNothing(zeros: string, digits: string)
    requires forall i :: 0 <= i < |zeros| ==> zeros[i] == '0'
    ensures Denotes(zeros + digits) == Denotes(digits)
  {
    var all := zeros + digits;
    if digits != "" {
      assert all[..|all| - 1] == zeros + digits[..|digits| - 1];
      LeadingZerosCountForNothing(zeros, digits[..|digits| - 1]);
    } else if zeros != "" {
      assert all[|all| - 1] == zeros[|zeros| - 1];
      assert all[..|all| - 1] == zeros[..|zeros| - 1] + "";
      LeadingZerosCountForNothing(zeros[..|zeros| - 1], "");
    } else {
    }
  }

  function CommitStep(st: SinkState, c: CommitEvent): SinkState {
    st.(commits := st.commits + [c],
        receipts := st.receipts + [Receipt(ReceiptId(|st.receipts| + 1), c.commitId, c.sinkId, c.routeId,
                                           c.committedAt, c.actionDigest)],
        routeLog := st.routeLog + [RouteObservation(c.routeId, c.committedAt, true, true, Some(c.commitId))])
  }

  function SubmitGrounds(st: SinkState, c: CommitEvent, a: Option<Authorization>, token: Option<string>): Grounds {
    Grounds(At(st.epochs, c.committedAt), Some(st.secret),
            if a.Some? then Some(UsesOf(st.uses, a.value.authorizationId) + 1) else None, token)
  }

  function DecideOn(st: SinkState, c: CommitEvent, report: Report): Decision {
    if c.idempotencyKey in st.seen then IdempotencyReplay(c.idempotencyKey)
    else if !IsValid(report) then
      var mismatches := Select(report, Mismatch);
      BindingNotSatisfied(if mismatches != [] then mismatches else Select(report, Undetermined))
    else Admitted
  }

  function ResolveStep(st: SinkState, c: CommitEvent, a: Option<Authorization>, report: Report): SinkState {
    var decision := DecideOn(st, c, report);
    var logged := st.(interlockLog := st.interlockLog + [decision]);
    if decision.Admitted? && a.Some? then
      CommitStep(logged.(uses := WithUse(st.uses, a.value.authorizationId), seen := st.seen + {c.idempotencyKey}), c)
    else
      logged.(routeLog := st.routeLog + [RouteObservation(c.routeId, c.committedAt, false, false, None)])
  }

  function Decide(s: Scheme, st: SinkState, c: CommitEvent, a: Option<Authorization>, token: Option<string>): Decision {
    DecideOn(st, c, ReportOn(s, a, c, SubmitGrounds(st, c, a, token)))
  }

  function SubmitStep(s: Scheme, st: SinkState, c: CommitEvent, a: Option<Authorization>, token: Option<string>)
    : SinkState
  {
    ResolveStep(st, c, a, ReportOn(s, a, c, SubmitGrounds(st, c, a, token)))
  }

  function UnguardedStep(st: SinkState, c: CommitEvent): SinkState {
    CommitStep(st.(seen := st.seen + {c.idempotencyKey}), c)
  }

  class PaymentLedgerSink {
    const scheme: Scheme
    const authority: AuthorityStore
    const issuer: AuthorizationIssuer
    var commits: seq<CommitEvent>
    var receipts: seq<Receipt>
    var routeLog: seq<RouteObservation>
    var interlockLog: seq<Decision>
    var seenIdempotency: set<string>

    function State(): SinkState
      reads this, authority, issuer
    {
      SinkState(issuer.secret, authority.epochs, issuer.uses, commits, receipts, routeLog, interlockLog,
                seenIdempotency)
    }

    constructor (scheme: Scheme, authority: AuthorityStore, issuer: AuthorizationIssuer)
      ensures this.scheme == scheme && this.authority == authority && this.issuer == issuer
      ensures State() == SinkState(issuer.secret, authority.epochs, issuer.uses, [], [], [], [], {})
    {
      this.scheme, this.authority, this.issuer := scheme, authority, issuer;
      commits, receipts, routeLog, interlockLog, seenIdempotency := [], [], [], [], {};
    }

    method Refuse(c: CommitEvent, decision: Decision)
      modifies this
      ensures State() == old(State()).(
        interlockLog := old(interlockLog) + [decision],
        routeLog := old(routeLog) + [RouteObservation(c.routeId, c.committedAt, false, false, None)])
    {
      interlockLog := interlockLog + [decision];
      routeLog := routeLog + [RouteObservation(c.routeId, c.committedAt, false, false, None)];
    }

    method Submit(c: CommitEvent, a: Option<Authorization>, token: Option<string>) returns (decision: Decision)
      modifies this, issuer
      ensures decision == Decide(scheme, old(State()), c, a, token)
      ensures State() == SubmitStep(scheme, old(State()), c, a, token)
    {
      var report := Assess(c, a, token);
      if IsValid(report) {
        ValidMeansPresent(scheme, a, c, SubmitGrounds(State(), c, a, token));
      }
      decision := Resolve(c, a, report);
    }

    method Assess(c: CommitEvent, a: Option<Authorization>, token: Option<string>) returns (report: Report)
      ensures report == ReportOn(scheme, a, c, SubmitGrounds(State(), c, a, token))
    {
      var authorityAtCommit := authority.Lookup(c.committedAt);
      var uses := if a.Some? then Some(UsesOf(issuer.uses, a.value.authorizationId) + 1) else None;
      report := ValidateAuthorization(scheme, a, c, Grounds(authorityAtCommit, Some(issuer.secret), uses, token));
    }

    method Resolve(c: CommitEvent, a: Option<Authorization>, report: Report) returns (decision: Decision)
      requires IsValid(report) ==> a.Some?
      modifies this, issuer
      ensures decision == DecideOn(old(State()), c, report)
      ensures State() == ResolveStep(old(State()), c, a, report)
    {
      if c.idempotencyKey in seenIdempotency {
        decision := IdempotencyReplay(c.idempotencyKey);
        Refuse(c, decision);
        return;
      }
      if !IsValid(report) {
        var failed := Select(report, Mismatch);
        if failed == [] {
          failed := Select(report, Undetermined);
        }
        decision := BindingNotSatisfied(failed);
        Refuse(c, decision);
        return;
      }
      decision := Admit(c, a.value);
    }

    method Admit(c: CommitEvent, a: Authorization) returns (decision: Decision)
      modifies this, issuer
      ensures decision == Admitted
      ensures State() == CommitStep(
        old(State()).(interlockLog := old(interlockLog) + [Admitted],
                      uses := WithUse(old(issuer.uses), a.authorizationId),
                      seen := old(seenIdempotency) + {c.idempotencyKey}), c)
    {
      var _ := issuer.RecordUse(a.authorizationId);
      seenIdempotency := seenIdempotency + {c.idempotencyKey};
      decision := Admitted;
      interlockLog := interlockLog + [decision];
      Commit(c);
    }

    method CommitUnguarded(c: CommitEvent)
      modifies this
      ensures State() == UnguardedStep(old(State()), c)
    {
      seenIdempotency := seenIdempotency + {c.idempotencyKey};
      Commit(c);
    }

    method Commit(c: CommitEvent)
      modifies this
      ensures State() == CommitStep(old(State()), c)
    {
      commits := commits + [c];
      receipts := receipts + [Receipt(ReceiptId(|receipts| + 1), c.commitId, c.sinkId, c.routeId,
                                      c.committedAt, c.actionDigest)];
      routeLog := routeLog + [RouteObservation(c.routeId, c.committedAt, true, true, Some(c.commitId))];
    }
  }

  /** Admission means that the presented record validates the commit, this use included. */
  lemma AdmittedIsValid(s: Scheme, st: SinkState, c: CommitEvent, a: Option<Authorization>, token: Option<string>)
    requires Decide(s, st, c, a, token).Admitted?
    ensures a.Some? && ValidAuthorization(s, a.value, c, SubmitGrounds(st, c, a, token))
  {
    var g := SubmitGrounds(st, c, a, token);
    ValidMeansPresent(s, a, c, g);
    ReportMeans(s, a.value, c, g);
  }

  lemma AdmittedWithinLimit(s: Scheme, st: SinkState, c: CommitEvent, a: Option<Authorization>, token: Option<string>)
    requires Decide(s, st, c, a, token).Admitted?
    ensures a.Some? && UsesOf(st.uses, a.value.authorizationId) + 1 <= a.value.maxUses
  {
    AdmittedIsValid(s, st, c, a, token);
    assert OutcomeOf(s, UseCount, a.value, c, SubmitGrounds(st, c, a, token)).Satisfied();
  }

  // ----- what every run keeps -----

  datatype Call =
    | Submit(commit: CommitEvent, authorization: Option<Authorization>, token: Option<string>)
    | Unguarded(commit: CommitEvent)

  function Step(s: Scheme, st: SinkState, call: Call): SinkState {
    match call
    case Submit(c, a, token) => SubmitStep(s, st, c, a, token)
    case Unguarded(c) => UnguardedStep(st, c)
  }

  function Run(s: Scheme, st: SinkState, calls: seq<Call>): SinkState {
    if calls == [] then st else Step(s, Run(s, st, calls[..|calls| - 1]), calls[|calls| - 1])
  }

  ghost predicate Initial(st: SinkState) {
    && st.uses == map[] && st.commits == [] && st.receipts == [] && st.routeLog == [] && st.interlockLog == []
    && st.seen == {}
  }

  /** The call that `calls[i]` makes is a submission that the interlock admits, with record `a`. */
  ghost predicate AdmittedAt(s: Scheme, st: SinkState, calls: seq<Call>, i: nat) {
    && i < |calls| && calls[i].Submit?
    && Decide(s, Run(s, st, calls[..i]), calls[i].commit, calls[i].authorization, calls[i].token).Admitted?
  }

  ghost function Admissions(s: Scheme, st: SinkState, calls: seq<Call>, id: string): nat {
    if calls == [] then 0
    else
      var n, last := |calls| - 1, calls[|calls| - 1];
      Admissions(s, st, calls[..n], id)
      + if AdmittedAt(s, st, calls, n) && last.authorization.Some? && last.authorization.value.authorizationId == id
        then 1 else 0
  }

  /** The commits observed on routes. */
  function CommittedIds(log: seq<RouteObservation>): seq<string> {
    if log == [] then []
    else
      var last := log[|log| - 1];
      CommittedIds(log[..|log| - 1])
      + if last.committed && last.commitId.Some? then [last.commitId.value] else []
  }

  ghost predicate Inv(st: SinkState) {
    && |st.receipts| == |st.commits|
    && (forall i :: 0 <= i < |st.commits| ==>
          && st.receipts[i].commitId == st.commits[i].commitId
          && st.receipts[i].actionDigest == st.commits[i].actionDigest
          && st.receipts[i].routeId == st.commits[i].routeId
          && st.receipts[i].sinkId == st.commits[i].sinkId
          && st.receipts[i].observedAt == st.commits[i].committedAt)
    && (forall key :: key in st.seen <==> exists c :: c in st.commits && c.idempotencyKey == key)
    && |CommittedIds(st.routeLog)| == |st.commits|
    && (forall i :: 0 <= i < |st.commits| ==> CommittedIds(st.routeLog)[i] == st.commits[i].commitId)
  }

  lemma CommitKeepsInv(st: SinkState, c: CommitEvent)
    requires Inv(st)
    ensures Inv(UnguardedStep(st, c))
  {
    var next := UnguardedStep(st, c);
    assert next.routeLog[..|next.routeLog| - 1] == st.routeLog;
    forall key ensures key in next.seen <==> exists x :: x in next.commits && x.idempotencyKey == key {
      if key == c.idempotencyKey {
        assert c in next.commits;
      } else if key in st.seen {
        var x :| x in st.commits && x.idempotencyKey == key;
        assert x in next.commits;
      }
    }
  }

  lemma RefusalKeepsInv(st: SinkState, o: RouteObservation, log: seq<Decision>)
    requires Inv(st) && !o.committed
    ensures Inv(st.(interlockLog := log, routeLog := st.routeLog + [o]))
  {
    assert (st.routeLog + [o])[..|st.routeLog|] == st.routeLog;
    assert CommittedIds(st.routeLog) + [] == CommittedIds(st.routeLog);
  }

  lemma StepKeepsInv(s: Scheme, st: SinkState, call: Call)
    requires Inv(st)
    ensures Inv(Step(s, st, call))
  {
    match call
    case Unguarded(c) => CommitKeepsInv(st, c);
    case Submit(c, a, token) =>
      var decision := Decide(s, st, c, a, token);
      var log := st.interlockLog + [decision];
      if decision.Admitted? && a.Some? {
        CommitKeepsInv(st, c);
        CommitKeepsInv(st.(interlockLog := log, uses := WithUse(st.uses, a.value.authorizationId)), c);
      } else {
        RefusalKeepsInv(st, RouteObservation(c.routeId, c.committedAt, false, false, None), log);
      }
  }

  /** Over every run: each commit has its own receipt of the same digest and route, the route log shows the commits in
      order, the seen keys are those of the commits, and the issuer's counters count admissions. */
  lemma {:induction false} RunKeepsInv(s: Scheme, st: SinkState, calls: seq<Call>, id: string)
    requires Initial(st)
    ensures Inv(Run(s, st, calls))
    ensures UsesOf(Run(s, st, calls).uses, id) == Admissions(s, st, calls, id)
  {
    if calls == [] {
    } else {
      var front, last := calls[..|calls| - 1], calls[|calls| - 1];
      RunKeepsInv(s, st, front, id);
      StepKeepsInv(s, Run(s, st, front), last);
      if AdmittedAt(s, st, calls, |front|) {
        ValidMeansPresent(s, last.authorization, last.commit,
                          SubmitGrounds(Run(s, st, front), last.commit, last.authorization, last.token));
      }
    }
  }

  /** Read as numbers, the receipts of every run are numbered from 1 on, in four digits or more: no two are alike. */
  ghost predicate Numbered(receipts: seq<Receipt>) {
    forall i :: 0 <= i < |receipts| ==> receipts[i].receiptId == ReceiptId(i + 1)
  }

  lemma {:induction false} ReceiptsAreNumbered(s: Scheme, st: SinkState, calls: seq<Call>)
    requires Initial(st)
    ensures Numbered(Run(s, st, calls).receipts)
  {
    if calls == [] {
    } else {
      var front, last := calls[..|calls| - 1], calls[|calls| - 1];
      ReceiptsAreNumbered(s, st, front);
      NumberingGoesOn(s, Run(s, st, front), last);
    }
  }

  lemma NumberingGoesOn(s: Scheme, st: SinkState, call: Call)
    requires Numbered(st.receipts)
    ensures Numbered(Step(s, st, call).receipts)
  {
    match call
    case Submit(c, a, token) => ResolvingNumbers(st, c, a, ReportOn(s, a, c, SubmitGrounds(st, c, a, token)));
    case Unguarded(c) => NextReceipt(st, c);
  }

  lemma ResolvingNumbers(st: SinkState, c: CommitEvent, a: Option<Authorization>, report: Report)
    requires Numbered(st.receipts)
    ensures Numbered(ResolveStep(st, c, a, report).receipts)
  {
    NextReceipt(st, c);
  }

  lemma NextReceipt(st: SinkState, c: CommitEvent)
    requires Numbered(st.receipts)
    ensures Numbered(CommitStep(st, c).receipts)
  {
  }

  lemma NumberedReceiptsDiffer(receipts: seq<Receipt>, i: nat, j: nat)
    requires Numbered(receipts) && i < |receipts| && j < |receipts|
    ensures receipts[i].receiptId == receipts[j].receiptId ==> i == j
    ensures receipts[i].receiptId[..|"receipt-"|] == "receipt-"
  {
    ReceiptIdReadsBack(i + 1);
    ReceiptIdReadsBack(j + 1);
  }

  /** The use bound, exact here because an admission always commits: an admission of record `a` is at most the
      `maxUses`th of its id. */
  lemma AdmissionsWithinMaxUses(s: Scheme, st: SinkState, calls: seq<Call>, i: nat)
    requires Initial(st) && AdmittedAt(s, st, calls, i)
    ensures calls[i].authorization.Some?
    ensures Admissions(s, st, calls[..i + 1], calls[i].authorization.value.authorizationId)
            <= calls[i].authorization.value.maxUses
  {
    AdmittedWithinLimit(s, Run(s, st, calls[..i]), calls[i].commit, calls[i].authorization, calls[i].token);
    RunKeepsInv(s, st, calls[..i], calls[i].authorization.value.authorizationId);
    AdmissionsGrowByOne(s, st, calls, i, calls[i].authorization.value.authorizationId);
  }

  lemma AdmissionsGrowByOne(s: Scheme, st: SinkState, calls: seq<Call>, i: nat, id: string)
    requires i < |calls|
    ensures Admissions(s, st, calls[..i + 1], id) <= Admissions(s, st, calls[..i], id) + 1
  {
    assert calls[..i + 1][..i] == calls[..i];
  }

  /** Keys: an admitted commit's key differs from the key of every earlier commit, guarded or not. */
  lemma AdmittedKeyIsFresh(s: Scheme, st: SinkState, calls: seq<Call>, i: nat)
    requires Initial(st) && AdmittedAt(s, st, calls, i)
    ensures forall c :: c in Run(s, st, calls[..i]).commits ==> c.idempotencyKey != calls[i].commit.idempotencyKey
  {
    RunKeepsInv(s, st, calls[..i], "");
  }

  // ----- one call, written out -----

  /** One more entry in the route log. */
  ghost predicate Routed(st: SinkState, next: SinkState, c: CommitEvent, committed: bool) {
    && |next.routeLog| == |st.routeLog| + 1 && st.routeLog <= next.routeLog
    && var last := next.routeLog[|st.routeLog|];
       && last.routeId == c.routeId && last.observedAt == c.committedAt
       && last.admitted == committed && last.committed == committed
       && last.commitId == if committed then Some(c.commitId) else None
  }

  /** The commit, its receipt and its route; its key is seen from now on. */
  ghost predicate Landed(st: SinkState, next: SinkState, c: CommitEvent) {
    && next.commits == st.commits + [c]
    && |next.receipts| == |st.receipts| + 1 && st.receipts <= next.receipts
    && Routed(st, next, c, true)
    && (forall key :: key in next.seen <==> key in st.seen || key == c.idempotencyKey)
    && next == st.(commits := next.commits, receipts := next.receipts, routeLog := next.routeLog, seen := next.seen,
                   uses := next.uses, interlockLog := next.interlockLog)
  }

  /** A submission decided in the three ways: every decision is logged, and only an admission lands, spending a use. */
  ghost predicate Decided(st: SinkState, next: SinkState, c: CommitEvent, a: Option<Authorization>, d: Decision) {
    && next.interlockLog == st.interlockLog + [d]
    && (if d.Admitted? then
          && a.Some? && Landed(st, next, c)
          && forall id :: UsesOf(next.uses, id) ==
                          UsesOf(st.uses, id) + if id == a.value.authorizationId then 1 else 0
        else
          && Routed(st, next, c, false)
          && next == st.(interlockLog := next.interlockLog, routeLog := next.routeLog))
  }

  lemma ResolvingWrittenOut(st: SinkState, c: CommitEvent, a: Option<Authorization>, report: Report)
    requires IsValid(report) ==> a.Some?
    ensures Decided(st, ResolveStep(st, c, a, report), c, a, DecideOn(st, c, report))
  {
  }

  /** A submission in full: a seen key is refused first, then what the record does not validate, this use included. */
  lemma SubmissionWrittenOut(s: Scheme, st: SinkState, c: CommitEvent, a: Option<Authorization>, token: Option<string>)
    ensures var d := Decide(s, st, c, a, token);
      && Decided(st, SubmitStep(s, st, c, a, token), c, a, d)
      && (c.idempotencyKey in st.seen <==> d == IdempotencyReplay(c.idempotencyKey))
      && (c.idempotencyKey !in st.seen ==>
            (d.Admitted? <==> a.Some? && ValidAuthorization(s, a.value, c, SubmitGrounds(st, c, a, token)))
            && !d.IdempotencyReplay?)
  {
    var g := SubmitGrounds(st, c, a, token);
    var report := ReportOn(s, a, c, g);
    if IsValid(report) {
      ValidMeansPresent(s, a, c, g);
    }
    if a.Some? {
      ReportMeans(s, a.value, c, g);
    }
    ResolvingWrittenOut(st, c, a, report);
  }

  lemma SubmitGroundsWrittenOut(st: SinkState, c: CommitEvent, a: Option<Authorization>, token: Option<string>)
    ensures var g := SubmitGrounds(st, c, a, token);
      && g.authority == At(st.epochs, c.committedAt) && g.issuer == Some(st.secret) && g.token == token
      && g.uses.Some? == a.Some?
      && (a.Some? ==> g.uses.value == UsesOf(st.uses, a.value.authorizationId) + 1)
  {
  }

  /** A refusal on the bindings names the contradicted dimensions, or, when none is, those that lack something. */
  lemma RefusalNamesDimensions(s: Scheme, st: SinkState, c: CommitEvent, a: Authorization, token: Option<string>)
    requires Decide(s, st, c, Some(a), token).BindingNotSatisfied?
    ensures var failed, g := Decide(s, st, c, Some(a), token).failed, SubmitGrounds(st, c, Some(a), token);
      if exists d :: Contradicts(s, d, a, c, g) then forall d :: d in failed <==> Contradicts(s, d, a, c, g)
      else forall d :: d in failed <==> Lacks(d, a, g)
  {
    var g := SubmitGrounds(st, c, Some(a), token);
    ReportWrittenOut(s, a, c, g);
    var mismatches := Select(ReportOn(s, Some(a), c, g), Mismatch);
    if mismatches != [] {
      assert mismatches[0] in mismatches;
    }
  }

  lemma NoRecordIsNamed(s: Scheme, st: SinkState, c: CommitEvent, token: Option<string>)
    requires c.idempotencyKey !in st.seen
    ensures Decide(s, st, c, None, token) == BindingNotSatisfied([AuthorizationPresent])
  {
  }

  lemma UnguardedWrittenOut(st: SinkState, c: CommitEvent)
    ensures var next := UnguardedStep(st, c);
      Landed(st, next, c) && next.uses == st.uses && next.interlockLog == st.interlockLog
  {
  }

  // ----- the reference nobody compares -----

  /** Evidence gathered for an admitted commit: receipt, record, authority, issuer, use count and token are there. */
  ghost predicate Gathered(s: Scheme, st: SinkState, c: CommitEvent, a: Authorization, token: Option<string>,
                           e: Evidence) {
    && e.Witnessed(c.commitId)
    && FiledById(e.authorizations) && Get(e.authorizations, a.authorizationId) == Some(a)
    && e.authority.Some? && At(e.authority.value, c.committedAt) == At(st.epochs, c.committedAt)
    && e.issuer == Some(st.secret)
    && Get(e.tokens, c.commitId) == token
    && a.authorizationId in e.useCounts && e.useCounts[a.authorizationId] <= a.maxUses
  }

  /** The interlock checks the presented record, the verifier the one the commit refers to, and nothing compares the
      two. An admitted commit is found clean exactly when its reference names the presented record; it is a failure when
      it refers to nothing or to another record in evidence, and unknown when the reference is not in evidence. */
  lemma AdmittedIsCleanIff(s: Scheme, st: SinkState, c: CommitEvent, a: Authorization, token: Option<string>,
                           e: Evidence)
    requires s.CollisionFree() && Decide(s, st, c, Some(a), token).Admitted? && Gathered(s, st, c, a, token, e)
    ensures AdjudicateCommit(s, c, e).disposition == NoCounterexample <==>
      c.authorizationRef == Some(a.authorizationId) && a.authorizationId != ""
    ensures AdjudicateCommit(s, c, e).disposition == BoundaryFailure <==>
      c.authorizationRef.None? || (e.Referenced(c).Some? && e.Referenced(c) != Some(a))
  {
    FindingMeans(s, c, e);
    PresentedRecordStillValid(s, st, c, a, token, e);
    if e.Referenced(c).Some? && e.Referenced(c).value != a {
      OtherRecordMismatches(s, e.Referenced(c).value, c, e.GroundsFor(c, c.authorizationRef.value));
    }
  }

  lemma PresentedRecordStillValid(s: Scheme, st: SinkState, c: CommitEvent, a: Authorization, token: Option<string>,
                                  e: Evidence)
    requires s.CollisionFree() && Decide(s, st, c, Some(a), token).Admitted? && Gathered(s, st, c, a, token, e)
    ensures ValidAuthorization(s, a, c, e.GroundsFor(c, a.authorizationId))
    ensures token == Some(s.authorizationDigest(a))
  {
    var g, h := SubmitGrounds(st, c, Some(a), token), e.GroundsFor(c, a.authorizationId);
    AdmittedIsValid(s, st, c, Some(a), token);
    ValidTokenIsDigest(s, a, c, g);
    assert h.(uses := g.uses) == g;
    ValidWithFewerUses(s, a, c, g, h);
  }
}
