/** Authorization records and the ValidAuthorization relation (oat/authority/authorization.py). */
module Authorizations {
  import opened Wrappers
  import opened Consequence
  import opened CurrentState
  import Delegation

  datatype Authorization = Authorization(
    authorizationId: string,
    grantId: string,
    decision: string,
    tenantId: string,
    principalId: string,
    agentId: string,
    releaseId: string,
    actionDigest: string,
    sinkId: string,
    scope: string,
    authorityStateDigest: string,
    notBefore: int,
    notAfter: int,
    idempotencyKey: string,
    maxUses: int,
    delegation: Option<Delegation.Chain>,
    integrity: string)

  /** The digests and the message authentication code, as arbitrary functions of what they are taken over. */
  datatype Scheme = Scheme(
    actionDigest: Action -> string,
    stateDigest: AuthorityState -> string,
    authorizationDigest: Authorization -> string,
    mac: (string, Authorization) -> string)
  {
    function Seal(secret: string, a: Authorization): Authorization {
      a.(integrity := mac(secret, a.(integrity := "")))
    }

    predicate Intact(secret: string, a: Authorization) {
      a.integrity == mac(secret, a.(integrity := ""))
    }

    /** Distinct records have distinct digests, and no digest is the inapplicability marker. */
    ghost predicate CollisionFree() {
      && (forall a, b :: authorizationDigest(a) == authorizationDigest(b) ==> a == b)
      && (forall a :: authorizationDigest(a) != NOT_APPLICABLE)
    }
  }

  datatype Outcome = Bound | Mismatch | Undetermined | DeclaredNotApplicable {
    predicate Satisfied() { Bound? || DeclaredNotApplicable? }
  }

  datatype Dimension =
    | AuthorizationPresent
    | PositiveDecision
    | Tenant
    | Principal
    | AgentIdentity
    | ReleaseIdentity
    | ExactActionDigest
    | SinkBinding
    | IdempotencyBinding
    | ActionScope
    | Integrity
    | ValidityInterval
    | AuthorityStateAtCommit
    | RevocationState
    | DelegationChain
    | NonAmplification
    | UseCount
    | Correlation

  /** The seventeen binding dimensions, in the order they are reported. */
  const BINDINGS: seq<Dimension> := [
    PositiveDecision, Tenant, Principal, AgentIdentity, ReleaseIdentity, ExactActionDigest, SinkBinding,
    IdempotencyBinding, ActionScope, Integrity, ValidityInterval, AuthorityStateAtCommit, RevocationState,
    DelegationChain, NonAmplification, UseCount, Correlation
  ]

  datatype DimensionResult = DimensionResult(dimension: Dimension, outcome: Outcome)

  type Report = seq<DimensionResult>

  /** What the evaluator is told beside the record and the commit; None is missing evidence. */
  datatype Grounds = Grounds(
    authority: Option<AuthorityState>,
    issuer: Option<string>,
    uses: Option<int>,
    token: Option<string>)

  function Compare(expected: Option<string>, actual: Option<string>): Outcome {
    if expected == Some(NOT_APPLICABLE) then DeclaredNotApplicable
    else if expected.None? || actual.None? then Undetermined
    else if expected == actual then Bound
    else Mismatch
  }

  function BoundIf(b: bool): Outcome {
    if b then Bound else Mismatch
  }

  /** One dimension on its own. */
  function OutcomeOf(s: Scheme, d: Dimension, a: Authorization, c: CommitEvent, g: Grounds): Outcome {
    match d
    case AuthorizationPresent => Bound
    case PositiveDecision => BoundIf(a.decision == "ALLOW")
    case Tenant => Compare(Some(a.tenantId), Some(c.tenantId))
    case Principal => Compare(Some(a.principalId), Some(c.principalId))
    case AgentIdentity => Compare(Some(a.agentId), Some(c.agentId))
    case ReleaseIdentity => Compare(Some(a.releaseId), Some(c.releaseId))
    case ExactActionDigest => Compare(Some(a.actionDigest), Some(c.actionDigest))
    case SinkBinding => Compare(Some(a.sinkId), Some(c.sinkId))
    case IdempotencyBinding => Compare(Some(a.idempotencyKey), Some(c.idempotencyKey))
    case ActionScope => if a.scope != "" then Bound else Undetermined
    case Integrity => if g.issuer.None? then Undetermined else BoundIf(s.Intact(g.issuer.value, a))
    case ValidityInterval => BoundIf(a.notBefore <= c.committedAt <= a.notAfter)
    case AuthorityStateAtCommit =>
      if g.authority.None? then Undetermined
      else Compare(Some(a.authorityStateDigest), Some(s.stateDigest(g.authority.value)))
    case RevocationState =>
      if g.authority.None? then Undetermined else BoundIf(g.authority.value.StatusOf(a.grantId).Active?)
    case DelegationChain =>
      if a.delegation.None? then DeclaredNotApplicable
      else BoundIf(Delegation.Judge(a.delegation.value, c.principalId, a.scope).Ok())
    case NonAmplification =>
      if a.delegation.None? then DeclaredNotApplicable
      else BoundIf(!Delegation.Judge(a.delegation.value, c.principalId, a.scope).AmplifiedAtLink?)
    case UseCount => if g.uses.None? then Undetermined else BoundIf(g.uses.value <= a.maxUses)
    case Correlation =>
      if g.token.None? then Undetermined else Compare(Some(s.authorizationDigest(a)), g.token)
  }

  function ReportOn(s: Scheme, a: Option<Authorization>, c: CommitEvent, g: Grounds): Report {
    if a.None? then [DimensionResult(AuthorizationPresent, Mismatch)]
    else
      seq(|BINDINGS|, i requires 0 <= i < |BINDINGS| =>
        DimensionResult(BINDINGS[i], OutcomeOf(s, BINDINGS[i], a.value, c, g)))
  }

  /** The dimensions of a report with one outcome: its `mismatches` or its `undetermined`. */
  function Select(report: Report, outcome: Outcome): (r: seq<Dimension>)
    ensures r == [] <==> forall x :: x in report ==> x.outcome != outcome
  {
    if report == [] then []
    else (if report[0].outcome == outcome then [report[0].dimension] else []) + Select(report[1..], outcome)
  }

  lemma {:induction false} SelectLists(report: Report, outcome: Outcome, d: Dimension)
    ensures d in Select(report, outcome) <==> DimensionResult(d, outcome) in report
  {
    if report == [] {
    } else {
      SelectLists(report[1..], outcome, d);
      assert DimensionResult(d, outcome) in report <==>
        report[0] == DimensionResult(d, outcome) || DimensionResult(d, outcome) in report[1..];
    }
  }

  predicate IsValid(report: Report) {
    Select(report, Mismatch) == [] && Select(report, Undetermined) == []
  }

  /** The conjunction: every dimension is bound or declared inapplicable. */
  ghost predicate ValidAuthorization(s: Scheme, a: Authorization, c: CommitEvent, g: Grounds) {
    forall d :: OutcomeOf(s, d, a, c, g).Satisfied()
  }

  ghost predicate SomeMismatch(s: Scheme, a: Authorization, c: CommitEvent, g: Grounds) {
    exists d :: OutcomeOf(s, d, a, c, g).Mismatch?
  }

  lemma EveryDimensionIsReported(d: Dimension)
    ensures d.AuthorizationPresent? || exists i :: 0 <= i < |BINDINGS| && BINDINGS[i] == d
  {
    assert BINDINGS[0] == PositiveDecision && BINDINGS[1] == Tenant && BINDINGS[2] == Principal
      && BINDINGS[3] == AgentIdentity && BINDINGS[4] == ReleaseIdentity && BINDINGS[5] == ExactActionDigest
      && BINDINGS[6] == SinkBinding && BINDINGS[7] == IdempotencyBinding && BINDINGS[8] == ActionScope
      && BINDINGS[9] == Integrity && BINDINGS[10] == ValidityInterval && BINDINGS[11] == AuthorityStateAtCommit
      && BINDINGS[12] == RevocationState && BINDINGS[13] == DelegationChain && BINDINGS[14] == NonAmplification
      && BINDINGS[15] == UseCount && BINDINGS[16] == Correlation;
  }

  /** The report loses nothing: its three-valued reading is decided by the seventeen dimensions. */
  lemma ReportMeans(s: Scheme, a: Authorization, c: CommitEvent, g: Grounds)
    ensures var report := ReportOn(s, Some(a), c, g);
      && (IsValid(report) <==> ValidAuthorization(s, a, c, g))
      && (Select(report, Mismatch) != [] <==> SomeMismatch(s, a, c, g))
  {
    var report := ReportOn(s, Some(a), c, g);
    forall d | d != AuthorizationPresent
      ensures DimensionResult(d, OutcomeOf(s, d, a, c, g)) in report
    {
      EveryDimensionIsReported(d);
      var i :| 0 <= i < |BINDINGS| && BINDINGS[i] == d;
      assert report[i] == DimensionResult(d, OutcomeOf(s, d, a, c, g));
    }
  }

  /** A missing record is a mismatch, never valid. */
  lemma ValidMeansPresent(s: Scheme, a: Option<Authorization>, c: CommitEvent, g: Grounds)
    requires IsValid(ReportOn(s, a, c, g))
    ensures a.Some?
  {
    var absent := [DimensionResult(AuthorizationPresent, Mismatch)];
    assert absent[0] in absent && Select(absent, Mismatch) != [];
  }

  predicate Fits(expected: string, actual: string) {
    expected == NOT_APPLICABLE || expected == actual
  }

  ghost predicate IdentitiesFit(a: Authorization, c: CommitEvent) {
    && a.decision == "ALLOW"
    && Fits(a.tenantId, c.tenantId)
    && Fits(a.principalId, c.principalId)
    && Fits(a.agentId, c.agentId)
    && Fits(a.releaseId, c.releaseId)
    && Fits(a.actionDigest, c.actionDigest)
    && Fits(a.sinkId, c.sinkId)
    && Fits(a.idempotencyKey, c.idempotencyKey)
  }

  ghost predicate StandingFits(s: Scheme, a: Authorization, c: CommitEvent, g: Grounds) {
    && a.scope != ""
    && g.issuer.Some? && s.Intact(g.issuer.value, a)
    && a.notBefore <= c.committedAt <= a.notAfter
    && g.authority.Some?
    && Fits(a.authorityStateDigest, s.stateDigest(g.authority.value))
    && g.authority.value.Holds(a.grantId)
    && (a.delegation.Some? ==> Delegation.Acceptable(a.delegation.value, c.principalId, a.scope))
    && g.uses.Some? && g.uses.value <= a.maxUses
    && g.token.Some? && Fits(s.authorizationDigest(a), g.token.value)
  }

  /** ValidAuthorization written out: what the documentation's table promises, dimension by dimension. */
  lemma ValidAuthorizationWrittenOut(s: Scheme, a: Authorization, c: CommitEvent, g: Grounds)
    ensures ValidAuthorization(s, a, c, g) <==> IdentitiesFit(a, c) && StandingFits(s, a, c, g)
  {
    if a.delegation.Some? {
      Delegation.EveryJudgement(a.delegation.value, c.principalId, a.scope);
    }
    if ValidAuthorization(s, a, c, g) {
      ValidMeansIdentitiesFit(s, a, c, g);
      ValidMeansStandingFits(s, a, c, g);
    }
  }

  predicate Misfits(expected: string, actual: string) {
    expected != NOT_APPLICABLE && expected != actual
  }

  /** Some identity of the record contradicts the commit. */
  ghost predicate IdentitiesContradict(a: Authorization, c: CommitEvent) {
    || a.decision != "ALLOW"
    || Misfits(a.tenantId, c.tenantId)
    || Misfits(a.principalId, c.principalId)
    || Misfits(a.agentId, c.agentId)
    || Misfits(a.releaseId, c.releaseId)
    || Misfits(a.actionDigest, c.actionDigest)
    || Misfits(a.sinkId, c.sinkId)
    || Misfits(a.idempotencyKey, c.idempotencyKey)
  }

  /** Some evidence that is there contradicts the record. */
  ghost predicate StandingContradicts(s: Scheme, a: Authorization, c: CommitEvent, g: Grounds) {
    || (g.issuer.Some? && a.integrity != s.mac(g.issuer.value, a.(integrity := "")))
    || c.committedAt < a.notBefore || a.notAfter < c.committedAt
    || (g.authority.Some? && Misfits(a.authorityStateDigest, s.stateDigest(g.authority.value)))
    || (g.authority.Some? && !g.authority.value.Holds(a.grantId))
    || (a.delegation.Some? && !Delegation.Acceptable(a.delegation.value, c.principalId, a.scope))
    || (g.uses.Some? && a.maxUses < g.uses.value)
    || (g.token.Some? && Misfits(s.authorizationDigest(a), g.token.value))
  }

  ghost predicate Contradicted(s: Scheme, a: Authorization, c: CommitEvent, g: Grounds) {
    IdentitiesContradict(a, c) || StandingContradicts(s, a, c, g)
  }

  /** Something needed to decide is missing. */
  ghost predicate Undecidable(a: Authorization, g: Grounds) {
    a.scope == "" || g.issuer.None? || g.authority.None? || g.uses.None? || g.token.None?
  }

  ghost predicate SomeUndetermined(s: Scheme, a: Authorization, c: CommitEvent, g: Grounds) {
    exists d :: OutcomeOf(s, d, a, c, g).Undetermined?
  }

  /** When a dimension mismatches, written out on the fields of record, commit and evidence. */
  lemma MismatchWrittenOut(s: Scheme, a: Authorization, c: CommitEvent, g: Grounds)
    ensures SomeMismatch(s, a, c, g) <==> Contradicted(s, a, c, g)
  {
    if a.delegation.Some? {
      Delegation.EveryJudgement(a.delegation.value, c.principalId, a.scope);
    }
    if IdentitiesContradict(a, c) {
      IdentitiesMismatch(s, a, c, g);
    } else if StandingContradicts(s, a, c, g) {
      StandingMismatches(s, a, c, g);
    }
  }

  lemma IdentitiesMismatch(s: Scheme, a: Authorization, c: CommitEvent, g: Grounds)
    requires IdentitiesContradict(a, c)
    ensures SomeMismatch(s, a, c, g)
  {
    assert
      || OutcomeOf(s, PositiveDecision, a, c, g).Mismatch? || OutcomeOf(s, Tenant, a, c, g).Mismatch?
      || OutcomeOf(s, Principal, a, c, g).Mismatch? || OutcomeOf(s, AgentIdentity, a, c, g).Mismatch?
      || OutcomeOf(s, ReleaseIdentity, a, c, g).Mismatch? || OutcomeOf(s, ExactActionDigest, a, c, g).Mismatch?
      || OutcomeOf(s, SinkBinding, a, c, g).Mismatch? || OutcomeOf(s, IdempotencyBinding, a, c, g).Mismatch?;
  }

  lemma StandingMismatches(s: Scheme, a: Authorization, c: CommitEvent, g: Grounds)
    requires StandingContradicts(s, a, c, g)
    ensures SomeMismatch(s, a, c, g)
  {
    if a.delegation.Some? {
      Delegation.EveryJudgement(a.delegation.value, c.principalId, a.scope);
    }
    assert
      || OutcomeOf(s, Integrity, a, c, g).Mismatch? || OutcomeOf(s, ValidityInterval, a, c, g).Mismatch?
      || OutcomeOf(s, AuthorityStateAtCommit, a, c, g).Mismatch? || OutcomeOf(s, RevocationState, a, c, g).Mismatch?
      || OutcomeOf(s, DelegationChain, a, c, g).Mismatch? || OutcomeOf(s, UseCount, a, c, g).Mismatch?
      || OutcomeOf(s, Correlation, a, c, g).Mismatch?;
  }

  /** What contradicts one dimension. */
  ghost predicate Contradicts(s: Scheme, d: Dimension, a: Authorization, c: CommitEvent, g: Grounds) {
    match d
    case AuthorizationPresent => false
    case PositiveDecision => a.decision != "ALLOW"
    case Tenant => Misfits(a.tenantId, c.tenantId)
    case Principal => Misfits(a.principalId, c.principalId)
    case AgentIdentity => Misfits(a.agentId, c.agentId)
    case ReleaseIdentity => Misfits(a.releaseId, c.releaseId)
    case ExactActionDigest => Misfits(a.actionDigest, c.actionDigest)
    case SinkBinding => Misfits(a.sinkId, c.sinkId)
    case IdempotencyBinding => Misfits(a.idempotencyKey, c.idempotencyKey)
    case ActionScope => false
    case Integrity => g.issuer.Some? && a.integrity != s.mac(g.issuer.value, a.(integrity := ""))
    case ValidityInterval => c.committedAt < a.notBefore || a.notAfter < c.committedAt
    case AuthorityStateAtCommit =>
      g.authority.Some? && Misfits(a.authorityStateDigest, s.stateDigest(g.authority.value))
    case RevocationState => g.authority.Some? && !g.authority.value.Holds(a.grantId)
    case DelegationChain =>
      a.delegation.Some? && !Delegation.Acceptable(a.delegation.value, c.principalId, a.scope)
    case NonAmplification => a.delegation.Some? && Delegation.FirstAmplified(a.delegation.value)
    case UseCount => g.uses.Some? && a.maxUses < g.uses.value
    case Correlation => g.token.Some? && Misfits(s.authorizationDigest(a), g.token.value)
  }

  /** What one dimension lacks. */
  ghost predicate Lacks(d: Dimension, a: Authorization, g: Grounds) {
    match d
    case ActionScope => a.scope == ""
    case Integrity => g.issuer.None?
    case AuthorityStateAtCommit => g.authority.None?
    case RevocationState => g.authority.None?
    case UseCount => g.uses.None?
    case Correlation => g.token.None?
    case _ => false
  }

  /** Each dimension on its own: it mismatches exactly when contradicted, and is undetermined exactly when it lacks
      something. */
  lemma DimensionWrittenOut(s: Scheme, d: Dimension, a: Authorization, c: CommitEvent, g: Grounds)
    ensures OutcomeOf(s, d, a, c, g).Mismatch? <==> Contradicts(s, d, a, c, g)
    ensures OutcomeOf(s, d, a, c, g).Undetermined? <==> Lacks(d, a, g)
  {
    if a.delegation.Some? {
      Delegation.EveryJudgement(a.delegation.value, c.principalId, a.scope);
      Delegation.AmplifiedMeans(a.delegation.value, c.principalId, a.scope);
    }
  }

  /** The dimensions a report lists as mismatching and as undetermined. */
  lemma ReportWrittenOut(s: Scheme, a: Authorization, c: CommitEvent, g: Grounds)
    ensures var report := ReportOn(s, Some(a), c, g);
      && (forall d :: d in Select(report, Mismatch) <==> Contradicts(s, d, a, c, g))
      && (forall d :: d in Select(report, Undetermined) <==> Lacks(d, a, g))
  {
    var report := ReportOn(s, Some(a), c, g);
    forall d
      ensures d in Select(report, Mismatch) <==> Contradicts(s, d, a, c, g)
      ensures d in Select(report, Undetermined) <==> Lacks(d, a, g)
    {
      DimensionWrittenOut(s, d, a, c, g);
      ReportedOutcome(s, d, a, c, g, Mismatch);
      ReportedOutcome(s, d, a, c, g, Undetermined);
      SelectLists(report, Mismatch, d);
      SelectLists(report, Undetermined, d);
    }
  }

  /** A report holds exactly the dimensions with their outcomes. */
  lemma ReportedOutcome(s: Scheme, d: Dimension, a: Authorization, c: CommitEvent, g: Grounds, outcome: Outcome)
    requires outcome.Mismatch? || outcome.Undetermined?
    ensures DimensionResult(d, outcome) in ReportOn(s, Some(a), c, g) <==> OutcomeOf(s, d, a, c, g) == outcome
  {
    var report := ReportOn(s, Some(a), c, g);
    if !d.AuthorizationPresent? {
      EveryDimensionIsReported(d);
      var i :| 0 <= i < |BINDINGS| && BINDINGS[i] == d;
      assert report[i] == DimensionResult(d, OutcomeOf(s, d, a, c, g));
    }
    if DimensionResult(d, outcome) in report {
      var i :| 0 <= i < |report| && report[i] == DimensionResult(d, outcome);
      assert BINDINGS[i] == d;
    }
  }

  /** When a dimension is undetermined: exactly when something is missing, whatever the fields say. */
  lemma UndeterminedWrittenOut(s: Scheme, a: Authorization, c: CommitEvent, g: Grounds)
    ensures SomeUndetermined(s, a, c, g) <==> Undecidable(a, g)
  {
    if Undecidable(a, g) {
      assert
        || OutcomeOf(s, ActionScope, a, c, g).Undetermined? || OutcomeOf(s, Integrity, a, c, g).Undetermined?
        || OutcomeOf(s, RevocationState, a, c, g).Undetermined? || OutcomeOf(s, UseCount, a, c, g).Undetermined?
        || OutcomeOf(s, Correlation, a, c, g).Undetermined?;
    }
  }

  lemma ValidMeansIdentitiesFit(s: Scheme, a: Authorization, c: CommitEvent, g: Grounds)
    requires ValidAuthorization(s, a, c, g)
    ensures IdentitiesFit(a, c)
  {
    assert OutcomeOf(s, PositiveDecision, a, c, g).Satisfied();
    assert OutcomeOf(s, Tenant, a, c, g).Satisfied();
    assert OutcomeOf(s, Principal, a, c, g).Satisfied();
    assert OutcomeOf(s, AgentIdentity, a, c, g).Satisfied();
    assert OutcomeOf(s, ReleaseIdentity, a, c, g).Satisfied();
    assert OutcomeOf(s, ExactActionDigest, a, c, g).Satisfied();
    assert OutcomeOf(s, SinkBinding, a, c, g).Satisfied();
    assert OutcomeOf(s, IdempotencyBinding, a, c, g).Satisfied();
  }

  lemma ValidMeansStandingFits(s: Scheme, a: Authorization, c: CommitEvent, g: Grounds)
    requires ValidAuthorization(s, a, c, g)
    ensures StandingFits(s, a, c, g)
  {
    if a.delegation.Some? {
      Delegation.EveryJudgement(a.delegation.value, c.principalId, a.scope);
    }
    assert OutcomeOf(s, ActionScope, a, c, g).Satisfied();
    assert OutcomeOf(s, Integrity, a, c, g).Satisfied();
    assert OutcomeOf(s, ValidityInterval, a, c, g).Satisfied();
    assert OutcomeOf(s, AuthorityStateAtCommit, a, c, g).Satisfied();
    assert OutcomeOf(s, RevocationState, a, c, g).Satisfied();
    assert OutcomeOf(s, DelegationChain, a, c, g).Satisfied();
    assert OutcomeOf(s, UseCount, a, c, g).Satisfied();
    assert OutcomeOf(s, Correlation, a, c, g).Satisfied();
  }

  /** Only the use count reads the use count. */
  lemma UsesMatterOnlyToUseCount(s: Scheme, a: Authorization, c: CommitEvent, g: Grounds, uses: Option<int>)
    ensures forall d :: d != UseCount ==>
      OutcomeOf(s, d, a, c, g) == OutcomeOf(s, d, a, c, g.(uses := uses))
  {
  }

  /** When everything but the use count is satisfied, the use count decides. */
  lemma UseCountDecides(s: Scheme, a: Authorization, c: CommitEvent, g: Grounds, uses: Option<int>)
    requires g.uses.Some?
    requires forall d :: d != UseCount ==> OutcomeOf(s, d, a, c, g.(uses := uses)).Satisfied()
    ensures ValidAuthorization(s, a, c, g) <==> g.uses.value <= a.maxUses
    ensures SomeMismatch(s, a, c, g) <==> a.maxUses < g.uses.value
  {
    UsesMatterOnlyToUseCount(s, a, c, g, uses);
    assert OutcomeOf(s, UseCount, a, c, g) == BoundIf(g.uses.value <= a.maxUses);
    if d :| OutcomeOf(s, d, a, c, g).Mismatch? {
      assert d == UseCount;
    }
  }

  /** A record that was valid is valid with any other use count within its limit. */
  lemma ValidWithFewerUses(s: Scheme, a: Authorization, c: CommitEvent, g: Grounds, h: Grounds)
    requires ValidAuthorization(s, a, c, g) && h.(uses := g.uses) == g
    requires h.uses.Some? && h.uses.value <= a.maxUses
    ensures ValidAuthorization(s, a, c, h)
  {
    UseCountDecides(s, a, c, h, g.uses);
  }

  /** A valid record's token is its own digest, and any other record mismatches that token. */
  lemma OtherRecordMismatches(s: Scheme, b: Authorization, c: CommitEvent, g: Grounds)
    requires s.CollisionFree() && g.token.Some? && g.token.value != s.authorizationDigest(b)
    ensures SomeMismatch(s, b, c, g) && !ValidAuthorization(s, b, c, g)
  {
    assert OutcomeOf(s, Correlation, b, c, g).Mismatch?;
  }

  lemma ValidTokenIsDigest(s: Scheme, a: Authorization, c: CommitEvent, g: Grounds)
    requires s.CollisionFree() && ValidAuthorization(s, a, c, g)
    ensures g.token == Some(s.authorizationDigest(a))
  {
    assert OutcomeOf(s, Correlation, a, c, g).Satisfied();
  }

  /** With a collision-free digest, two records that both validate one commit with one token are the same record. */
  lemma OneRecordPerToken(s: Scheme, a: Authorization, b: Authorization, c: CommitEvent, g: Grounds, h: Grounds)
    requires s.CollisionFree() && g.token == h.token
    requires ValidAuthorization(s, a, c, g) && ValidAuthorization(s, b, c, h)
    ensures a == b
  {
    assert OutcomeOf(s, Correlation, a, c, g).Satisfied();
    assert OutcomeOf(s, Correlation, b, c, h).Satisfied();
  }

  function Line(s: Scheme, d: Dimension, a: Authorization, c: CommitEvent, g: Grounds): DimensionResult {
    DimensionResult(d, OutcomeOf(s, d, a, c, g))
  }

  /** Evaluate the relation, one result after the other. */
  method ValidateAuthorization(s: Scheme, authorization: Option<Authorization>, commit: CommitEvent, g: Grounds)
    returns (results: Report)
    ensures results == ReportOn(s, authorization, commit, g)
  {
    if authorization.None? {
      return [DimensionResult(AuthorizationPresent, Mismatch)];
    }
    results := IdentityResults(s, authorization.value, commit, g);
    var standing := StandingResults(s, authorization.value, commit, g);
    results := results + standing;
    var limits := LimitResults(s, authorization.value, commit, g);
    results := results + limits;
  }

  method IdentityResults(s: Scheme, a: Authorization, c: CommitEvent, g: Grounds) returns (results: Report)
    ensures results == [
      Line(s, PositiveDecision, a, c, g), Line(s, Tenant, a, c, g), Line(s, Principal, a, c, g),
      Line(s, AgentIdentity, a, c, g), Line(s, ReleaseIdentity, a, c, g), Line(s, ExactActionDigest, a, c, g),
      Line(s, SinkBinding, a, c, g), Line(s, IdempotencyBinding, a, c, g), Line(s, ActionScope, a, c, g)]
  {
    results := [
      DimensionResult(PositiveDecision, if a.decision == "ALLOW" then Bound else Mismatch),
      DimensionResult(Tenant, Compare(Some(a.tenantId), Some(c.tenantId))),
      DimensionResult(Principal, Compare(Some(a.principalId), Some(c.principalId))),
      DimensionResult(AgentIdentity, Compare(Some(a.agentId), Some(c.agentId))),
      DimensionResult(ReleaseIdentity, Compare(Some(a.releaseId), Some(c.releaseId))),
      DimensionResult(ExactActionDigest, Compare(Some(a.actionDigest), Some(c.actionDigest))),
      DimensionResult(SinkBinding, Compare(Some(a.sinkId), Some(c.sinkId))),
      DimensionResult(IdempotencyBinding, Compare(Some(a.idempotencyKey), Some(c.idempotencyKey))),
      DimensionResult(ActionScope, if a.scope != "" then Bound else Undetermined)];
  }

  method StandingResults(s: Scheme, a: Authorization, c: CommitEvent, g: Grounds) returns (results: Report)
    ensures results == [
      Line(s, Integrity, a, c, g), Line(s, ValidityInterval, a, c, g),
      Line(s, AuthorityStateAtCommit, a, c, g), Line(s, RevocationState, a, c, g)]
  {
    if g.issuer.None? {
      results := [DimensionResult(Integrity, Undetermined)];
    } else if s.Intact(g.issuer.value, a) {
      results := [DimensionResult(Integrity, Bound)];
    } else {
      results := [DimensionResult(Integrity, Mismatch)];
    }
    if c.committedAt < a.notBefore {
      results := results + [DimensionResult(ValidityInterval, Mismatch)];
    } else if c.committedAt > a.notAfter {
      results := results + [DimensionResult(ValidityInterval, Mismatch)];
    } else {
      results := results + [DimensionResult(ValidityInterval, Bound)];
    }
    if g.authority.None? {
      results := results + [DimensionResult(AuthorityStateAtCommit, Undetermined)];
      results := results + [DimensionResult(RevocationState, Undetermined)];
    } else {
      results := results + [DimensionResult(AuthorityStateAtCommit,
        Compare(Some(a.authorityStateDigest), Some(s.stateDigest(g.authority.value))))];
      var status := g.authority.value.StatusOf(a.grantId);
      results := results + [DimensionResult(RevocationState, if status == Active then Bound else Mismatch)];
    }
  }

  method LimitResults(s: Scheme, a: Authorization, c: CommitEvent, g: Grounds) returns (results: Report)
    ensures results == [
      Line(s, DelegationChain, a, c, g), Line(s, NonAmplification, a, c, g),
      Line(s, UseCount, a, c, g), Line(s, Correlation, a, c, g)]
  {
    if a.delegation.None? {
      results := [DimensionResult(DelegationChain, DeclaredNotApplicable)];
      results := results + [DimensionResult(NonAmplification, DeclaredNotApplicable)];
    } else {
      var reason := Delegation.ValidateDelegation(a.delegation.value, c.principalId, a.scope);
      results := [DimensionResult(DelegationChain, if reason.Ok() then Bound else Mismatch)];
      results := results + [DimensionResult(NonAmplification, if reason.AmplifiedAtLink? then Mismatch else Bound)];
    }
    if g.uses.None? {
      results := results + [DimensionResult(UseCount, Undetermined)];
    } else if g.uses.value > a.maxUses {
      results := results + [DimensionResult(UseCount, Mismatch)];
    } else {
      results := results + [DimensionResult(UseCount, Bound)];
    }
    if g.token.None? {
      results := results + [DimensionResult(Correlation, Undetermined)];
    } else {
      results := results + [DimensionResult(Correlation, Compare(Some(s.authorizationDigest(a)), g.token))];
    }
  }

  function UsesOf(uses: map<string, nat>, authorizationId: string): nat {
    if authorizationId in uses then uses[authorizationId] else 0
  }

  function WithUse(uses: map<string, nat>, authorizationId: string): map<string, nat> {
    uses[authorizationId := UsesOf(uses, authorizationId) + 1]
  }

  class AuthorizationIssuer {
    const secret: string
    var uses: map<string, nat>

    constructor (secret: string)
      ensures this.secret == secret && uses == map[]
    {
      this.secret := secret;
      uses := map[];
    }

    method RecordUse(authorizationId: string) returns (count: nat)
      modifies this
      ensures uses == WithUse(old(uses), authorizationId)
      ensures count == UsesOf(old(uses), authorizationId) + 1
    {
      uses := uses[authorizationId := (if authorizationId in uses then uses[authorizationId] else 0) + 1];
      count := uses[authorizationId];
    }
  }

  /** A sealed record verifies under its own secret, and any other record that verifies is sealed too. */
  lemma IntactIffSealed(s: Scheme, secret: string, a: Authorization)
    ensures s.Intact(secret, s.Seal(secret, a))
    ensures s.Intact(secret, a) <==> s.Seal(secret, a) == a
  {
    assert a.(integrity := "") == s.Seal(secret, a).(integrity := "");
  }
}
