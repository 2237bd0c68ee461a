/** The consequence verifier: one finding per protected commit, one disposition per run
    (oat/verifier/consequence.py). */
module Verifier {
  import opened Wrappers
  import opened Consequence
  import opened CurrentState
  import opened Authorizations

  datatype Disposition =
    | BoundaryFailure
    | InternalPropertyFailure
    | InstrumentFailure
    | IntegrationFailure
    | Unknown
    | NoCounterexample

  datatype Reason =
    | NoReceipt
    | NoAuthorityEvidence
    | ReferenceNotInEvidence
    | ValidCurrentAuthorization
    | NotFullyEvaluated(missing: seq<Dimension>)
    | Crossed(failed: seq<Dimension>)

  datatype Finding = Finding(
    commitId: string,
    disposition: Disposition,
    reason: Reason,
    authorizationRef: Option<string>,
    report: Option<Report>)

  /** Declared against observed routes (oat/paths/discovery.py). */
  datatype Reconciliation = Reconciliation(declared: set<string>, observed: set<string>) {
    function UnknownObserved(): set<string> { observed - declared }
  }

  /** Everything the verifier may read. */
  datatype Evidence = Evidence(
    sink: ProtectedSink,
    commits: seq<CommitEvent>,
    receipts: seq<Receipt>,
    authorizations: map<string, Authorization>,
    authority: Option<seq<AuthorityState>>,
    issuer: Option<string>,
    tokens: map<string, string>,
    useCounts: map<string, int>,
    reconciliation: Option<Reconciliation>,
    propertyFailures: seq<string>,
    instrumentFailures: seq<string>)
  {
    ghost predicate Witnessed(commitId: string) {
      exists r :: r in receipts && r.commitId == commitId
    }

    /** The record a commit refers to; an empty reference refers to nothing. */
    function Referenced(c: CommitEvent): (r: Option<Authorization>)
      ensures r.Some? <==>
        c.authorizationRef.Some? && |c.authorizationRef.value| > 0 && c.authorizationRef.value in authorizations
      ensures r.Some? ==> r.value == authorizations[c.authorizationRef.value]
    {
      if c.authorizationRef.Some? && c.authorizationRef.value != "" then
        Get(authorizations, c.authorizationRef.value)
      else None
    }

    function GroundsFor(c: CommitEvent, useKey: string): Grounds
      requires authority.Some?
    {
      Grounds(At(authority.value, c.committedAt), issuer, Get(useCounts, useKey), Get(tokens, c.commitId))
    }
  }

  function ReceiptFor(receipts: seq<Receipt>, commitId: string): (r: Option<Receipt>)
    ensures r.Some? <==> exists x :: x in receipts && x.commitId == commitId
    ensures r.Some? ==> r.value in receipts && r.value.commitId == commitId
  {
    if receipts == [] then None
    else if receipts[0].commitId == commitId then Some(receipts[0])
    else ReceiptFor(receipts[1..], commitId)
  }

  function RefOrEmpty(c: CommitEvent): string {
    if c.authorizationRef.Some? then c.authorizationRef.value else ""
  }

  function AdjudicateCommit(s: Scheme, c: CommitEvent, e: Evidence): Finding {
    var ref := c.authorizationRef;
    if ReceiptFor(e.receipts, c.commitId).None? then Finding(c.commitId, Unknown, NoReceipt, ref, None)
    else if e.authority.None? then Finding(c.commitId, Unknown, NoAuthorityEvidence, ref, None)
    else
      var authorization := e.Referenced(c);
      if ref.Some? && authorization.None? then Finding(c.commitId, Unknown, ReferenceNotInEvidence, ref, None)
      else
        var report := ReportOn(s, authorization, c, e.GroundsFor(c, RefOrEmpty(c)));
        var mismatches, undetermined := Select(report, Mismatch), Select(report, Undetermined);
        if IsValid(report) then Finding(c.commitId, NoCounterexample, ValidCurrentAuthorization, ref, Some(report))
        else if undetermined != [] && mismatches == [] then
          Finding(c.commitId, Unknown, NotFullyEvaluated(undetermined), ref, Some(report))
        else Finding(c.commitId, BoundaryFailure, Crossed(mismatches), ref, Some(report))
  }

  /** A commit the verifier gets as far as validating. */
  ghost predicate Examined(c: CommitEvent, e: Evidence) {
    && e.Witnessed(c.commitId)
    && e.authority.Some?
    && (c.authorizationRef.Some? ==> e.Referenced(c).Some?)
  }

  /** When a finding is a crossing, and when it is clean, without the report in between. */
  lemma FindingMeans(s: Scheme, c: CommitEvent, e: Evidence)
    ensures AdjudicateCommit(s, c, e).disposition == BoundaryFailure <==>
      && Examined(c, e)
      && (c.authorizationRef.None?
          || SomeMismatch(s, e.Referenced(c).value, c, e.GroundsFor(c, c.authorizationRef.value)))
    ensures AdjudicateCommit(s, c, e).disposition == NoCounterexample <==>
      && Examined(c, e)
      && c.authorizationRef.Some?
      && ValidAuthorization(s, e.Referenced(c).value, c, e.GroundsFor(c, c.authorizationRef.value))
    ensures AdjudicateCommit(s, c, e).disposition in {BoundaryFailure, NoCounterexample, Unknown}
  {
    if Examined(c, e) {
      if c.authorizationRef.Some? {
        ReportMeans(s, e.Referenced(c).value, c, e.GroundsFor(c, c.authorizationRef.value));
      } else {
        var absent := ReportOn(s, None, c, e.GroundsFor(c, ""));
        assert absent[0] in absent;
        assert Select(absent, Mismatch) != [];
      }
    }
  }

  /** Everything a finding says, on the fields of commit, record and evidence. */
  lemma FindingWrittenOut(s: Scheme, c: CommitEvent, e: Evidence)
    ensures var f := AdjudicateCommit(s, c, e);
      && f.commitId == c.commitId && f.authorizationRef == c.authorizationRef
      && (f.disposition == BoundaryFailure <==>
            && Examined(c, e)
            && (c.authorizationRef.None?
                || Contradicted(s, e.Referenced(c).value, c, e.GroundsFor(c, c.authorizationRef.value))))
      && (f.disposition == NoCounterexample <==>
            && Examined(c, e) && c.authorizationRef.Some?
            && IdentitiesFit(e.Referenced(c).value, c)
            && StandingFits(s, e.Referenced(c).value, c, e.GroundsFor(c, c.authorizationRef.value)))
      && (f.disposition == Unknown <==>
            f.disposition != BoundaryFailure && f.disposition != NoCounterexample)
  {
    FindingMeans(s, c, e);
    if Examined(c, e) && c.authorizationRef.Some? {
      var a, g := e.Referenced(c).value, e.GroundsFor(c, c.authorizationRef.value);
      MismatchWrittenOut(s, a, c, g);
      ValidAuthorizationWrittenOut(s, a, c, g);
    }
  }

  lemma AbsentRecordMismatches()
    ensures Select([DimensionResult(AuthorizationPresent, Mismatch)], Mismatch) == [AuthorizationPresent]
  {
    assert [DimensionResult(AuthorizationPresent, Mismatch)][1..] == [];
    assert [AuthorizationPresent] + [] == [AuthorizationPresent];
  }

  /** The reason a finding gives: what was missing, or which dimensions mismatch or are undetermined. */
  lemma ReasonWrittenOut(s: Scheme, c: CommitEvent, e: Evidence)
    ensures var f := AdjudicateCommit(s, c, e);
      && (f.reason == NoReceipt <==> !e.Witnessed(c.commitId))
      && (f.reason == NoAuthorityEvidence <==> e.Witnessed(c.commitId) && e.authority.None?)
      && (f.reason == ReferenceNotInEvidence <==>
            e.Witnessed(c.commitId) && e.authority.Some? && c.authorizationRef.Some? && e.Referenced(c).None?)
      && (f.reason == ValidCurrentAuthorization <==> f.disposition == NoCounterexample)
      && (f.reason.Crossed? <==> f.disposition == BoundaryFailure)
      && (f.reason.Crossed? && c.authorizationRef.Some? ==>
            forall d :: d in f.reason.failed <==>
              Contradicts(s, d, e.Referenced(c).value, c, e.GroundsFor(c, c.authorizationRef.value)))
      && (f.reason.Crossed? && c.authorizationRef.None? ==>
            forall d :: d in f.reason.failed <==> d.AuthorizationPresent?)
      && (f.reason.NotFullyEvaluated? ==>
            c.authorizationRef.Some? && e.authority.Some? && e.Referenced(c).Some?
            && forall d :: d in f.reason.missing <==>
                 Lacks(d, e.Referenced(c).value, e.GroundsFor(c, c.authorizationRef.value)))
  {
    FindingMeans(s, c, e);
    AbsentRecordMismatches();
    if Examined(c, e) && c.authorizationRef.Some? {
      ReportWrittenOut(s, e.Referenced(c).value, c, e.GroundsFor(c, c.authorizationRef.value));
    }
  }

  // ----- run level -----

  datatype Verdict = Verdict(
    disposition: Disposition,
    findings: seq<Finding>,
    reconciliation: Option<Reconciliation>)

  function Findings(s: Scheme, commits: seq<CommitEvent>, e: Evidence): seq<Finding> {
    if commits == [] then []
    else
      (if e.sink.Protects(commits[0]) then [AdjudicateCommit(s, commits[0], e)] else [])
      + Findings(s, commits[1..], e)
  }

  /** One finding for each protected commit, in the order of the commits. */
  lemma {:induction false} FindingsInOrder(s: Scheme, commits: seq<CommitEvent>, more: seq<CommitEvent>, e: Evidence)
    ensures Findings(s, commits + more, e) == Findings(s, commits, e) + Findings(s, more, e)
  {
    if commits == [] {
      assert commits + more == more;
    } else {
      FindingsInOrder(s, commits[1..], more, e);
      FirstFinding(s, commits, e);
      FirstFinding(s, commits + more, e);
      assert (commits + more)[0] == commits[0] && (commits + more)[1..] == commits[1..] + more;
    }
  }

  lemma FirstFinding(s: Scheme, commits: seq<CommitEvent>, e: Evidence)
    requires commits != []
    ensures Findings(s, commits, e) ==
      (if commits[0].sinkId == e.sink.sinkId then [AdjudicateCommit(s, commits[0], e)] else [])
      + Findings(s, commits[1..], e)
  {
  }

  predicate AnyWith(findings: seq<Finding>, d: Disposition) {
    exists f :: f in findings && f.disposition == d
  }

  function Adjudicate(s: Scheme, e: Evidence): Verdict {
    if e.instrumentFailures != [] then Verdict(InstrumentFailure, [], e.reconciliation)
    else
      var findings := Findings(s, e.commits, e);
      if AnyWith(findings, BoundaryFailure) then Verdict(BoundaryFailure, findings, e.reconciliation)
      else if AnyWith(findings, Unknown) then Verdict(Unknown, findings, e.reconciliation)
      else if e.reconciliation.Some? && e.reconciliation.value.UnknownObserved() != {} then
        Verdict(IntegrationFailure, findings, e.reconciliation)
      else if e.propertyFailures != [] then Verdict(InternalPropertyFailure, findings, e.reconciliation)
      else Verdict(NoCounterexample, findings, e.reconciliation)
  }

  /** Some protected commit of the evidence is found `d`. */
  ghost predicate SomeCommitFound(s: Scheme, e: Evidence, d: Disposition) {
    exists c :: c in e.commits && e.sink.Protects(c) && AdjudicateCommit(s, c, e).disposition == d
  }

  lemma {:induction false} FindingsCoverCommits(s: Scheme, commits: seq<CommitEvent>, e: Evidence, d: Disposition)
    ensures AnyWith(Findings(s, commits, e), d) <==>
      exists c :: c in commits && e.sink.Protects(c) && AdjudicateCommit(s, c, e).disposition == d
  {
    if commits == [] {
    } else {
      FindingsCoverCommits(s, commits[1..], e, d);
      var rest := Findings(s, commits[1..], e);
      assert commits == [commits[0]] + commits[1..];
      var head := if e.sink.Protects(commits[0]) then [AdjudicateCommit(s, commits[0], e)] else [];
      assert forall f :: f in head + rest <==> f in head || f in rest;
      assert forall c :: c in commits <==> c == commits[0] || c in commits[1..];
    }
  }

  /** Which disposition a run gets: the precedence, stated over commits instead of over the list of findings. */
  lemma VerdictMeans(s: Scheme, e: Evidence)
    ensures Adjudicate(s, e).disposition ==
      if e.instrumentFailures != [] then InstrumentFailure
      else if SomeCommitFound(s, e, BoundaryFailure) then BoundaryFailure
      else if SomeCommitFound(s, e, Unknown) then Unknown
      else if e.reconciliation.Some? && e.reconciliation.value.UnknownObserved() != {} then IntegrationFailure
      else if e.propertyFailures != [] then InternalPropertyFailure
      else NoCounterexample
    ensures Adjudicate(s, e).reconciliation == e.reconciliation
    ensures Adjudicate(s, e).findings == if e.instrumentFailures != [] then [] else Findings(s, e.commits, e)
  {
    FindingsCoverCommits(s, e.commits, e, BoundaryFailure);
    FindingsCoverCommits(s, e.commits, e, Unknown);
  }

  // ----- more evidence -----

  ghost predicate Fills<T>(missing: Option<T>, filled: Option<T>) {
    missing.None? || filled == missing
  }

  ghost predicate FillsMap<K, V>(missing: map<K, V>, filled: map<K, V>) {
    forall k :: k in missing ==> k in filled && filled[k] == missing[k]
  }

  /** `more` answers every question `e` answers, the same way; it may answer further ones. */
  ghost predicate Supplements(e: Evidence, more: Evidence) {
    && e.sink == more.sink
    && (forall id :: e.Witnessed(id) ==> more.Witnessed(id))
    && FillsMap(e.authorizations, more.authorizations)
    && (e.authority.Some? ==>
          && more.authority.Some?
          && forall tick :: Fills(At(e.authority.value, tick), At(more.authority.value, tick)))
    && Fills(e.issuer, more.issuer)
    && FillsMap(e.tokens, more.tokens)
    && FillsMap(e.useCounts, more.useCounts)
  }

  /** Evidence that was there decides a dimension for good; only undetermined dimensions can move. */
  lemma DecidedDimensionsStay(s: Scheme, a: Authorization, c: CommitEvent, g: Grounds, h: Grounds)
    requires Fills(g.authority, h.authority) && Fills(g.issuer, h.issuer)
    requires Fills(g.uses, h.uses) && Fills(g.token, h.token)
    ensures forall d :: !OutcomeOf(s, d, a, c, g).Undetermined? ==>
      OutcomeOf(s, d, a, c, h) == OutcomeOf(s, d, a, c, g)
  {
  }

  /** Monotonicity: supplementing evidence never changes a finding that was not unknown. */
  lemma SettledFindingsStay(s: Scheme, c: CommitEvent, e: Evidence, more: Evidence)
    requires Supplements(e, more)
    requires AdjudicateCommit(s, c, e).disposition != Unknown
    ensures AdjudicateCommit(s, c, more).disposition == AdjudicateCommit(s, c, e).disposition
  {
    FindingMeans(s, c, e);
    FindingMeans(s, c, more);
    assert Examined(c, more);
    if c.authorizationRef.Some? {
      var ref := c.authorizationRef.value;
      var a, g, h := e.Referenced(c).value, e.GroundsFor(c, ref), more.GroundsFor(c, ref);
      DecidedDimensionsStay(s, a, c, g, h);
      if ValidAuthorization(s, a, c, g) {
        forall d ensures OutcomeOf(s, d, a, c, h).Satisfied() {
          assert OutcomeOf(s, d, a, c, g).Satisfied();
        }
      } else {
        var d :| OutcomeOf(s, d, a, c, g).Mismatch?;
        assert OutcomeOf(s, d, a, c, h).Mismatch?;
      }
    }
  }

  /** A run-level failure survives supplementary evidence, even when further commits come to light. */
  lemma FailureSurvivesSupplement(s: Scheme, e: Evidence, more: Evidence)
    requires Supplements(e, more) && more.instrumentFailures == []
    requires forall c :: c in e.commits ==> c in more.commits
    requires Adjudicate(s, e).disposition == BoundaryFailure
    ensures Adjudicate(s, more).disposition == BoundaryFailure
  {
    VerdictMeans(s, e);
    VerdictMeans(s, more);
    var c :| c in e.commits && e.sink.Protects(c) && AdjudicateCommit(s, c, e).disposition == BoundaryFailure;
    SettledFindingsStay(s, c, e, more);
  }

  /** Only UNKNOWN runs can move: any other verdict is what all supplementary evidence will say. */
  lemma SettledVerdictStays(s: Scheme, e: Evidence, more: Evidence)
    requires Supplements(e, more)
    requires e.commits == more.commits && e.reconciliation == more.reconciliation
    requires e.propertyFailures == more.propertyFailures && e.instrumentFailures == more.instrumentFailures
    requires Adjudicate(s, e).disposition != Unknown
    ensures Adjudicate(s, more).disposition == Adjudicate(s, e).disposition
  {
    VerdictMeans(s, e);
    VerdictMeans(s, more);
    if Adjudicate(s, e).disposition == BoundaryFailure {
      FailureSurvivesSupplement(s, e, more);
    } else if e.instrumentFailures == [] {
      forall c | c in e.commits && e.sink.Protects(c)
        ensures AdjudicateCommit(s, c, more).disposition == NoCounterexample
      {
        FindingMeans(s, c, e);
        SettledFindingsStay(s, c, e, more);
      }
    }
  }

  // ----- the existential falsifier -----

  /** The record filed under `k` validates commit `c`. */
  ghost predicate Validates(s: Scheme, e: Evidence, k: string, c: CommitEvent)
    requires e.authority.Some?
  {
    k in e.authorizations && ValidAuthorization(s, e.authorizations[k], c, e.GroundsFor(c, k))
  }

  ghost predicate FiledById(authorizations: map<string, Authorization>) {
    forall k :: k in authorizations ==> authorizations[k].authorizationId == k
  }

  /** With a collision-free digest at most one filed record validates a commit. */
  lemma AtMostOneRecordValidates(s: Scheme, e: Evidence, c: CommitEvent, j: string, k: string)
    requires s.CollisionFree() && FiledById(e.authorizations) && e.authority.Some?
    requires Validates(s, e, j, c) && Validates(s, e, k, c)
    ensures j == k
  {
    OneRecordPerToken(s, e.authorizations[j], e.authorizations[k], c, e.GroundsFor(c, j), e.GroundsFor(c, k));
  }

  /** The one-record check decides the falsifier `exists c. not exists a. ValidAuthorization(a, c)`. */
  lemma OneRecordCheckDecidesTheFalsifier(s: Scheme, e: Evidence, c: CommitEvent)
    requires s.CollisionFree() && FiledById(e.authorizations)
    requires e.Witnessed(c.commitId) && e.authority.Some? && e.Referenced(c).Some?
    requires Get(e.tokens, c.commitId) == Some(s.authorizationDigest(e.Referenced(c).value))
    ensures AdjudicateCommit(s, c, e).disposition == NoCounterexample <==> exists k :: Validates(s, e, k, c)
    ensures AdjudicateCommit(s, c, e).disposition == BoundaryFailure ==> !exists k :: Validates(s, e, k, c)
  {
    FindingMeans(s, c, e);
    var ref := c.authorizationRef.value;
    assert AdjudicateCommit(s, c, e).disposition == NoCounterexample <==> Validates(s, e, ref, c);
    forall k | Validates(s, e, k, c) ensures k == ref {
      OnlyTheReferencedRecord(s, e, c, k);
    }
  }

  lemma OnlyTheReferencedRecord(s: Scheme, e: Evidence, c: CommitEvent, k: string)
    requires s.CollisionFree() && FiledById(e.authorizations) && e.authority.Some? && e.Referenced(c).Some?
    requires Get(e.tokens, c.commitId) == Some(s.authorizationDigest(e.Referenced(c).value))
    requires Validates(s, e, k, c)
    ensures c.authorizationRef == Some(k)
  {
    ValidTokenIsDigest(s, e.authorizations[k], c, e.GroundsFor(c, k));
    assert e.authorizations[k] == e.Referenced(c).value;
  }
}
