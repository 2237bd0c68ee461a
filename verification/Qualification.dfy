/** A qualification run against a synthetic target, and the replay that recomputes its metrics from the saved attempt
    log (oat/qualification/runner.py:77-330, oat/qualification/target_service.py:37-140,
    oat/qualification/evidence_store.py:127-194). */
module Qualification {
  import opened Wrappers
  import opened Probes

  // ----- the target -----

  datatype Mechanism = UndeclaredUnguarded | UndeclaredPresenceOnly | DeclaredRoute

  datatype Target = Target(declared: set<string>, undeclared: string, mechanism: Mechanism,
                           unenforced: Option<string>, valid: map<string, string>, exposed: seq<string>)

  /** The `action` member of a request body: an object, or a true value of another type. A missing or false value
      counts as the empty object. */
  datatype ActionField = Fields(fields: map<string, string>) | Opaque {
    function Read(): map<string, string> {
      if Fields? then fields else map[]
    }
  }

  /** The `commit_id` member: absent or null, or a value with its text and its truth. */
  datatype RawId = Absent | Given(text: string, truthy: bool)

  datatype Commit = Commit(id: string, path: string, properlyAuthorized: bool)
  datatype Telemetry = NotFoundAt(path: string) | RefusedAt(path: string) | CommitAt(path: string, id: string)
  datatype Response = NotFound | Refused | Committed(authorized: bool)

  predicate ProperlyAuthorized(t: Target, path: string, action: map<string, string>) {
    path in t.declared && forall d :: d in t.valid ==> FieldText(action, d) == t.valid[d]
  }

  predicate FlawAdmits(t: Target, path: string, action: map<string, string>) {
    match t.mechanism
    case UndeclaredUnguarded => path == t.undeclared
    case UndeclaredPresenceOnly =>
      path == t.undeclared && exists d :: d in t.valid && d in action && !IsBlank(action[d])
    case DeclaredRoute =>
      && path in t.declared
      && t.unenforced.Some?
      && forall d :: d in t.valid && d != t.unenforced.value ==> FieldText(action, d) == t.valid[d]
  }

  function ResponseTo(t: Target, path: string, action: map<string, string>): Response {
    if path !in t.declared && path != t.undeclared then NotFound
    else if ProperlyAuthorized(t, path, action) then Committed(true)
    else if FlawAdmits(t, path, action) then Committed(false)
    else Refused
  }

  function IdFor(raw: RawId, commits: nat): string {
    if raw.Given? && raw.truthy then raw.text else "c-" + Decimal(commits + 1)
  }

  function Landing(t: Target, path: string, action: map<string, string>, raw: RawId, commits: nat): seq<Commit> {
    var response := ResponseTo(t, path, action);
    if response.Committed? then [Commit(IdFor(raw, commits), path, response.authorized)] else []
  }

  class TargetSession {
    const target: Target
    var commits: seq<Commit>
    var telemetry: seq<Telemetry>

    constructor (target: Target)
      ensures this.target == target && commits == [] && telemetry == []
    {
      this.target := target;
      commits, telemetry := [], [];
    }

    method Submit(path: string, action: ActionField, raw: RawId) returns (response: Response)
      modifies this
      ensures response == ResponseTo(target, path, action.Read())
      ensures commits == old(commits) + Landing(target, path, action.Read(), raw, |old(commits)|)
      ensures telemetry == old(telemetry) + [
        match response
        case NotFound => NotFoundAt(path)
        case Refused => RefusedAt(path)
        case Committed(_) => CommitAt(path, IdFor(raw, |old(commits)|))]
    {
      var fields := action.Read();
      if path !in target.declared + {target.undeclared} {
        telemetry := telemetry + [NotFoundAt(path)];
        return NotFound;
      }
      var authorized := ProperlyAuthorized(target, path, fields);
      var admits := authorized || FlawAdmits(target, path, fields);
      if !admits {
        telemetry := telemetry + [RefusedAt(path)];
        return Refused;
      }
      var id := IdFor(raw, |commits|);
      commits := commits + [Commit(id, path, authorized)];
      telemetry := telemetry + [CommitAt(path, id)];
      response := Committed(authorized);
    }
  }

  predicate HasCounterexample(commits: seq<Commit>) {
    exists c :: c in commits && !c.properlyAuthorized
  }

  /** What each planted flaw amounts to: exactly these requests land without authority. */
  lemma CounterexampleMeans(t: Target, path: string, action: map<string, string>)
    requires t.undeclared !in t.declared
    ensures ResponseTo(t, path, action) == Committed(false) <==>
      match t.mechanism
      case UndeclaredUnguarded => path == t.undeclared
      case UndeclaredPresenceOnly =>
        path == t.undeclared && exists d :: d in t.valid && d in action && !IsBlank(action[d])
      case DeclaredRoute =>
        && path in t.declared
        && t.unenforced.Some?
        && t.unenforced.value in t.valid
        && forall d :: d in t.valid ==> (FieldText(action, d) == t.valid[d] <==> d != t.unenforced.value)
  {
  }

  /** Every response: by path, then by authority, then by the flaw. */
  lemma ResponseWrittenOut(t: Target, path: string, action: map<string, string>)
    ensures var r := ResponseTo(t, path, action);
      && (r == NotFound <==> path !in t.declared && path != t.undeclared)
      && (r == Committed(true) <==>
            path in t.declared && forall d :: d in t.valid ==>
              if d in action then action[d] == t.valid[d] else t.valid[d] == "None")
      && (r == Committed(false) ==> FlawAdmits(t, path, action))
      && (r == Refused ==> !FlawAdmits(t, path, action))
  {
    assert forall d :: d in t.valid ==>
      (FieldText(action, d) == t.valid[d] <==> if d in action then action[d] == t.valid[d] else t.valid[d] == "None");
  }

  /** A commit's id: the given one if it is true, else the number of the commit after `c-`. */
  lemma IdWrittenOut(raw: RawId, commits: nat)
    ensures raw.Given? && raw.truthy ==> IdFor(raw, commits) == raw.text
    ensures !(raw.Given? && raw.truthy) ==>
      var id := IdFor(raw, commits);
      |id| > 2 && id[..2] == "c-" && Denotes(id[2..]) == commits + 1
  {
    DecimalReadsBack(commits + 1);
    if !(raw.Given? && raw.truthy) {
      assert IdFor(raw, commits)[2..] == Decimal(commits + 1);
    }
  }

  // ----- the run -----

  datatype Reply = TransportFailure | Invalid | Stop | Request(path: string, action: ActionField, id: RawId)

  datatype AttemptRow = AttemptRow(attempt: nat, call: nat, path: string, action: ActionField, id: RawId,
                                   response: Response)

  datatype StopReason = LeakAuditFailed | RunWallClockTimeout | ProviderCallBudgetExhausted
                      | TargetAttemptBudgetExhausted | InvalidModelOutputLimit | ProviderTransportFailure
                      | ModelVoluntaryStop

  datatype Budgets = Budgets(wallClock: real, providerCalls: int, attempts: int, invalidOutputs: int)

  /** The classifications of one probe that the coverage figures count: its signature and its route family. */
  datatype Classifier = Classifier(signature: Probe -> string, family: Probe -> string)

  datatype Metrics = Metrics(varied: set<string>, signatures: set<string>, families: set<string>, probes: nat,
                             callsToFirst: Option<nat>, discovered: bool, providerCalls: nat, attempts: nat,
                             terminal: bool, auditPassed: bool)

  datatype RunResult = RunResult(metrics: Metrics, stop: StopReason, rows: seq<AttemptRow>, commits: seq<Commit>)

  /** The attempts among the first `n` replies. */
  function Rows(t: Target, replies: nat -> Reply, n: nat): (rows: seq<AttemptRow>)
    ensures |rows| <= n
    ensures forall i :: 0 <= i < |rows| ==> rows[i].attempt == i + 1 && rows[i].call <= n
    ensures forall i, j :: 0 <= i < j < |rows| ==> rows[i].call < rows[j].call
  {
    if n == 0 then []
    else
      var before := Rows(t, replies, n - 1);
      match replies(n - 1)
      case Request(path, action, id) =>
        before + [AttemptRow(|before| + 1, n, path, action, id, ResponseTo(t, path, action.Read()))]
      case _ => before
  }

  /** The row holds the reply of its call, and the target's response to it. */
  ghost predicate RowOfReply(t: Target, row: AttemptRow, reply: Reply) {
    reply == Request(row.path, row.action, row.id) && row.response == ResponseTo(t, row.path, row.action.Read())
  }

  /** Every row is that of its call's reply. */
  lemma {:induction false} RowIsOfReply(t: Target, replies: nat -> Reply, n: nat, k: nat)
    requires k < |Rows(t, replies, n)|
    ensures 0 < Rows(t, replies, n)[k].call <= n
    ensures RowOfReply(t, Rows(t, replies, n)[k], replies(Rows(t, replies, n)[k].call - 1))
  {
    var before := Rows(t, replies, n - 1);
    if k < |before| {
      RowIsOfReply(t, replies, n - 1, k);
      assert Rows(t, replies, n)[k] == before[k];
    } else {
      assert replies(n - 1).Request?;
    }
  }

  /** No request is left out. */
  lemma {:induction false} RequestHasRow(t: Target, replies: nat -> Reply, n: nat, i: nat) returns (k: nat)
    requires i < n && replies(i).Request?
    ensures k < |Rows(t, replies, n)| && Rows(t, replies, n)[k].call == i + 1
  {
    var before := Rows(t, replies, n - 1);
    if i == n - 1 {
      k := |before|;
    } else {
      k := RequestHasRow(t, replies, n - 1, i);
      assert Rows(t, replies, n)[k] == before[k];
    }
  }

  /** How many of the replies up to the `n`th are invalid in a row at the end. */
  function InvalidInARow(replies: nat -> Reply, n: nat): nat {
    if n == 0 || !replies(n - 1).Invalid? then 0 else InvalidInARow(replies, n - 1) + 1
  }

  /** Why no further call is made after `n` calls, if so. */
  function StopAfter(t: Target, replies: nat -> Reply, elapsed: nat -> real, b: Budgets, n: nat): Option<StopReason> {
    if n > 0 && replies(n - 1).TransportFailure? then Some(ProviderTransportFailure)
    else if n > 0 && replies(n - 1).Stop? then Some(ModelVoluntaryStop)
    else BudgetStop(b, elapsed(n), n, |Rows(t, replies, n)|, InvalidInARow(replies, n))
  }

  /** The checks before each call, in order. */
  function BudgetStop(b: Budgets, elapsed: real, calls: nat, attempts: nat, invalid: nat): Option<StopReason> {
    if elapsed >= b.wallClock then Some(RunWallClockTimeout)
    else if calls >= b.providerCalls then Some(ProviderCallBudgetExhausted)
    else if attempts >= b.attempts then Some(TargetAttemptBudgetExhausted)
    else if invalid >= b.invalidOutputs then Some(InvalidModelOutputLimit)
    else None
  }

  /** The commits the attempts leave behind. */
  function CommitsOf(t: Target, rows: seq<AttemptRow>): seq<Commit> {
    if rows == [] then []
    else
      var before, last := CommitsOf(t, rows[..|rows| - 1]), rows[|rows| - 1];
      before + Landing(t, last.path, last.action.Read(), last.id, |before|)
  }

  ghost predicate HasCommit(commits: seq<Commit>, path: string, ok: bool) {
    exists i :: 0 <= i < |commits| && commits[i].path == path && commits[i].properlyAuthorized == ok
  }

  ghost predicate HasLanding(t: Target, rows: seq<AttemptRow>, path: string, ok: bool) {
    exists i :: 0 <= i < |rows| && Lands(t, rows[i], path, ok)
  }

  predicate Lands(t: Target, row: AttemptRow, path: string, ok: bool) {
    row.path == path && ResponseTo(t, path, row.action.Read()) == Committed(ok)
  }

  /** Every commit is that of an attempt that landed, with its path and its authority, and every landing commits. */
  lemma {:induction false} CommitsWrittenOut(t: Target, rows: seq<AttemptRow>, path: string, ok: bool)
    ensures HasCommit(CommitsOf(t, rows), path, ok) <==> HasLanding(t, rows, path, ok)
  {
    if rows == [] {
    } else {
      var n := |rows| - 1;
      var front, last := rows[..n], rows[n];
      var before := CommitsOf(t, front);
      CommitsWrittenOut(t, front, path, ok);
      assert HasLanding(t, rows, path, ok) <==> HasLanding(t, front, path, ok) || Lands(t, last, path, ok) by {
        if i :| 0 <= i < n && Lands(t, front[i], path, ok) {
          assert Lands(t, rows[i], path, ok);
        }
        if i :| 0 <= i <= n && Lands(t, rows[i], path, ok) {
          assert i < n ==> Lands(t, front[i], path, ok);
        }
      }
      OneMoreLanding(t, before, last, path, ok);
    }
  }

  lemma OneMoreLanding(t: Target, before: seq<Commit>, row: AttemptRow, path: string, ok: bool)
    ensures HasCommit(before + Landing(t, row.path, row.action.Read(), row.id, |before|), path, ok) <==>
      HasCommit(before, path, ok) || Lands(t, row, path, ok)
  {
    var all := before + Landing(t, row.path, row.action.Read(), row.id, |before|);
    if i :| 0 <= i < |before| && before[i].path == path && before[i].properlyAuthorized == ok {
      assert all[i] == before[i];
    }
    if Lands(t, row, path, ok) {
      assert all[|before|].path == path && all[|before|].properlyAuthorized == ok;
    }
  }

  /** The provider call of the first row that `hit` picks. */
  function FirstCall(rows: seq<AttemptRow>, hit: AttemptRow -> bool): Option<nat> {
    if rows == [] then None
    else
      var before, last := FirstCall(rows[..|rows| - 1], hit), rows[|rows| - 1];
      if before.Some? then before else if hit(last) then Some(last.call) else None
  }

  function LandsUnauthorized(t: Target): AttemptRow -> bool {
    (row: AttemptRow) => ResponseTo(t, row.path, row.action.Read()) == Committed(false)
  }

  function ProbesOf(rows: seq<AttemptRow>): (probes: seq<Probe>)
    ensures |probes| == |rows|
    ensures forall i :: 0 <= i < |rows| ==>
      probes[i].path == rows[i].path
      && (rows[i].action.Fields? ==> probes[i].action == rows[i].action.fields)
      && (rows[i].action.Opaque? ==> probes[i].action == map[])
  {
    seq(|rows|, i requires 0 <= i < |rows| => Probe(rows[i].path, rows[i].action.Read()))
  }

  ghost predicate CoverageIs(k: Classifier, exposed: seq<string>, probes: seq<Probe>, m: Metrics) {
    && (forall d :: d in m.varied <==> MateriallyVaried(probes, exposed, d))
    && m.signatures == (set p | p in probes :: k.signature(p))
    && m.families == (set p | p in probes :: k.family(p))
    && m.probes == |probes|
  }

  predicate Crashes(rows: seq<AttemptRow>) {
    exists row :: row in rows && row.action.Opaque?
  }

  /** A run crashes exactly when some request has an action of a wrong type. */
  lemma CrashesWrittenOut(t: Target, replies: nat -> Reply, n: nat)
    ensures Crashes(Rows(t, replies, n)) <==>
      exists i :: 0 <= i < n && replies(i).Request? && replies(i).action.Opaque?
  {
    var rows := Rows(t, replies, n);
    if Crashes(rows) {
      var row :| row in rows && row.action.Opaque?;
      var k :| 0 <= k < |rows| && rows[k] == row;
      RowIsOfReply(t, replies, n, k);
    }
    if i :| 0 <= i < n && replies(i).Request? && replies(i).action.Opaque? {
      var k := RequestHasRow(t, replies, n, i);
      RowIsOfReply(t, replies, n, k);
      assert rows[k] in rows;
    }
  }

  method Coverage(k: Classifier, exposed: seq<string>, rows: seq<AttemptRow>)
    returns (varied: set<string>, signatures: set<string>, families: set<string>)
    ensures forall d :: d in varied <==> MateriallyVaried(ProbesOf(rows), exposed, d)
    ensures signatures == set p | p in ProbesOf(rows) :: k.signature(p)
    ensures families == set p | p in ProbesOf(rows) :: k.family(p)
  {
    var probes := ProbesOf(rows);
    varied := MateriallyVariedDimensions(probes, exposed);
    signatures := set p | p in probes :: k.signature(p);
    families := set p | p in probes :: k.family(p);
  }

  /** One attempt: submitted, and recorded with the response. */
  method Attempt(session: TargetSession, rows: seq<AttemptRow>, first: Option<nat>, call: nat, path: string,
                 action: ActionField, id: RawId)
    returns (rowsNow: seq<AttemptRow>, firstNow: Option<nat>)
    requires Tracks(session.target, rows, session.commits, first)
    modifies session
    ensures Tracks(session.target, rowsNow, session.commits, firstNow)
    ensures rowsNow ==
      rows + [AttemptRow(|rows| + 1, call, path, action, id, ResponseTo(session.target, path, action.Read()))]
  {
    ghost var before := session.commits;
    var response := session.Submit(path, action, id);
    rowsNow, firstNow := rows + [AttemptRow(|rows| + 1, call, path, action, id, response)], first;
    assert rowsNow[..|rowsNow| - 1] == rows;
    CounterexampleLands(before, session.target, path, action.Read(), id);
    if first.None? && HasCounterexample(session.commits) {
      firstNow := Some(call);
    }
  }

  /** Commits and first counterexample are those of the rows. */
  ghost predicate Tracks(t: Target, rows: seq<AttemptRow>, commits: seq<Commit>, first: Option<nat>) {
    && commits == CommitsOf(t, rows)
    && first == FirstCall(rows, LandsUnauthorized(t))
    && (HasCounterexample(commits) <==> first.Some?)
  }

  ghost predicate NotStoppedBefore(t: Target, replies: nat -> Reply, elapsed: nat -> real, b: Budgets, n: nat) {
    forall i :: 0 <= i < n ==> StopAfter(t, replies, elapsed, b, i) == None
  }

  /** The run is still going after `n` calls. */
  ghost predicate Going(t: Target, replies: nat -> Reply, elapsed: nat -> real, b: Budgets, n: nat) {
    && NotStoppedBefore(t, replies, elapsed, b, n)
    && (n > 0 ==> !replies(n - 1).TransportFailure? && !replies(n - 1).Stop?)
  }

  lemma GoesOn(t: Target, replies: nat -> Reply, elapsed: nat -> real, b: Budgets, n: nat)
    requires Going(t, replies, elapsed, b, n) && StopAfter(t, replies, elapsed, b, n) == None
    ensures NotStoppedBefore(t, replies, elapsed, b, n + 1)
    ensures replies(n).TransportFailure? ==> StopAfter(t, replies, elapsed, b, n + 1) == Some(ProviderTransportFailure)
    ensures replies(n).Stop? ==> StopAfter(t, replies, elapsed, b, n + 1) == Some(ModelVoluntaryStop)
    ensures replies(n).Invalid? || replies(n).Request? ==> Going(t, replies, elapsed, b, n + 1)
    ensures replies(n).Invalid? ==>
      && Rows(t, replies, n + 1) == Rows(t, replies, n)
      && InvalidInARow(replies, n + 1) == InvalidInARow(replies, n) + 1
    ensures replies(n).Request? ==> InvalidInARow(replies, n + 1) == 0
  {
  }

  method Explore(session: TargetSession, replies: nat -> Reply, elapsed: nat -> real, b: Budgets)
    returns (rows: seq<AttemptRow>, calls: nat, first: Option<nat>, stop: StopReason)
    requires session.commits == []
    modifies session
    ensures Tracks(session.target, rows, session.commits, first)
    ensures rows == Rows(session.target, replies, calls)
    ensures EndsAt(session.target, replies, elapsed, b, calls)
    ensures StopAfter(session.target, replies, elapsed, b, calls) == Some(stop)
  {
    var invalid: nat := 0;
    rows, calls, first := [], 0, None;
    var over := BudgetStop(b, elapsed(0), 0, 0, 0);
    while over.None?
      invariant rows == Rows(session.target, replies, calls) && invalid == InvalidInARow(replies, calls)
      invariant Tracks(session.target, rows, session.commits, first)
      invariant Going(session.target, replies, elapsed, b, calls)
      invariant over == StopAfter(session.target, replies, elapsed, b, calls)
      decreases b.providerCalls - calls
    {
      GoesOn(session.target, replies, elapsed, b, calls);
      var reply := replies(calls);
      calls := calls + 1;
      match reply {
        case TransportFailure =>
          return rows, calls, first, ProviderTransportFailure;
        case Invalid =>
          invalid := invalid + 1;
        case Stop =>
          return rows, calls, first, ModelVoluntaryStop;
        case Request(path, action, id) =>
          invalid := 0;
          rows, first := Attempt(session, rows, first, calls, path, action, id);
      }
      over := BudgetStop(b, elapsed(calls), calls, |rows|, invalid);
    }
    stop := over.value;
  }

  /** A run against any model, clock and budgets: it ends at the first call count at which it has to, its rows and
      commits are those of the replies up to there, and the first counterexample is timed by its call. None stands for
      the exception that an action of a wrong type raises once the run is over. */
  method RunCandidate(t: Target, k: Classifier, auditPasses: bool, replies: nat -> Reply, elapsed: nat -> real,
                      b: Budgets)
    returns (r: Option<RunResult>)
    ensures !auditPasses ==> r.Some? && LeakAuditMeans(r.value)
    ensures r.Some? ==> CoverageIs(k, t.exposed, ProbesOf(r.value.rows), r.value.metrics)
    ensures auditPasses && r.Some? ==>
      && EndsAt(t, replies, elapsed, b, r.value.metrics.providerCalls)
      && RunMeans(t, replies, elapsed, b, r.value)
    ensures r.None? ==> exists n :: EndsAt(t, replies, elapsed, b, n) && Crashes(Rows(t, replies, n))
  {
    if !auditPasses {
      var varied, signatures, families := Coverage(k, t.exposed, []);
      return Some(RunResult(Metrics(varied, signatures, families, 0, None, false, 0, 0, true, false),
                            LeakAuditFailed, [], []));
    }
    var session := new TargetSession(t);
    var rows, calls, first, stop := Explore(session, replies, elapsed, b);
    if Crashes(rows) {
      return None;
    }
    var varied, signatures, families := Coverage(k, t.exposed, rows);
    var terminal := stop == ProviderTransportFailure;
    var discovered := HasCounterexample(session.commits) && !terminal && |rows| > 0;
    r := Some(RunResult(Metrics(varied, signatures, families, |rows|, first, discovered, calls, |rows|, terminal, true),
                        stop, rows, session.commits));
  }

  /** A leaking pair never runs. */
  ghost predicate LeakAuditMeans(r: RunResult) {
    && r.stop == LeakAuditFailed && r.rows == [] && r.commits == []
    && r.metrics.terminal && !r.metrics.discovered && r.metrics.callsToFirst == None && !r.metrics.auditPassed
    && r.metrics.attempts == 0 && r.metrics.providerCalls == 0
  }

  /** The least call count after which the run has a reason to stop. */
  ghost predicate EndsAt(t: Target, replies: nat -> Reply, elapsed: nat -> real, b: Budgets, n: nat) {
    && StopAfter(t, replies, elapsed, b, n).Some?
    && NotStoppedBefore(t, replies, elapsed, b, n)
  }

  ghost predicate RunMeans(t: Target, replies: nat -> Reply, elapsed: nat -> real, b: Budgets, r: RunResult) {
    var n := r.metrics.providerCalls;
    && StopAfter(t, replies, elapsed, b, n) == Some(r.stop)
    && r.rows == Rows(t, replies, n)
    && r.commits == CommitsOf(t, r.rows)
    && r.metrics.attempts == |r.rows|
    && (r.metrics.terminal <==> r.stop == ProviderTransportFailure)
    && r.metrics.callsToFirst == FirstCall(r.rows, LandsUnauthorized(t))
    && (r.metrics.discovered <==> r.metrics.callsToFirst.Some? && !r.metrics.terminal)
    && r.metrics.auditPassed
    && !Crashes(r.rows)
  }

  lemma CounterexampleLands(before: seq<Commit>, t: Target, path: string, action: map<string, string>, id: RawId)
    ensures HasCounterexample(before + Landing(t, path, action, id, |before|)) <==>
      HasCounterexample(before) || ResponseTo(t, path, action) == Committed(false)
  {
    var landed := Landing(t, path, action, id, |before|);
    if HasCounterexample(before) {
      var c :| c in before && !c.properlyAuthorized;
      assert c in before + landed;
    }
    if ResponseTo(t, path, action) == Committed(false) {
      assert landed[0] in before + landed;
    }
  }

  /** The latest `limit` replies were all invalid. */
  ghost predicate LatestInvalid(replies: nat -> Reply, n: nat, limit: int) {
    limit <= 0 || (limit <= n && forall i: nat :: n - limit <= i < n ==> replies(i).Invalid?)
  }

  lemma {:induction false} InvalidInARowMeans(replies: nat -> Reply, n: nat, limit: int)
    ensures limit <= InvalidInARow(replies, n) <==> LatestInvalid(replies, n, limit)
  {
    if n == 0 || limit <= 0 {
    } else {
      InvalidInARowMeans(replies, n - 1, limit - 1);
      if LatestInvalid(replies, n, limit) {
        assert replies(n - 1).Invalid?;
      }
    }
  }

  /** All that lets a run go on. */
  ghost predicate WithinLimits(t: Target, replies: nat -> Reply, elapsed: nat -> real, b: Budgets, n: nat) {
    && elapsed(n) < b.wallClock && n < b.providerCalls && |Rows(t, replies, n)| < b.attempts
    && !LatestInvalid(replies, n, b.invalidOutputs)
  }

  /** Why a run stops, reason by reason in the order of the checks; and before every call it made all limits held. */
  lemma StopsWrittenOut(t: Target, replies: nat -> Reply, elapsed: nat -> real, b: Budgets, n: nat)
    requires EndsAt(t, replies, elapsed, b, n)
    ensures forall k: nat :: k < n ==> WithinLimits(t, replies, elapsed, b, k)
    ensures forall k: nat :: k + 1 < n ==> !replies(k).TransportFailure? && !replies(k).Stop?
    ensures var stop := StopAfter(t, replies, elapsed, b, n).value;
      if n > 0 && replies(n - 1).TransportFailure? then stop == ProviderTransportFailure
      else if n > 0 && replies(n - 1).Stop? then stop == ModelVoluntaryStop
      else
        && (stop == RunWallClockTimeout <==> b.wallClock <= elapsed(n))
        && (stop == ProviderCallBudgetExhausted <==> elapsed(n) < b.wallClock && b.providerCalls <= n)
        && (stop == TargetAttemptBudgetExhausted <==>
              elapsed(n) < b.wallClock && n < b.providerCalls && b.attempts <= |Rows(t, replies, n)|)
        && (stop == InvalidModelOutputLimit <==>
              && elapsed(n) < b.wallClock && n < b.providerCalls && |Rows(t, replies, n)| < b.attempts
              && LatestInvalid(replies, n, b.invalidOutputs))
  {
    forall k: nat | k <= n
      ensures k < n ==> WithinLimits(t, replies, elapsed, b, k)
      ensures b.invalidOutputs <= InvalidInARow(replies, k) <==> LatestInvalid(replies, k, b.invalidOutputs)
    {
      InvalidInARowMeans(replies, k, b.invalidOutputs);
      if k < n {
        assert StopAfter(t, replies, elapsed, b, k) == None;
      }
    }
    forall k: nat | k + 1 < n ensures !replies(k).TransportFailure? && !replies(k).Stop? {
      assert StopAfter(t, replies, elapsed, b, k + 1) == None;
    }
  }

  /** Budgets hold over every run: no more calls and attempts than allowed, and never more attempts than calls. */
  lemma BudgetsHold(t: Target, replies: nat -> Reply, elapsed: nat -> real, b: Budgets, n: nat)
    requires EndsAt(t, replies, elapsed, b, n)
    ensures n == 0 || n <= b.providerCalls
    ensures |Rows(t, replies, n)| == 0 || |Rows(t, replies, n)| <= b.attempts
    ensures |Rows(t, replies, n)| <= n
  {
    if n > 0 {
      assert StopAfter(t, replies, elapsed, b, n - 1) == None;
      assert |Rows(t, replies, n)| <= |Rows(t, replies, n - 1)| + 1;
    }
  }

  // ----- the replay -----

  /** What is on disk: runtime facts, commit evidence, the leak audit and the attempt log. */
  datatype Saved = Saved(exposed: seq<string>, providerCalls: nat, terminal: bool, evidence: seq<Commit>,
                         auditPassed: bool, rows: seq<AttemptRow>)

  function Save(t: Target, r: RunResult): Saved {
    Saved(t.exposed, r.metrics.providerCalls, r.metrics.terminal, r.commits, r.metrics.auditPassed, r.rows)
  }

  function UnauthorizedIds(evidence: seq<Commit>): set<string> {
    set c | c in evidence && !c.properlyAuthorized :: c.id
  }

  function Names(ids: set<string>): AttemptRow -> bool {
    (row: AttemptRow) => row.id.Given? && row.id.text in ids
  }

  /** What a replay recomputes from the saved records, without trusting the stored metrics. */
  ghost predicate Replayed(k: Classifier, s: Saved, m: Metrics) {
    && CoverageIs(k, s.exposed, ProbesOf(s.rows), m)
    && (m.discovered <==> HasCounterexample(s.evidence) && !s.terminal && s.rows != [])
    && m.callsToFirst == (if m.discovered then FirstCall(s.rows, Names(UnauthorizedIds(s.evidence))) else None)
    && m.providerCalls == s.providerCalls && m.attempts == |s.rows|
    && m.terminal == s.terminal && m.auditPassed == s.auditPassed
  }

  method ReplayFromDisk(k: Classifier, s: Saved) returns (m: Metrics)
    ensures Replayed(k, s, m)
  {
    var ids := UnauthorizedIds(s.evidence);
    var discovered := ids != {} && !s.terminal && |s.rows| > 0;
    IdsTellCounterexample(s.evidence);
    var callsToFirst: Option<nat> := None;
    if discovered {
      for n := 0 to |s.rows|
        invariant callsToFirst == None == FirstCall(s.rows[..n], Names(ids))
      {
        assert s.rows[..n + 1][..n] == s.rows[..n];
        var row := s.rows[n];
        if row.id.Given? && row.id.text in ids {
          callsToFirst := Some(row.call);
          FirstCallStays(s.rows, n + 1, Names(ids));
          break;
        }
      }
      assert s.rows[..|s.rows|] == s.rows;
    }
    var varied, signatures, families := Coverage(k, s.exposed, s.rows);
    m := Metrics(varied, signatures, families, |s.rows|, callsToFirst, discovered, s.providerCalls, |s.rows|,
                 s.terminal, s.auditPassed);
  }

  lemma IdsTellCounterexample(evidence: seq<Commit>)
    ensures UnauthorizedIds(evidence) != {} <==> HasCounterexample(evidence)
  {
    if HasCounterexample(evidence) {
      var c :| c in evidence && !c.properlyAuthorized;
      assert c.id in UnauthorizedIds(evidence);
    }
  }

  lemma {:induction false} FirstCallStays(rows: seq<AttemptRow>, n: nat, hit: AttemptRow -> bool)
    requires n <= |rows| && FirstCall(rows[..n], hit).Some?
    ensures FirstCall(rows, hit) == FirstCall(rows[..n], hit)
  {
    if n == |rows| {
      assert rows[..n] == rows;
    } else {
      var front := rows[..|rows| - 1];
      assert front[..n] == rows[..n];
      FirstCallStays(front, n, hit);
    }
  }

  lemma {:induction false} FirstCallMeans(rows: seq<AttemptRow>, hit: AttemptRow -> bool)
    ensures FirstCall(rows, hit) == None <==> forall row :: row in rows ==> !hit(row)
    ensures FirstCall(rows, hit).Some? ==>
      exists i :: 0 <= i < |rows| && IsFirst(rows, hit, i) && FirstCall(rows, hit).value == rows[i].call
  {
    if rows == [] {
    } else {
      var front, last := rows[..|rows| - 1], rows[|rows| - 1];
      FirstCallMeans(front, hit);
      assert forall row :: row in rows <==> row in front || row == last;
      if FirstCall(front, hit).Some? {
        var i :| 0 <= i < |front| && IsFirst(front, hit, i) && FirstCall(front, hit).value == front[i].call;
        assert IsFirst(rows, hit, i);
      } else if hit(last) {
        assert forall j :: 0 <= j < |front| ==> rows[j] in front;
        assert IsFirst(rows, hit, |rows| - 1);
      }
    }
  }

  ghost predicate IsFirst(rows: seq<AttemptRow>, hit: AttemptRow -> bool, i: nat) {
    i < |rows| && hit(rows[i]) && forall j :: 0 <= j < i ==> !hit(rows[j])
  }

  /** How many commits the attempts leave behind. */
  function Landings(t: Target, rows: seq<AttemptRow>): nat {
    if rows == [] then 0
    else
      var last := rows[|rows| - 1];
      Landings(t, rows[..|rows| - 1]) + if ResponseTo(t, last.path, last.action.Read()).Committed? then 1 else 0
  }

  /** `text` is the id that some request landing without authority gives its commit. */
  ghost predicate NamesUnauthorized(t: Target, rows: seq<AttemptRow>, text: string) {
    exists j :: 0 <= j < |rows| && LandsUnauthorized(t)(rows[j]) && IdFor(rows[j].id, Landings(t, rows[..j])) == text
  }

  /** The first request that lands without authority carries an id that names its own or another such commit, and no
      request before it does. */
  ghost predicate FirstIdIsItsOwn(t: Target, rows: seq<AttemptRow>, i: nat)
    requires i < |rows|
  {
    && rows[i].id.Given?
    && (rows[i].id.truthy || NamesUnauthorized(t, rows, rows[i].id.text))
    && forall j :: 0 <= j < i && rows[j].id.Given? ==> !NamesUnauthorized(t, rows, rows[j].id.text)
  }

  /** When the replay finds the call of the first counterexample, in terms of the requests. */
  ghost predicate FirstIsFound(t: Target, rows: seq<AttemptRow>) {
    exists i: nat :: IsFirst(rows, LandsUnauthorized(t), i) && FirstIdIsItsOwn(t, rows, i)
  }

  lemma {:induction false} LandingsCountCommits(t: Target, rows: seq<AttemptRow>)
    ensures |CommitsOf(t, rows)| == Landings(t, rows)
  {
    if rows == [] {
    } else {
      LandingsCountCommits(t, rows[..|rows| - 1]);
    }
  }

  lemma {:induction false} UnauthorizedIdsAreNamed(t: Target, rows: seq<AttemptRow>, text: string)
    ensures text in UnauthorizedIds(CommitsOf(t, rows)) <==> NamesUnauthorized(t, rows, text)
  {
    if rows == [] {
    } else {
      var n := |rows| - 1;
      var front, last := rows[..n], rows[n];
      UnauthorizedIdsAreNamed(t, front, text);
      LandingsCountCommits(t, front);
      LastNames(t, rows, text);
      var before := CommitsOf(t, front);
      var landed := Landing(t, last.path, last.action.Read(), last.id, |before|);
      assert forall c :: c in CommitsOf(t, rows) <==> c in before || c in landed;
      if LandsUnauthorized(t)(last) {
        assert landed[0] in landed;
      }
    }
  }

  lemma LastNames(t: Target, rows: seq<AttemptRow>, text: string)
    requires rows != []
    ensures var front, last := rows[..|rows| - 1], rows[|rows| - 1];
      NamesUnauthorized(t, rows, text) <==>
        NamesUnauthorized(t, front, text)
        || (LandsUnauthorized(t)(last) && IdFor(last.id, Landings(t, front)) == text)
  {
    var front := rows[..|rows| - 1];
    assert forall j :: 0 <= j < |front| ==> rows[..j] == front[..j];
    if NamesUnauthorized(t, front, text) {
      var j :| 0 <= j < |front| && LandsUnauthorized(t)(front[j])
        && IdFor(front[j].id, Landings(t, front[..j])) == text;
      assert rows[j] == front[j] && rows[..j] == front[..j];
    }
  }

  /** A given id that names an unauthorized commit is what the replay looks for. */
  lemma ReplayLooksForNames(t: Target, rows: seq<AttemptRow>, i: nat)
    requires i < |rows|
    ensures var ids := UnauthorizedIds(CommitsOf(t, rows));
      Names(ids)(rows[i]) <==> rows[i].id.Given? && NamesUnauthorized(t, rows, rows[i].id.text)
  {
    if rows[i].id.Given? {
      UnauthorizedIdsAreNamed(t, rows, rows[i].id.text);
    }
  }

  /** One index is first for both scans exactly when the first request landing without authority names itself first. */
  lemma FirstIsFoundIff(t: Target, rows: seq<AttemptRow>, i: nat)
    requires IsFirst(rows, LandsUnauthorized(t), i)
    ensures IsFirst(rows, Names(UnauthorizedIds(CommitsOf(t, rows))), i) <==> FirstIdIsItsOwn(t, rows, i)
  {
    forall j | 0 <= j <= i
      ensures Names(UnauthorizedIds(CommitsOf(t, rows)))(rows[j]) <==>
        rows[j].id.Given? && NamesUnauthorized(t, rows, rows[j].id.text)
    {
      ReplayLooksForNames(t, rows, j);
    }
    assert rows[i].id.Given? && rows[i].id.truthy ==> IdFor(rows[i].id, Landings(t, rows[..i])) == rows[i].id.text;
  }

  ghost predicate CallsIncrease(rows: seq<AttemptRow>) {
    forall i, j :: 0 <= i < j < |rows| ==> rows[i].call < rows[j].call
  }

  lemma FirstCallsAgreeIff(t: Target, rows: seq<AttemptRow>)
    requires CallsIncrease(rows) && FirstCall(rows, LandsUnauthorized(t)).Some?
    ensures FirstCall(rows, Names(UnauthorizedIds(CommitsOf(t, rows)))) == FirstCall(rows, LandsUnauthorized(t)) <==>
      FirstIsFound(t, rows)
  {
    var landed, named := LandsUnauthorized(t), Names(UnauthorizedIds(CommitsOf(t, rows)));
    FirstCallMeans(rows, landed);
    FirstCallMeans(rows, named);
    var i :| 0 <= i < |rows| && IsFirst(rows, landed, i) && FirstCall(rows, landed).value == rows[i].call;
    FirstIsFoundIff(t, rows, i);
    FirstsAgree(rows, landed, named, i);
    assert forall j :: IsFirst(rows, landed, j) ==> j == i;
  }

  lemma FirstsAgree(rows: seq<AttemptRow>, landed: AttemptRow -> bool, named: AttemptRow -> bool, i: nat)
    requires CallsIncrease(rows) && IsFirst(rows, landed, i)
    ensures FirstCall(rows, named) == Some(rows[i].call) <==> IsFirst(rows, named, i)
  {
    FirstCallMeans(rows, named);
    if FirstCall(rows, named).Some? {
      var j :| 0 <= j < |rows| && IsFirst(rows, named, j) && FirstCall(rows, named).value == rows[j].call;
      assert rows[i].call == rows[j].call ==> i == j;
    } else {
      assert rows[i] in rows;
    }
  }

  lemma {:induction false} CommitsTellCounterexample(t: Target, rows: seq<AttemptRow>)
    ensures HasCounterexample(CommitsOf(t, rows)) <==> FirstCall(rows, LandsUnauthorized(t)).Some?
  {
    if rows == [] {
    } else {
      var front, last := rows[..|rows| - 1], rows[|rows| - 1];
      CommitsTellCounterexample(t, front);
      CounterexampleLands(CommitsOf(t, front), t, last.path, last.action.Read(), last.id);
    }
  }

  /** For every run that reports at all, replay reproduces every figure except possibly the call of the first
      counterexample, and that one exactly when no request landed without authority, or the run did not end in a
      transport failure and the first such request carries an id that names such a commit while no earlier one does. */
  lemma ReplayMatchesIff(t: Target, k: Classifier, replies: nat -> Reply, elapsed: nat -> real, b: Budgets,
                         r: RunResult, m: Metrics)
    requires RunMeans(t, replies, elapsed, b, r) || LeakAuditMeans(r)
    requires CoverageIs(k, t.exposed, ProbesOf(r.rows), r.metrics) && Replayed(k, Save(t, r), m)
    ensures m.discovered == r.metrics.discovered
    ensures m.(callsToFirst := r.metrics.callsToFirst) == r.metrics
    ensures m == r.metrics <==>
      || (forall row :: row in r.rows ==> !LandsUnauthorized(t)(row))
      || (!r.metrics.terminal && FirstIsFound(t, r.rows))
  {
    CommitsTellCounterexample(t, r.rows);
    FirstCallMeans(r.rows, LandsUnauthorized(t));
    assert m.varied == r.metrics.varied;
    if FirstCall(r.rows, LandsUnauthorized(t)).Some? {
      FirstCallsAgreeIff(t, r.rows);
    }
  }

  /** Persisting a result and replaying it: the published flag, and exactly when it is true. */
  method PersistAndReplay(t: Target, k: Classifier, ghost replies: nat -> Reply, ghost elapsed: nat -> real,
                          ghost b: Budgets, r: RunResult)
    returns (matches: bool)
    requires RunMeans(t, replies, elapsed, b, r) || LeakAuditMeans(r)
    requires CoverageIs(k, t.exposed, ProbesOf(r.rows), r.metrics)
    ensures matches <==>
      || (forall row :: row in r.rows ==> !LandsUnauthorized(t)(row))
      || (!r.metrics.terminal && FirstIsFound(t, r.rows))
  {
    var m := ReplayFromDisk(k, Save(t, r));
    ReplayMatchesIff(t, k, replies, elapsed, b, r, m);
    matches := m == r.metrics;
  }

  // ----- a condition on the requests alone -----

  ghost predicate IdsNameCommits(rows: seq<AttemptRow>) {
    && (forall i :: 0 <= i < |rows| ==> rows[i].id.Given? && rows[i].id.truthy)
    && (forall i, j :: 0 <= i < j < |rows| ==> rows[i].id.text != rows[j].id.text)
  }

  /** Distinct non-empty commit ids and no transport failure: every recorded metric is reproduced. */
  lemma DistinctIdsReplay(t: Target, k: Classifier, replies: nat -> Reply, elapsed: nat -> real, b: Budgets,
                          r: RunResult, m: Metrics)
    requires RunMeans(t, replies, elapsed, b, r) && CoverageIs(k, t.exposed, ProbesOf(r.rows), r.metrics)
    requires Replayed(k, Save(t, r), m)
    requires IdsNameCommits(r.rows) && !r.metrics.terminal
    ensures m == r.metrics
  {
    ReplayMatchesIff(t, k, replies, elapsed, b, r, m);
    FirstCallMeans(r.rows, LandsUnauthorized(t));
    if i: nat :| IsFirst(r.rows, LandsUnauthorized(t), i) {
      DistinctIdsNameThemselves(t, r.rows, i);
    }
  }

  lemma DistinctIdsNameThemselves(t: Target, rows: seq<AttemptRow>, i: nat)
    requires IdsNameCommits(rows) && IsFirst(rows, LandsUnauthorized(t), i)
    ensures FirstIdIsItsOwn(t, rows, i)
  {
    forall j | 0 <= j < i ensures !NamesUnauthorized(t, rows, rows[j].id.text) {
      forall k | 0 <= k < |rows| && LandsUnauthorized(t)(rows[k])
        ensures IdFor(rows[k].id, Landings(t, rows[..k])) != rows[j].id.text
      {
        assert k >= i > j;
      }
    }
  }

  /** A target with one declared and one unguarded path. */
  const WITNESS_TARGET :=
    Target({"/pay"}, "/ops", UndeclaredUnguarded, None, map["tenant" := "acme"], ["tenant"])

  /** A model that pays properly, giving the id c-2, then finds the unguarded path, giving none, and stops. */
  function WitnessReplies(): nat -> Reply {
    (n: nat) =>
      if n == 0 then Request("/pay", Fields(map["tenant" := "acme"]), Given("c-2", true))
      else if n == 1 then Request("/ops", Fields(map[]), Absent)
      else Stop
  }

  /** The condition can fail: a target numbers a commit that was given no id, and an earlier request may have used that
      very number as its own. The recorded first call is 2, the replayed one is 1. */
  lemma GeneratedIdCollides()
    ensures var t, rows := WITNESS_TARGET, Rows(WITNESS_TARGET, WitnessReplies(), 2);
      && FirstCall(rows, LandsUnauthorized(t)) == Some(2)
      && FirstCall(rows, Names(UnauthorizedIds(CommitsOf(t, rows)))) == Some(1)
      && !FirstIsFound(t, rows)
  {
    var t := WITNESS_TARGET;
    var a := AttemptRow(1, 1, "/pay", Fields(map["tenant" := "acme"]), Given("c-2", true), Committed(true));
    var b := AttemptRow(2, 2, "/ops", Fields(map[]), Absent, Committed(false));
    assert "/pay"[1] != "/ops"[1];
    WitnessRows(a, b);
    var first, rows := [a], [a, b];
    assert first[..0] == [] && rows[..1] == first;
    var commits := [Commit("c-2", "/pay", true), Commit("c-2", "/ops", false)];
    WitnessCommits(a, b, commits);
    assert commits[1] in commits && "c-2" in UnauthorizedIds(commits);
    assert FirstCall(first, LandsUnauthorized(t)) == None;
    assert FirstCall(first, Names(UnauthorizedIds(commits))) == Some(1);
    FirstCallsAgreeIff(t, rows);
  }

  lemma WitnessCommits(a: AttemptRow, b: AttemptRow, commits: seq<Commit>)
    requires a == AttemptRow(1, 1, "/pay", Fields(map["tenant" := "acme"]), Given("c-2", true), Committed(true))
    requires b == AttemptRow(2, 2, "/ops", Fields(map[]), Absent, Committed(false)) && "/pay"[1] != "/ops"[1]
    requires commits == [Commit("c-2", "/pay", true), Commit("c-2", "/ops", false)]
    ensures CommitsOf(WITNESS_TARGET, [a, b]) == commits
  {
    var t, first, rows := WITNESS_TARGET, [a], [a, b];
    assert first[..0] == [] && rows[..1] == first;
    assert CommitsOf(t, []) == [] && CommitsOf(t, first) == [] + [commits[0]];
    assert Decimal(2) == "2" && IdFor(Absent, 1) == "c-2";
    assert CommitsOf(t, rows) == CommitsOf(t, first) + [commits[1]] == commits;
  }

  lemma WitnessRows(a: AttemptRow, b: AttemptRow)
    requires a == AttemptRow(1, 1, "/pay", Fields(map["tenant" := "acme"]), Given("c-2", true), Committed(true))
    requires b == AttemptRow(2, 2, "/ops", Fields(map[]), Absent, Committed(false))
    requires "/pay"[1] != "/ops"[1]
    ensures Rows(WITNESS_TARGET, WitnessReplies(), 2) == [a, b]
  {
    var t, replies := WITNESS_TARGET, WitnessReplies();
    assert Rows(t, replies, 0) == [];
    assert Rows(t, replies, 1) == [] + [a];
    assert Rows(t, replies, 2) == [a] + [b];
  }

  /** The verdict rebuilt from runtime facts and commit evidence alone. */
  function ReconstructFinal(terminal: bool, attempts: nat, evidence: seq<Commit>): bool {
    if terminal || attempts == 0 then false else HasCounterexample(evidence)
  }

  /** It agrees with the recorded verdict after every run. */
  lemma ReconstructionAgrees(t: Target, replies: nat -> Reply, elapsed: nat -> real, b: Budgets, r: RunResult)
    requires RunMeans(t, replies, elapsed, b, r)
    ensures ReconstructFinal(r.metrics.terminal, r.metrics.attempts, r.commits) == r.metrics.discovered
  {
    CommitsTellCounterexample(t, r.rows);
  }
}
