/** The bounded adversarial run of the sequence runner: gates, the one-shot authorization ledger, provider calls with
    retries, and the S3 loop (tools/oat_consequence_sequence_runner_004.py:210-301, 643-644, 772-812, 861-887,
    1319-1540). Provider, model, clock and delivery are arbitrary oracles. */
module SequenceRun {
  import opened Wrappers
  import opened Authorizations
  import opened Verifier
  import opened HostSink

  datatype Stage = S0 | S1 | S1A | S2 | S3 | S4

  // ----- the owner authorization -----

  datatype LedgerEvent = Noted(stage: Stage, consumed: bool) | Consumption(stage: Stage)

  function Consumptions(events: seq<LedgerEvent>): nat {
    if events == [] then 0
    else Consumptions(events[..|events| - 1]) + if events[|events| - 1].Consumption? then 1 else 0
  }

  class AuthorizationLedger {
    var consumed: bool
    var events: seq<LedgerEvent>

    /** One consumption event if consumed and none otherwise, and every one of them in S3. */
    ghost predicate Valid()
      reads this
    {
      && Consumptions(events) == (if consumed then 1 else 0)
      && forall e :: e in events && e.Consumption? ==> e.stage == S3
    }

    constructor ()
      ensures Valid() && !consumed && events == []
    {
      consumed, events := false, [];
    }

    method Note(stage: Stage)
      requires Valid()
      modifies this
      ensures Valid() && consumed == old(consumed) && events == old(events) + [Noted(stage, consumed)]
    {
      events := events + [Noted(stage, consumed)];
      assert events[..|events| - 1] == old(events);
    }

    /** False stands for the gate error: not S3, or already consumed. */
    method Consume(stage: Stage) returns (ok: bool)
      requires Valid()
      modifies this
      ensures Valid()
      ensures ok == (stage == S3 && !old(consumed))
      ensures ok ==> consumed && events == old(events) + [Consumption(stage)]
      ensures !ok ==> consumed == old(consumed) && events == old(events)
    {
      ok := stage == S3 && !consumed;
      if ok {
        consumed := true;
        events := events + [Consumption(stage)];
        assert events[..|events| - 1] == old(events);
      }
    }
  }

  // ----- gates -----

  datatype Status = NotRun | Pass | Fail

  datatype Gate =
    | S0Preflight
    | PcSensitivity
    | PcEvidenceSealed
    | StateSeparation
    | AdversaryContextIsolation
    | ProviderPreflight

  class GateState {
    var s0Preflight: Status
    var pcSensitivity: bool
    var pcEvidenceSealed: bool
    var stateSeparation: bool
    var adversaryContextIsolation: Status
    var providerPreflight: Status

    constructor ()
      ensures s0Preflight == adversaryContextIsolation == providerPreflight == NotRun
      ensures !pcSensitivity && !pcEvidenceSealed && !stateSeparation
    {
      s0Preflight, adversaryContextIsolation, providerPreflight := NotRun, NotRun, NotRun;
      pcSensitivity, pcEvidenceSealed, stateSeparation := false, false, false;
    }

    predicate Open(g: Gate)
      reads this
    {
      match g
      case S0Preflight => s0Preflight.Pass?
      case PcSensitivity => pcSensitivity
      case PcEvidenceSealed => pcEvidenceSealed
      case StateSeparation => stateSeparation
      case AdversaryContextIsolation => adversaryContextIsolation.Pass?
      case ProviderPreflight => providerPreflight.Pass?
    }

    ghost predicate AllOpen()
      reads this
    {
      forall g :: Open(g)
    }

    /** Lists a gate exactly when it is shut. */
    method Blockers() returns (blocked: seq<Gate>)
      ensures forall g :: g in blocked <==> !Open(g)
    {
      blocked := [];
      if !s0Preflight.Pass? { blocked := blocked + [S0Preflight]; }
      if !pcSensitivity { blocked := blocked + [PcSensitivity]; }
      if !pcEvidenceSealed { blocked := blocked + [PcEvidenceSealed]; }
      if !stateSeparation { blocked := blocked + [StateSeparation]; }
      if !adversaryContextIsolation.Pass? { blocked := blocked + [AdversaryContextIsolation]; }
      if !providerPreflight.Pass? { blocked := blocked + [ProviderPreflight]; }
    }

    method S3Eligible() returns (eligible: bool)
      ensures eligible <==> AllOpen()
    {
      var blocked := Blockers();
      eligible := blocked == [];
      if !eligible {
        assert blocked[0] in blocked && !Open(blocked[0]);
      }
    }
  }

  // ----- oracles -----

  datatype ModelOutput = InvalidOutput | Stop | Request(path: string, payload: Payload)

  datatype ProviderReply = Answer(output: ModelOutput) | TransportFailure(retryable: bool)

  /** Whatever provider, clock and network do: by provider call, by clock reading, by target attempt. */
  datatype World = World(
    provider: nat -> ProviderReply,
    elapsed: nat -> real,
    delivered: nat -> bool)

  datatype Limits = Limits(maxProviderCalls: int, maxTargetAttempts: int, maxInvalidOutputs: int, wallClock: real)

  class Clock {
    const world: World
    var readings: nat

    constructor (world: World)
      ensures this.world == world && readings == 0
    {
      this.world, readings := world, 0;
    }

    method Expired(limit: real) returns (expired: bool)
      modifies this
      ensures readings == old(readings) + 1 && expired == (world.elapsed(old(readings)) >= limit)
    {
      expired := world.elapsed(readings) >= limit;
      readings := readings + 1;
    }
  }

  // ----- provider calls -----

  datatype Line =
    | Failure(call: nat, ordinal: nat, retryable: bool, turn: nat)
    | Success(call: nat, ordinal: nat, output: ModelOutput, turn: nat)

  datatype StopReason =
    | Unset
    | WallClockTimeout
    | ProviderBudgetExhausted
    | TargetBudgetExhausted
    | InvalidOutputLimit
    | ProviderTransportFailure
    | VoluntaryStop
    | VerifierConfirmedFailure

  datatype CallResult = Answered(line: Line) | BudgetStop(reason: StopReason) | Terminal

  class ProviderState {
    var calls: nat
    var failures: seq<Line>

    constructor ()
      ensures calls == 0 && failures == []
    {
      calls, failures := 0, [];
    }
  }

  const RETRIES: nat := 3

  function Max(a: int, b: int): int {
    if a < b then b else a
  }

  /** The clock readings from `from` on, up to the `to`th, were before the limit. */
  ghost predicate InTime(world: World, limits: Limits, from: nat, to: int) {
    forall k :: from <= k < to ==> world.elapsed(k) < limits.wallClock
  }

  /** The failures of one logical turn: consecutive calls and ordinals, all retryable but possibly the last. */
  ghost predicate RetryChain(world: World, chain: seq<Line>, from: nat, turn: nat) {
    && |chain| <= RETRIES
    && (forall i :: 0 <= i < |chain| ==>
          && chain[i].Failure? && chain[i].call == from + i + 1 && chain[i].ordinal == i && chain[i].turn == turn
          && world.provider(chain[i].call) == TransportFailure(chain[i].retryable))
    && (forall i :: 0 <= i < |chain| - 1 ==> chain[i].retryable)
  }

  lemma ChainGrows(world: World, chain: seq<Line>, from: nat, turn: nat, line: Line)
    requires RetryChain(world, chain, from, turn) && |chain| < RETRIES
    requires chain != [] ==> chain[|chain| - 1].retryable
    requires line.Failure? && line.call == from + |chain| + 1 && line.ordinal == |chain| && line.turn == turn
    requires world.provider(line.call) == TransportFailure(line.retryable)
    ensures RetryChain(world, chain + [line], from, turn)
  {
  }

  /** One request: the first of all consumes the authorization. */
  method ProviderCallOnce(world: World, provider: ProviderState, ledger: AuthorizationLedger)
    returns (reply: ProviderReply)
    requires ledger.Valid()
    modifies provider, ledger
    ensures ledger.Valid() && ledger.consumed
    ensures provider.calls == old(provider.calls) + 1 && provider.failures == old(provider.failures)
    ensures reply == world.provider(provider.calls)
  {
    provider.calls := provider.calls + 1;
    if !ledger.consumed {
      var _ := ledger.Consume(S3);
    }
    reply := world.provider(provider.calls);
  }

  method ProviderCallWithRetries(world: World, limits: Limits, provider: ProviderState, clock: Clock,
                                 ledger: AuthorizationLedger, turn: nat)
    returns (result: CallResult, ghost chain: seq<Line>)
    requires clock.world == world && ledger.Valid()
    modifies provider, clock, ledger
    ensures ledger.Valid() && (ledger.consumed <==> old(ledger.consumed) || provider.calls > old(provider.calls))
    ensures provider.failures == old(provider.failures) + chain
    ensures RetryChain(world, chain, old(provider.calls), turn)
    ensures
      && provider.calls == old(provider.calls) + |chain| + (if result.Answered? then 1 else 0)
      && (result.Answered? ==>
            && result.line.Success? && result.line.call == provider.calls && result.line.ordinal == |chain|
            && result.line.turn == turn && world.provider(provider.calls) == Answer(result.line.output)
            && |chain| < RETRIES && (chain != [] ==> chain[|chain| - 1].retryable))
      && (result.Terminal? ==> chain != [] && (!chain[|chain| - 1].retryable || |chain| == RETRIES))
    ensures result.BudgetStop? ==>
      || (result.reason == WallClockTimeout && OutOfTime(world, limits, clock.readings))
      || (result.reason == ProviderBudgetExhausted && provider.calls >= limits.maxProviderCalls)
    ensures provider.calls <= Max(old(provider.calls), limits.maxProviderCalls) && |chain| <= 3
    // the clock is read before every call, and no call follows a late reading
    ensures clock.readings == old(clock.readings) + |chain| + if result.Terminal? then 0 else 1
    ensures InTime(world, limits, old(clock.readings),
                   if result == BudgetStop(WallClockTimeout) then clock.readings - 1 else clock.readings)
  {
    var ordinal := 0;
    chain := [];
    while true
      invariant 0 <= ordinal < RETRIES && ordinal == |chain|
      invariant provider.failures == old(provider.failures) + chain
      invariant provider.calls == old(provider.calls) + |chain|
      invariant RetryChain(world, chain, old(provider.calls), turn)
      invariant chain != [] ==> chain[|chain| - 1].retryable
      invariant ledger.Valid() && (ledger.consumed <==> old(ledger.consumed) || provider.calls > old(provider.calls))
      invariant provider.calls <= Max(old(provider.calls), limits.maxProviderCalls)
      invariant clock.readings == old(clock.readings) + |chain|
      invariant InTime(world, limits, old(clock.readings), clock.readings)
      decreases RETRIES - ordinal
    {
      var expired := clock.Expired(limits.wallClock);
      if expired {
        return BudgetStop(WallClockTimeout), chain;
      }
      if provider.calls >= limits.maxProviderCalls {
        return BudgetStop(ProviderBudgetExhausted), chain;
      }
      var reply := ProviderCallOnce(world, provider, ledger);
      match reply
      case Answer(output) =>
        return Answered(Success(provider.calls, ordinal, output, turn)), chain;
      case TransportFailure(retryable) =>
        var line := Failure(provider.calls, ordinal, retryable, turn);
        provider.failures := provider.failures + [line];
        ChainGrows(world, chain, old(provider.calls), turn, line);
        chain := chain + [line];
        if !retryable || ordinal == RETRIES - 1 {
          return Terminal, chain;
        }
        ordinal := ordinal + 1;
    }
  }

  // ----- the fail-closed wrapper -----

  datatype SubjectResult = NotEstablished | CounterexampleFound | EstablishedWithinScope

  datatype Final = Final(disposition: Disposition, executed: bool, subjectResult: SubjectResult)

  function Observed(v: Verdict): set<string> {
    if v.reconciliation.Some? then v.reconciliation.value.observed else {}
  }

  /** What a final verdict has to say of the subject's disposition, the attempts and the routes observed. */
  ghost predicate Tells(final: Final, d: Disposition, attempts: nat, terminal: bool, routesObserved: bool) {
    && (final.executed <==> !terminal && attempts > 0 && routesObserved)
    && (final.executed ==> final.disposition == d)
    && (final.executed && d == BoundaryFailure ==> final.subjectResult == CounterexampleFound)
    && (final.executed && d != BoundaryFailure ==> final.subjectResult == EstablishedWithinScope)
    && (!final.executed ==> final.disposition == InstrumentFailure && final.subjectResult == NotEstablished)
  }

  function FailClosed(v: Verdict, attempts: nat, terminal: bool): (final: Final)
    ensures Tells(final, v.disposition, attempts, terminal, Observed(v) != {})
  {
    if terminal || attempts == 0 || Observed(v) == {} then Final(InstrumentFailure, false, NotEstablished)
    else
      Final(v.disposition, true,
            if v.disposition == BoundaryFailure then CounterexampleFound else EstablishedWithinScope)
  }

  lemma ObservedMeansArrivals(s: Scheme, st: HostState)
    ensures Observed(VerdictOf(s, st)) != {} <==> st.arrivals != []
  {
    VerdictMeans(s, EvidenceOf(st));
    if st.arrivals != [] {
      assert st.arrivals[0].routeId in ObservedRoutes(st.arrivals);
    }
  }

  // ----- S3 -----

  datatype AttemptLine = AttemptLine(attempt: nat, providerCall: nat, path: string, payload: Payload, delivered: bool)

  datatype Runtime = Runtime(
    stopReason: StopReason,
    providerCalls: nat,
    attempts: nat,
    terminal: bool,
    subject: Verdict,
    final: Final)

  datatype S3Result =
    | GateError
    | Ran(runtime: Runtime, transcript: seq<Line>, attemptLog: seq<AttemptLine>)

  /** The host after the delivered requests of the log, in order. */
  function ServeAll(s: Scheme, st: HostState, log: seq<AttemptLine>): HostState {
    if log == [] then st
    else
      var before, last := ServeAll(s, st, log[..|log| - 1]), log[|log| - 1];
      if last.delivered then Served(s, before, last.path, last.payload) else before
  }

  function Delivered(log: seq<AttemptLine>): (r: seq<AttemptLine>)
    ensures forall line :: line in r <==> line in log && line.delivered
  {
    if log == [] then []
    else
      var last := log[|log| - 1];
      Delivered(log[..|log| - 1]) + if last.delivered then [last] else []
  }

  /** Requests that were not delivered leave no trace on the host. */
  lemma {:induction false} UndeliveredLeaveNoTrace(s: Scheme, st: HostState, log: seq<AttemptLine>)
    ensures ServeAll(s, st, log) == ServeAll(s, st, Delivered(log))
    ensures Delivered(log) == [] ==> ServeAll(s, st, log) == st
  {
    if log == [] {
    } else {
      var last := log[|log| - 1];
      UndeliveredLeaveNoTrace(s, st, log[..|log| - 1]);
      var all, earlier := Delivered(log), Delivered(log[..|log| - 1]);
      if last.delivered {
        assert all[..|all| - 1] == earlier;
      } else {
        assert all == earlier;
      }
    }
  }

  /** One transcript line per provider call, in call order. */
  ghost predicate TranscriptMatches(world: World, transcript: seq<Line>) {
    forall i :: 0 <= i < |transcript| ==>
      && transcript[i].call == i + 1
      && (transcript[i].Success? ==> world.provider(i + 1) == Answer(transcript[i].output))
      && (transcript[i].Failure? ==> world.provider(i + 1) == TransportFailure(transcript[i].retryable))
  }

  /** One log line per attempt, each for the model output of a distinct earlier provider call. */
  ghost predicate LogMatches(world: World, log: seq<AttemptLine>, calls: nat) {
    && (forall i :: 0 <= i < |log| ==>
          && log[i].attempt == i + 1 && 1 <= log[i].providerCall <= calls
          && log[i].delivered == world.delivered(i + 1)
          && world.provider(log[i].providerCall) == Answer(Request(log[i].path, log[i].payload)))
    && (forall i, j :: 0 <= i < j < |log| ==> log[i].providerCall < log[j].providerCall)
  }

  predicate EndsInFailure(transcript: seq<Line>) {
    transcript != [] && transcript[|transcript| - 1].Failure?
  }

  /** How many of the latest answers, up to the last valid one, were invalid. */
  function TrailingInvalid(transcript: seq<Line>): nat {
    if transcript == [] then 0
    else
      var front, last := transcript[..|transcript| - 1], transcript[|transcript| - 1];
      if last.Failure? then TrailingInvalid(front)
      else if last.output == InvalidOutput then 1 + TrailingInvalid(front)
      else 0
  }

  /** The latest of `readings` clock readings had reached the limit. */
  ghost predicate OutOfTime(world: World, limits: Limits, readings: nat) {
    readings > 0 && world.elapsed(readings - 1) >= limits.wallClock
  }

  /** Why a run may stop for the reason it gives; the earlier checks have passed. */
  ghost predicate StopIsJustified(world: World, limits: Limits, readings: nat, stop: StopReason, attempts: nat,
                                  transcript: seq<Line>)
  {
    match stop
    case Unset => true
    case WallClockTimeout => OutOfTime(world, limits, readings)
    case ProviderBudgetExhausted => |transcript| >= limits.maxProviderCalls
    case TargetBudgetExhausted =>
      |transcript| < limits.maxProviderCalls && attempts >= limits.maxTargetAttempts
    case InvalidOutputLimit =>
      && |transcript| < limits.maxProviderCalls && attempts < limits.maxTargetAttempts
      && TrailingInvalid(transcript) >= limits.maxInvalidOutputs
    case ProviderTransportFailure => EndsInFailure(transcript)
    case VoluntaryStop =>
      transcript != [] && transcript[|transcript| - 1].Success? && transcript[|transcript| - 1].output == Stop
    case VerifierConfirmedFailure => attempts > 0
  }

  function LastTurn(transcript: seq<Line>): nat {
    if transcript == [] then 0 else transcript[|transcript| - 1].turn
  }

  /** Turns are counted from 1 and end with an answer; the tries of a turn are counted from 0. */
  ghost predicate TurnsAreNumbered(transcript: seq<Line>) {
    && (transcript != [] ==> transcript[0].turn == 1 && transcript[0].ordinal == 0)
    && forall i :: 0 < i < |transcript| ==>
         && transcript[i].turn == transcript[i - 1].turn + (if transcript[i - 1].Success? then 1 else 0)
         && transcript[i].ordinal == (if transcript[i - 1].Success? then 0 else transcript[i - 1].ordinal + 1)
  }

  lemma ChainIsNumbered(world: World, transcript: seq<Line>, chain: seq<Line>, turn: nat)
    requires TurnsAreNumbered(transcript) && !EndsInFailure(transcript) && turn == LastTurn(transcript) + 1
    requires RetryChain(world, chain, |transcript|, turn)
    ensures TurnsAreNumbered(transcript + chain)
    ensures LastTurn(transcript + chain) == if chain == [] then LastTurn(transcript) else turn
  {
  }

  lemma AnswerIsNumbered(world: World, transcript: seq<Line>, chain: seq<Line>, line: Line, turn: nat)
    requires TurnsAreNumbered(transcript) && !EndsInFailure(transcript) && turn == LastTurn(transcript) + 1
    requires RetryChain(world, chain, |transcript|, turn)
    requires line.Success? && line.turn == turn && line.ordinal == |chain|
    ensures TurnsAreNumbered(transcript + chain + [line])
    ensures LastTurn(transcript + chain + [line]) == turn
  {
    ChainIsNumbered(world, transcript, chain, turn);
    var all := transcript + chain;
    if chain != [] {
      assert all[|all| - 1] == chain[|chain| - 1];
    }
  }

  /** The clock was read before every turn and every call, and only the reading that stops the run was late. */
  ghost predicate ClockKept(world: World, limits: Limits, from: nat, readings: nat, stop: StopReason,
                            transcript: seq<Line>)
  {
    && InTime(world, limits, from, if stop == WallClockTimeout then readings - 1 else readings)
    && readings >= from + |transcript| + LastTurn(transcript)
                   + if stop in {WallClockTimeout, ProviderBudgetExhausted, TargetBudgetExhausted, InvalidOutputLimit}
                     then 1 else 0
  }

  /** The reading of the turn's own check was in time, too. */
  ghost predicate TurnMayStart(world: World, limits: Limits, from: nat, readings: nat, transcript: seq<Line>) {
    InTime(world, limits, from, readings) && readings > from + |transcript| + LastTurn(transcript)
  }

  lemma {:induction false} FailuresKeepTrailingInvalid(transcript: seq<Line>, chain: seq<Line>)
    requires forall i :: 0 <= i < |chain| ==> chain[i].Failure?
    ensures TrailingInvalid(transcript + chain) == TrailingInvalid(transcript)
  {
    if chain == [] {
      assert transcript + chain == transcript;
    } else {
      var n := |chain| - 1;
      FailuresKeepTrailingInvalid(transcript, chain[..n]);
      assert (transcript + chain)[..|transcript| + n] == transcript + chain[..n];
    }
  }

  lemma ChainExtendsTranscript(world: World, transcript: seq<Line>, chain: seq<Line>, turn: nat)
    requires TranscriptMatches(world, transcript) && RetryChain(world, chain, |transcript|, turn)
    ensures TranscriptMatches(world, transcript + chain)
    ensures EndsInFailure(transcript + chain) <==> (chain != [] || EndsInFailure(transcript))
  {
  }

  lemma AnswerExtendsTranscript(world: World, transcript: seq<Line>, line: Line)
    requires TranscriptMatches(world, transcript) && line.Success? && line.call == |transcript| + 1
    requires world.provider(line.call) == Answer(line.output)
    ensures TranscriptMatches(world, transcript + [line]) && !EndsInFailure(transcript + [line])
    ensures TrailingInvalid(transcript + [line]) ==
      if line.output == InvalidOutput then 1 + TrailingInvalid(transcript) else 0
  {
    assert (transcript + [line])[..|transcript|] == transcript;
  }

  lemma LogReachesFurther(world: World, log: seq<AttemptLine>, calls: nat, later: nat)
    requires LogMatches(world, log, calls) && calls <= later
    ensures LogMatches(world, log, later)
  {
  }

  lemma LogExtends(world: World, log: seq<AttemptLine>, calls: nat, line: AttemptLine)
    requires LogMatches(world, log, calls) && line.attempt == |log| + 1 && calls < line.providerCall
    requires line.delivered == world.delivered(line.attempt)
    requires world.provider(line.providerCall) == Answer(Request(line.path, line.payload))
    ensures LogMatches(world, log + [line], line.providerCall)
  {
  }

  /** What is kept about a run: calls (retries included) and attempts within budget, attempts never more than calls,
      one transcript line per call in call order, one log line per attempt, and a terminal failure exactly when the
      last provider call failed. */
  ghost predicate BooksBalance(world: World, limits: Limits, calls: nat, attempts: nat, terminal: bool,
                               stop: StopReason, transcript: seq<Line>, log: seq<AttemptLine>)
  {
    && calls <= Max(0, limits.maxProviderCalls)
    && attempts <= Max(0, limits.maxTargetAttempts) && attempts <= calls
    && |transcript| == calls && TranscriptMatches(world, transcript)
    && |log| == attempts && LogMatches(world, log, calls)
    && (terminal <==> EndsInFailure(transcript))
    && (stop == Unset ==> !terminal)
  }

  /** The verdict is a failure exactly when that is why the run stopped, unless it was one to begin with. */
  ghost predicate StopTellsVerdict(s: Scheme, start: HostState, st: HostState, stop: StopReason) {
    && (stop == VerifierConfirmedFailure ==> VerdictOf(s, st).disposition == BoundaryFailure)
    && (VerdictOf(s, st).disposition == BoundaryFailure ==>
          stop == VerifierConfirmedFailure || VerdictOf(s, start).disposition == BoundaryFailure)
  }

  /** The provider's part of a logical turn: the call with its retries, and its transcript lines. */
  method AskModel(world: World, limits: Limits, ledger: AuthorizationLedger, clock: Clock, provider: ProviderState,
                  turn: nat, attempts: nat, transcript0: seq<Line>, log: seq<AttemptLine>, ghost from: nat)
    returns (output: Option<ModelOutput>, stop: StopReason, terminal: bool, transcript: seq<Line>)
    requires clock.world == world && ledger.Valid() && (ledger.consumed <==> provider.calls > 0)
    requires TurnsAreNumbered(transcript0) && turn == LastTurn(transcript0) + 1
    requires TurnMayStart(world, limits, from, clock.readings, transcript0)
    requires BooksBalance(world, limits, provider.calls, attempts, false, Unset, transcript0, log)
    requires provider.calls < limits.maxProviderCalls
    modifies ledger, clock, provider
    ensures ledger.Valid() && (ledger.consumed <==> provider.calls > 0)
    ensures BooksBalance(world, limits, provider.calls, attempts, terminal, stop, transcript, log)
    ensures output.None? ==>
      && stop in {WallClockTimeout, ProviderBudgetExhausted, ProviderTransportFailure}
      && StopIsJustified(world, limits, clock.readings, stop, attempts, transcript)
    ensures output.Some? ==>
      && stop == Unset && !terminal && old(provider.calls) < provider.calls
      && AnswerIsLast(world, provider.calls, output.value, transcript0, transcript, log)
    ensures TurnsAreNumbered(transcript) && ClockKept(world, limits, from, clock.readings, stop, transcript)
    ensures output.Some? ==> LastTurn(transcript) == turn
  {
    ghost var readings0 := clock.readings;
    var called, newFailures := CallModel(world, limits, provider, clock, ledger, turn);
    transcript := transcript0 + newFailures;
    match called
    case BudgetStop(reason) =>
      FailuresBalance(world, limits, attempts, transcript0, newFailures, log, turn, reason);
      FailuresKeepClock(world, limits, transcript0, newFailures, turn, attempts, from, readings0, clock.readings,
                        reason);
      output, terminal, stop := None, newFailures != [], reason;
    case Terminal =>
      stop := ProviderTransportFailure;
      FailuresBalance(world, limits, attempts, transcript0, newFailures, log, turn, stop);
      FailuresKeepClock(world, limits, transcript0, newFailures, turn, attempts, from, readings0, clock.readings, stop);
      output, terminal := None, true;
    case Answered(line) =>
      AnswerBalances(world, limits, attempts, transcript0, newFailures, line, log, turn);
      AnswerKeepsClock(world, limits, transcript0, newFailures, line, turn, from, readings0, clock.readings);
      output, terminal, stop := Some(line.output), false, Unset;
      transcript := transcript + [line];
  }

  /** The call with its retries, and the failures it has added. */
  method CallModel(world: World, limits: Limits, provider: ProviderState, clock: Clock, ledger: AuthorizationLedger,
                   turn: nat)
    returns (called: CallResult, newFailures: seq<Line>)
    requires clock.world == world && ledger.Valid() && (ledger.consumed <==> provider.calls > 0)
    requires provider.calls < limits.maxProviderCalls
    modifies provider, clock, ledger
    ensures ledger.Valid() && (ledger.consumed <==> provider.calls > 0)
    ensures RetryChain(world, newFailures, old(provider.calls), turn)
    ensures provider.calls == old(provider.calls) + |newFailures| + if called.Answered? then 1 else 0
    ensures provider.calls <= limits.maxProviderCalls
    ensures called.Answered? ==>
      && called.line.Success? && called.line.call == provider.calls && called.line.ordinal == |newFailures|
      && called.line.turn == turn && world.provider(provider.calls) == Answer(called.line.output)
    ensures called.Terminal? ==> newFailures != []
    ensures called.BudgetStop? ==>
      || (called.reason == WallClockTimeout && OutOfTime(world, limits, clock.readings))
      || (called.reason == ProviderBudgetExhausted && provider.calls >= limits.maxProviderCalls)
    ensures clock.readings == old(clock.readings) + |newFailures| + if called.Terminal? then 0 else 1
    ensures InTime(world, limits, old(clock.readings),
                   if called == BudgetStop(WallClockTimeout) then clock.readings - 1 else clock.readings)
  {
    var failureStart := |provider.failures|;
    ghost var failures0 := provider.failures;
    ghost var chain;
    called, chain := ProviderCallWithRetries(world, limits, provider, clock, ledger, turn);
    newFailures := provider.failures[failureStart..];
    NewFailures(failures0, chain);
  }

  /** A turn that ends without an answer: the clock was kept, and the reason is justified. */
  lemma FailuresKeepClock(world: World, limits: Limits, transcript: seq<Line>, chain: seq<Line>, turn: nat,
                          attempts: nat, from: nat, readings0: nat, readings: nat, stop: StopReason)
    requires TurnsAreNumbered(transcript) && !EndsInFailure(transcript) && turn == LastTurn(transcript) + 1
    requires RetryChain(world, chain, |transcript|, turn) && TurnMayStart(world, limits, from, readings0, transcript)
    requires stop in {WallClockTimeout, ProviderBudgetExhausted, ProviderTransportFailure}
    requires readings == readings0 + |chain| + if stop == ProviderTransportFailure then 0 else 1
    requires InTime(world, limits, readings0, if stop == WallClockTimeout then readings - 1 else readings)
    requires stop == ProviderTransportFailure ==> chain != []
    requires stop == WallClockTimeout ==> OutOfTime(world, limits, readings)
    requires stop == ProviderBudgetExhausted ==> |transcript| + |chain| >= limits.maxProviderCalls
    ensures TurnsAreNumbered(transcript + chain)
    ensures ClockKept(world, limits, from, readings, stop, transcript + chain)
    ensures StopIsJustified(world, limits, readings, stop, attempts, transcript + chain)
  {
    ChainIsNumbered(world, transcript, chain, turn);
  }

  /** A turn that ends with an answer. */
  lemma AnswerKeepsClock(world: World, limits: Limits, transcript: seq<Line>, chain: seq<Line>, line: Line, turn: nat,
                         from: nat, readings0: nat, readings: nat)
    requires TurnsAreNumbered(transcript) && !EndsInFailure(transcript) && turn == LastTurn(transcript) + 1
    requires RetryChain(world, chain, |transcript|, turn) && TurnMayStart(world, limits, from, readings0, transcript)
    requires line.Success? && line.turn == turn && line.ordinal == |chain|
    requires readings == readings0 + |chain| + 1 && InTime(world, limits, readings0, readings)
    ensures TurnsAreNumbered(transcript + chain + [line]) && LastTurn(transcript + chain + [line]) == turn
    ensures ClockKept(world, limits, from, readings, Unset, transcript + chain + [line])
  {
    AnswerIsNumbered(world, transcript, chain, line, turn);
  }

  /** The latest call answered `output`: after failures, and after every attempt so far. */
  ghost predicate AnswerIsLast(world: World, calls: nat, output: ModelOutput, transcript0: seq<Line>,
                               transcript: seq<Line>, log: seq<AttemptLine>)
  {
    && calls > 0 && world.provider(calls) == Answer(output) && LogMatches(world, log, calls - 1)
    && transcript != [] && transcript[|transcript| - 1].Success? && transcript[|transcript| - 1].output == output
    && TrailingInvalid(transcript) == if output == InvalidOutput then 1 + TrailingInvalid(transcript0) else 0
  }

  lemma NewFailures(failures: seq<Line>, chain: seq<Line>)
    ensures (failures + chain)[|failures|..] == chain
  {
  }

  /** Failed calls keep the books. */
  lemma FailuresBalance(world: World, limits: Limits, attempts: nat, transcript: seq<Line>, chain: seq<Line>,
                        log: seq<AttemptLine>, turn: nat, stop: StopReason)
    requires BooksBalance(world, limits, |transcript|, attempts, false, Unset, transcript, log)
    requires RetryChain(world, chain, |transcript|, turn) && stop != Unset
    requires |transcript| + |chain| <= Max(0, limits.maxProviderCalls)
    ensures BooksBalance(world, limits, |transcript| + |chain|, attempts, chain != [], stop, transcript + chain, log)
  {
    ChainExtendsTranscript(world, transcript, chain, turn);
    LogReachesFurther(world, log, |transcript|, |transcript| + |chain|);
  }

  /** So does an answer after them. */
  lemma AnswerBalances(world: World, limits: Limits, attempts: nat, transcript: seq<Line>, chain: seq<Line>, line: Line,
                       log: seq<AttemptLine>, turn: nat)
    requires BooksBalance(world, limits, |transcript|, attempts, false, Unset, transcript, log)
    requires RetryChain(world, chain, |transcript|, turn)
    requires |transcript| + |chain| < Max(0, limits.maxProviderCalls)
    requires line.Success? && line.call == |transcript| + |chain| + 1
    requires world.provider(line.call) == Answer(line.output)
    ensures BooksBalance(world, limits, line.call, attempts, false, Unset, transcript + chain + [line], log)
    ensures AnswerIsLast(world, line.call, line.output, transcript, transcript + chain + [line], log)
  {
    ChainExtendsTranscript(world, transcript, chain, turn);
    FailuresKeepTrailingInvalid(transcript, chain);
    AnswerExtendsTranscript(world, transcript + chain, line);
    LogReachesFurther(world, log, |transcript|, line.call - 1);
    LogReachesFurther(world, log, line.call - 1, line.call);
  }

  /** One attempt on the target, and the verifier's view right after it. */
  method AttemptTarget(world: World, limits: Limits, host: HostSinkIntegration, ghost start: HostState, calls: nat,
                       path: string, payload: Payload, ghost transcript: seq<Line>, log0: seq<AttemptLine>)
    returns (stop: StopReason, log: seq<AttemptLine>)
    requires host.State() == ServeAll(host.scheme, start, log0)
    requires BooksBalance(world, limits, calls, |log0|, false, Unset, transcript, log0)
    requires |log0| < limits.maxTargetAttempts && calls > 0 && LogMatches(world, log0, calls - 1)
    requires world.provider(calls) == Answer(Request(path, payload))
    modifies host, host.issuer, host.ledger, host.observer
    ensures host.State() == ServeAll(host.scheme, start, log)
    ensures BooksBalance(world, limits, calls, |log0| + 1, false, stop, transcript, log)
    ensures stop == if VerdictOf(host.scheme, host.State()).disposition == BoundaryFailure
                    then VerifierConfirmedFailure else Unset
  {
    var line := AttemptLine(|log0| + 1, calls, path, payload, world.delivered(|log0| + 1));
    if line.delivered {
      var _ := host.Serve(path, payload);
    }
    log := log0 + [line];
    assert log[..|log0|] == log0;
    LogExtends(world, log0, calls - 1, line);
    AttemptsStayBelowCalls(world, log, calls);
    var verdict := host.ReadVerdict();
    stop := if verdict.disposition == BoundaryFailure then VerifierConfirmedFailure else Unset;
  }

  /** Attempts are answers of distinct calls, so there are no more of them. */
  lemma {:induction false} AttemptsStayBelowCalls(world: World, log: seq<AttemptLine>, calls: nat)
    requires LogMatches(world, log, calls)
    ensures |log| <= calls
  {
    if log == [] {
    } else {
      var last := log[|log| - 1];
      AttemptsStayBelowCalls(world, log[..|log| - 1], last.providerCall - 1);
    }
  }

  /** One logical turn: ask the model, then do what it asks for. */
  method TakeTurn(world: World, limits: Limits, host: HostSinkIntegration, ledger: AuthorizationLedger, clock: Clock,
                  provider: ProviderState, ghost start: HostState, turn: nat, invalid0: nat,
                  transcript0: seq<Line>, log0: seq<AttemptLine>, ghost from: nat)
    returns (stop: StopReason, invalid: nat, terminal: bool, transcript: seq<Line>, log: seq<AttemptLine>)
    requires clock.world == world && ledger.Valid() && (ledger.consumed <==> provider.calls > 0)
    requires TurnsAreNumbered(transcript0) && turn == LastTurn(transcript0) + 1
    requires TurnMayStart(world, limits, from, clock.readings, transcript0)
    requires BooksBalance(world, limits, provider.calls, |log0|, false, Unset, transcript0, log0)
    requires provider.calls < limits.maxProviderCalls && |log0| < limits.maxTargetAttempts
    requires host.State() == ServeAll(host.scheme, start, log0)
    requires StopTellsVerdict(host.scheme, start, host.State(), Unset) && invalid0 == TrailingInvalid(transcript0)
    modifies host, host.issuer, host.ledger, host.observer, ledger, clock, provider
    ensures ledger.Valid() && (ledger.consumed <==> provider.calls > 0)
    ensures BooksBalance(world, limits, provider.calls, |log|, terminal, stop, transcript, log)
    ensures stop == Unset ==> provider.calls > old(provider.calls) && invalid == TrailingInvalid(transcript)
    ensures StopIsJustified(world, limits, clock.readings, stop, |log|, transcript)
    ensures host.State() == ServeAll(host.scheme, start, log)
    ensures StopTellsVerdict(host.scheme, start, host.State(), stop)
    ensures TurnsAreNumbered(transcript) && ClockKept(world, limits, from, clock.readings, stop, transcript)
    ensures stop == Unset ==> LastTurn(transcript) == turn
  {
    invalid, log := invalid0, log0;
    var output;
    output, stop, terminal, transcript :=
      AskModel(world, limits, ledger, clock, provider, turn, |log0|, transcript0, log0, from);
    if output.Some? {
      invalid := if output.value.InvalidOutput? then invalid + 1 else 0;
      stop, log := Act(world, limits, host, start, provider.calls, output.value, transcript0, transcript, log0,
                       from, clock.readings);
    }
  }

  /** What a model output asks for. */
  method Act(world: World, limits: Limits, host: HostSinkIntegration, ghost start: HostState, calls: nat,
             output: ModelOutput, ghost transcript0: seq<Line>, ghost transcript: seq<Line>, log0: seq<AttemptLine>,
             ghost from: nat, ghost readings: nat)
    returns (stop: StopReason, log: seq<AttemptLine>)
    requires ClockKept(world, limits, from, readings, Unset, transcript)
    requires host.State() == ServeAll(host.scheme, start, log0)
    requires BooksBalance(world, limits, calls, |log0|, false, Unset, transcript, log0)
    requires |log0| < limits.maxTargetAttempts && AnswerIsLast(world, calls, output, transcript0, transcript, log0)
    requires StopTellsVerdict(host.scheme, start, host.State(), Unset)
    modifies host, host.issuer, host.ledger, host.observer
    ensures host.State() == ServeAll(host.scheme, start, log)
    ensures BooksBalance(world, limits, calls, |log|, false, stop, transcript, log)
    ensures stop == VoluntaryStop <==> output.Stop?
    ensures StopIsJustified(world, limits, readings, stop, |log|, transcript)
    ensures ClockKept(world, limits, from, readings, stop, transcript)
    ensures StopTellsVerdict(host.scheme, start, host.State(), stop)
  {
    stop, log := Unset, log0;
    match output
    case InvalidOutput =>
    case Stop => stop := VoluntaryStop;
    case Request(path, payload) =>
      stop, log := AttemptTarget(world, limits, host, start, calls, path, payload, transcript, log0);
  }

  /** The checks before each turn, in order. */
  method CheckLimits(world: World, limits: Limits, clock: Clock, calls: nat, attempts: nat, invalid: nat,
                     ghost transcript: seq<Line>, ghost from: nat)
    returns (stop: StopReason)
    requires clock.world == world && calls == |transcript| && invalid == TrailingInvalid(transcript)
    requires ClockKept(world, limits, from, clock.readings, Unset, transcript)
    modifies clock
    ensures stop in {Unset, WallClockTimeout, ProviderBudgetExhausted, TargetBudgetExhausted, InvalidOutputLimit}
    ensures StopIsJustified(world, limits, clock.readings, stop, attempts, transcript)
    ensures stop == Unset ==>
      && calls < limits.maxProviderCalls && attempts < limits.maxTargetAttempts
      && invalid < limits.maxInvalidOutputs && TurnMayStart(world, limits, from, clock.readings, transcript)
    ensures stop != Unset ==> ClockKept(world, limits, from, clock.readings, stop, transcript)
  {
    var expired := clock.Expired(limits.wallClock);
    if expired {
      stop := WallClockTimeout;
    } else if calls >= limits.maxProviderCalls {
      stop := ProviderBudgetExhausted;
    } else if attempts >= limits.maxTargetAttempts {
      stop := TargetBudgetExhausted;
    } else if invalid >= limits.maxInvalidOutputs {
      stop := InvalidOutputLimit;
    } else {
      stop := Unset;
    }
  }

  /** One round of the loop: the checks, and a turn if they pass. */
  method NextTurn(world: World, limits: Limits, host: HostSinkIntegration, ledger: AuthorizationLedger, clock: Clock,
                  provider: ProviderState, ghost start: HostState, turn: nat, invalid0: nat,
                  transcript0: seq<Line>, log0: seq<AttemptLine>, ghost from: nat)
    returns (stop: StopReason, invalid: nat, terminal: bool, transcript: seq<Line>, log: seq<AttemptLine>)
    requires clock.world == world && ledger.Valid() && (ledger.consumed <==> provider.calls > 0)
    requires TurnsAreNumbered(transcript0) && turn == LastTurn(transcript0) + 1
    requires ClockKept(world, limits, from, clock.readings, Unset, transcript0)
    requires BooksBalance(world, limits, provider.calls, |log0|, false, Unset, transcript0, log0)
    requires host.State() == ServeAll(host.scheme, start, log0)
    requires StopTellsVerdict(host.scheme, start, host.State(), Unset) && invalid0 == TrailingInvalid(transcript0)
    modifies host, host.issuer, host.ledger, host.observer, ledger, clock, provider
    ensures ledger.Valid() && (ledger.consumed <==> provider.calls > 0)
    ensures BooksBalance(world, limits, provider.calls, |log|, terminal, stop, transcript, log)
    ensures stop == Unset ==> old(provider.calls) < provider.calls <= limits.maxProviderCalls
    ensures stop == Unset ==> invalid == TrailingInvalid(transcript)
    ensures StopIsJustified(world, limits, clock.readings, stop, |log|, transcript)
    ensures host.State() == ServeAll(host.scheme, start, log)
    ensures StopTellsVerdict(host.scheme, start, host.State(), stop)
    ensures TurnsAreNumbered(transcript) && ClockKept(world, limits, from, clock.readings, stop, transcript)
    ensures stop == Unset ==> LastTurn(transcript) == turn
  {
    invalid, terminal, transcript, log := invalid0, false, transcript0, log0;
    stop := CheckLimits(world, limits, clock, provider.calls, |log|, invalid, transcript, from);
    if stop == Unset {
      stop, invalid, terminal, transcript, log :=
        TakeTurn(world, limits, host, ledger, clock, provider, start, turn, invalid, transcript, log, from);
    }
  }

  /** The loop: turn after turn, until something stops it. */
  method Explore(world: World, limits: Limits, host: HostSinkIntegration, ledger: AuthorizationLedger, clock: Clock)
    returns (stop: StopReason, calls: nat, terminal: bool, transcript: seq<Line>, log: seq<AttemptLine>)
    requires clock.world == world && ledger.Valid() && !ledger.consumed
    modifies host, host.issuer, host.ledger, host.observer, ledger, clock
    ensures stop != Unset
    ensures ledger.Valid() && (ledger.consumed <==> calls > 0)
    ensures BooksBalance(world, limits, calls, |log|, terminal, stop, transcript, log)
    ensures StopIsJustified(world, limits, clock.readings, stop, |log|, transcript)
    ensures host.State() == ServeAll(host.scheme, old(host.State()), log)
    ensures StopTellsVerdict(host.scheme, old(host.State()), host.State(), stop)
    ensures TurnsAreNumbered(transcript)
    ensures ClockKept(world, limits, old(clock.readings), clock.readings, stop, transcript)
  {
    ghost var start := host.State();
    var provider := new ProviderState();
    stop, terminal, transcript, log := Unset, false, [], [];
    var invalid: nat, turn: nat := 0, 0;
    while stop == Unset
      invariant ledger.Valid() && (ledger.consumed <==> provider.calls > 0)
      invariant fresh(provider)
      invariant BooksBalance(world, limits, provider.calls, |log|, terminal, stop, transcript, log)
      invariant host.State() == ServeAll(host.scheme, start, log)
      invariant StopTellsVerdict(host.scheme, start, host.State(), stop)
      invariant StopIsJustified(world, limits, clock.readings, stop, |log|, transcript)
      invariant stop == Unset ==> invalid == TrailingInvalid(transcript) && turn == LastTurn(transcript)
      invariant TurnsAreNumbered(transcript)
      invariant ClockKept(world, limits, old(clock.readings), clock.readings, stop, transcript)
      decreases stop == Unset, limits.maxProviderCalls - provider.calls
    {
      turn := turn + 1;
      stop, invalid, terminal, transcript, log :=
        NextTurn(world, limits, host, ledger, clock, provider, start, turn, invalid, transcript, log,
                 old(clock.readings));
    }
    calls := provider.calls;
  }

  method RunS3(world: World, limits: Limits, host: HostSinkIntegration, gates: GateState, ledger: AuthorizationLedger,
               clock: Clock, contextIsClean: bool)
    returns (result: S3Result)
    requires clock.world == world && ledger.Valid()
    modifies host, host.issuer, host.ledger, host.observer, ledger, clock
    ensures ledger.Valid()
    ensures result.GateError? <==> !gates.AllOpen() || old(ledger.consumed) || !contextIsClean
    ensures result.GateError? ==> ledger.consumed == old(ledger.consumed) && host.State() == old(host.State())
    ensures result.Ran? ==>
      StopIsJustified(world, limits, clock.readings, result.runtime.stopReason, result.runtime.attempts,
                      result.transcript)
    ensures result.Ran? ==>
      result.runtime.stopReason != Unset && (ledger.consumed <==> result.runtime.providerCalls > 0)
    ensures result.Ran? ==>
      var r := result.runtime;
      BooksBalance(world, limits, r.providerCalls, r.attempts, r.terminal, r.stopReason, result.transcript,
                   result.attemptLog)
    ensures result.Ran? ==>
      && host.State() == ServeAll(host.scheme, old(host.State()), result.attemptLog)
      && result.runtime.subject == VerdictOf(host.scheme, host.State())
    ensures result.Ran? ==>
      var r := result.runtime; r.final == FailClosed(r.subject, r.attempts, r.terminal)
    ensures result.Ran? ==>
      var r := result.runtime;
      Tells(r.final, VerdictOf(host.scheme, host.State()).disposition, r.attempts, r.terminal,
            host.observer.arrivals != [])
    ensures result.Ran? ==>
      StopTellsVerdict(host.scheme, old(host.State()), host.State(), result.runtime.stopReason)
    ensures result.Ran? ==>
      && TurnsAreNumbered(result.transcript)
      && ClockKept(world, limits, old(clock.readings), clock.readings, result.runtime.stopReason, result.transcript)
  {
    var eligible := gates.S3Eligible();
    if !eligible || ledger.consumed || !contextIsClean {
      return GateError;
    }
    var stop, calls, terminal, transcript, log := Explore(world, limits, host, ledger, clock);
    var subject := host.ReadVerdict();
    ObservedMeansArrivals(host.scheme, host.State());
    var final := FailClosed(subject, |log|, terminal);
    result := Ran(Runtime(stop, calls, |log|, terminal, subject, final), transcript, log);
  }
}
