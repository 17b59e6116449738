/**
 * Replaying a whole script (scripts/eval_agentic_workflow.py:336-527): the harness follows the
 * production reducer turn for turn, looks at every result the tool produced, and counts exactly
 * the calls on which the tool and a fresh evaluation differ.
 */
module ReplayScript {
  import opened Chat
  import opened ChatTurns
  import opened Consultation
  import opened Pricing
  import opened ReplayAct
  import opened ReplayMonitor
  import opened Sessions
  import opened Wrappers

  /**
   * The production turn a scripted turn stands for: a message whose parse is the scripted patch,
   * or a confirmation with it. The harness gives every other action no patch and no reset.
   */
  function AsTurn(turn: ScriptTurn): Turn {
    var request := (action, patch) => ChatRequest(None, action, "scripted", false, patch);
    match turn.action
    case Message => Turn(request(Message, Object([])), Parsed(turn.patch), Prose("", ""))
    case ConfirmFacts => Turn(request(ConfirmFacts, turn.patch), ParseFailed, Prose("", ""))
    case Calculate => Turn(request(Calculate, Object([])), ParseFailed, Prose("", ""))
    case _ => Turn(request(Explain, Object([])), ParseFailed, Prose("", ""))
  }

  function AsTurns(script: seq<ScriptTurn>): (turns: seq<Turn>)
    ensures |turns| == |script|
    ensures forall i :: 0 <= i < |turns| ==> turns[i] == AsTurn(script[i])
    ensures AllInSession(turns)
  {
    seq(|script|, i requires 0 <= i < |script| => AsTurn(script[i]))
  }

  predicate CarriesPatch(action: RequestAction) {
    action == Message || action == ConfirmFacts
  }

  function PatchOf(turn: ScriptTurn): Proposal {
    if CarriesPatch(turn.action) then turn.patch else Object([])
  }

  function ActionOf(turn: ScriptTurn): RequestAction {
    if turn.action in {Message, ConfirmFacts, Calculate} then turn.action else Explain
  }

  lemma ScriptedTurnMerges(session: ChatSession, turn: ScriptTurn, oracle: Oracle)
    ensures AtomicTurn(session, AsTurn(turn), oracle) ==
            ScriptedTurn(session, turn, oracle)
  {
    AtomicIsMerge(session, AsTurn(turn), oracle);
    assert !IsBlank("scripted") by { assert "scripted"[0] == 's'; ScriptedIsNotBlank(); }
  }

  /** The production run a script stands for, written with the merging half of each turn alone. */
  function ScriptRun(script: seq<ScriptTurn>, oracle: Oracle): Run {
    if script == [] then Run(FreshValue(), [], [])
    else
      var before := ScriptRun(script[..|script| - 1], oracle);
      Append(before, ScriptedTurn(before.session, script[|script| - 1], oracle))
  }

  function ScriptedTurn(session: ChatSession, turn: ScriptTurn, oracle: Oracle): TurnResult {
    MergeTurn(session, ActionOf(turn), PatchOf(turn), Prose("", ""), oracle)
  }

  lemma {:induction false} ScriptRunIsProductionRun(script: seq<ScriptTurn>, oracle: Oracle)
    ensures ScriptRun(script, oracle) == RunTurns(AsTurns(script), oracle)
  {
    if script != [] {
      var n := |script| - 1;
      ScriptRunIsProductionRun(script[..n], oracle);
      assert AsTurns(script)[..n] == AsTurns(script[..n]);
      ScriptedTurnMerges(ScriptRun(script[..n], oracle).session, script[n], oracle);
    }
  }

  lemma ScriptedIsNotBlank()
    ensures !IsBlank("scripted")
  {
  }

  /** The patch-carrying half of a turn: reduce, count rejected keys that moved, invalidate, confirm. */
  method ReduceTurn(session: Session<StoredResult>, counters: Counters, turn: ScriptTurn)
    requires CarriesPatch(turn.action)
    modifies session`state, session`result, session`resultStatus
    modifies counters`unauthorizedMutations, counters`staleInvalidations
    ensures var merged := MergePatch(old(session.state), Accepted(turn.patch));
            && session.state == (if turn.action == ConfirmFacts then Confirm(merged) else merged)
            && session.Value().(state := old(session.state)) ==
                 (if merged == old(session.state) then old(session.Value()) else old(session.Value()).DropResult())
            && counters.unauthorizedMutations == old(counters.unauthorizedMutations)
                 + CountChanged(old(session.state), merged, Rejected(turn.patch))
            && counters.staleInvalidations == old(counters.staleInvalidations)
                 + (if merged != old(session.state) && old(session.result).Some? then 1 else 0)
  {
    var before := session.state;
    var accepted, rejected := ValidatePatch(turn.patch);
    session.state := MergePatch(session.state, accepted);
    MergeEffect(before, accepted);
    var tripped := CountUnauthorized(before, session.state, rejected);
    counters.unauthorizedMutations := counters.unauthorizedMutations + tripped;
    if session.state.revision != before.revision {
      var present := session.result.Some?;
      session.DropResult();
      if present && session.result.None? {
        counters.staleInvalidations := counters.staleInvalidations + 1;
      }
    }
    if turn.action == ConfirmFacts {
      session.state := Confirm(session.state);
    }
  }

  // ---------------------------------------------------------------------------
  // What is counted
  // ---------------------------------------------------------------------------

  /** The counters of a replay, besides turns and unauthorized mutations. */
  datatype Totals = Totals(alarms: Alarms, evaluations: nat, invalidations: nat)

  ghost function TotalsOf(counters: Counters): Totals
    reads counters
  {
    Totals(counters.alarms, counters.resultEvaluations, counters.staleInvalidations)
  }

  /** The turn brings a new fact while a result is stored. */
  predicate Invalidates(session: ChatSession, turn: ScriptTurn) {
    CarriesPatch(turn.action) && session.result.Some?
    && session.state.facts + Accepted(turn.patch) != session.state.facts
  }

  /** One production turn, as it is counted: each call is evaluated once, and observed against the reference. */
  function Tally(t: Totals, before: ChatSession, turn: ScriptTurn, r: TurnResult, oracle: Oracle, reference: Oracle): Totals {
    var facts := r.session.state.facts;
    Totals(
      if r.priced.Some? && Ready(facts) then Observed(t.alarms, facts, oracle(facts), reference(facts)) else t.alarms,
      Count(t.evaluations, r.priced.Some?),
      Count(t.invalidations, Invalidates(before, turn)))
  }

  /** The patch-carrying half keeps the mirror on the reduced session. */
  method ReduceMirrored(
    session: Session<StoredResult>, counters: Counters, turn: ScriptTurn, ghost bound: map<nat, OracleResult>,
    ghost oracle: Oracle, ghost hash: Digest, ghost production: ChatSession)
    requires Mirrors(session.Value(), bound, production, oracle, hash) && Coherent(production, oracle)
    modifies session`state, session`result, session`resultStatus
    modifies counters`unauthorizedMutations, counters`staleInvalidations
    ensures Mirrors(session.Value(), bound, Reduce(production, ActionOf(turn), PatchOf(turn)), oracle, hash)
    ensures counters.staleInvalidations == Count(old(counters.staleInvalidations), Invalidates(production, turn))
    ensures IsDict(turn.patch) ==>
              counters.unauthorizedMutations == old(counters.unauthorizedMutations) + TrippedBy(production.state, turn)
  {
    MergeEffect(production.state, Accepted(PatchOf(turn)));
    if CarriesPatch(turn.action) {
      ReduceTurn(session, counters, turn);
      if IsDict(turn.patch) {
        CountedExactly(production.state, turn.patch);
      }
    }
  }

  /** The deciding half keeps the mirror on the session acted on. */
  method ActMirrored(
    session: Session<StoredResult>, tool: PricingTool, counters: Counters, bound: map<nat, OracleResult>,
    reported: set<(nat, string)>, oracle: Oracle, reference: Oracle, hash: Digest, ghost reduced: ChatSession, ghost r: TurnResult)
    returns (action: Action, nowBound: map<nat, OracleResult>, nowReported: set<(nat, string)>)
    requires Mirrors(session.Value(), bound, reduced, oracle, hash) && AlmostCoherent(reduced, oracle)
    requires SafeOracle(reference) && r == Act(reduced, Prose("", ""), oracle)
    modifies session`state, session`result, session`resultStatus, tool, counters`alarms, counters`resultEvaluations
    ensures var facts := r.session.state.facts;
            && counters.alarms ==
                 (if r.priced.Some? && Ready(facts) then Observed(old(counters.alarms), facts, oracle(facts), reference(facts))
                  else old(counters.alarms))
            && counters.resultEvaluations == Count(old(counters.resultEvaluations), r.priced.Some?)
    ensures Mirrors(session.Value(), nowBound, r.session, oracle, hash)
    ensures r.reply.Turned? && action == r.reply.action
    ensures |tool.calls| == |old(tool.calls)| + (if r.priced.Some? then 1 else 0)
  {
    MirrorsDecide(session.Value(), bound, reported, reduced, oracle, hash, counters.alarms);
    MirrorsAct(session.Value(), bound, reduced, oracle, hash);
    action, nowBound, nowReported := ActTurn(session, tool, counters, bound, reported, oracle, reference, hash);
  }

  /** One scripted turn on a session that mirrors production: the harness ends, and counts, as production goes. */
  method ReplayTurn(
    session: Session<StoredResult>, tool: PricingTool, counters: Counters, bound: map<nat, OracleResult>,
    reported: set<(nat, string)>, turn: ScriptTurn, oracle: Oracle, reference: Oracle, hash: Digest,
    ghost production: ChatSession, ghost r: TurnResult)
    returns (action: Action, nowBound: map<nat, OracleResult>, nowReported: set<(nat, string)>)
    requires Mirrors(session.Value(), bound, production, oracle, hash)
    requires Coherent(production, oracle) && SafeOracle(reference) && r == ScriptedTurn(production, turn, oracle)
    modifies session`state, session`result, session`resultStatus, tool, counters
    ensures counters.turns == old(counters.turns) + 1
    ensures IsDict(turn.patch) ==>
              counters.unauthorizedMutations == old(counters.unauthorizedMutations) + TrippedBy(production.state, turn)
    ensures TotalsOf(counters) == Tally(old(TotalsOf(counters)), production, turn, r, oracle, reference)
    ensures Mirrors(session.Value(), nowBound, r.session, oracle, hash)
    ensures r.reply.Turned? && action == r.reply.action
    ensures |tool.calls| == |old(tool.calls)| + (if r.priced.Some? then 1 else 0)
  {
    counters.turns := counters.turns + 1;
    ReduceKeepsAlmost(production, ActionOf(turn), PatchOf(turn), oracle);
    ReduceMirrored(session, counters, turn, bound, oracle, hash, production);
    ghost var reduced := Reduce(production, ActionOf(turn), PatchOf(turn));
    action, nowBound, nowReported :=
      ActMirrored(session, tool, counters, bound, reported, oracle, reference, hash, reduced, r);
  }

  /** The harness is where a production run is: same session, as many calls, same last action. */
  ghost predicate InStep(
    value: SessionValue<StoredResult>, bound: map<nat, OracleResult>, toolCalls: nat, action: Action, production: Run,
    oracle: Oracle, hash: Digest)
  {
    && Coherent(production.session, oracle)
    && Mirrors(value, bound, production.session, oracle, hash)
    && toolCalls == |production.calls|
    && action == LastAction(production)
  }

  /** One more turn keeps the harness in step with the production run. */
  method ReplayNext(
    session: Session<StoredResult>, tool: PricingTool, counters: Counters, bound: map<nat, OracleResult>,
    reported: set<(nat, string)>, last: Action, turn: ScriptTurn, oracle: Oracle, reference: Oracle, hash: Digest,
    ghost production: Run, ghost r: TurnResult)
    returns (action: Action, nowBound: map<nat, OracleResult>, nowReported: set<(nat, string)>)
    requires InStep(session.Value(), bound, |tool.calls|, last, production, oracle, hash) && SafeOracle(reference)
    requires r == ScriptedTurn(production.session, turn, oracle)
    modifies session`state, session`result, session`resultStatus, tool, counters
    ensures counters.turns == old(counters.turns) + 1
    ensures IsDict(turn.patch) ==>
              counters.unauthorizedMutations ==
                old(counters.unauthorizedMutations) + TrippedBy(production.session.state, turn)
    ensures TotalsOf(counters) == Tally(old(TotalsOf(counters)), production.session, turn, r, oracle, reference)
    ensures InStep(session.Value(), nowBound, |tool.calls|, action, Append(production, r), oracle, hash)
  {
    action, nowBound, nowReported :=
      ReplayTurn(session, tool, counters, bound, reported, turn, oracle, reference, hash, production.session, r);
    MergeIsGood(production.session, ActionOf(turn), PatchOf(turn), Prose("", ""), oracle);
  }

  /** The replay loop: after every prefix of the script the harness mirrors the production run. */
  method ReplayTurns(
    session: Session<StoredResult>, tool: PricingTool, counters: Counters, script: seq<ScriptTurn>,
    oracle: Oracle, reference: Oracle, hash: Digest)
    returns (action: Action, bound: map<nat, OracleResult>, reported: set<(nat, string)>)
    requires session.Value() == FreshValue() && tool.calls == [] && SafeOracle(reference)
    modifies session`state, session`result, session`resultStatus, tool, counters
    ensures counters.turns == old(counters.turns) + |script|
    ensures AllDicts(script) ==>
              counters.unauthorizedMutations == old(counters.unauthorizedMutations) + UnauthorizedIn(script, oracle)
    ensures TotalsOf(counters) == TotalsAfter(script, old(TotalsOf(counters)), oracle, reference)
    ensures var production := ScriptRun(script, oracle);
            InStep(session.Value(), bound, |tool.calls|, action, production, oracle, hash)
  {
    action := DecideAction(session.state, false);
    NothingReplayed(oracle, hash);
    bound, reported := map[], {};
    for i := 0 to |script|
      invariant counters.turns == old(counters.turns) + i
      invariant AllDicts(script) ==>
                  counters.unauthorizedMutations == old(counters.unauthorizedMutations) + UnauthorizedIn(script[..i], oracle)
      invariant TotalsOf(counters) == TotalsAfter(script[..i], old(TotalsOf(counters)), oracle, reference)
      invariant InStep(session.Value(), bound, |tool.calls|, action, ScriptRun(script[..i], oracle), oracle, hash)
    {
      ghost var production := ScriptRun(script[..i], oracle);
      ghost var r := ScriptedTurn(production.session, script[i], oracle);
      NextRun(script, i, oracle, r);
      NextUnauthorized(script, i, oracle);
      NextTotals(script, i, old(TotalsOf(counters)), oracle, reference, r);
      action, bound, reported := ReplayNext(
        session, tool, counters, bound, reported, action, script[i], oracle, reference, hash, production, r);
    }
    assert script[..|script|] == script;
  }

  // ---------------------------------------------------------------------------
  // The totals of a script
  // ---------------------------------------------------------------------------

  /** The counters after a script, turn by turn along the production run. */
  function TotalsAfter(script: seq<ScriptTurn>, start: Totals, oracle: Oracle, reference: Oracle): Totals {
    if script == [] then start
    else
      var front, last := script[..|script| - 1], script[|script| - 1];
      var before := ScriptRun(front, oracle).session;
      Tally(TotalsAfter(front, start, oracle, reference), before, last, ScriptedTurn(before, last, oracle), oracle, reference)
  }

  lemma NextTotals(script: seq<ScriptTurn>, i: nat, start: Totals, oracle: Oracle, reference: Oracle, r: TurnResult)
    requires i < |script| && r == ScriptedTurn(ScriptRun(script[..i], oracle).session, script[i], oracle)
    ensures TotalsAfter(script[..i + 1], start, oracle, reference) ==
            Tally(TotalsAfter(script[..i], start, oracle, reference), ScriptRun(script[..i], oracle).session, script[i], r, oracle, reference)
  {
    assert script[..i + 1][..i] == script[..i];
  }

  /** The turn asks the tool, and the tool answers what the reference does not. */
  predicate Differs(r: TurnResult, oracle: Oracle, reference: Oracle) {
    r.priced.Some? && oracle(r.session.state.facts) != reference(r.session.state.facts)
  }

  /** On how many calls of the production run the tool and the reference differ. */
  function DifferingCalls(script: seq<ScriptTurn>, oracle: Oracle, reference: Oracle): nat {
    if script == [] then 0
    else
      var front, last := script[..|script| - 1], script[|script| - 1];
      Count(DifferingCalls(front, oracle, reference),
            Differs(ScriptedTurn(ScriptRun(front, oracle).session, last, oracle), oracle, reference))
  }

  /** How many of a run's calls were observed, and with what alarms. */
  predicate Watched(start: Totals, after: Totals, calls: nat, differing: nat) {
    && after.evaluations == start.evaluations + calls
    && after.alarms.pricingViolations == start.alarms.pricingViolations + differing
    && after.alarms.nondeterministicResults == start.alarms.nondeterministicResults + differing
    && after.alarms.staleExposures == start.alarms.staleExposures
    && after.alarms.staleReuses == start.alarms.staleReuses
    && after.alarms.hashViolations == start.alarms.hashViolations
    && (differing == 0 ==> after.alarms == start.alarms)
  }

  lemma TallyWatches(
    start: Totals, t: Totals, before: ChatSession, turn: ScriptTurn, r: TurnResult, calls: nat, differing: nat,
    oracle: Oracle, reference: Oracle)
    requires Watched(start, t, calls, differing)
    requires r.priced.Some? ==> Ready(r.session.state.facts)
    ensures Watched(start, Tally(t, before, turn, r, oracle, reference), Count(calls, r.priced.Some?),
                    Count(differing, Differs(r, oracle, reference)))
  {
  }

  lemma PricedIsReady(before: ChatSession, turn: ScriptTurn, oracle: Oracle)
    requires Coherent(before, oracle)
    ensures var r := ScriptedTurn(before, turn, oracle); r.priced.Some? ==> Ready(r.session.state.facts)
  {
    MergeIsGood(before, ActionOf(turn), PatchOf(turn), Prose("", ""), oracle);
  }

  /**
   * Every call of the production run is evaluated once; it counts as a pricing violation and as not
   * reproducible if and only if the tool and the reference differ on it; nothing else is counted,
   * and nothing at all if they never do.
   */
  lemma {:induction false} EveryCallIsWatched(script: seq<ScriptTurn>, start: Totals, oracle: Oracle, reference: Oracle)
    ensures Watched(start, TotalsAfter(script, start, oracle, reference), |ScriptRun(script, oracle).calls|,
                    DifferingCalls(script, oracle, reference))
  {
    if script != [] {
      var k := |script| - 1;
      var front, last := script[..k], script[k];
      EveryCallIsWatched(front, start, oracle, reference);
      RunIsCoherent(front, oracle);
      var before := ScriptRun(front, oracle);
      var r := ScriptedTurn(before.session, last, oracle);
      PricedIsReady(before.session, last, oracle);
      TallyWatches(start, TotalsAfter(front, start, oracle, reference), before.session, last, r, |before.calls|,
                   DifferingCalls(front, oracle, reference), oracle, reference);
    }
  }

  lemma RunIsCoherent(script: seq<ScriptTurn>, oracle: Oracle)
    ensures Coherent(ScriptRun(script, oracle).session, oracle)
  {
    ScriptRunIsProductionRun(script, oracle);
    EveryBoundaryIsCoherent(AsTurns(script), oracle);
  }

  lemma {:induction false} SameOracleNeverDiffers(script: seq<ScriptTurn>, oracle: Oracle)
    ensures DifferingCalls(script, oracle, oracle) == 0
  {
    if script != [] {
      SameOracleNeverDiffers(script[..|script| - 1], oracle);
    }
  }

  // ---------------------------------------------------------------------------
  // Rejected keys that move, over a whole script
  // ---------------------------------------------------------------------------

  /** Every patch is a JSON object with distinct keys, or no object at all. */
  ghost predicate AllDicts(script: seq<ScriptTurn>) {
    forall i :: 0 <= i < |script| ==> IsDict(script[i].patch)
  }

  function TrippedBy(state: ConsultationState, turn: ScriptTurn): nat {
    if CarriesPatch(turn.action) then Tripped(state, turn.patch) else 0
  }

  function TrippedAlong(states: seq<ConsultationState>, turns: seq<ScriptTurn>): nat
    requires |states| == |turns|
  {
    if turns == [] then 0
    else
      var k := |turns| - 1;
      TrippedAlong(states[..k], turns[..k]) + TrippedBy(states[k], turns[k])
  }

  predicate HarmlessTurn(state: ConsultationState, turn: ScriptTurn) {
    CarriesPatch(turn.action) ==> Harmless(state, turn.patch)
  }

  predicate AllHarmless(states: seq<ConsultationState>, turns: seq<ScriptTurn>)
    requires |states| == |turns|
  {
    forall n :: 0 <= n < |turns| ==> HarmlessTurn(states[n], turns[n])
  }

  lemma TurnTripsExactly(state: ConsultationState, turn: ScriptTurn)
    ensures TrippedBy(state, turn) == 0 <==> HarmlessTurn(state, turn)
  {
    TrippedExactly(state, turn.patch);
  }

  lemma {:induction false} TrippedAlongExactly(states: seq<ConsultationState>, turns: seq<ScriptTurn>)
    requires |states| == |turns|
    ensures TrippedAlong(states, turns) == 0 <==> AllHarmless(states, turns)
  {
    forall n | 0 <= n < |turns| ensures TrippedBy(states[n], turns[n]) == 0 <==> HarmlessTurn(states[n], turns[n]) {
      TurnTripsExactly(states[n], turns[n]);
    }
    NoneTripped(states, turns);
  }

  lemma {:induction false} NoneTripped(states: seq<ConsultationState>, turns: seq<ScriptTurn>)
    requires |states| == |turns|
    ensures TrippedAlong(states, turns) == 0 <==> forall n :: 0 <= n < |turns| ==> TrippedBy(states[n], turns[n]) == 0
  {
    if turns != [] {
      NoneTripped(states[..|turns| - 1], turns[..|turns| - 1]);
    }
  }

  /** The states that the turns of a script meet, in order. */
  function StatesMet(script: seq<ScriptTurn>, oracle: Oracle): (states: seq<ConsultationState>)
    ensures |states| == |script|
    ensures forall n :: 0 <= n < |script| ==> states[n] == ScriptRun(script[..n], oracle).session.state
  {
    seq(|script|, n requires 0 <= n < |script| => ScriptRun(script[..n], oracle).session.state)
  }

  /** Turn `n` meets the state that the production run of the turns before it reaches. */
  lemma StateMetIs(script: seq<ScriptTurn>, n: nat, oracle: Oracle)
    requires n < |script|
    ensures StatesMet(script, oracle)[n] == RunTurns(AsTurns(script[..n]), oracle).session.state
  {
    ScriptRunIsProductionRun(script[..n], oracle);
  }

  /** What the counter of unauthorized mutations holds after a script. */
  function UnauthorizedIn(script: seq<ScriptTurn>, oracle: Oracle): nat {
    TrippedAlong(StatesMet(script, oracle), script)
  }

  /** Each patch of the script is harmless to the state it meets. */
  predicate NothingTrips(script: seq<ScriptTurn>, oracle: Oracle) {
    AllHarmless(StatesMet(script, oracle), script)
  }

  lemma UnauthorizedExactly(script: seq<ScriptTurn>, oracle: Oracle)
    ensures UnauthorizedIn(script, oracle) == 0 <==> NothingTrips(script, oracle)
  {
    TrippedAlongExactly(StatesMet(script, oracle), script);
  }

  /** The false alarm as a script: one message whose patch names `revision` beside a cost. */
  lemma FalseAlarm(oracle: Oracle)
    ensures var script := [ScriptTurn(Message, RevisionBesideCost())];
            AllDicts(script) && UnauthorizedIn(script, oracle) == 1
  {
    var turn := ScriptTurn(Message, RevisionBesideCost());
    var start := ScriptRun([], oracle).session.state;
    NamingRevisionTrips(start);
    CountedExactly(start, RevisionBesideCost());
    UnauthorizedOneMore([], turn, oracle);
    assert [] + [turn] == [turn];
  }

  lemma UnauthorizedOneMore(script: seq<ScriptTurn>, turn: ScriptTurn, oracle: Oracle)
    ensures UnauthorizedIn(script + [turn], oracle) ==
            UnauthorizedIn(script, oracle) + TrippedBy(ScriptRun(script, oracle).session.state, turn)
  {
    StatesMetOneMore(script, turn, oracle);
    TrippedOneMore(StatesMet(script, oracle), script, ScriptRun(script, oracle).session.state, turn);
  }

  lemma StatesMetOneMore(script: seq<ScriptTurn>, turn: ScriptTurn, oracle: Oracle)
    ensures StatesMet(script + [turn], oracle) == StatesMet(script, oracle) + [ScriptRun(script, oracle).session.state]
  {
    var more := script + [turn];
    assert more[..|script|] == script;
    forall n | 0 <= n < |script| ensures more[..n] == script[..n] {}
  }

  lemma TrippedOneMore(states: seq<ConsultationState>, turns: seq<ScriptTurn>, state: ConsultationState, turn: ScriptTurn)
    requires |states| == |turns|
    ensures TrippedAlong(states + [state], turns + [turn]) == TrippedAlong(states, turns) + TrippedBy(state, turn)
  {
    assert (states + [state])[..|states|] == states && (turns + [turn])[..|turns|] == turns;
  }

  lemma NextRun(script: seq<ScriptTurn>, i: nat, oracle: Oracle, r: TurnResult)
    requires i < |script| && r == ScriptedTurn(ScriptRun(script[..i], oracle).session, script[i], oracle)
    ensures ScriptRun(script[..i + 1], oracle) == Append(ScriptRun(script[..i], oracle), r)
  {
    assert script[..i + 1][..i] == script[..i];
  }

  lemma NextUnauthorized(script: seq<ScriptTurn>, i: nat, oracle: Oracle)
    requires i < |script|
    ensures UnauthorizedIn(script[..i + 1], oracle) ==
            UnauthorizedIn(script[..i], oracle) + TrippedBy(ScriptRun(script[..i], oracle).session.state, script[i])
  {
    assert script[..i + 1] == script[..i] + [script[i]];
    UnauthorizedOneMore(script[..i], script[i], oracle);
  }

  lemma NothingReplayed(oracle: Oracle, hash: Digest)
    ensures var run := ScriptRun([], oracle);
            InStep(FreshValue(), map[], 0, DecideAction(EMPTY_STATE, false), run, oracle, hash)
  {
    assert ItemName in REQUIRED_FIELDS && ItemName !in EMPTY_STATE.facts;
  }

  /** The action of the last reply of a run, or what an empty session asks for. */
  function LastAction(run: Run): Action {
    if run.replies == [] then AskForMissingFields
    else
      var last := run.replies[|run.replies| - 1];
      if last.Turned? then last.action else SafeFailure
  }

  /** What is reported of a production run: its state, its calls, its last action, and the answer if it is confirmed. */
  ghost predicate ReportsRun(run: ReplayRun, production: Run, oracle: Oracle) {
    && run.state == production.session.state
    && run.missingFields == production.session.state.MissingFields()
    && run.toolCalls == |production.calls|
    && run.finalAction == LastAction(production)
    && (run.authoritative.Some? <==> run.state.confirmed)
    && (run.authoritative.None? ==> run.resultStatus == None && run.resultPrice == None)
    && (run.authoritative.Some? ==>
          && Ready(run.state.facts)
          && run.authoritative.value == oracle(run.state.facts)
          && run.resultStatus == Some(run.authoritative.value.status)
          && run.resultPrice == run.authoritative.value.recommendedPrice)
  }

  /**
   * Replays a script from an empty session with the tool answering by one oracle and the fresh
   * evaluations by another. For every script the report is that of the production run; every call
   * is evaluated once and counts as a violation if and only if the two oracles differ on it; and
   * the unauthorized mutations are the sum of what each patch trips on the state it meets.
   */
  method ReplayWith(script: seq<ScriptTurn>, counters: Counters, oracle: Oracle, reference: Oracle, hash: Digest)
    returns (run: ReplayRun)
    requires SafeOracle(reference)
    modifies counters
    ensures counters.turns == old(counters.turns) + |script|
    ensures AllDicts(script) ==>
              counters.unauthorizedMutations == old(counters.unauthorizedMutations) + UnauthorizedIn(script, oracle)
    ensures Watched(old(TotalsOf(counters)), TotalsOf(counters), |ScriptRun(script, oracle).calls|,
                    DifferingCalls(script, oracle, reference))
    ensures ReportsRun(run, ScriptRun(script, oracle), oracle)
  {
    EveryCallIsWatched(script, TotalsOf(counters), oracle, reference);
    run := ReplayAll(script, counters, oracle, reference, hash);
  }

  method ReplayAll(script: seq<ScriptTurn>, counters: Counters, oracle: Oracle, reference: Oracle, hash: Digest)
    returns (run: ReplayRun)
    requires SafeOracle(reference)
    modifies counters
    ensures counters.turns == old(counters.turns) + |script|
    ensures AllDicts(script) ==>
              counters.unauthorizedMutations == old(counters.unauthorizedMutations) + UnauthorizedIn(script, oracle)
    ensures TotalsOf(counters) == TotalsAfter(script, old(TotalsOf(counters)), oracle, reference)
    ensures ReportsRun(run, ScriptRun(script, oracle), oracle)
  {
    var session := new Session<StoredResult>("eval");
    var tool := new PricingTool();
    var action, bound, reported := ReplayTurns(session, tool, counters, script, oracle, reference, hash);
    run := Report(session, |tool.calls|, counters, action, bound, reported, oracle, hash, ScriptRun(script, oracle));
  }

  /** The final report of a harness in step with a production run. */
  method Report(
    session: Session<StoredResult>, toolCalls: nat, counters: Counters, action: Action, bound: map<nat, OracleResult>,
    reported: set<(nat, string)>, ghost oracle: Oracle, hash: Digest, ghost production: Run)
    returns (run: ReplayRun)
    requires InStep(session.Value(), bound, toolCalls, action, production, oracle, hash)
    modifies counters`alarms
    ensures counters.alarms == old(counters.alarms)
    ensures ReportsRun(run, production, oracle)
  {
    NothingBroken(session.Value(), bound, reported, production.session, oracle, hash);
    run := Summarize(session, toolCalls, counters, action, bound, reported, hash);
  }

  /** On a session that mirrors production the report's check finds nothing broken, and trusts exactly a confirmed state's result. */
  lemma NothingBroken(
    value: SessionValue<StoredResult>, bound: map<nat, OracleResult>, reported: set<(nat, string)>, production: ChatSession,
    oracle: Oracle, hash: Digest)
    requires Mirrors(value, bound, production, oracle, hash) && Coherent(production, oracle)
    ensures !BreaksFirst(value.result, bound, reported, hash)
    ensures Trusted(value, bound, hash) <==> production.state.confirmed
    ensures value.result.Some? ==>
              && Ready(value.state.facts) && value.result.value.oracle == oracle(value.state.facts)
              && value.resultStatus == Some(value.result.value.oracle.status)
  {
  }

  /**
   * The replay over the real pricing engine, for the tool and for the fresh evaluations. For every
   * script each call is evaluated once and no alarm is raised; the unauthorized-mutation counter
   * stays put if and only if each patch is harmless to the state it meets.
   */
  method Replay(script: seq<ScriptTurn>, counters: Counters, power: real -> real, hash: Digest) returns (run: ReplayRun)
    modifies counters
    ensures counters.alarms == old(counters.alarms)
    ensures counters.turns == old(counters.turns) + |script|
    ensures counters.resultEvaluations ==
              old(counters.resultEvaluations) + |RunTurns(AsTurns(script), PricingOracle(power)).calls|
    ensures AllDicts(script) ==>
              (counters.unauthorizedMutations == old(counters.unauthorizedMutations) <==>
                 NothingTrips(script, PricingOracle(power)))
    ensures ReportsRun(run, RunTurns(AsTurns(script), PricingOracle(power)), PricingOracle(power))
    ensures run.authoritative.Some? ==> run.authoritative.value == Compute(ToPricingInput(run.state.facts), power)
  {
    PricingOracleIsSafe(power);
    ScriptRunIsProductionRun(script, PricingOracle(power));
    UnauthorizedExactly(script, PricingOracle(power));
    SameOracleNeverDiffers(script, PricingOracle(power));
    run := ReplayWith(script, counters, PricingOracle(power), PricingOracle(power), hash);
  }
}
