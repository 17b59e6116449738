/**
 * The deciding half of a replayed turn and the final report
 * (scripts/eval_agentic_workflow.py:404-527), on any session: what is looked at, what is counted,
 * and what is stored. `oracle` is the tool's, `reference` the fresh evaluation's.
 */
module ReplayAct {
  import opened Chat
  import opened ChatTurns
  import opened Consultation
  import opened Pricing
  import opened ReplayMonitor
  import opened Sessions
  import opened Wrappers

  type Stored = SessionValue<StoredResult>

  // ---------------------------------------------------------------------------
  // What a turn looks at before it decides
  // ---------------------------------------------------------------------------

  /** The alarms after the trust check and the two staleness counts. */
  function Looked(a: Alarms, value: Stored, bound: map<nat, OracleResult>, reported: set<(nat, string)>, hash: Digest): Alarms {
    var stale := StaleResultExposed(value.result, value.state);
    HashCounted(a, BreaksFirst(value.result, bound, reported, hash)).(
      staleReuses := Count(a.staleReuses, stale), staleExposures := Count(a.staleExposures, stale))
  }

  /** Counts a stored payload whose revision is not the state's, as reused and as exposed. */
  method CountStaleness(session: Session<StoredResult>, counters: Counters)
    modifies counters`alarms
    ensures var stale := StaleResultExposed(session.result, session.state);
            counters.alarms == old(counters.alarms).(
              staleReuses := Count(old(counters.alarms).staleReuses, stale),
              staleExposures := Count(old(counters.alarms).staleExposures, stale))
  {
    if session.result.Some? && session.result.value.revision != session.state.revision {
      counters.alarms := counters.alarms.(staleReuses := counters.alarms.staleReuses + 1);
    }
    if StaleResultExposed(session.result, session.state) {
      counters.alarms := counters.alarms.(staleExposures := counters.alarms.staleExposures + 1);
    }
  }

  method LookAndDecide(
    session: Session<StoredResult>, counters: Counters, bound: map<nat, OracleResult>,
    reported: set<(nat, string)>, hash: Digest)
    returns (action: Action, nowReported: set<(nat, string)>)
    modifies counters`alarms
    ensures counters.alarms == Looked(old(counters.alarms), session.Value(), bound, reported, hash)
    ensures action == Decided(session.Value(), bound, hash)
  {
    var trusted;
    trusted, nowReported := TrustedSessionResult(session, counters, reported, bound, hash);
    CountStaleness(session, counters);
    action := DecideAction(session.state, trusted);
  }

  /** The policy on a session of which only a trusted result counts. */
  function Decided(value: Stored, bound: map<nat, OracleResult>, hash: Digest): Action {
    DecideAction(value.state, Trusted(value, bound, hash))
  }

  // ---------------------------------------------------------------------------
  // Asking and observing
  // ---------------------------------------------------------------------------

  function Produced(value: Stored, oracle: Oracle, hash: Digest): StoredResult {
    var answer := oracle(value.state.facts);
    StoredResult(value.state.revision, answer.status, answer, hash(answer))
  }

  /** The session after the tool's answer was stored and marked. */
  function Answered(value: Stored, oracle: Oracle, hash: Digest): Stored {
    SessionValue(value.state.(resultRevision := Some(value.state.revision)),
                 Some(Produced(value, oracle, hash)), Some(oracle(value.state.facts).status))
  }

  /** Asks the tool, stores and binds its answer, and checks it against the reference. */
  method AskAndObserve(
    session: Session<StoredResult>, tool: PricingTool, counters: Counters, bound: map<nat, OracleResult>,
    reported: set<(nat, string)>, oracle: Oracle, reference: Oracle, hash: Digest)
    returns (nowBound: map<nat, OracleResult>, nowReported: set<(nat, string)>)
    requires session.state.IsComplete() && session.state.confirmed && WellTyped(session.state.facts) && SafeOracle(reference)
    modifies session`state, session`result, session`resultStatus, tool, counters`alarms, counters`resultEvaluations
    ensures Ready(old(session.state.facts))
    ensures session.Value() == Answered(old(session.Value()), oracle, hash)
    ensures nowBound == bound[old(session.state.revision) := oracle(old(session.state.facts))]
    ensures |tool.calls| == |old(tool.calls)| + 1
    ensures counters.resultEvaluations == old(counters.resultEvaluations) + 1
    ensures var facts := old(session.state.facts);
            counters.alarms == Observed(old(counters.alarms), facts, oracle(facts), reference(facts))
  {
    var facts, revision := session.state.facts, session.state.revision;
    var answer := tool.Run(session.state, oracle);
    var stored := StoredResult(revision, answer.value.status, answer.value, hash(answer.value));
    session.result := Some(stored);
    nowBound := bound[revision := answer.value];
    nowReported := ObserveResult(facts, answer.value, stored, counters, reported, reference, hash);
    var trusted;
    trusted, nowReported := TrustedSessionResult(session, counters, nowReported, nowBound, hash);
    session.resultStatus := Some(answer.value.status);
    session.state := session.state.(resultRevision := Some(session.state.revision));
  }

  /** The deciding half of a turn on any session: look, decide, and ask if the policy says so. */
  method ActTurn(
    session: Session<StoredResult>, tool: PricingTool, counters: Counters, bound: map<nat, OracleResult>,
    reported: set<(nat, string)>, oracle: Oracle, reference: Oracle, hash: Digest)
    returns (action: Action, nowBound: map<nat, OracleResult>, nowReported: set<(nat, string)>)
    requires WellTyped(session.state.facts) && SafeOracle(reference)
    modifies session`state, session`result, session`resultStatus, tool, counters`alarms, counters`resultEvaluations
    ensures var value, facts := old(session.Value()), old(session.state.facts);
            var looked := Looked(old(counters.alarms), value, bound, reported, hash);
            if Decided(value, bound, hash) != CallPricingTool then
              && session.Value() == value && nowBound == bound && action == Decided(value, bound, hash)
              && counters.alarms == looked && counters.resultEvaluations == old(counters.resultEvaluations)
              && |tool.calls| == |old(tool.calls)|
            else
              && Ready(facts)
              && session.Value() == Answered(value, oracle, hash)
              && nowBound == bound[value.state.revision := oracle(facts)] && action == ExplainResult
              && counters.alarms == Observed(looked, facts, oracle(facts), reference(facts))
              && counters.resultEvaluations == old(counters.resultEvaluations) + 1
              && |tool.calls| == |old(tool.calls)| + 1
  {
    nowBound := bound;
    action, nowReported := LookAndDecide(session, counters, bound, reported, hash);
    if action != CallPricingTool {
      return;
    }
    nowBound, nowReported := AskAndObserve(session, tool, counters, bound, nowReported, oracle, reference, hash);
    action := ExplainResult;
  }

  // ---------------------------------------------------------------------------
  // On a session that mirrors production
  // ---------------------------------------------------------------------------

  /** The harness session stores what the production session stores, minus its prose. */
  ghost predicate Mirrors(
    value: SessionValue<StoredResult>, bound: map<nat, OracleResult>, production: ChatSession, oracle: Oracle, hash: Digest)
  {
    && value.state == production.state
    && value.resultStatus == production.resultStatus
    && (value.result.Some? <==> production.result.Some?)
    && (value.result.Some? ==>
          var payload := value.result.value;
          && payload.revision == value.state.revision
          && payload.oracle == oracle(value.state.facts)
          && Intact(payload, hash)
          && Bound(payload, bound))
  }

  /** There is nothing to alarm about, and the harness decides as production does. */
  lemma MirrorsDecide(
    value: Stored, bound: map<nat, OracleResult>, reported: set<(nat, string)>, reduced: ChatSession, oracle: Oracle,
    hash: Digest, a: Alarms)
    requires Mirrors(value, bound, reduced, oracle, hash)
    ensures Looked(a, value, bound, reported, hash) == a
    ensures Decided(value, bound, hash) == DecideAction(reduced.state, reduced.result.Some?)
  {
  }

  /** Acting keeps the mirror. */
  lemma MirrorsAct(
    value: Stored, bound: map<nat, OracleResult>, reduced: ChatSession, oracle: Oracle, hash: Digest)
    requires Mirrors(value, bound, reduced, oracle, hash) && AlmostCoherent(reduced, oracle)
    ensures var r := Act(reduced, Prose("", ""), oracle);
            var asks := DecideAction(reduced.state, reduced.result.Some?) == CallPricingTool;
            && r.reply.Turned? && (r.priced.Some? <==> asks) && r.session.state.facts == value.state.facts
            && (asks ==>
                  && r.reply.action == ExplainResult
                  && Mirrors(Answered(value, oracle, hash), bound[value.state.revision := oracle(value.state.facts)], r.session, oracle, hash))
            && (!asks ==>
                  && r.reply.action == DecideAction(reduced.state, reduced.result.Some?)
                  && Mirrors(value, bound, r.session, oracle, hash))
  {
  }

  // ---------------------------------------------------------------------------
  // The final report
  // ---------------------------------------------------------------------------

  /** The final visibility check and the observable outcome: a result is reported if and only if it is trusted. */
  method Summarize(
    session: Session<StoredResult>, toolCalls: nat, counters: Counters, action: Action, bound: map<nat, OracleResult>,
    reported: set<(nat, string)>, hash: Digest)
    returns (run: ReplayRun)
    modifies counters`alarms
    ensures counters.alarms == HashCounted(old(counters.alarms), BreaksFirst(session.result, bound, reported, hash))
    ensures run.finalAction == action && run.toolCalls == toolCalls
    ensures run.state == session.state && run.missingFields == session.state.MissingFields()
    ensures run.authoritative.Some? <==> Trusted(session.Value(), bound, hash)
    ensures run.authoritative.Some? ==>
              && run.authoritative.value == session.result.value.oracle
              && run.resultStatus == session.resultStatus
              && run.resultPrice == run.authoritative.value.recommendedPrice
    ensures run.authoritative.None? ==> run.resultStatus == None && run.resultPrice == None
  {
    var visible, nowReported := TrustedSessionResult(session, counters, reported, bound, hash);
    var authoritative := if visible then Some(session.result.value.oracle) else None;
    run := ReplayRun(
      action,
      if visible then session.resultStatus else None,
      if visible then authoritative.value.recommendedPrice else None,
      toolCalls, session.state, session.state.MissingFields(), authoritative);
  }
}
