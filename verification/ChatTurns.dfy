/**
 * Runs of non-overlapping turns on one session: what holds at every turn boundary
 * (backend/hargaturun/api.py:402-443, backend/hargaturun/consultation.py:221-238, 275-292).
 */
module ChatTurns {
  import opened Chat
  import opened Consultation
  import opened Pricing
  import opened Sessions
  import opened Wrappers

  /** One request together with what the model answers while it is served. */
  datatype Turn = Turn(request: ChatRequest, parse: ParseOutcome, prose: Prose)

  datatype TurnResult = TurnResult(session: ChatSession, reply: Reply, priced: Option<nat>)

  /** The stretches of one turn, with nothing else running in between. */
  function AtomicTurn(session: ChatSession, turn: Turn, oracle: Oracle): TurnResult
    requires InSession(turn.request.action)
  {
    var first := Begin(session, turn.request, oracle);
    var second := if first.next.AwaitParse? then AfterParse(session, first.next.image, turn.parse, oracle) else first;
    var third := if second.next.AwaitProse? then AfterProse(second.session, second.next.pending, turn.prose) else second;
    TurnResult(third.session, third.next.reply, second.priced)
  }

  /**
   * The turn-boundary invariant: being confirmed, having a stored result and having
   * `result_revision` name the current revision are one and the same, only a complete state is
   * confirmed, and the stored result is the oracle's answer for the current facts.
   */
  ghost predicate Coherent(session: ChatSession, oracle: Oracle) {
    var state := session.state;
    && WellTyped(state.facts)
    && (state.confirmed ==> state.IsComplete())
    && (state.confirmed <==> session.result.Some?)
    && (state.confirmed <==> state.resultRevision == Some(state.revision))
    && (!state.confirmed ==> state.resultRevision == None && session.resultStatus == None)
    && (session.result.Some? ==>
          && session.resultStatus == Some(session.result.value.status)
          && Authentic(session.result.value, state.facts, state.revision, oracle))
  }

  /** Between the reduction and the answer: only the result may still be missing. */
  ghost predicate AlmostCoherent(session: ChatSession, oracle: Oracle) {
    || Coherent(session, oracle)
    || (&& session.result.None? && session.resultStatus.None? && session.state.resultRevision.None?
        && WellTyped(session.state.facts) && (session.state.confirmed ==> session.state.IsComplete()))
  }

  lemma ReduceKeepsAlmost(session: ChatSession, action: RequestAction, proposal: Proposal, oracle: Oracle)
    requires Coherent(session, oracle)
    ensures var after := Reduce(session, action, proposal);
            && AlmostCoherent(after, oracle)
            && session.state.revision <= after.state.revision <= session.state.revision + 1
            && (after.state.revision == session.state.revision && session.state.confirmed ==> after == session)
            && (after.state.revision == session.state.revision ==> after.state.facts == session.state.facts)
  {
    MergeEffect(session.state, Accepted(proposal));
    ReduceWellTyped(session, action, proposal);
  }

  lemma StoredIsCoherent(session: ChatSession, pending: Pending, prose: Prose, oracle: Oracle)
    requires WellTyped(session.state.facts) && session.state.IsComplete() && session.state.confirmed
    requires Ready(session.state.facts)
    requires pending == Pending(session.state.facts, session.state.revision, oracle(session.state.facts))
    ensures var done := AfterProse(session, pending, prose);
            Coherent(done.session, oracle) && SoundReply(done.next.reply, oracle)
  {
    var payload := PayloadOf(pending.facts, pending.revision, pending.answer, prose);
    PayloadReports(pending.facts, pending.revision, pending.answer, prose);
    assert AfterProse(session, pending, prose).session.result == Some(payload);
  }

  /**
   * What one turn promises: the boundary invariant again, a sound reply, a revision that moves by
   * at most one and names one set of facts, and an oracle call only for the revision left
   * confirmed, never for one that was already answered.
   */
  ghost predicate GoodTurn(before: ChatSession, r: TurnResult, oracle: Oracle) {
    var was, now := before.state, r.session.state;
    && Coherent(r.session, oracle)
    && SoundReply(r.reply, oracle)
    && was.revision <= now.revision <= was.revision + 1
    && (now.revision == was.revision ==> now.facts == was.facts && (was.confirmed ==> now.confirmed))
    && (r.priced.Some? ==> r.priced.value == now.revision && now.confirmed)
    && (r.priced.Some? && was.confirmed ==> was.revision < now.revision)
    && (r.priced.None? && now.confirmed ==> was.confirmed && now.revision == was.revision)
  }

  /** An admitted turn is refused as empty, excused by a failed parse, or merges one proposal. */
  lemma AtomicIsMerge(session: ChatSession, turn: Turn, oracle: Oracle)
    requires InSession(turn.request.action)
    ensures var request := turn.request;
            AtomicTurn(session, turn, oracle) ==
              if request.action == Message && IsBlank(request.text) && !request.hasImage then
                TurnResult(session, Refused(422), None)
              else if request.action == Message && turn.parse.ParseFailed? then
                TurnResult(session, ReplyWith(session, SafeFailure), None)
              else
                MergeTurn(session, request.action, ProposalOf(turn), turn.prose, oracle)
  {
  }

  function ProposalOf(turn: Turn): Proposal {
    match turn.request.action
    case Message =>
      if turn.parse.ParseFailed? then Object([])
      else if turn.request.hasImage then ImageSafeProposal(turn.parse.proposal)
      else turn.parse.proposal
    case ConfirmFacts => turn.request.patch
    case _ => Object([])
  }

  lemma TurnKeepsCoherence(session: ChatSession, turn: Turn, oracle: Oracle)
    requires Coherent(session, oracle) && InSession(turn.request.action)
    ensures GoodTurn(session, AtomicTurn(session, turn, oracle), oracle)
  {
    AtomicIsMerge(session, turn, oracle);
    MergeIsGood(session, turn.request.action, ProposalOf(turn), turn.prose, oracle);
  }

  /** Deciding and acting on a reduced session, followed at once by the prose. */
  function Act(reduced: ChatSession, prose: Prose, oracle: Oracle): TurnResult {
    var action := DecideAction(reduced.state, reduced.result.Some?);
    if action == CallPricingTool then
      var answer := oracle(reduced.state.facts);
      var pending := Pending(reduced.state.facts, reduced.state.revision, answer);
      var stored := AfterProse(reduced, pending, if answer.status == Recommendation then prose else Prose("", ""));
      TurnResult(stored.session, stored.next.reply, Some(reduced.state.revision))
    else
      TurnResult(reduced, ReplyWith(reduced, action), None)
  }

  /** A merging stretch followed at once by its prose. */
  function MergeTurn(session: ChatSession, action: RequestAction, proposal: Proposal, prose: Prose, oracle: Oracle): TurnResult {
    Act(Reduce(session, action, proposal), prose, oracle)
  }

  lemma MergeIsGood(session: ChatSession, action: RequestAction, proposal: Proposal, prose: Prose, oracle: Oracle)
    requires Coherent(session, oracle)
    ensures GoodTurn(session, MergeTurn(session, action, proposal, prose, oracle), oracle)
  {
    ReduceKeepsAlmost(session, action, proposal, oracle);
    var after := Reduce(session, action, proposal);
    if DecideAction(after.state, after.result.Some?) == CallPricingTool {
      var answer := oracle(after.state.facts);
      var pending := Pending(after.state.facts, after.state.revision, answer);
      StoredIsCoherent(after, pending, if answer.status == Recommendation then prose else Prose("", ""), oracle);
    }
  }

  /** The turn is neither refused as empty nor excused by a failed parse. */
  predicate IsServed(turn: Turn) {
    turn.request.action == Message ==> turn.parse.Parsed? && (!IsBlank(turn.request.text) || turn.request.hasImage)
  }

  /**
   * What a served turn answers, by the state it leaves: it asks for the missing fields exactly while
   * some are, shows the facts for confirmation exactly when they are complete but unconfirmed, and
   * otherwise explains, with a result.
   */
  lemma TurnAnswers(session: ChatSession, turn: Turn, oracle: Oracle)
    requires Coherent(session, oracle) && InSession(turn.request.action) && IsServed(turn)
    ensures var r := AtomicTurn(session, turn, oracle);
            var now := r.session.state;
            && r.reply.Turned? && r.reply.state == now && r.reply.missingFields == now.MissingFields()
            && (r.reply.action == AskForMissingFields <==> !now.IsComplete())
            && (r.reply.action == ShowConfirmation <==> now.IsComplete() && !now.confirmed)
            && (r.reply.action == ExplainResult <==> now.confirmed)
            && (r.reply.result.Some? <==> now.confirmed)
  {
    AtomicIsMerge(session, turn, oracle);
    MergeAnswers(session, turn.request.action, ProposalOf(turn), turn.prose, oracle);
  }

  lemma MergeAnswers(session: ChatSession, action: RequestAction, proposal: Proposal, prose: Prose, oracle: Oracle)
    requires Coherent(session, oracle)
    ensures var r := MergeTurn(session, action, proposal, prose, oracle);
            var now := r.session.state;
            && r.reply.Turned? && r.reply.state == now && r.reply.missingFields == now.MissingFields()
            && (r.reply.action == AskForMissingFields <==> !now.IsComplete())
            && (r.reply.action == ShowConfirmation <==> now.IsComplete() && !now.confirmed)
            && (r.reply.action == ExplainResult <==> now.confirmed)
            && (r.reply.result.Some? <==> now.confirmed)
  {
    ReduceKeepsAlmost(session, action, proposal, oracle);
    MergeIsGood(session, action, proposal, prose, oracle);
  }

  // ---------------------------------------------------------------------------
  // Whole runs
  // ---------------------------------------------------------------------------

  /** The session after a run of turns, and the revisions the oracle was called for. */
  datatype Run = Run(session: ChatSession, calls: seq<nat>, replies: seq<Reply>)

  function Append(run: Run, r: TurnResult): Run {
    Run(r.session, run.calls + (if r.priced.Some? then [r.priced.value] else []), run.replies + [r.reply])
  }

  predicate AllInSession(turns: seq<Turn>) {
    forall i :: 0 <= i < |turns| ==> InSession(turns[i].request.action)
  }

  function RunTurns(turns: seq<Turn>, oracle: Oracle): Run
    requires AllInSession(turns)
  {
    if turns == [] then Run(FreshValue(), [], [])
    else
      var before := RunTurns(turns[..|turns| - 1], oracle);
      Append(before, AtomicTurn(before.session, turns[|turns| - 1], oracle))
  }

  /** Every turn boundary of every run of non-overlapping turns is coherent. */
  lemma {:induction false} EveryBoundaryIsCoherent(turns: seq<Turn>, oracle: Oracle)
    requires AllInSession(turns)
    ensures Coherent(RunTurns(turns, oracle).session, oracle)
  {
    if turns != [] {
      EveryBoundaryIsCoherent(turns[..|turns| - 1], oracle);
      TurnKeepsCoherence(RunTurns(turns[..|turns| - 1], oracle).session, turns[|turns| - 1], oracle);
    }
  }

  /**
   * In every run of non-overlapping turns the oracle is called at most once per revision, in
   * increasing order, never past the current revision, and for the current revision exactly when
   * it is confirmed; and every reply is sound.
   */
  lemma {:induction false} OneCallPerRevision(turns: seq<Turn>, oracle: Oracle)
    requires AllInSession(turns)
    ensures var run := RunTurns(turns, oracle);
            && (forall i, j :: 0 <= i < j < |run.calls| ==> run.calls[i] < run.calls[j])
            && (forall i :: 0 <= i < |run.calls| ==> run.calls[i] <= run.session.state.revision)
            && (run.session.state.confirmed <==> run.session.state.revision in run.calls)
            && |run.replies| == |turns|
            && (forall i :: 0 <= i < |run.replies| ==> SoundReply(run.replies[i], oracle))
  {
    if turns != [] {
      var front, last := turns[..|turns| - 1], turns[|turns| - 1];
      OneCallPerRevision(front, oracle);
      EveryBoundaryIsCoherent(front, oracle);
      var before := RunTurns(front, oracle);
      TurnKeepsCoherence(before.session, last, oracle);
      CallsExtend(before.calls, before.session, AtomicTurn(before.session, last, oracle), oracle);
    }
  }

  lemma CallsExtend(calls: seq<nat>, session: ChatSession, r: TurnResult, oracle: Oracle)
    requires GoodTurn(session, r, oracle)
    requires forall i, j :: 0 <= i < j < |calls| ==> calls[i] < calls[j]
    requires forall i :: 0 <= i < |calls| ==> calls[i] <= session.state.revision
    requires session.state.confirmed <==> session.state.revision in calls
    ensures var after := calls + (if r.priced.Some? then [r.priced.value] else []);
            && (forall i, j :: 0 <= i < j < |after| ==> after[i] < after[j])
            && (forall i :: 0 <= i < |after| ==> after[i] <= r.session.state.revision)
            && (r.session.state.confirmed <==> r.session.state.revision in after)
  {
    if session.state.revision !in calls {
      assert forall i :: 0 <= i < |calls| ==> calls[i] < session.state.revision;
    }
  }
}
