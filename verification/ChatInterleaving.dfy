/**
 * Overlapping turns on one session: the stretches of several requests interleave at the
 * suspension points (backend/hargaturun/api.py:368, 382, 431), in any order and number.
 *
 * `history` records the facts each revision named, and `calls` the revisions the oracle was asked
 * for; no step reads either.
 */
module ChatInterleaving {
  import opened Chat
  import opened Consultation
  import opened Pricing
  import opened Sessions
  import opened Wrappers

  /** A request waiting for the model. */
  datatype Task = Parsing(image: bool) | Writing(pending: Pending)

  datatype World = World(
    session: ChatSession,
    tasks: map<nat, Task>,
    history: map<nat, Facts>,
    replies: seq<Reply>,
    calls: seq<nat>)

  datatype Event =
    | Arrive(id: nat, request: ChatRequest)
    | ParseReturns(id: nat, outcome: ParseOutcome)
    | ProseReturns(id: nat, prose: Prose)

  function InitialWorld(): World {
    World(FreshValue(), map[], map[0 := map[]], [], [])
  }

  predicate Enabled(w: World, e: Event) {
    match e
    case Arrive(id, request) => id !in w.tasks && InSession(request.action)
    case ParseReturns(id, _) => id in w.tasks && w.tasks[id].Parsing?
    case ProseReturns(id, _) => id in w.tasks && w.tasks[id].Writing?
  }

  function StretchOf(w: World, e: Event, oracle: Oracle): Stretch
    requires Enabled(w, e)
  {
    match e
    case Arrive(_, request) => Begin(w.session, request, oracle)
    case ParseReturns(id, outcome) => AfterParse(w.session, w.tasks[id].image, outcome, oracle)
    case ProseReturns(id, prose) => AfterProse(w.session, w.tasks[id].pending, prose)
  }

  /** One stretch runs to its end without interruption; an event that cannot happen changes nothing. */
  function Step(w: World, e: Event, oracle: Oracle): World {
    if !Enabled(w, e) then w else Settle(w, e.id, StretchOf(w, e, oracle))
  }

  function Settle(w: World, id: nat, stretch: Stretch): World {
    World(
      stretch.session,
      match stretch.next
        case Done(_) => w.tasks - {id}
        case AwaitParse(image) => w.tasks[id := Parsing(image)]
        case AwaitProse(pending) => w.tasks[id := Writing(pending)],
      w.history[stretch.session.state.revision := stretch.session.state.facts],
      match stretch.next
        case Done(reply) => w.replies + [reply]
        case _ => w.replies,
      w.calls + (if stretch.priced.Some? then [stretch.priced.value] else []))
  }

  function RunEvents(events: seq<Event>, oracle: Oracle): World {
    if events == [] then InitialWorld()
    else Step(RunEvents(events[..|events| - 1], oracle), events[|events| - 1], oracle)
  }

  // ---------------------------------------------------------------------------
  // The invariant
  // ---------------------------------------------------------------------------

  ghost predicate StateRecorded(session: ChatSession, history: map<nat, Facts>) {
    var state := session.state;
    && WellTyped(state.facts)
    && (state.confirmed ==> state.IsComplete())
    && state.revision in history && history[state.revision] == state.facts
    && forall r | r in history :: r <= state.revision
  }

  /** The stored payload answers the facts of its own revision, stale or not. */
  ghost predicate ResultRecorded(session: ChatSession, history: map<nat, Facts>, oracle: Oracle) {
    session.result.Some? ==>
      var payload := session.result.value;
      && payload.revision in history
      && Authentic(payload, history[payload.revision], payload.revision, oracle)
      && (payload.revision == session.state.revision ==> session.state.confirmed)
  }

  ghost predicate TaskRecorded(task: Task, session: ChatSession, history: map<nat, Facts>, oracle: Oracle) {
    task.Writing? ==>
      var pending := task.pending;
      && pending.revision in history && history[pending.revision] == pending.facts
      && Ready(pending.facts)
      && pending.answer == oracle(pending.facts)
      && (pending.revision == session.state.revision ==> session.state.confirmed)
  }

  ghost predicate Invariant(w: World, oracle: Oracle) {
    && StateRecorded(w.session, w.history)
    && ResultRecorded(w.session, w.history, oracle)
    && (forall id | id in w.tasks :: TaskRecorded(w.tasks[id], w.session, w.history, oracle))
    && (forall i | 0 <= i < |w.replies| :: SoundReply(w.replies[i], oracle))
  }

  /** The history only grows: an entry, once made, never changes. */
  ghost predicate Extends(later: map<nat, Facts>, earlier: map<nat, Facts>) {
    forall r | r in earlier :: r in later && later[r] == earlier[r]
  }

  /** How a stretch may change the session: forward, and keeping facts and confirmation within a revision. */
  ghost predicate Forward(before: ChatSession, after: ChatSession) {
    && before.state.revision <= after.state.revision
    && (before.state.revision == after.state.revision ==>
          after.state.facts == before.state.facts && (before.state.confirmed ==> after.state.confirmed))
  }

  lemma RecordedReplyIsSound(session: ChatSession, history: map<nat, Facts>, action: Action, oracle: Oracle)
    requires StateRecorded(session, history) && ResultRecorded(session, history, oracle)
    ensures SoundReply(ReplyWith(session, action), oracle)
  {
  }

  /** What a stretch must establish for the world to keep its invariant. */
  ghost predicate GoodStretch(w: World, stretch: Stretch, oracle: Oracle) {
    var history := w.history[stretch.session.state.revision := stretch.session.state.facts];
    && Forward(w.session, stretch.session)
    && StateRecorded(stretch.session, history)
    && ResultRecorded(stretch.session, history, oracle)
    && (stretch.next.Done? ==> SoundReply(stretch.next.reply, oracle))
    && (stretch.next.AwaitProse? ==> TaskRecorded(Writing(stretch.next.pending), stretch.session, history, oracle))
  }

  lemma ReduceMovesForward(session: ChatSession, action: RequestAction, proposal: Proposal)
    ensures Forward(session, Reduce(session, action, proposal))
    ensures var after := Reduce(session, action, proposal);
            if after.state.revision == session.state.revision then after.result == session.result else after.result.None?
  {
    MergeEffect(session.state, Accepted(proposal));
  }

  lemma ReduceKeepsRecords(w: World, action: RequestAction, proposal: Proposal, oracle: Oracle)
    requires Invariant(w, oracle)
    ensures var after := Reduce(w.session, action, proposal);
            var history := w.history[after.state.revision := after.state.facts];
            && Forward(w.session, after)
            && Extends(history, w.history)
            && StateRecorded(after, history)
            && ResultRecorded(after, history, oracle)
  {
    ReduceMovesForward(w.session, action, proposal);
    ReduceWellTyped(w.session, action, proposal);
    MergeEffect(w.session.state, Accepted(proposal));
  }

  lemma ProseIsGood(w: World, session: ChatSession, pending: Pending, prose: Prose, oracle: Oracle)
    requires Forward(w.session, session)
    requires StateRecorded(session, w.history[session.state.revision := session.state.facts])
    requires TaskRecorded(Writing(pending), session, w.history[session.state.revision := session.state.facts], oracle)
    ensures GoodStretch(w, AfterProse(session, pending, prose), oracle)
  {
    var payload := PayloadOf(pending.facts, pending.revision, pending.answer, prose);
    PayloadReports(pending.facts, pending.revision, pending.answer, prose);
    var done := AfterProse(session, pending, prose);
    assert done.session.result == Some(payload);
    RecordedReplyIsSound(done.session, w.history[session.state.revision := session.state.facts], ExplainResult, oracle);
  }

  lemma MergeIsGood(w: World, action: RequestAction, proposal: Proposal, oracle: Oracle)
    requires Invariant(w, oracle)
    ensures GoodStretch(w, Merge(w.session, action, proposal, oracle), oracle)
  {
    ReduceKeepsRecords(w, action, proposal, oracle);
    var after := Reduce(w.session, action, proposal);
    var history := w.history[after.state.revision := after.state.facts];
    var decided := DecideAction(after.state, after.result.Some?);
    RecordedReplyIsSound(after, history, decided, oracle);
    if decided == CallPricingTool {
      var pending := Pending(after.state.facts, after.state.revision, oracle(after.state.facts));
      ProseIsGood(w, after, pending, Prose("", ""), oracle);
    }
  }

  lemma StretchIsGood(w: World, e: Event, oracle: Oracle)
    requires Invariant(w, oracle) && Enabled(w, e)
    ensures GoodStretch(w, StretchOf(w, e, oracle), oracle)
  {
    assert w.history[w.session.state.revision := w.session.state.facts] == w.history;
    match e
    case Arrive(_, request) =>
      if request.action != Message {
        MergeIsGood(w, request.action, if request.action == ConfirmFacts then request.patch else Object([]), oracle);
      }
    case ParseReturns(id, outcome) =>
      RecordedReplyIsSound(w.session, w.history, SafeFailure, oracle);
      match outcome {
        case ParseFailed =>
        case Parsed(p) => MergeIsGood(w, Message, if w.tasks[id].image then ImageSafeProposal(p) else p, oracle);
      }
    case ProseReturns(id, prose) =>
      assert TaskRecorded(w.tasks[id], w.session, w.history, oracle);
      ProseIsGood(w, w.session, w.tasks[id].pending, prose, oracle);
  }

  /** Every step keeps the invariant, moves the session forward and only adds to the history. */
  lemma StepKeepsInvariant(w: World, e: Event, oracle: Oracle)
    requires Invariant(w, oracle)
    ensures Invariant(Step(w, e, oracle), oracle)
    ensures Forward(w.session, Step(w, e, oracle).session)
    ensures Extends(Step(w, e, oracle).history, w.history)
  {
    if Enabled(w, e) {
      StretchIsGood(w, e, oracle);
      SettleKeepsInvariant(w, e.id, StretchOf(w, e, oracle), oracle);
    }
  }

  lemma SettleKeepsInvariant(w: World, id: nat, stretch: Stretch, oracle: Oracle)
    requires Invariant(w, oracle) && GoodStretch(w, stretch, oracle)
    ensures Invariant(Settle(w, id, stretch), oracle)
    ensures Extends(Settle(w, id, stretch).history, w.history)
  {
    var after := Settle(w, id, stretch);
    assert Extends(after.history, w.history);
    forall k | k in after.tasks
      ensures TaskRecorded(after.tasks[k], after.session, after.history, oracle)
    {
      if k in w.tasks && after.tasks[k] == w.tasks[k] {
        assert TaskRecorded(w.tasks[k], w.session, w.history, oracle);
      }
    }
  }

  // ---------------------------------------------------------------------------
  // Whole runs
  // ---------------------------------------------------------------------------

  /**
   * Under every interleaving each reply is sound: a result it exposes carries the shown state's
   * revision, that state is complete and confirmed, and the result is the oracle's answer for
   * exactly the facts shown. A stale stored result is still the answer for its own revision.
   */
  lemma {:induction false} EveryInterleavingIsSound(events: seq<Event>, oracle: Oracle)
    ensures Invariant(RunEvents(events, oracle), oracle)
  {
    if events != [] {
      EveryInterleavingIsSound(events[..|events| - 1], oracle);
      StepKeepsInvariant(RunEvents(events[..|events| - 1], oracle), events[|events| - 1], oracle);
    }
  }

  /** The history of a longer run extends that of a shorter one, and replies are never withdrawn. */
  lemma {:induction false} HistoryIsAppendOnly(events: seq<Event>, n: nat, oracle: Oracle)
    requires n <= |events|
    ensures Extends(RunEvents(events, oracle).history, RunEvents(events[..n], oracle).history)
    ensures RunEvents(events[..n], oracle).session.state.revision <= RunEvents(events, oracle).session.state.revision
    ensures RunEvents(events[..n], oracle).replies <= RunEvents(events, oracle).replies
  {
    if n == |events| {
      assert events[..n] == events;
    } else {
      var front := events[..|events| - 1];
      assert front[..n] == events[..n];
      HistoryIsAppendOnly(front, n, oracle);
      EveryInterleavingIsSound(front, oracle);
      StepKeepsInvariant(RunEvents(front, oracle), events[|events| - 1], oracle);
    }
  }

  /** A revision names one set of facts, however the requests in between interleaved. */
  lemma RevisionNamesFacts(events: seq<Event>, n: nat, oracle: Oracle)
    requires n <= |events|
    requires RunEvents(events[..n], oracle).session.state.revision == RunEvents(events, oracle).session.state.revision
    ensures RunEvents(events[..n], oracle).session.state.facts == RunEvents(events, oracle).session.state.facts
  {
    HistoryIsAppendOnly(events, n, oracle);
    EveryInterleavingIsSound(events, oracle);
    EveryInterleavingIsSound(events[..n], oracle);
  }

  /**
   * With the pricing engine as the oracle, every recommendation any interleaving exposes is the
   * engine's for the facts shown next to it: a markdown of the shown price that keeps Rp500 over
   * the shown cost.
   */
  lemma ExposedPricesKeepTheMargin(events: seq<Event>, power: real -> real, i: nat)
    requires i < |RunEvents(events, PricingOracle(power)).replies|
    requires var reply := RunEvents(events, PricingOracle(power)).replies[i];
             reply.Turned? && reply.result.Some? && reply.result.value.status == Recommendation
    ensures var reply := RunEvents(events, PricingOracle(power)).replies[i];
            var shown, body := reply.state.facts, reply.result.value.body;
            && Ready(shown)
            && var answer := Compute(ToPricingInput(shown), power);
            && body.Advice?
            && body.recommendedPrice == answer.recommendedPrice && body.discountPercent == answer.discountPercent
            && body.recommendedPrice.Some? && body.discountPercent.Some?
            && shown[Cost].n + MIN_MARGIN_RP <= body.recommendedPrice.value < shown[OriginalPrice].n
            && DISCOUNT_MIN <= body.discountPercent.value <= DISCOUNT_MAX
  {
    var oracle := PricingOracle(power);
    EveryInterleavingIsSound(events, oracle);
    var reply := RunEvents(events, oracle).replies[i];
    assert SoundReply(reply, oracle);
    var shown := reply.state.facts;
    RecommendationBounds(ToPricingInput(shown), power);
    assert Cost in REQUIRED_FIELDS && OriginalPrice in REQUIRED_FIELDS;
  }
}
