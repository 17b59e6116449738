/**
 * One consultation turn, cut at its suspension points (backend/hargaturun/api.py:315-443), with
 * the payload it stores and the reply it exposes (backend/hargaturun/api.py:680-799).
 *
 * A turn may suspend twice: while the model parses a message, and while it writes prose for an
 * answer the oracle already gave. The functions below are the stretches between suspensions.
 */
module Chat {
  import opened Consultation
  import opened Pricing
  import opened Sessions
  import opened Text
  import opened Wrappers

  datatype RequestAction = Message | ConfirmFacts | Calculate | Explain | RevisePromo | Reset | Unrecognized

  datatype ChatRequest = ChatRequest(
    sessionId: Option<string>, action: RequestAction, text: string, hasImage: bool, patch: Proposal)

  /** What the untrusted model proposes: anything, or a failure. */
  datatype ParseOutcome = Parsed(proposal: Proposal) | ParseFailed

  /** The model's text for a recommendation; both parts are empty when writing fails. */
  datatype Prose = Prose(explanation: string, promoCopy: string)

  // ---------------------------------------------------------------------------
  // Stored payloads and replies
  // ---------------------------------------------------------------------------

  datatype Body =
    | Postponed(message: Option<Message>, reassessInDays: Option<int>)
    | Problem(message: Option<Message>)
    | Advice(normalizedFacts: Facts, usedShelfLife: Option<real>,
             discountPercent: Option<int>, recommendedPrice: Option<int>, timing: Option<Timing>,
             sellThroughUnits: Option<int>, stock: Option<int>, revenue: Option<int>, lossNoAction: Option<int>,
             confidence: Option<Confidence>, prose: Prose)

  datatype ResultPayload = ResultPayload(status: Status, revision: nat, body: Body)

  function PayloadOf(facts: Facts, revision: nat, answer: OracleResult, prose: Prose): ResultPayload {
    ResultPayload(answer.status, revision,
      match answer.status
      case NoAction => Postponed(answer.message, answer.reassessInDays)
      case InvalidInput => Problem(answer.message)
      case Recommendation =>
        Advice(facts - {TotalShelfLife}, answer.usedShelfLife,
               answer.discountPercent, answer.recommendedPrice, answer.timing,
               answer.sellThroughUnits, answer.stock, answer.revenue, answer.lossNoAction,
               answer.confidence, prose))
  }

  type ChatSession = SessionValue<ResultPayload>

  datatype Reply =
    | Refused(httpStatus: int)
    | Turned(action: Action, state: ConsultationState, missingFields: seq<Field>, result: Option<ResultPayload>)

  /** A stored result is exposed only while its revision is the state's. */
  function ReplyWith(session: ChatSession, action: Action): Reply {
    var hidden := session.result.Some? && session.result.value.revision != session.state.revision;
    Turned(action, session.state, session.state.MissingFields(), if hidden then None else session.result)
  }

  // ---------------------------------------------------------------------------
  // The stretches of a turn
  // ---------------------------------------------------------------------------

  /** An oracle answer whose prose is still being written. */
  datatype Pending = Pending(facts: Facts, revision: nat, answer: OracleResult)

  datatype Next = Done(reply: Reply) | AwaitParse(image: bool) | AwaitProse(pending: Pending)

  /** `priced` is the revision the pricing tool was called for in this stretch, if it was. */
  datatype Stretch = Stretch(session: ChatSession, next: Next, priced: Option<nat>)

  const IMAGE_KEYS := {"item_name", "category", "stock", "days_remaining", "total_shelf_life", "shop_name"}
  const NEVER_FROM_IMAGE := {"original_price", "cost", "daily_sales"}

  function KeepKeys(items: seq<(string, Value)>, keep: string -> bool): seq<(string, Value)> {
    if items == [] then []
    else (if keep(items[0].0) then [items[0]] else []) + KeepKeys(items[1..], keep)
  }

  function ImageSafeProposal(proposed: Proposal): Proposal {
    if proposed.NotAnObject? then Object([])
    else Object(KeepKeys(KeepKeys(proposed.items, key => key in IMAGE_KEYS), key => key !in NEVER_FROM_IMAGE))
  }

  predicate IsBlank(text: string) {
    Strip(text) == ""
  }

  /** The actions that reach the session: unknown ones and resets are answered before. */
  predicate InSession(action: RequestAction) {
    action != Reset && action != Unrecognized
  }

  /** From the accepted request to the first suspension or the reply (api.py:357-400). */
  function Begin(session: ChatSession, request: ChatRequest, oracle: Oracle): Stretch
    requires InSession(request.action)
  {
    if request.action == Message then
      if IsBlank(request.text) && !request.hasImage then Stretch(session, Done(Refused(422)), None)
      else Stretch(session, AwaitParse(request.hasImage), None)
    else
      Merge(session, request.action, if request.action == ConfirmFacts then request.patch else Object([]), oracle)
  }

  /** After the model answered a message, or failed to (api.py:365-398). */
  function AfterParse(session: ChatSession, image: bool, outcome: ParseOutcome, oracle: Oracle): Stretch
  {
    match outcome
    case ParseFailed => Stretch(session, Done(ReplyWith(session, SafeFailure)), None)
    case Parsed(proposal) =>
      Merge(session, Message, if image then ImageSafeProposal(proposal) else proposal, oracle)
  }

  function Reduce(session: ChatSession, action: RequestAction, proposal: Proposal): ChatSession {
    var state := MergePatch(session.state, Accepted(proposal));
    var kept := if state.revision != session.state.revision then session.DropResult() else session;
    kept.(state := if action == ConfirmFacts then Confirm(state) else state)
  }

  /**
   * Validate, merge, confirm, decide, and ask the oracle if the policy says so (api.py:402-443).
   * Only a recommendation waits for prose; the other answers are stored at once.
   */
  function Merge(session: ChatSession, requested: RequestAction, proposal: Proposal, oracle: Oracle): Stretch
  {
    var after := Reduce(session, requested, proposal);
    var action := DecideAction(after.state, after.result.Some?);
    if action == CallPricingTool then
      var pending := Pending(after.state.facts, after.state.revision, oracle(after.state.facts));
      var next := if pending.answer.status == Recommendation then Stretch(after, AwaitProse(pending), None)
                  else AfterProse(after, pending, Prose("", ""));
      next.(priced := Some(after.state.revision))
    else
      Stretch(after, Done(ReplyWith(after, action)), None)
  }

  /** After the prose arrived: store the payload and mark the state (api.py:431-443). */
  function AfterProse(session: ChatSession, pending: Pending, prose: Prose): Stretch {
    var stored := SessionValue(
      session.state.(resultRevision := Some(session.state.revision)),
      Some(PayloadOf(pending.facts, pending.revision, pending.answer, prose)),
      Some(pending.answer.status));
    Stretch(stored, Done(ReplyWith(stored, ExplainResult)), None)
  }

  lemma ReduceWellTyped(session: ChatSession, action: RequestAction, proposal: Proposal)
    requires WellTyped(session.state.facts)
    ensures WellTyped(Reduce(session, action, proposal).state.facts)
  {
    AcceptedWellTyped(proposal);
    MergeWellTyped(session.state, Accepted(proposal));
  }

  // ---------------------------------------------------------------------------
  // What a stored or exposed result is worth
  // ---------------------------------------------------------------------------

  /** The payload tells the answer field by field; only a recommendation also carries the facts, and prose. */
  ghost predicate Reports(payload: ResultPayload, facts: Facts, answer: OracleResult) {
    && payload.status == answer.status
    && match answer.status
       case NoAction =>
         && payload.body.Postponed?
         && payload.body.message == answer.message && payload.body.reassessInDays == answer.reassessInDays
       case InvalidInput =>
         payload.body.Problem? && payload.body.message == answer.message
       case Recommendation =>
         && payload.body.Advice?
         && var body := payload.body;
         && body.discountPercent == answer.discountPercent && body.recommendedPrice == answer.recommendedPrice
         && body.timing == answer.timing && body.confidence == answer.confidence
         && body.sellThroughUnits == answer.sellThroughUnits && body.stock == answer.stock
         && body.revenue == answer.revenue && body.lossNoAction == answer.lossNoAction
         && body.usedShelfLife == answer.usedShelfLife
         && TotalShelfLife !in body.normalizedFacts
         && forall field | field != TotalShelfLife ::
              && (field in body.normalizedFacts <==> field in facts)
              && (field in facts ==> body.normalizedFacts[field] == facts[field])
  }

  lemma PayloadReports(facts: Facts, revision: nat, answer: OracleResult, prose: Prose)
    ensures var payload := PayloadOf(facts, revision, answer, prose);
            && payload.revision == revision && Reports(payload, facts, answer)
            && (payload.body.Advice? <==> answer.status == Recommendation)
            && (payload.body.Advice? ==> payload.body.prose == prose)
  {
  }

  /** The payload is the oracle's answer for these facts at this revision. */
  ghost predicate Authentic(payload: ResultPayload, facts: Facts, revision: nat, oracle: Oracle) {
    Ready(facts) && payload.revision == revision && Reports(payload, facts, oracle(facts))
  }

  /**
   * An exposed result carries the shown state's own revision, and that state is complete,
   * confirmed and exactly what the oracle was asked.
   */
  ghost predicate SoundReply(reply: Reply, oracle: Oracle) {
    reply.Turned? && reply.result.Some? ==>
      && reply.state.IsComplete() && reply.state.confirmed
      && reply.result.value.revision == reply.state.revision
      && Authentic(reply.result.value, reply.state.facts, reply.state.revision, oracle)
  }

  // ---------------------------------------------------------------------------
  // Images never establish economic facts
  // ---------------------------------------------------------------------------

  lemma {:induction false} KeptKeys(items: seq<(string, Value)>, keep: string -> bool)
    ensures forall i :: 0 <= i < |KeepKeys(items, keep)| ==> keep(KeepKeys(items, keep)[i].0)
  {
    if items != [] {
      KeptKeys(items[1..], keep);
    }
  }

  lemma {:induction false} AcceptedAreNamed(items: seq<(string, Value)>, field: Field)
    requires field in AcceptedItems(items)
    ensures exists i :: 0 <= i < |items| && items[i].0 == KeyOf(field)
  {
    if items != [] {
      var front := items[..|items| - 1];
      if field in AcceptedItems(front) {
        AcceptedAreNamed(front, field);
        assert forall i :: 0 <= i < |front| ==> front[i] == items[i];
      } else {
        assert items[|items| - 1].0 == KeyOf(field);
      }
    }
  }

  /** Whatever the model reads off an image, the price, cost and rate of sales stay as they were. */
  lemma ImagesNeverSetEconomics(session: ChatSession, outcome: ParseOutcome, field: Field, oracle: Oracle)
    requires field in {OriginalPrice, Cost, DailySales}
    ensures var facts := AfterParse(session, true, outcome, oracle).session.state.facts;
            && (field in facts <==> field in session.state.facts)
            && (field in facts ==> facts[field] == session.state.facts[field])
  {
    if outcome.Parsed? {
      var safe := ImageSafeProposal(outcome.proposal);
      if field in Accepted(safe) {
        var inner := KeepKeys(outcome.proposal.items, key => key in IMAGE_KEYS);
        KeptKeys(inner, key => key !in NEVER_FROM_IMAGE);
        AcceptedAreNamed(safe.items, field);
        assert false;
      }
      MergeEffect(session.state, Accepted(safe));
    }
  }

  lemma {:induction false} KeepOneMore(items: seq<(string, Value)>, keep: string -> bool, item: (string, Value))
    ensures KeepKeys(items + [item], keep) == KeepKeys(items, keep) + if keep(item.0) then [item] else []
  {
    if items != [] {
      assert (items + [item])[1..] == items[1..] + [item];
      KeepOneMore(items[1..], keep, item);
    }
  }

  /** Keeping the keys of a field keeps what the items say of it. */
  lemma {:induction false} KeptFieldStands(items: seq<(string, Value)>, keep: string -> bool, field: Field)
    requires keep(KeyOf(field))
    ensures Agree(AcceptedItems(KeepKeys(items, keep)), AcceptedItems(items), field)
  {
    if items != [] {
      var front, last := items[..|items| - 1], items[|items| - 1];
      assert items == front + [last];
      KeptFieldStands(front, keep, field);
      KeepOneMore(front, keep, last);
      AcceptedOneMore(front, last, field);
      if keep(last.0) {
        AcceptedOneMore(KeepKeys(front, keep), last, field);
      } else {
        assert KeepKeys(front, keep) + [] == KeepKeys(front, keep);
      }
    }
  }

  lemma ImageSafeAgrees(proposal: Proposal, field: Field)
    requires field in {ItemName, CategoryName, Stock, DaysRemaining, TotalShelfLife, ShopName}
    ensures Agree(Accepted(ImageSafeProposal(proposal)), Accepted(proposal), field)
  {
    if proposal.Object? {
      var inner := KeepKeys(proposal.items, key => key in IMAGE_KEYS);
      KeptFieldStands(proposal.items, key => key in IMAGE_KEYS, field);
      KeptFieldStands(inner, key => key !in NEVER_FROM_IMAGE, field);
    }
  }

  lemma MergeSays(session: ChatSession, proposal: Proposal, oracle: Oracle)
    ensures Merge(session, Message, proposal, oracle).session.state.facts == session.state.facts + Accepted(proposal)
  {
    MergeEffect(session.state, Accepted(proposal));
  }

  /** For every other field an image's proposal counts like a text's. */
  lemma ImagesPassTheRest(session: ChatSession, proposal: Proposal, field: Field, oracle: Oracle)
    requires field in {ItemName, CategoryName, Stock, DaysRemaining, TotalShelfLife, ShopName}
    ensures Agree(AfterParse(session, true, Parsed(proposal), oracle).session.state.facts,
                  AfterParse(session, false, Parsed(proposal), oracle).session.state.facts, field)
  {
    ImageSafeAgrees(proposal, field);
    MergeSays(session, ImageSafeProposal(proposal), oracle);
    MergeSays(session, proposal, oracle);
  }
}
