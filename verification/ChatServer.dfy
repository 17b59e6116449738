/**
 * The chat endpoint over live sessions (backend/hargaturun/api.py:315-443): the handler that
 * reassigns a session's fields step by step, proved against the turn functions of `Chat`.
 */
module ChatServer {
  import opened Chat
  import opened ChatTurns
  import opened Consultation
  import opened Pricing
  import opened Sessions
  import opened Wrappers

  /**
   * Validate, merge, confirm, decide and act: the session ends as the turn function says, and the
   * tool is called exactly when it says, once, for the revision it says.
   */
  method MergeAndAct(session: Session<ResultPayload>, requested: RequestAction, proposed: Proposal, prose: Prose, oracle: Oracle)
    returns (reply: Reply, calls: seq<ToolCall>)
    requires WellTyped(session.state.facts)
    modifies session`state, session`result, session`resultStatus
    ensures var r := MergeTurn(old(session.Value()), requested, proposed, prose, oracle);
            && session.Value() == r.session
            && reply == r.reply
            && (r.priced.None? ==> calls == [])
            && (r.priced.Some? ==> |calls| == 1 && calls[0].revision == r.priced.value)
  {
    calls := [];
    ghost var start := session.Value();
    var accepted, rejected := ValidatePatch(proposed);
    var before := session.state;
    session.state := MergePatch(session.state, accepted);
    if session.state.revision != before.revision {
      session.DropResult();
    }
    if requested == ConfirmFacts {
      session.state := Confirm(session.state);
    }
    assert session.Value() == Reduce(start, requested, proposed);
    ReduceWellTyped(start, requested, proposed);

    var action := DecideAction(session.state, session.result.Some?);
    if action == CallPricingTool {
      reply, calls := PriceAndStore(session, prose, oracle);
    } else {
      reply := ExposeReply(session, action);
    }
  }

  /** Ask the tool, store its answer and mark the state. */
  method PriceAndStore(session: Session<ResultPayload>, prose: Prose, oracle: Oracle) returns (reply: Reply, calls: seq<ToolCall>)
    requires session.state.IsComplete() && session.state.confirmed && WellTyped(session.state.facts)
    modifies session`state, session`result, session`resultStatus
    ensures var answer := oracle(old(session.state.facts));
            var pending := Pending(old(session.state.facts), old(session.state.revision), answer);
            var stored := AfterProse(old(session.Value()), pending,
                                     if answer.status == Recommendation then prose else Prose("", ""));
            && session.Value() == stored.session
            && reply == stored.next.reply
            && session.result.Some? && session.result.value.revision == old(session.state.revision)
            && Reports(session.result.value, old(session.state.facts), answer)
            && calls == [ToolCall(old(session.state.revision), answer.status, REQUIRED_FIELDS)]
  {
    var tool := new PricingTool();
    var answer := tool.Run(session.state, oracle);
    calls := tool.calls;
    var written := if answer.value.status == Recommendation then prose else Prose("", "");
    session.result := Some(PayloadOf(session.state.facts, session.state.revision, answer.value, written));
    PayloadReports(session.state.facts, session.state.revision, answer.value, written);
    session.resultStatus := Some(answer.value.status);
    session.state := session.state.(resultRevision := Some(session.state.revision));
    reply := ExposeReply(session, ExplainResult);
  }

  /** Serves an admitted turn with nothing else running. */
  method ServeTurn(session: Session<ResultPayload>, turn: Turn, oracle: Oracle) returns (reply: Reply, calls: seq<ToolCall>)
    requires InSession(turn.request.action) && WellTyped(session.state.facts)
    modifies session`state, session`result, session`resultStatus
    ensures var r := AtomicTurn(old(session.Value()), turn, oracle);
            && session.Value() == r.session
            && reply == r.reply
            && (r.priced.None? ==> calls == [])
            && (r.priced.Some? ==> |calls| == 1 && calls[0].revision == r.priced.value)
  {
    calls := [];
    var proposed := Object([]);
    if turn.request.action == Message {
      if IsBlank(turn.request.text) && !turn.request.hasImage {
        return Refused(422), calls;
      }
      match turn.parse {
        case ParseFailed =>
          reply := ExposeReply(session, SafeFailure);
          return;
        case Parsed(proposal) =>
          proposed := if turn.request.hasImage then ImageSafeProposal(proposal) else proposal;
      }
    } else if turn.request.action == ConfirmFacts {
      proposed := turn.request.patch;
    }
    AtomicIsMerge(session.Value(), turn, oracle);
    reply, calls := MergeAndAct(session, turn.request.action, proposed, turn.prose, oracle);
  }

  method ExposeReply(session: Session<ResultPayload>, action: Action) returns (reply: Reply)
    ensures reply == ReplyWith(session.Value(), action)
  {
    var result := session.result;
    if result.Some? && result.value.revision != session.state.revision {
      result := None;
    }
    reply := Turned(action, session.state, session.state.MissingFields(), result);
  }

  /** Every live session is at a turn boundary. */
  ghost predicate AllCoherent(store: SessionStore<ResultPayload>, oracle: Oracle)
    reads store, store.sessions.Values
  {
    forall id :: id in store.sessions ==> Coherent(store.sessions[id].Value(), oracle)
  }

  /** The session a request addresses, if the store has it. */
  ghost predicate Addressed(store: SessionStore<ResultPayload>, request: ChatRequest)
    reads store
  {
    request.sessionId.Some? && request.sessionId.value in store.sessions
  }

  /** Whether the store admits the turn on a session that has used so many turns and characters. */
  predicate Admits(turns: nat, contextChars: nat, turn: Turn, store: SessionStore<ResultPayload>) {
    turns < store.maxTurns && contextChars + |turn.request.text| <= store.maxContextChars
  }

  /** The turn function, or the refusal that leaves the session alone. */
  function Limited(session: ChatSession, admitted: bool, turn: Turn, oracle: Oracle): TurnResult
    requires InSession(turn.request.action)
  {
    if admitted then AtomicTurn(session, turn, oracle) else TurnResult(session, Refused(429), None)
  }

  /** An in-session turn on a stored session: the other sessions keep every field. */
  method ServeStored(store: SessionStore<ResultPayload>, id: string, turn: Turn, oracle: Oracle) returns (reply: Reply)
    requires store.Valid() && AllCoherent(store, oracle) && id in store.sessions && InSession(turn.request.action)
    modifies store.sessions[id]
    ensures AllCoherent(store, oracle)
    ensures SoundReply(reply, oracle) && reply != Refused(404)
    ensures var session := store.sessions[id];
            var admitted := Admits(old(session.turns), old(session.contextChars), turn, store);
            var r := Limited(old(session.Value()), admitted, turn, oracle);
            && reply == r.reply
            && session.Value() == r.session
            && session.turns == old(session.turns) + (if admitted then 1 else 0)
            && session.contextChars == old(session.contextChars) + (if admitted then |turn.request.text| else 0)
  {
    var session := store.sessions[id];
    var ok := session.AcceptTurn(false, |turn.request.text|, store.maxTurns, store.maxContextChars);
    if !ok {
      return Refused(429);
    }
    TurnKeepsCoherence(session.Value(), turn, oracle);
    RefusedTurnChangesNothing(session.Value(), turn, oracle);
    var calls;
    reply, calls := ServeTurn(session, turn, oracle);
    assert forall k :: k in store.sessions && k != id ==> store.sessions[k] != session;
  }

  lemma RefusedTurnChangesNothing(session: ChatSession, turn: Turn, oracle: Oracle)
    requires InSession(turn.request.action)
    ensures var r := AtomicTurn(session, turn, oracle);
            r.reply.Refused? ==> r.session == session && r.reply == Refused(422)
  {
    AtomicIsMerge(session, turn, oracle);
  }

  /**
   * One request from arrival to reply. Unknown actions and unknown sessions change nothing; a
   * reset replaces the session by an empty one; any other turn keeps every session at a turn
   * boundary, touches no session but its own, and exposes only a sound result.
   */
  method ChatTurn(
    store: SessionStore<ResultPayload>, request: ChatRequest, parse: ParseOutcome, prose: Prose,
    newId: string, resetId: string, oracle: Oracle)
    returns (reply: Reply, servedBy: Option<string>)
    requires store.Valid() && AllCoherent(store, oracle)
    requires newId !in store.sessions && resetId !in store.sessions && newId != resetId
    modifies store, store.sessions.Values
    ensures store.Valid() && AllCoherent(store, oracle)
    ensures SoundReply(reply, oracle)
    ensures reply == Refused(404) <==>
            request.action != Unrecognized && request.sessionId.Some? && !old(Addressed(store, request))
    ensures request.action == Unrecognized ==> reply == Refused(422)
    ensures servedBy.None? <==> request.action == Unrecognized || reply == Refused(404)
    ensures servedBy.None? ==> store.sessions == old(store.sessions) && store.order == old(store.order)
    ensures servedBy.Some? ==> servedBy.value in store.sessions
    ensures request.action == Reset && servedBy.Some? ==>
              && reply == ReplyWith(FreshValue(), AskForMissingFields)
              && servedBy == Some(resetId) && store.sessions[resetId].Value() == FreshValue()
              && (request.sessionId.Some? ==> request.sessionId.value !in store.sessions)
    ensures request.action != Reset && servedBy.Some? ==>
              servedBy == if request.sessionId.Some? then request.sessionId else Some(newId)
    ensures request.action != Reset && request.sessionId.Some? && servedBy.Some? ==>
              var session := old(store.sessions)[request.sessionId.value];
              var turn := Turn(request, parse, prose);
              var r := Limited(old(session.Value()), Admits(old(session.turns), old(session.contextChars), turn, store), turn, oracle);
              && reply == r.reply && session.Value() == r.session
              && store.sessions == old(store.sessions)
    ensures request.action != Reset && request.sessionId.None? && servedBy.Some? ==>
              var turn := Turn(request, parse, prose);
              var r := Limited(FreshValue(), Admits(0, 0, turn, store), turn, oracle);
              reply == r.reply && store.sessions[newId].Value() == r.session
    ensures forall id :: id in old(store.sessions) && servedBy != Some(id) ==> unchanged(old(store.sessions)[id])
  {
    if request.action == Unrecognized {
      return Refused(422), None;
    }
    var turn, server := Turn(request, parse, prose), newId;
    if request.sessionId.None? {
      reply, server := ServeNew(store, newId, turn, resetId, oracle);
    } else if request.sessionId.value !in store.sessions {
      return Refused(404), None;
    } else {
      reply, server := ServeOpened(store, request.sessionId.value, turn, resetId, oracle);
    }
    servedBy := Some(server);
  }

  /** A request that addresses no session is served on a new one; no session that was there is touched. */
  method ServeNew(store: SessionStore<ResultPayload>, newId: string, turn: Turn, resetId: string, oracle: Oracle)
    returns (reply: Reply, servedBy: string)
    requires store.Valid() && AllCoherent(store, oracle) && turn.request.action != Unrecognized
    requires newId !in store.sessions && resetId !in store.sessions && newId != resetId
    modifies store
    ensures store.Valid() && AllCoherent(store, oracle)
    ensures SoundReply(reply, oracle) && reply != Refused(404) && servedBy in store.sessions
    ensures turn.request.action == Reset ==>
              && servedBy == resetId
              && reply == ReplyWith(FreshValue(), AskForMissingFields) && store.sessions[resetId].Value() == FreshValue()
    ensures turn.request.action != Reset ==>
              && servedBy == newId
              && var r := Limited(FreshValue(), Admits(0, 0, turn, store), turn, oracle);
              reply == r.reply && store.sessions[newId].Value() == r.session
  {
    FreshIsCoherent(oracle);
    var created := store.Create(newId);
    reply, servedBy := ServeOpened(store, newId, turn, resetId, oracle);
  }

  /** A request on an open session: a reset replaces it by an empty one, any other turn runs on it. */
  method ServeOpened(store: SessionStore<ResultPayload>, id: string, turn: Turn, resetId: string, oracle: Oracle)
    returns (reply: Reply, servedBy: string)
    requires store.Valid() && AllCoherent(store, oracle) && id in store.sessions
    requires turn.request.action != Unrecognized && resetId !in store.sessions
    modifies store, store.sessions[id]
    ensures store.Valid() && AllCoherent(store, oracle)
    ensures SoundReply(reply, oracle) && reply != Refused(404) && servedBy in store.sessions
    ensures turn.request.action == Reset ==>
              && servedBy == resetId && id !in store.sessions
              && reply == ReplyWith(FreshValue(), AskForMissingFields) && store.sessions[resetId].Value() == FreshValue()
              && unchanged(old(store.sessions)[id])
    ensures turn.request.action != Reset ==>
              && servedBy == id && unchanged(store)
              && var session := store.sessions[id];
              var r := Limited(old(session.Value()), Admits(old(session.turns), old(session.contextChars), turn, store), turn, oracle);
              reply == r.reply && session.Value() == r.session
  {
    if turn.request.action == Reset {
      reply := ResetSession(store, id, resetId, oracle);
      return reply, resetId;
    }
    reply := ServeStored(store, id, turn, oracle);
    servedBy := id;
  }

  method ResetSession(store: SessionStore<ResultPayload>, id: string, resetId: string, oracle: Oracle) returns (reply: Reply)
    requires store.Valid() && AllCoherent(store, oracle) && resetId !in store.sessions && id != resetId
    modifies store
    ensures store.Valid() && AllCoherent(store, oracle)
    ensures reply == ReplyWith(FreshValue(), AskForMissingFields)
    ensures resetId in store.sessions && store.sessions[resetId].Value() == FreshValue()
    ensures id !in store.sessions
  {
    FreshIsCoherent(oracle);
    store.Drop(id);
    var replacement := store.Create(resetId);
    reply := ExposeReply(replacement, AskForMissingFields);
  }

  lemma FreshIsCoherent(oracle: Oracle)
    ensures Coherent(FreshValue(), oracle)
  {
  }
}
