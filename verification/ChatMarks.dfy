/**
 * What the mark `result_revision` is worth under overlapping turns: an answer is stored after its
 * prose was written, and the state it is marked on is read only then
 * (backend/hargaturun/api.py:431-443).
 */
module ChatMarks {
  import opened Chat
  import opened ChatInterleaving
  import opened Consultation
  import opened Pricing
  import opened Sessions
  import opened Wrappers

  // ---------------------------------------------------------------------------
  // The mark in every run
  // ---------------------------------------------------------------------------

  /** A mark is always the current revision, and is there exactly when a result is stored. */
  predicate Marked(session: ChatSession) {
    && (session.state.resultRevision.Some? ==> session.state.resultRevision == Some(session.state.revision))
    && (session.state.resultRevision.Some? <==> session.result.Some?)
  }

  lemma MergeKeepsMarked(session: ChatSession, action: RequestAction, proposal: Proposal, oracle: Oracle)
    requires Marked(session)
    ensures Marked(Merge(session, action, proposal, oracle).session)
  {
    MergeEffect(session.state, Accepted(proposal));
  }

  lemma StepKeepsMarked(w: World, e: Event, oracle: Oracle)
    requires Marked(w.session)
    ensures Marked(Step(w, e, oracle).session)
  {
    if Enabled(w, e) {
      match e
      case Arrive(_, request) =>
        if request.action != Message {
          MergeKeepsMarked(w.session, request.action, if request.action == ConfirmFacts then request.patch else Object([]), oracle);
        }
      case ParseReturns(id, outcome) =>
        if outcome.Parsed? {
          var p := outcome.proposal;
          MergeKeepsMarked(w.session, Message, if w.tasks[id].image then ImageSafeProposal(p) else p, oracle);
        }
      case ProseReturns(_, _) =>
    }
  }

  lemma {:induction false} EveryRunIsMarked(events: seq<Event>, oracle: Oracle)
    ensures Marked(RunEvents(events, oracle).session)
  {
    if events != [] {
      EveryRunIsMarked(events[..|events| - 1], oracle);
      StepKeepsMarked(RunEvents(events[..|events| - 1], oracle), events[|events| - 1], oracle);
    }
  }

  // ---------------------------------------------------------------------------
  // Stretches of a run
  // ---------------------------------------------------------------------------

  /** The world after the first `n` events of a run. */
  function At(events: seq<Event>, n: nat, oracle: Oracle): World
    requires n <= |events|
  {
    RunEvents(events[..n], oracle)
  }

  lemma AtNext(events: seq<Event>, n: nat, oracle: Oracle)
    requires n < |events|
    ensures At(events, n + 1, oracle) == Step(At(events, n, oracle), events[n], oracle)
  {
    assert events[..n + 1][..n] == events[..n];
  }

  lemma MergeMovesExactly(session: ChatSession, action: RequestAction, proposal: Proposal, oracle: Oracle)
    ensures var before, after := session.state, Merge(session, action, proposal, oracle).session.state;
            && before.revision <= after.revision
            && (after.revision == before.revision <==> after.facts == before.facts)
  {
    MergeEffect(session.state, Accepted(proposal));
  }

  /** A step moves the revision exactly when it changes the facts. */
  lemma StepMovesExactly(w: World, e: Event, oracle: Oracle)
    ensures var before, after := w.session.state, Step(w, e, oracle).session.state;
            && before.revision <= after.revision
            && (after.revision == before.revision <==> after.facts == before.facts)
  {
    if Enabled(w, e) {
      match e
      case Arrive(_, request) =>
        if request.action != Message {
          MergeMovesExactly(w.session, request.action, if request.action == ConfirmFacts then request.patch else Object([]), oracle);
        }
      case ParseReturns(id, outcome) =>
        if outcome.Parsed? {
          var p := outcome.proposal;
          MergeMovesExactly(w.session, Message, if w.tasks[id].image then ImageSafeProposal(p) else p, oracle);
        }
      case ProseReturns(_, _) =>
    }
  }

  /** No event from `n` up to `m` changes the facts. */
  ghost predicate FactsKept(events: seq<Event>, n: nat, m: nat, oracle: Oracle)
    requires n <= m <= |events|
  {
    forall k :: n <= k < m ==> KeepsFacts(events, k, oracle)
  }

  predicate KeepsFacts(events: seq<Event>, k: nat, oracle: Oracle)
    requires k < |events|
  {
    At(events, k + 1, oracle).session.state.facts == At(events, k, oracle).session.state.facts
  }

  function RevisionAt(events: seq<Event>, n: nat, oracle: Oracle): nat
    requires n <= |events|
  {
    At(events, n, oracle).session.state.revision
  }

  lemma EventMovesExactly(events: seq<Event>, k: nat, oracle: Oracle)
    requires k < |events|
    ensures RevisionAt(events, k, oracle) <= RevisionAt(events, k + 1, oracle)
    ensures RevisionAt(events, k, oracle) == RevisionAt(events, k + 1, oracle) <==> KeepsFacts(events, k, oracle)
  {
    AtNext(events, k, oracle);
    StepMovesExactly(At(events, k, oracle), events[k], oracle);
  }

  lemma KeptOneMore(events: seq<Event>, n: nat, m: nat, oracle: Oracle)
    requires n < m <= |events|
    ensures FactsKept(events, n, m, oracle) <==> FactsKept(events, n, m - 1, oracle) && KeepsFacts(events, m - 1, oracle)
  {
  }

  /** The revision stands still over a stretch exactly when no event in it changes the facts. */
  lemma {:induction false} RevisionMovesExactly(events: seq<Event>, n: nat, m: nat, oracle: Oracle)
    requires n <= m <= |events|
    ensures RevisionAt(events, n, oracle) <= RevisionAt(events, m, oracle)
    ensures RevisionAt(events, n, oracle) == RevisionAt(events, m, oracle) <==> FactsKept(events, n, m, oracle)
  {
    if n < m {
      RevisionMovesExactly(events, n, m - 1, oracle);
      EventMovesExactly(events, m - 1, oracle);
      KeptOneMore(events, n, m, oracle);
    }
  }

  /** The prose of task `id` is not among the events from `n` up to `m`. */
  ghost predicate StillWriting(events: seq<Event>, n: nat, m: nat, id: nat)
    requires n <= m <= |events|
  {
    forall k :: n <= k < m ==> !(events[k].ProseReturns? && events[k].id == id)
  }

  lemma {:induction false} TaskWaits(events: seq<Event>, n: nat, m: nat, id: nat, oracle: Oracle)
    requires n <= m <= |events| && StillWriting(events, n, m, id)
    requires id in At(events, n, oracle).tasks && At(events, n, oracle).tasks[id].Writing?
    ensures id in At(events, m, oracle).tasks
    ensures At(events, m, oracle).tasks[id] == At(events, n, oracle).tasks[id]
  {
    if n < m {
      TaskWaits(events, n, m - 1, id, oracle);
      AtNext(events, m - 1, oracle);
      OthersKeepTask(At(events, m - 1, oracle), events[m - 1], id, oracle);
    }
  }

  lemma OthersKeepTask(w: World, e: Event, id: nat, oracle: Oracle)
    requires id in w.tasks && w.tasks[id].Writing? && !(e.ProseReturns? && e.id == id)
    ensures id in Step(w, e, oracle).tasks && Step(w, e, oracle).tasks[id] == w.tasks[id]
  {
  }

  lemma ProseArrives(w: World, id: nat, prose: Prose, oracle: Oracle)
    requires id in w.tasks && w.tasks[id].Writing?
    ensures var pending, after := w.tasks[id].pending, Step(w, ProseReturns(id, prose), oracle);
            var current := pending.revision == w.session.state.revision;
            && after.session.result.Some? && after.session.result.value.revision == pending.revision
            && (after.session.state.resultRevision == Some(pending.revision) <==> current)
            && after.replies != [] && after.replies[|after.replies| - 1].Turned?
            && (after.replies[|after.replies| - 1].result.Some? <==> current)
  {
  }

  /**
   * An answer for the revision current at `n` whose prose arrives at `m`: the mark names the stored
   * result if and only if no event in between changed the facts, which is also exactly when the
   * reply exposes it.
   */
  lemma MarkNamesResultExactly(events: seq<Event>, n: nat, m: nat, id: nat, oracle: Oracle)
    requires n <= m < |events| && events[m].ProseReturns? && events[m].id == id && StillWriting(events, n, m, id)
    requires var w := At(events, n, oracle);
             id in w.tasks && w.tasks[id].Writing? && w.tasks[id].pending.revision == w.session.state.revision
    ensures var w := At(events, m + 1, oracle);
            && w.session.result.Some?
            && (w.session.state.resultRevision == Some(w.session.result.value.revision) <==> FactsKept(events, n, m, oracle))
            && w.replies != [] && w.replies[|w.replies| - 1].Turned?
            && (w.replies[|w.replies| - 1].result.Some? <==> FactsKept(events, n, m, oracle))
  {
    TaskWaits(events, n, m, id, oracle);
    RevisionMovesExactly(events, n, m, oracle);
    AtNext(events, m, oracle);
    ProseArrives(At(events, m, oracle), id, events[m].prose, oracle);
  }

  // ---------------------------------------------------------------------------
  // Sessions that are stuck
  // ---------------------------------------------------------------------------

  /** The mark claims the current revision for a result of another one. */
  predicate Stuck(session: ChatSession) {
    && session.result.Some? && session.result.value.revision != session.state.revision
    && session.state.resultRevision == Some(session.state.revision)
  }

  /** A request that proposes nothing. */
  function Plain(action: RequestAction): ChatRequest {
    ChatRequest(None, action, "", false, Object([]))
  }

  lemma NothingProposed(session: ChatSession, action: RequestAction)
    ensures Reduce(session, action, Object([])) ==
            if action == ConfirmFacts then session.(state := Confirm(session.state)) else session
  {
    MergeEffect(session.state, map[]);
  }

  /** On a stuck session a confirmation or calculation without a change asks no oracle and shows no result. */
  lemma StuckAnswersNothing(stuck: ChatSession, action: RequestAction, oracle: Oracle)
    requires Stuck(stuck) && InSession(action) && action != Message
    ensures var asked := Begin(stuck, Plain(action), oracle);
            && asked.priced.None? && Stuck(asked.session) && asked.next.Done? && asked.next.reply.Turned?
            && asked.next.reply.result.None?
            && (stuck.state.IsComplete() && (stuck.state.confirmed || action == ConfirmFacts) ==>
                  asked.next.reply.action == ExplainResult)
  {
    NothingProposed(stuck, action);
  }

  /**
   * A stale answer leaves the session stuck, confirmed or not. Every later confirmation or
   * calculation without a change is told to read a result, sees none, and asks no oracle.
   */
  lemma StaleAnswerMisplacesTheMark(session: ChatSession, pending: Pending, prose: Prose, action: RequestAction, oracle: Oracle)
    requires pending.revision != session.state.revision && InSession(action) && action != Message
    ensures var stored := AfterProse(session, pending, prose).session;
            && Stuck(stored)
            && var asked := Begin(stored, Plain(action), oracle);
            && asked.priced.None? && Stuck(asked.session) && asked.next.Done? && asked.next.reply.Turned?
            && asked.next.reply.result.None?
            && (session.state.IsComplete() && (session.state.confirmed || action == ConfirmFacts) ==>
                  asked.next.reply.action == ExplainResult)
  {
    StuckAnswersNothing(AfterProse(session, pending, prose).session, action, oracle);
  }

  /** The event brings the prose of an answer for the current revision. */
  predicate BringsCurrent(w: World, e: Event) {
    e.ProseReturns? && Enabled(w, e) && w.tasks[e.id].pending.revision == w.session.state.revision
  }

  /** No answer for the current revision is on its way. */
  predicate NothingComing(w: World) {
    forall id | id in w.tasks :: w.tasks[id].Writing? ==> w.tasks[id].pending.revision != w.session.state.revision
  }

  lemma StuckMergeExactly(session: ChatSession, action: RequestAction, proposal: Proposal, oracle: Oracle)
    requires Stuck(session)
    ensures var stretch := Merge(session, action, proposal, oracle);
            && (Stuck(stretch.session) <==> stretch.session.state.facts == session.state.facts)
            && (Stuck(stretch.session) ==>
                  && stretch.priced.None? && stretch.next.Done?
                  && stretch.next.reply.Turned? && stretch.next.reply.result.None?)
  {
    MergeEffect(session.state, Accepted(proposal));
  }

  /** What a step does that leaves a session stuck: no call, no result, no new answer under way. */
  predicate Idle(before: World, after: World) {
    && Stuck(after.session)
    && after.session.state.revision == before.session.state.revision
    && after.calls == before.calls
    && (after.replies == before.replies
        || (|after.replies| == |before.replies| + 1 && after.replies[..|before.replies|] == before.replies
            && ExposesNothing(after.replies[|before.replies|])))
    && (NothingComing(before) ==> NothingComing(after))
  }

  predicate ExposesNothing(reply: Reply) {
    reply.Turned? ==> reply.result.None?
  }

  /**
   * A step frees a stuck session if and only if it changes the facts or brings an answer for the
   * current revision; any other step is idle.
   */
  lemma StuckStepExactly(w: World, e: Event, oracle: Oracle)
    requires Stuck(w.session)
    ensures var after := Step(w, e, oracle);
            var freed := after.session.state.facts != w.session.state.facts || BringsCurrent(w, e);
            (freed <==> !Stuck(after.session)) && (!freed ==> Idle(w, after))
  {
    if Enabled(w, e) {
      StepMovesExactly(w, e, oracle);
      match e
      case Arrive(_, request) =>
        if request.action != Message {
          StuckMergeExactly(w.session, request.action, if request.action == ConfirmFacts then request.patch else Object([]), oracle);
        }
      case ParseReturns(id, outcome) =>
        if outcome.Parsed? {
          var p := outcome.proposal;
          StuckMergeExactly(w.session, Message, if w.tasks[id].image then ImageSafeProposal(p) else p, oracle);
        }
      case ProseReturns(_, _) =>
    }
  }

  /**
   * Once stuck with no current answer under way, a session stays stuck for as long as no event
   * changes its facts: no oracle call, and no reply exposes a result.
   */
  lemma {:induction false} StuckStaysStuck(events: seq<Event>, n: nat, m: nat, oracle: Oracle)
    requires n <= m <= |events| && FactsKept(events, n, m, oracle)
    requires Stuck(At(events, n, oracle).session) && NothingComing(At(events, n, oracle))
    ensures var before, after := At(events, n, oracle), At(events, m, oracle);
            && Stuck(after.session) && NothingComing(after)
            && after.calls == before.calls
            && before.replies <= after.replies
            && forall i :: |before.replies| <= i < |after.replies| ==> ExposesNothing(after.replies[i])
  {
    if n < m {
      StuckStaysStuck(events, n, m - 1, oracle);
      AtNext(events, m - 1, oracle);
      assert KeepsFacts(events, m - 1, oracle);
      StuckStepExactly(At(events, m - 1, oracle), events[m - 1], oracle);
    }
  }
}
