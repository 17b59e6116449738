/**
 * What a reply that exposes a result says, under every interleaving: the engine's answer for the
 * facts shown, field by field, in the prose that was written for it
 * (backend/hargaturun/api.py:721-799, backend/hargaturun/pricing.py:195-212).
 */
module ChatExposed {
  import opened Chat
  import opened ChatInterleaving
  import opened ChatMarks
  import opened Consultation
  import opened Pricing
  import opened Sessions
  import opened Wrappers

  // ---------------------------------------------------------------------------
  // Where the prose comes from
  // ---------------------------------------------------------------------------

  /** Event `k` of the run brings this prose for an answer to the revision. */
  predicate BringsProse(events: seq<Event>, k: nat, revision: nat, prose: Prose, oracle: Oracle)
    requires k < |events|
  {
    var w := At(events, k, oracle);
    && events[k].ProseReturns? && events[k].prose == prose
    && events[k].id in w.tasks && w.tasks[events[k].id].Writing?
    && w.tasks[events[k].id].pending.revision == revision
  }

  /** The prose of an advice was brought by some event for its revision. */
  ghost predicate Brought(events: seq<Event>, result: Option<ResultPayload>, oracle: Oracle) {
    result.Some? && result.value.body.Advice? ==>
      exists k | 0 <= k < |events| :: BringsProse(events, k, result.value.revision, result.value.body.prose, oracle)
  }

  lemma BroughtLater(events: seq<Event>, e: Event, result: Option<ResultPayload>, oracle: Oracle)
    requires Brought(events, result, oracle)
    ensures Brought(events + [e], result, oracle)
  {
    if result.Some? && result.value.body.Advice? {
      var k :| 0 <= k < |events| && BringsProse(events, k, result.value.revision, result.value.body.prose, oracle);
      assert (events + [e])[..k] == events[..k];
      assert BringsProse(events + [e], k, result.value.revision, result.value.body.prose, oracle);
    }
  }

  /** The result the reply exposes, if it does. */
  function Exposed(reply: Reply): Option<ResultPayload> {
    if reply.Turned? then reply.result else None
  }

  ghost predicate AllBrought(events: seq<Event>, w: World, oracle: Oracle) {
    && Brought(events, w.session.result, oracle)
    && forall i | 0 <= i < |w.replies| :: Brought(events, Exposed(w.replies[i]), oracle)
  }

  /** A result is not advice unless its prose has just been awaited. */
  lemma MergeBringsNoAdvice(session: ChatSession, action: RequestAction, proposal: Proposal, oracle: Oracle)
    ensures var after := Merge(session, action, proposal, oracle);
            && (after.session.result == session.result || NoAdvice(after.session.result))
            && (after.next.Done? ==> NoAdvice(Exposed(after.next.reply)) || Exposed(after.next.reply) == session.result)
  {
    MergeEffect(session.state, Accepted(proposal));
  }

  predicate NoAdvice(result: Option<ResultPayload>) {
    result.Some? ==> !result.value.body.Advice?
  }

  /** What a step leaves stored or exposes: what was there, no advice, or the answer whose prose it brings. */
  lemma StepBrings(w: World, e: Event, oracle: Oracle)
    ensures var after := Step(w, e, oracle);
            && FromHere(w, e, after.session.result)
            && (after.replies == w.replies
                || (after.replies == w.replies + [after.replies[|w.replies|]] && |after.replies| == |w.replies| + 1
                    && FromHere(w, e, Exposed(after.replies[|w.replies|]))))
  {
    if Enabled(w, e) {
      match e
      case Arrive(_, request) =>
        if request.action != Message {
          MergeBringsNoAdvice(w.session, request.action, if request.action == ConfirmFacts then request.patch else Object([]), oracle);
        }
      case ParseReturns(id, outcome) =>
        if outcome.Parsed? {
          var p := outcome.proposal;
          MergeBringsNoAdvice(w.session, Message, if w.tasks[id].image then ImageSafeProposal(p) else p, oracle);
        }
      case ProseReturns(id, prose) =>
        var pending := w.tasks[id].pending;
        PayloadReports(pending.facts, pending.revision, pending.answer, prose);
    }
  }

  predicate FromHere(w: World, e: Event, result: Option<ResultPayload>) {
    || result == w.session.result
    || NoAdvice(result)
    || (&& e.ProseReturns? && e.id in w.tasks && w.tasks[e.id].Writing?
        && result.Some? && result.value.body.Advice?
        && result.value.revision == w.tasks[e.id].pending.revision && result.value.body.prose == e.prose)
  }

  lemma FromHereIsBrought(events: seq<Event>, e: Event, result: Option<ResultPayload>, oracle: Oracle)
    requires var w := RunEvents(events, oracle); Brought(events, w.session.result, oracle) && FromHere(w, e, result)
    ensures Brought(events + [e], result, oracle)
  {
    if result == RunEvents(events, oracle).session.result {
      BroughtLater(events, e, result, oracle);
    } else if !NoAdvice(result) {
      assert (events + [e])[..|events|] == events;
      assert BringsProse(events + [e], |events|, result.value.revision, result.value.body.prose, oracle);
    }
  }

  lemma OneMoreBrought(events: seq<Event>, e: Event, oracle: Oracle)
    requires AllBrought(events, RunEvents(events, oracle), oracle)
    ensures AllBrought(events + [e], Step(RunEvents(events, oracle), e, oracle), oracle)
  {
    var w := RunEvents(events, oracle);
    var after := Step(w, e, oracle);
    StepBrings(w, e, oracle);
    FromHereIsBrought(events, e, after.session.result, oracle);
    forall i | 0 <= i < |after.replies|
      ensures Brought(events + [e], Exposed(after.replies[i]), oracle)
    {
      if i < |w.replies| {
        assert after.replies[i] == w.replies[i];
        BroughtLater(events, e, Exposed(w.replies[i]), oracle);
      } else {
        FromHereIsBrought(events, e, Exposed(after.replies[i]), oracle);
      }
    }
  }

  lemma {:induction false} EveryAdviceIsBrought(events: seq<Event>, oracle: Oracle)
    ensures AllBrought(events, RunEvents(events, oracle), oracle)
  {
    if events != [] {
      var front, e := events[..|events| - 1], events[|events| - 1];
      EveryAdviceIsBrought(front, oracle);
      OneMoreBrought(front, e, oracle);
      assert events == front + [e];
    }
  }

  // ---------------------------------------------------------------------------
  // What is exposed
  // ---------------------------------------------------------------------------

  /**
   * In every run, a reply that exposes a result shows the engine's answer for the facts shown with
   * it: a recommendation in every field, with the prose that an event of the run brought for that
   * revision; a postponement with the engine's message and re-check day; a problem with its message.
   */
  lemma ExposedResultsAreTheEngines(events: seq<Event>, power: real -> real, i: nat)
    requires i < |RunEvents(events, PricingOracle(power)).replies|
    requires Exposed(RunEvents(events, PricingOracle(power)).replies[i]).Some?
    ensures var reply := RunEvents(events, PricingOracle(power)).replies[i];
            var shown, result := reply.state.facts, reply.result.value;
            && Ready(shown) && result.revision == reply.state.revision
            && Reports(result, shown, Compute(ToPricingInput(shown), power))
            && (result.status == Recommendation ==>
                  exists k | 0 <= k < |events| ::
                    BringsProse(events, k, result.revision, result.body.prose, PricingOracle(power)))
  {
    var oracle := PricingOracle(power);
    EveryInterleavingIsSound(events, oracle);
    EveryAdviceIsBrought(events, oracle);
    var reply := RunEvents(events, oracle).replies[i];
    assert SoundReply(reply, oracle);
    assert Brought(events, Exposed(reply), oracle);
  }
}
