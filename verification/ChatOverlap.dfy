/**
 * Overlapping requests after which the session's mark names the wrong result or the oracle was
 * asked twice, for any item that needs a markdown (backend/hargaturun/api.py:415-440).
 */
module ChatOverlap {
  import opened Chat
  import opened ChatInterleaving
  import opened ChatMarks
  import opened Consultation
  import opened Pricing
  import opened Sessions
  import opened Text
  import opened Wrappers

  /** One item for sale, described completely. */
  datatype Item = Item(name: string, category: string, price: nat, cost: nat, stock: nat, days: nat, sales: nat)
  {
    /** It can be stored as described, and needs a markdown that its margin has room for. */
    predicate NeedsMarkdown() {
      && name != "" && Strip(name) == name && category != "" && Strip(category) == category
      && CategoryCalled(category).Some?
      && cost < price && RoomForMarkdown(price, cost)
      && 0 < days && 0 < sales && days * sales < stock
    }

    function TextPatch(): seq<(string, Value)> {
      [] + [(KeyOf(ItemName), Str(name))] + [(KeyOf(CategoryName), Str(category))]
    }

    function Patch(): seq<(string, Value)> {
      TextPatch() + [(KeyOf(OriginalPrice), Int(price))] + [(KeyOf(Cost), Int(cost))] + [(KeyOf(Stock), Int(stock))]
      + [(KeyOf(DaysRemaining), Int(days))] + [(KeyOf(DailySales), Int(sales))]
    }

    function Facts(): Facts {
      map[][ItemName := Words(name)][CategoryName := Words(category)][OriginalPrice := Number(price)][Cost := Number(cost)]
        [Stock := Number(stock)][DaysRemaining := Number(days)][DailySales := Number(sales)]
    }
  }

  function ConfirmWith(items: seq<(string, Value)>): ChatRequest {
    ChatRequest(None, ConfirmFacts, "", false, Object(items))
  }

  lemma AcceptOneMore(front: seq<(string, Value)>, field: Field, value: Value, fact: Fact)
    requires Admit(field, value) == Accept(fact)
    ensures AcceptedItems(front + [(KeyOf(field), value)]) == AcceptedItems(front)[field := fact]
  {
    NamesAreKeys(field, KeyOf(field));
    assert (front + [(KeyOf(field), value)])[..|front|] == front;
  }

  lemma WordsAccepted(item: Item)
    requires item.NeedsMarkdown()
    ensures AcceptedItems(item.TextPatch()) == map[][ItemName := Words(item.name)][CategoryName := Words(item.category)]
  {
    AcceptOneMore([], ItemName, Str(item.name), Words(item.name));
    AcceptOneMore([] + [(KeyOf(ItemName), Str(item.name))], CategoryName, Str(item.category), Words(item.category));
  }

  lemma NumbersAccepted(front: seq<(string, Value)>, facts: Facts, item: Item)
    requires AcceptedItems(front) == facts && 0 < item.price && 0 < item.stock
    ensures AcceptedItems(front + [(KeyOf(OriginalPrice), Int(item.price))] + [(KeyOf(Cost), Int(item.cost))]
                          + [(KeyOf(Stock), Int(item.stock))] + [(KeyOf(DaysRemaining), Int(item.days))]
                          + [(KeyOf(DailySales), Int(item.sales))])
            == facts[OriginalPrice := Number(item.price)][Cost := Number(item.cost)][Stock := Number(item.stock)]
                    [DaysRemaining := Number(item.days)][DailySales := Number(item.sales)]
  {
    var s3 := front + [(KeyOf(OriginalPrice), Int(item.price))];
    var s4 := s3 + [(KeyOf(Cost), Int(item.cost))];
    var s5 := s4 + [(KeyOf(Stock), Int(item.stock))];
    var s6 := s5 + [(KeyOf(DaysRemaining), Int(item.days))];
    AcceptOneMore(front, OriginalPrice, Int(item.price), Number(item.price));
    AcceptOneMore(s3, Cost, Int(item.cost), Number(item.cost));
    AcceptOneMore(s4, Stock, Int(item.stock), Number(item.stock));
    AcceptOneMore(s5, DaysRemaining, Int(item.days), Number(item.days));
    AcceptOneMore(s6, DailySales, Int(item.sales), Number(item.sales));
  }

  lemma PatchAccepted(item: Item)
    requires item.NeedsMarkdown()
    ensures AcceptedItems(item.Patch()) == item.Facts()
  {
    WordsAccepted(item);
    NumbersAccepted(item.TextPatch(), AcceptedItems(item.TextPatch()), item);
  }

  lemma FactsReady(item: Item)
    requires item.NeedsMarkdown()
    ensures Ready(item.Facts())
    ensures CategoryCalled(item.category).Some?
    ensures ToPricingInput(item.Facts()) ==
            PricingInput(CategoryCalled(item.category).value, item.price, item.cost, item.stock,
                         item.days as real, item.sales as real, None)
  {
  }

  lemma ItemIsMarkedDown(item: Item, power: real -> real)
    requires item.NeedsMarkdown()
    ensures Ready(item.Facts()) && PricingOracle(power)(item.Facts()).status == Recommendation
  {
    FactsReady(item);
    OversupplyIsMarkedDown(ToPricingInput(item.Facts()), item.days, item.sales, power);
  }

  lemma OversupplyIsMarkedDown(inp: PricingInput, days: nat, sales: nat, power: real -> real)
    requires inp.Priceable() && RoomForMarkdown(inp.originalPrice, inp.cost)
    requires inp.daysRemaining == days as real && inp.dailySales == sales as real && days * sales < inp.stock
    ensures Compute(inp, power).status == Recommendation
  {
    DoesNotSellInTime(inp, days, sales);
    NoActionExactly(inp, power);
    RecommendationExactly(inp, power);
  }

  lemma DoesNotSellInTime(inp: PricingInput, days: nat, sales: nat)
    requires inp.daysRemaining == days as real && inp.dailySales == sales as real && days * sales < inp.stock
    ensures !SellsInTime(inp)
  {
    assert (days * sales) as real == sales as real * days as real;
  }

  function Confirmed(facts: Facts, revision: nat): ConsultationState {
    ConsultationState(facts, true, revision, None)
  }

  /** The request `id` now waits for the prose of the oracle's answer to these facts, at a new revision. */
  predicate PricingStarted(before: World, after: World, id: nat, facts: Facts, oracle: Oracle) {
    var revision := before.session.state.revision + 1;
    && after.session == SessionValue(Confirmed(facts, revision), None, None)
    && after.tasks == before.tasks[id := Writing(Pending(facts, revision, oracle(facts)))]
    && after.calls == before.calls + [revision]
  }

  /** What a confirmed change leads to: the oracle asked for the next revision, and nothing stored. */
  function Asking(facts: Facts, revision: nat, oracle: Oracle): Stretch {
    Stretch(SessionValue(Confirmed(facts, revision), None, None), AwaitProse(Pending(facts, revision, oracle(facts))), Some(revision))
  }

  lemma ConfirmAsks(session: ChatSession, items: seq<(string, Value)>, facts: Facts, oracle: Oracle)
    requires facts == session.state.facts + AcceptedItems(items) && facts != session.state.facts
    requires Ready(facts) && oracle(facts).status == Recommendation
    ensures Begin(session, ConfirmWith(items), oracle) == Asking(facts, session.state.revision + 1, oracle)
  {
    MergeEffect(session.state, AcceptedItems(items));
  }

  lemma AskingStartsPricing(w: World, e: Event, facts: Facts, oracle: Oracle)
    requires Enabled(w, e) && StretchOf(w, e, oracle) == Asking(facts, w.session.state.revision + 1, oracle)
    ensures PricingStarted(w, Step(w, e, oracle), e.id, facts, oracle)
  {
  }

  lemma ConfirmArrives(w: World, id: nat, items: seq<(string, Value)>, facts: Facts, oracle: Oracle)
    requires id !in w.tasks
    requires facts == w.session.state.facts + AcceptedItems(items) && facts != w.session.state.facts
    requires Ready(facts) && oracle(facts).status == Recommendation
    ensures PricingStarted(w, Step(w, Arrive(id, ConfirmWith(items)), oracle), id, facts, oracle)
  {
    ConfirmAsks(w.session, items, facts, oracle);
    AskingStartsPricing(w, Arrive(id, ConfirmWith(items)), facts, oracle);
  }

  lemma AnswerArrives(w: World, id: nat, prose: Prose, oracle: Oracle)
    requires id in w.tasks && w.tasks[id].Writing?
    ensures var after := Step(w, ProseReturns(id, prose), oracle);
            && after.session.result.Some? && after.session.result.value.revision == w.tasks[id].pending.revision
            && after.session.state == w.session.state.(resultRevision := Some(w.session.state.revision))
            && after.tasks == w.tasks - {id} && after.calls == w.calls
  {
  }

  lemma MessageArrives(w: World, id: nat, text: string, oracle: Oracle)
    requires id !in w.tasks && !IsBlank(text)
    ensures var after := Step(w, Arrive(id, MessageWith(text)), oracle);
            after.session == w.session && after.tasks == w.tasks[id := Parsing(false)] && after.calls == w.calls
  {
  }

  /** A message that turns out to change a fact leaves the state unconfirmed and nothing stored. */
  lemma EditArrives(w: World, id: nat, items: seq<(string, Value)>, facts: Facts, oracle: Oracle)
    requires id in w.tasks && w.tasks[id] == Parsing(false)
    requires facts == w.session.state.facts + AcceptedItems(items) && facts != w.session.state.facts
    ensures var after := Step(w, ParseReturns(id, Parsed(Object(items))), oracle);
            && after.session == SessionValue(ConsultationState(facts, false, w.session.state.revision + 1, None), None, None)
            && after.tasks == w.tasks - {id} && after.calls == w.calls
  {
    MergeEffect(w.session.state, AcceptedItems(items));
  }

  function MessageWith(text: string): ChatRequest {
    ChatRequest(None, Message, text, false, Object([]))
  }

  // ---------------------------------------------------------------------------
  // The same at the end of a run
  // ---------------------------------------------------------------------------

  lemma RunOneMore(events: seq<Event>, e: Event, oracle: Oracle)
    ensures RunEvents(events + [e], oracle) == Step(RunEvents(events, oracle), e, oracle)
  {
    assert (events + [e])[..|events|] == events;
  }

  lemma ConfirmNext(events: seq<Event>, id: nat, items: seq<(string, Value)>, facts: Facts, oracle: Oracle)
    requires var w := RunEvents(events, oracle);
             && id !in w.tasks
             && facts == w.session.state.facts + AcceptedItems(items) && facts != w.session.state.facts
    requires Ready(facts) && oracle(facts).status == Recommendation
    ensures PricingStarted(RunEvents(events, oracle), RunEvents(events + [Arrive(id, ConfirmWith(items))], oracle),
                           id, facts, oracle)
  {
    RunOneMore(events, Arrive(id, ConfirmWith(items)), oracle);
    ConfirmArrives(RunEvents(events, oracle), id, items, facts, oracle);
  }

  lemma AnswerNext(events: seq<Event>, id: nat, prose: Prose, oracle: Oracle)
    requires var w := RunEvents(events, oracle); id in w.tasks && w.tasks[id].Writing?
    ensures var w, after := RunEvents(events, oracle), RunEvents(events + [ProseReturns(id, prose)], oracle);
            && after.session.result.Some? && after.session.result.value.revision == w.tasks[id].pending.revision
            && after.session.state == w.session.state.(resultRevision := Some(w.session.state.revision))
            && after.tasks == w.tasks - {id} && after.calls == w.calls
  {
    RunOneMore(events, ProseReturns(id, prose), oracle);
    AnswerArrives(RunEvents(events, oracle), id, prose, oracle);
  }

  /** A message and then its parse. */
  function Edit(id: nat, text: string, items: seq<(string, Value)>): seq<Event> {
    [Arrive(id, MessageWith(text)), ParseReturns(id, Parsed(Object(items)))]
  }

  lemma EditNext(events: seq<Event>, id: nat, text: string, items: seq<(string, Value)>, facts: Facts, oracle: Oracle)
    requires var w := RunEvents(events, oracle);
             && id !in w.tasks && !IsBlank(text)
             && facts == w.session.state.facts + AcceptedItems(items) && facts != w.session.state.facts
    ensures var w, after := RunEvents(events, oracle), RunEvents(events + Edit(id, text, items), oracle);
            && after.session == SessionValue(ConsultationState(facts, false, w.session.state.revision + 1, None), None, None)
            && after.tasks == w.tasks && after.calls == w.calls
  {
    var e0, e1 := Arrive(id, MessageWith(text)), ParseReturns(id, Parsed(Object(items)));
    var w := RunEvents(events, oracle);
    RunOneMore(events, e0, oracle);
    RunOneMore(events + [e0], e1, oracle);
    assert events + Edit(id, text, items) == events + [e0] + [e1];
    MessageArrives(w, id, text, oracle);
    EditArrives(Step(w, e0, oracle), id, items, facts, oracle);
    assert w.tasks[id := Parsing(false)] - {id} == w.tasks;
  }

  lemma CalculateNext(events: seq<Event>, id: nat, facts: Facts, revision: nat, oracle: Oracle)
    requires var w := RunEvents(events, oracle);
             id !in w.tasks && w.session == SessionValue(Confirmed(facts, revision), None, None)
    requires Ready(facts) && oracle(facts).status == Recommendation
    ensures RunEvents(events + [Arrive(id, Plain(Calculate))], oracle).calls == RunEvents(events, oracle).calls + [revision]
  {
    RunOneMore(events, Arrive(id, Plain(Calculate)), oracle);
    NothingProposed(RunEvents(events, oracle).session, Calculate);
  }

  // ---------------------------------------------------------------------------
  // A confirmation overtaken by a confirmation
  // ---------------------------------------------------------------------------

  function Confirmation(id: nat, items: seq<(string, Value)>): seq<Event> {
    [Arrive(id, ConfirmWith(items))]
  }

  lemma FirstConfirmation(patch: seq<(string, Value)>, first: Facts, oracle: Oracle)
    requires map[] + AcceptedItems(patch) == first != map[]
    requires Ready(first) && oracle(first).status == Recommendation
    ensures var w := RunEvents(Confirmation(0, patch), oracle);
            && w.session == SessionValue(Confirmed(first, 1), None, None)
            && w.tasks == map[0 := Writing(Pending(first, 1, oracle(first)))] && w.calls == [1]
  {
    assert [] + Confirmation(0, patch) == Confirmation(0, patch);
    ConfirmNext([], 0, patch, first, oracle);
  }

  /**
   * A session whose mark names the wrong result is reached for any item that needs a markdown: its
   * confirmation, an overlapping one that raises the stock, and then the first one's prose.
   */
  lemma OverlapMisplacesTheMark(item: Item, more: nat, power: real -> real, prose: Prose)
    requires item.NeedsMarkdown() && item.stock < more
    ensures var events := Confirmation(0, item.Patch()) + [Arrive(1, ConfirmWith(MoreStock(more)))] + [ProseReturns(0, prose)];
            var session := RunEvents(events, PricingOracle(power)).session;
            && session.result.Some? && session.result.value.revision == 1
            && session.state.revision == 2 && session.state.resultRevision == Some(2)
            && session.state.confirmed && session.state.facts == item.(stock := more).Facts()
  {
    Restocked(item, more, power);
    Overtaken(item.Patch(), item.Facts(), MoreStock(more), item.(stock := more).Facts(), prose, PricingOracle(power));
  }

  lemma Overtaken(
    patch: seq<(string, Value)>, first: Facts, change: seq<(string, Value)>, second: Facts, prose: Prose, oracle: Oracle)
    requires map[] + AcceptedItems(patch) == first != map[] && first + AcceptedItems(change) == second != first
    requires Ready(first) && oracle(first).status == Recommendation
    requires Ready(second) && oracle(second).status == Recommendation
    ensures var session :=
              RunEvents(Confirmation(0, patch) + [Arrive(1, ConfirmWith(change))] + [ProseReturns(0, prose)], oracle).session;
            && session.result.Some? && session.result.value.revision == 1
            && session.state == Confirmed(second, 2).(resultRevision := Some(2))
  {
    FirstConfirmation(patch, first, oracle);
    ConfirmNext(Confirmation(0, patch), 1, change, second, oracle);
    AnswerNext(Confirmation(0, patch) + [Arrive(1, ConfirmWith(change))], 0, prose, oracle);
  }

  function MoreStock(more: nat): seq<(string, Value)> {
    [(KeyOf(Stock), Int(more))]
  }

  /** The item and its restocked form are both priced, and a patch of the stock leads from one to the other. */
  lemma Restocked(item: Item, more: nat, power: real -> real)
    requires item.NeedsMarkdown() && item.stock < more
    ensures var first, second := item.Facts(), item.(stock := more).Facts();
            && map[] + AcceptedItems(item.Patch()) == first != map[]
            && first + AcceptedItems(MoreStock(more)) == second != first
            && Ready(first) && PricingOracle(power)(first).status == Recommendation
            && Ready(second) && PricingOracle(power)(second).status == Recommendation
  {
    FactsDiffer(item, more);
    PatchAccepted(item);
    ItemIsMarkedDown(item, power);
    ItemIsMarkedDown(item.(stock := more), power);
    AcceptOneMore([], Stock, Int(more), Number(more));
    assert [] + MoreStock(more) == MoreStock(more);
  }

  lemma FactsDiffer(item: Item, more: nat)
    requires item.stock < more
    ensures var first, second := item.Facts(), item.(stock := more).Facts();
            && map[] + first == first && first != map[]
            && first + map[][Stock := Number(more)] == second && second != first
  {
    var first, second := item.Facts(), item.(stock := more).Facts();
    assert ItemName in first;
    assert first[Stock] == Number(item.stock) && second[Stock] == Number(more);
  }

  // ---------------------------------------------------------------------------
  // A confirmation overtaken by an edit
  // ---------------------------------------------------------------------------

  /** A confirmation, a message that changes a fact while the prose is written, and then the prose. */
  function LateProse(patch: seq<(string, Value)>, text: string, change: seq<(string, Value)>, prose: Prose): seq<Event> {
    Confirmation(0, patch) + Edit(1, text, change) + [ProseReturns(0, prose)]
  }

  lemma LateProseSticks(
    patch: seq<(string, Value)>, first: Facts, text: string, change: seq<(string, Value)>, second: Facts,
    prose: Prose, oracle: Oracle)
    requires map[] + AcceptedItems(patch) == first != map[] && first + AcceptedItems(change) == second != first
    requires Ready(first) && oracle(first).status == Recommendation && !IsBlank(text)
    ensures var w := RunEvents(LateProse(patch, text, change, prose), oracle);
            && Stuck(w.session) && w.tasks == map[] && w.calls == [1]
            && w.session.state == ConsultationState(second, false, 2, Some(2))
  {
    FirstConfirmation(patch, first, oracle);
    EditNext(Confirmation(0, patch), 1, text, change, second, oracle);
    AnswerNext(Confirmation(0, patch) + Edit(1, text, change), 0, prose, oracle);
  }

  lemma StrandedFrom(start: seq<Event>, rest: seq<Event>, oracle: Oracle)
    requires Stuck(RunEvents(start, oracle).session) && RunEvents(start, oracle).tasks == map[]
    requires FactsKept(start + rest, |start|, |start + rest|, oracle)
    ensures var before, after := RunEvents(start, oracle), RunEvents(start + rest, oracle);
            && Stuck(after.session) && after.calls == before.calls
            && before.replies <= after.replies
            && forall i :: |before.replies| <= i < |after.replies| ==> ExposesNothing(after.replies[i])
  {
    var events := start + rest;
    assert events[..|start|] == start && events[..|events|] == events;
    StuckStaysStuck(events, |start|, |events|, oracle);
  }

  /**
   * For any item that needs a markdown and any later events that change no fact, confirmations and
   * calculations among them, the session is stuck for good: the oracle is never asked again and no
   * result is ever shown.
   */
  lemma LateProseStrandsTheSession(item: Item, more: nat, text: string, prose: Prose, rest: seq<Event>, power: real -> real)
    requires item.NeedsMarkdown() && item.stock < more && !IsBlank(text)
    requires var start := LateProse(item.Patch(), text, MoreStock(more), prose);
             FactsKept(start + rest, |start|, |start + rest|, PricingOracle(power))
    ensures var oracle := PricingOracle(power);
            var start := LateProse(item.Patch(), text, MoreStock(more), prose);
            var before, after := RunEvents(start, oracle), RunEvents(start + rest, oracle);
            && Stuck(after.session) && after.calls == [1]
            && before.replies <= after.replies
            && forall i :: |before.replies| <= i < |after.replies| ==> ExposesNothing(after.replies[i])
  {
    var oracle := PricingOracle(power);
    var start := LateProse(item.Patch(), text, MoreStock(more), prose);
    Restocked(item, more, power);
    LateProseSticks(item.Patch(), item.Facts(), text, MoreStock(more), item.(stock := more).Facts(), prose, oracle);
    StrandedFrom(start, rest, oracle);
  }

  // ---------------------------------------------------------------------------
  // Two calls for one revision
  // ---------------------------------------------------------------------------

  lemma AskedTwice(patch: seq<(string, Value)>, first: Facts, oracle: Oracle)
    requires map[] + AcceptedItems(patch) == first != map[]
    requires Ready(first) && oracle(first).status == Recommendation
    ensures RunEvents(Confirmation(0, patch) + [Arrive(1, Plain(Calculate))], oracle).calls == [1, 1]
  {
    FirstConfirmation(patch, first, oracle);
    CalculateNext(Confirmation(0, patch), 1, first, 1, oracle);
  }

  /** A calculation asked for while the prose of the first answer is written asks the oracle again for the same revision. */
  lemma TwoCallsForOneRevision(item: Item, power: real -> real)
    requires item.NeedsMarkdown()
    ensures RunEvents(Confirmation(0, item.Patch()) + [Arrive(1, Plain(Calculate))], PricingOracle(power)).calls == [1, 1]
  {
    Restocked(item, item.stock + 1, power);
    AskedTwice(item.Patch(), item.Facts(), PricingOracle(power));
  }
}
