/**
 * The bounded consultation: state, patch validation, reducer, action policy, pricing tool and
 * sessions (backend/hargaturun/consultation.py).
 */
module Consultation {
  import opened Pricing
  import opened Text
  import opened Wrappers

  // ---------------------------------------------------------------------------
  // Facts and state
  // ---------------------------------------------------------------------------

  datatype Field =
    | ItemName | CategoryName | OriginalPrice | Cost | Stock | DaysRemaining | DailySales | TotalShelfLife | ShopName

  datatype Fact = Number(n: int) | Words(text: string)

  type Facts = map<Field, Fact>

  const REQUIRED_FIELDS: seq<Field> := [ItemName, CategoryName, OriginalPrice, Cost, Stock, DaysRemaining, DailySales]

  function KeyOf(field: Field): string {
    match field
    case ItemName => "item_name"
    case CategoryName => "category"
    case OriginalPrice => "original_price"
    case Cost => "cost"
    case Stock => "stock"
    case DaysRemaining => "days_remaining"
    case DailySales => "daily_sales"
    case TotalShelfLife => "total_shelf_life"
    case ShopName => "shop_name"
  }

  function FieldNamed(key: string): (r: Option<Field>)
    ensures r.Some? ==> KeyOf(r.value) == key
    ensures r.None? ==> forall field: Field :: KeyOf(field) != key
  {
    if key == "item_name" then Some(ItemName)
    else if key == "category" then Some(CategoryName)
    else if key == "original_price" then Some(OriginalPrice)
    else if key == "cost" then Some(Cost)
    else if key == "stock" then Some(Stock)
    else if key == "days_remaining" then Some(DaysRemaining)
    else if key == "daily_sales" then Some(DailySales)
    else if key == "total_shelf_life" then Some(TotalShelfLife)
    else if key == "shop_name" then Some(ShopName)
    else None
  }

  function CategoryCalled(name: string): Option<Category> {
    if name == "Bakery" then Some(Bakery)
    else if name == "Prepared Food" then Some(PreparedFood)
    else if name == "Dairy" then Some(Dairy)
    else if name == "Beverage" then Some(Beverage)
    else if name == "Produce" then Some(Produce)
    else if name == "Snack" then Some(Snack)
    else if name == "Canned" then Some(Canned)
    else if name == "Other" then Some(Other)
    else None
  }

  predicate IsNumeric(field: Field) {
    field !in {ItemName, CategoryName, ShopName}
  }

  /** What the oracle and the later turns rely on about a stored fact. */
  predicate FitsField(field: Field, fact: Fact) {
    if IsNumeric(field) then
      fact.Number? && 0 <= fact.n && (field in {OriginalPrice, Stock} ==> 0 < fact.n)
    else
      fact.Words? && fact.text != "" && Strip(fact.text) == fact.text
      && (field == CategoryName ==> CategoryCalled(fact.text).Some?)
  }

  predicate WellTyped(facts: Facts) {
    forall field | field in facts :: FitsField(field, facts[field])
  }

  predicate HasRequired(facts: Facts) {
    forall field | field in REQUIRED_FIELDS :: field in facts
  }

  datatype ConsultationState = ConsultationState(
    facts: Facts,
    confirmed: bool,
    revision: nat,
    resultRevision: Option<nat>)
  {
    function MissingFields(): seq<Field> {
      MissingAmong(REQUIRED_FIELDS, facts)
    }

    /** Nothing is missing: `CompleteExactly` ties this to the list of missing fields. */
    predicate IsComplete() {
      HasRequired(facts)
    }
  }

  const EMPTY_STATE := ConsultationState(map[], false, 0, None)

  function MissingAmong(fields: seq<Field>, facts: Facts): seq<Field> {
    if fields == [] then []
    else (if fields[0] in facts then [] else [fields[0]]) + MissingAmong(fields[1..], facts)
  }

  lemma {:induction false} MissingAmongExactly(fields: seq<Field>, facts: Facts, field: Field)
    ensures field in MissingAmong(fields, facts) <==> field in fields && field !in facts
  {
    if fields != [] {
      MissingAmongExactly(fields[1..], facts, field);
    }
  }

  /** A state is complete exactly when its list of missing fields is empty. */
  lemma CompleteExactly(state: ConsultationState)
    ensures state.IsComplete() <==> state.MissingFields() == []
  {
    forall field: Field {
      MissingAmongExactly(REQUIRED_FIELDS, state.facts, field);
    }
    if state.MissingFields() != [] {
      assert state.MissingFields()[0] in state.MissingFields();
    }
  }

  // ---------------------------------------------------------------------------
  // Patch validation
  // ---------------------------------------------------------------------------

  /** A proposed JSON value, as far as validation can tell values apart. */
  datatype Value = Null | Bool(b: bool) | Int(n: int) | Float(r: real) | NonFinite | Str(s: string) | Compound

  /** The proposed patch: anything that is not an object, or the object's items in order. */
  datatype Proposal = NotAnObject | Object(items: seq<(string, Value)>)

  ghost predicate UniqueKeys(items: seq<(string, Value)>) {
    forall i, j :: 0 <= i < j < |items| ==> items[i].0 != items[j].0
  }

  datatype Admission = Ignore | Reject | Accept(fact: Fact)

  /** Python's `int(x)` on a finite number: towards zero. */
  function Truncate(r: real): int {
    if r >= 0.0 then r.Floor else -((-r).Floor)
  }

  function AdmitNumber(field: Field, n: int): Admission {
    if n < 0 then Reject
    else if field in {OriginalPrice, Stock} && n == 0 then Reject
    else Accept(Number(n))
  }

  function Admit(field: Field, value: Value): Admission {
    if value.Null? then Ignore
    else if IsNumeric(field) then
      match value
      case Int(n) => AdmitNumber(field, n)
      case Float(r) => AdmitNumber(field, Truncate(r))
      case _ => Reject
    else
      match value
      case Str(s) =>
        var text := Strip(s);
        if text == "" then Reject
        else if field == CategoryName && CategoryCalled(text).None? then Reject
        else Accept(Words(text))
      case _ => Reject
  }

  /** The facts a proposal contributes. */
  function Accepted(proposal: Proposal): Facts {
    if proposal.NotAnObject? then map[] else AcceptedItems(proposal.items)
  }

  function AcceptedItems(items: seq<(string, Value)>): Facts {
    if items == [] then map[]
    else
      var before, last := AcceptedItems(items[..|items| - 1]), items[|items| - 1];
      var field := FieldNamed(last.0);
      if field.Some? && Admit(field.value, last.1).Accept? then
        before[field.value := Admit(field.value, last.1).fact]
      else before
  }

  predicate IsRejected(item: (string, Value)) {
    var field := FieldNamed(item.0);
    field.None? || Admit(field.value, item.1).Reject?
  }

  function RejectedItems(items: seq<(string, Value)>): seq<string> {
    if items == [] then []
    else
      var last := items[|items| - 1];
      RejectedItems(items[..|items| - 1]) + if IsRejected(last) then [last.0] else []
  }

  function Rejected(proposal: Proposal): seq<string> {
    if proposal.NotAnObject? then [] else RejectedItems(proposal.items)
  }

  method ValidatePatch(proposed: Proposal) returns (accepted: Facts, rejected: seq<string>)
    ensures accepted == Accepted(proposed)
    ensures rejected == Rejected(proposed)
    ensures WellTyped(accepted)
  {
    accepted, rejected := map[], [];
    if proposed.NotAnObject? {
      return;
    }
    var items := proposed.items;
    for i := 0 to |items|
      invariant accepted == AcceptedItems(items[..i])
      invariant rejected == RejectedItems(items[..i])
    {
      var (key, value) := items[i];
      assert items[..i + 1][..i] == items[..i];
      var field := FieldNamed(key);
      if field.None? {
        rejected := rejected + [key];
        continue;
      }
      match Admit(field.value, value) {
        case Ignore =>
        case Reject => rejected := rejected + [key];
        case Accept(fact) => accepted := accepted[field.value := fact];
      }
    }
    assert items[..|items|] == items;
    AcceptedWellTyped(proposed);
  }

  lemma {:induction false} AcceptedItemsWellTyped(items: seq<(string, Value)>)
    ensures WellTyped(AcceptedItems(items))
  {
    if items != [] {
      AcceptedItemsWellTyped(items[..|items| - 1]);
      var last := items[|items| - 1];
      var field := FieldNamed(last.0);
      if field.Some? && last.1.Str? {
        StripFixed(Strip(last.1.s));
      }
    }
  }

  /** No proposal, however malformed, gets an ill-typed fact past validation. */
  lemma AcceptedWellTyped(proposal: Proposal)
    ensures WellTyped(Accepted(proposal))
  {
    if proposal.Object? {
      AcceptedItemsWellTyped(proposal.items);
    }
  }

  /** The one item that names a field decides it: accepted with the admitted fact, or not at all. */
  lemma {:induction false} AcceptedFromItem(items: seq<(string, Value)>, i: nat, field: Field)
    requires UniqueKeys(items) && i < |items| && items[i].0 == KeyOf(field)
    ensures field in AcceptedItems(items) <==> Admit(field, items[i].1).Accept?
    ensures field in AcceptedItems(items) ==> Accept(AcceptedItems(items)[field]) == Admit(field, items[i].1)
  {
    var n := |items| - 1;
    var front := items[..n];
    assert items == front + [items[n]];
    AcceptedOneMore(front, items[n], field);
    if i == n {
      NotAccepted(front, field);
    } else {
      assert items[i].0 != items[n].0;
      AcceptedFromItem(front, i, field);
    }
  }

  /** Whether two sets of facts say the same of a field. */
  predicate Agree(a: Facts, b: Facts, field: Field) {
    (field in a <==> field in b) && (field in a ==> a[field] == b[field])
  }

  /** One more item decides its own field, if it is admitted, and no other. */
  lemma AcceptedOneMore(front: seq<(string, Value)>, last: (string, Value), field: Field)
    ensures var all := AcceptedItems(front + [last]);
            if last.0 == KeyOf(field) && Admit(field, last.1).Accept? then
              field in all && Accept(all[field]) == Admit(field, last.1)
            else Agree(all, AcceptedItems(front), field)
  {
    NamesAreKeys(field, last.0);
    assert (front + [last])[..|front|] == front;
  }

  /** A field no item names is not accepted. */
  lemma {:induction false} NotAccepted(items: seq<(string, Value)>, field: Field)
    requires forall i :: 0 <= i < |items| ==> items[i].0 != KeyOf(field)
    ensures field !in AcceptedItems(items)
  {
    if items != [] {
      NotAccepted(items[..|items| - 1], field);
      NamesAreKeys(field, items[|items| - 1].0);
    }
  }

  lemma NamesAreKeys(field: Field, key: string)
    ensures FieldNamed(key) == Some(field) <==> key == KeyOf(field)
  {
  }

  /** An item is rejected that is no field's, or that its field does not admit; a null is neither. */
  lemma RejectionIs(item: (string, Value))
    ensures IsRejected(item) <==>
            || (forall field: Field :: item.0 != KeyOf(field))
            || (exists field: Field :: item.0 == KeyOf(field) && Admit(field, item.1) == Reject)
  {
    forall field: Field ensures FieldNamed(item.0) == Some(field) <==> item.0 == KeyOf(field) {
      NamesAreKeys(field, item.0);
    }
  }

  /** The rejected keys are those of the items that name no field or fail their field's check. */
  lemma {:induction false} RejectedExactly(items: seq<(string, Value)>, key: string)
    ensures key in RejectedItems(items) <==>
            exists i :: 0 <= i < |items| && items[i].0 == key && IsRejected(items[i])
  {
    if items != [] {
      var front := items[..|items| - 1];
      RejectedExactly(front, key);
      assert forall i :: 0 <= i < |front| ==> front[i] == items[i];
    }
  }

  /**
   * Truncation happens before the sign test: a finite number is accepted exactly when it is
   * above -1, or at least 1 where zero is refused too.
   */
  lemma NumberAcceptedExactly(field: Field, r: real)
    requires IsNumeric(field)
    ensures Admit(field, Float(r)).Accept? <==> if field in {OriginalPrice, Stock} then 1.0 <= r else -1.0 < r
  {
  }

  /** What each kind of value does for a numeric field: whole numbers as they are, others cut to their whole part. */
  lemma NumbersAdmitted(field: Field, value: Value)
    requires IsNumeric(field)
    ensures var least := if field in {OriginalPrice, Stock} then 1 else 0;
            match value
            case Null => Admit(field, value) == Ignore
            case Int(n) => Admit(field, value) == if n < least then Reject else Accept(Number(n))
            case Float(r) =>
              if r < 1.0 && (least == 1 || r <= -1.0) then Admit(field, value) == Reject
              else exists n: nat ::
                && Admit(field, value) == Accept(Number(n))
                && (if r < 0.0 then n == 0 else n as real <= r < n as real + 1.0)
            case _ => Admit(field, value) == Reject
  {
    if value.Float? && !(value.r < 1.0 && (field in {OriginalPrice, Stock} || value.r <= -1.0)) {
      assert Admit(field, value) == Accept(Number(Truncate(value.r)));
      assert 0 <= Truncate(value.r);
    }
  }

  /** A text field takes a string that is not blank, without the white space around it, and a category only by its name. */
  lemma TextsAdmitted(field: Field, value: Value)
    requires !IsNumeric(field)
    ensures match value
            case Null => Admit(field, value) == Ignore
            case Str(s) =>
              Admit(field, value) ==
                if Strip(s) == "" then Reject
                else if field == CategoryName && CategoryCalled(Strip(s)).None? then Reject
                else Accept(Words(Strip(s)))
            case _ => Admit(field, value) == Reject
  {
  }

  /** A negative amount above -1 is not refused: it becomes zero. */
  lemma SmallNegativeBecomesZero()
    ensures Admit(Cost, Float(-0.5)) == Accept(Number(0))
  {
  }

  // ---------------------------------------------------------------------------
  // The reducer and the action policy
  // ---------------------------------------------------------------------------

  function MergePatch(state: ConsultationState, accepted: Facts): ConsultationState {
    var changes := map field | field in accepted && !(field in state.facts && state.facts[field] == accepted[field])
                   :: accepted[field];
    if changes == map[] then state
    else ConsultationState(state.facts + changes, false, state.revision + 1, None)
  }

  /** A merge overwrites exactly the accepted facts; the revision moves, by one, exactly when a fact does. */
  lemma MergeEffect(state: ConsultationState, accepted: Facts)
    ensures var after := MergePatch(state, accepted);
            && after.facts == state.facts + accepted
            && (after.facts == state.facts <==> after == state)
            && (after.facts == state.facts <==> after.revision == state.revision)
            && (after != state ==> after.revision == state.revision + 1 && !after.confirmed && after.resultRevision == None)
  {
    var changes := map field | field in accepted && !(field in state.facts && state.facts[field] == accepted[field])
                   :: accepted[field];
    if changes != map[] {
      var field :| field in changes;
      assert (state.facts + changes)[field] == changes[field];
    }
  }

  lemma MergeWellTyped(state: ConsultationState, accepted: Facts)
    requires WellTyped(state.facts) && WellTyped(accepted)
    ensures WellTyped(MergePatch(state, accepted).facts)
  {
    MergeEffect(state, accepted);
  }

  function Confirm(state: ConsultationState): ConsultationState {
    if !state.IsComplete() || state.confirmed then state else state.(confirmed := true)
  }

  datatype Action =
    | AskForMissingFields | ShowConfirmation | CallPricingTool | ExplainResult | SafeFailure

  function DecideAction(state: ConsultationState, hasResult: bool): Action {
    if !state.IsComplete() then AskForMissingFields
    else if !state.confirmed then ShowConfirmation
    else if hasResult && state.resultRevision == Some(state.revision) then ExplainResult
    else CallPricingTool
  }

  // ---------------------------------------------------------------------------
  // The pricing tool
  // ---------------------------------------------------------------------------

  function ToPricingInput(facts: Facts): PricingInput
    requires Ready(facts)
  {
    assert CategoryName in REQUIRED_FIELDS && OriginalPrice in REQUIRED_FIELDS && Cost in REQUIRED_FIELDS;
    assert Stock in REQUIRED_FIELDS && DaysRemaining in REQUIRED_FIELDS && DailySales in REQUIRED_FIELDS;
    PricingInput(
      CategoryCalled(facts[CategoryName].text).value,
      facts[OriginalPrice].n,
      facts[Cost].n,
      facts[Stock].n,
      facts[DaysRemaining].n as real,
      facts[DailySales].n as real,
      if TotalShelfLife in facts then Some(facts[TotalShelfLife].n as real) else None)
  }

  /** The engine is asked about the confirmed facts and no others; only the shelf life may be left to it. */
  lemma InputIsTheFacts(facts: Facts)
    requires Ready(facts)
    ensures forall field :: field in {CategoryName, OriginalPrice, Cost, Stock, DaysRemaining, DailySales} ==> field in facts
    ensures var inp := ToPricingInput(facts);
            && CategoryCalled(facts[CategoryName].text) == Some(inp.category)
            && inp.originalPrice == facts[OriginalPrice].n && inp.cost == facts[Cost].n && inp.stock == facts[Stock].n
            && inp.daysRemaining == facts[DaysRemaining].n as real && inp.dailySales == facts[DailySales].n as real
            && (inp.totalShelfLife.Some? <==> TotalShelfLife in facts)
            && (TotalShelfLife in facts ==> inp.totalShelfLife.value == facts[TotalShelfLife].n as real)
  {
    assert CategoryName in REQUIRED_FIELDS && OriginalPrice in REQUIRED_FIELDS && Cost in REQUIRED_FIELDS;
    assert Stock in REQUIRED_FIELDS && DaysRemaining in REQUIRED_FIELDS && DailySales in REQUIRED_FIELDS;
  }

  predicate Ready(facts: Facts) {
    WellTyped(facts) && HasRequired(facts)
  }

  /**
   * What the protocol asks for an answer. The protocol's own properties hold of any such
   * function; `PricingOracle` is the one the backend uses.
   */
  type Oracle = Facts -> OracleResult

  function PricingOracle(power: real -> real): Oracle {
    facts => if Ready(facts) then Compute(ToPricingInput(facts), power) else Blank(InvalidInput)
  }

  datatype ToolCall = ToolCall(revision: nat, status: Status, acceptedFields: seq<Field>)

  /** The narrow adapter over the oracle, with its trace of calls. */
  class PricingTool {
    var calls: seq<ToolCall>

    constructor ()
      ensures calls == []
    {
      calls := [];
    }

    /** Refuses an incomplete or unconfirmed state without a trace; otherwise answers and logs the call. */
    method Run(state: ConsultationState, oracle: Oracle) returns (answer: Option<OracleResult>)
      requires WellTyped(state.facts)
      modifies this
      ensures answer.Some? <==> state.IsComplete() && state.confirmed
      ensures answer.None? ==> calls == old(calls)
      ensures answer.Some? ==>
                && Ready(state.facts)
                && answer.value == oracle(state.facts)
                && calls == old(calls) + [ToolCall(state.revision, answer.value.status, REQUIRED_FIELDS)]
    {
      if !state.IsComplete() || !state.confirmed {
        return None;
      }
      var result := oracle(state.facts);
      calls := calls + [ToolCall(state.revision, result.status, REQUIRED_FIELDS)];
      return Some(result);
    }
  }
}
