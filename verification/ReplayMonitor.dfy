/**
 * The evaluation harness that replays scripted turns through the real reducer and oracle and
 * counts what it finds wrong (scripts/eval_agentic_workflow.py:149-586).
 *
 * `hash` stands for the digest of a canonical result: any function of the result.
 */
module ReplayMonitor {
  import opened Chat
  import opened ChatTurns
  import opened Consultation
  import opened Pricing
  import opened Sessions
  import opened Wrappers

  type Digest = OracleResult -> string

  datatype StoredResult = StoredResult(revision: nat, status: Status, oracle: OracleResult, resultHash: string)

  datatype ScriptTurn = ScriptTurn(action: RequestAction, patch: Proposal)

  datatype ReplayRun = ReplayRun(
    finalAction: Action,
    resultStatus: Option<Status>,
    resultPrice: Option<int>,
    toolCalls: nat,
    state: ConsultationState,
    missingFields: seq<Field>,
    authoritative: Option<OracleResult>)

  /** The counters that must stay at zero. */
  datatype Alarms = Alarms(
    staleExposures: nat, staleReuses: nat, hashViolations: nat, pricingViolations: nat, marginViolations: nat,
    discountViolations: nat, priceConsistencyViolations: nat, statusShapeViolations: nat, projectionViolations: nat,
    nondeterministicResults: nat)

  class Counters {
    var turns: nat
    var resultEvaluations: nat
    var unauthorizedMutations: nat
    var staleInvalidations: nat
    var alarms: Alarms

    constructor ()
      ensures turns == resultEvaluations == unauthorizedMutations == staleInvalidations == 0
      ensures alarms == Alarms(0, 0, 0, 0, 0, 0, 0, 0, 0, 0)
    {
      turns, resultEvaluations, unauthorizedMutations, staleInvalidations := 0, 0, 0, 0;
      alarms := Alarms(0, 0, 0, 0, 0, 0, 0, 0, 0, 0);
    }
  }

  // ---------------------------------------------------------------------------
  // The validators
  // ---------------------------------------------------------------------------

  datatype StoredError = HashMismatch | StatusMismatch | NotTheProducedResult | Unbound

  method ValidateStoredResult(payload: StoredResult, expected: Option<OracleResult>, hash: Digest)
    returns (errors: seq<StoredError>)
    ensures errors == [] <==>
            && payload.resultHash == hash(payload.oracle)
            && payload.status == payload.oracle.status
            && (expected.Some? ==> payload.oracle == expected.value)
  {
    errors := [];
    if payload.resultHash != hash(payload.oracle) {
      errors := errors + [HashMismatch];
    }
    if payload.status != payload.oracle.status {
      errors := errors + [StatusMismatch];
    }
    if expected.Some? && payload.oracle != expected.value {
      errors := errors + [NotTheProducedResult];
    }
  }

  datatype PricingError =
    | ResultMismatch(field: string) | StatusShape | DiscountError | PriceConsistency | MarginError | ProjectionError

  /** The names of the fields in which two canonical results differ. */
  function MismatchedFields(a: OracleResult, b: OracleResult): seq<string> {
    (if a.status != b.status then ["status"] else [])
    + (if a.discountPercent != b.discountPercent then ["discount_percent"] else [])
    + (if a.recommendedPrice != b.recommendedPrice then ["recommended_price"] else [])
    + (if a.timing != b.timing then ["timing"] else [])
    + (if a.sellThroughUnits != b.sellThroughUnits then ["expected_sell_through_units"] else [])
    + (if a.revenue != b.revenue then ["expected_revenue"] else [])
    + (if a.lossNoAction != b.lossNoAction then ["expected_loss_no_action"] else [])
    + (if a.confidence != b.confidence then ["confidence"] else [])
    + (if a.isFireSale != b.isFireSale then ["is_fire_sale"] else [])
    + (if a.reassessInDays != b.reassessInDays then ["reassess_in_days"] else [])
    + (if a.expired != b.expired then ["expired"] else [])
    + (if a.message != b.message then ["message"] else [])
    + (if a.stock != b.stock then ["stock"] else [])
    + (if a.usedShelfLife != b.usedShelfLife then ["used_shelf_life"] else [])
    + (if a.shelfLifeDefaulted != b.shelfLifeDefaulted then ["shelf_life_defaulted"] else [])
    + (if a.pressure != b.pressure then ["pressure"] else [])
    + (if a.urgency != b.urgency then ["urgency"] else [])
  }

  lemma NoMismatchMeansEqual(a: OracleResult, b: OracleResult)
    ensures MismatchedFields(a, b) == [] <==> a == b
  {
  }

  /** The answers raise none of the safety checks: what the pricing theorems say of the engine. */
  ghost predicate SafeOracle(oracle: Oracle) {
    forall facts | Ready(facts) :: ChecksOn(facts, oracle(facts)) == []
  }

  function ChecksOn(facts: Facts, actual: OracleResult): seq<PricingError>
    requires Ready(facts)
  {
    assert Cost in REQUIRED_FIELDS && OriginalPrice in REQUIRED_FIELDS && Stock in REQUIRED_FIELDS;
    SafetyErrors(facts[OriginalPrice].n, facts[Cost].n, facts[Stock].n, actual)
  }

  /**
   * No error is reported exactly when the result is a fresh run of the oracle on the same facts:
   * the shape, margin, discount, price and projection checks never fire on a safe answer. On any
   * other answer each kind is reported exactly when that answer breaches it.
   */
  method ValidateAuthoritativeResult(facts: Facts, actual: OracleResult, reference: Oracle)
    returns (errors: seq<PricingError>)
    requires Ready(facts) && SafeOracle(reference)
    ensures errors == [] <==> actual == reference(facts)
    ensures forall kind :: kind in CHECKED ==> (kind in errors <==> Breaches(facts, actual, kind))
  {
    var expected := reference(facts);
    var mismatched := MismatchedFields(actual, expected);
    errors := seq(|mismatched|, i requires 0 <= i < |mismatched| => ResultMismatch(mismatched[i]));
    NoMismatchMeansEqual(actual, expected);
    ChecksAre(facts, actual);
    errors := errors + ChecksOn(facts, actual);
  }

  const CHECKED := {StatusShape, DiscountError, PriceConsistency, MarginError, ProjectionError}

  /** What is wrong with an answer, kind by kind. */
  predicate Breaches(facts: Facts, r: OracleResult, kind: PricingError)
    requires Ready(facts)
  {
    assert Cost in REQUIRED_FIELDS && OriginalPrice in REQUIRED_FIELDS && Stock in REQUIRED_FIELDS;
    var price, cost, stock := facts[OriginalPrice].n, facts[Cost].n, facts[Stock].n;
    match kind
    case ResultMismatch(_) => false
    case StatusShape =>
      r.status != Recommendation
      && !(r.discountPercent.None? && r.recommendedPrice.None? && r.timing.None? && r.sellThroughUnits.None?
           && r.revenue.None? && r.lossNoAction.None? && r.confidence.None?)
    case DiscountError =>
      r.status == Recommendation
      && (r.discountPercent.None? || r.discountPercent.value < 5 || 70 < r.discountPercent.value || r.discountPercent.value % 5 != 0)
    case MarginError =>
      r.status == Recommendation && r.recommendedPrice.Some? && r.recommendedPrice.value < cost + 500
    case PriceConsistency =>
      r.status == Recommendation && (r.recommendedPrice.None? || price <= r.recommendedPrice.value)
    case ProjectionError =>
      r.status == Recommendation
      && (r.sellThroughUnits.None? || r.sellThroughUnits.value < 0 || stock < r.sellThroughUnits.value
          || r.revenue.None? || r.revenue.value < 0 || r.lossNoAction.None? || r.lossNoAction.value < 0)
  }

  lemma ChecksAre(facts: Facts, actual: OracleResult)
    requires Ready(facts)
    ensures forall kind :: kind in CHECKED ==> (kind in ChecksOn(facts, actual) <==> Breaches(facts, actual, kind))
  {
    forall kind | kind in CHECKED
      ensures kind in ChecksOn(facts, actual) <==> Breaches(facts, actual, kind)
    {
      CheckIs(facts, actual, kind);
    }
  }

  lemma CheckIs(facts: Facts, actual: OracleResult, kind: PricingError)
    requires Ready(facts) && kind in CHECKED
    ensures kind in ChecksOn(facts, actual) <==> Breaches(facts, actual, kind)
  {
  }

  /** The checks the monitor makes besides equality with a fresh run. */
  function SafetyErrors(price: int, cost: int, stock: int, actual: OracleResult): seq<PricingError> {
    if actual.status == Recommendation then
      (if actual.discountPercent.None? || !(DISCOUNT_MIN <= actual.discountPercent.value <= DISCOUNT_MAX)
          || actual.discountPercent.value % DISCOUNT_STEP != 0 then [DiscountError] else [])
      + (if actual.recommendedPrice.None? then [PriceConsistency]
         else
           (if actual.recommendedPrice.value < cost + MIN_MARGIN_RP then [MarginError] else [])
           + (if actual.recommendedPrice.value >= price then [PriceConsistency] else []))
      + (if actual.sellThroughUnits.None? || !(0 <= actual.sellThroughUnits.value <= stock) then [ProjectionError] else [])
      + (if actual.revenue.None? || actual.revenue.value < 0 then [ProjectionError] else [])
      + (if actual.lossNoAction.None? || actual.lossNoAction.value < 0 then [ProjectionError] else [])
    else if
      || actual.discountPercent.Some? || actual.recommendedPrice.Some? || actual.timing.Some?
      || actual.sellThroughUnits.Some? || actual.revenue.Some? || actual.lossNoAction.Some? || actual.confidence.Some?
    then [StatusShape]
    else []
  }

  lemma NumbersAreSafe(price: int, cost: int, stock: int, r: OracleResult)
    requires r.status == Recommendation && cost >= 0
    requires r.discountPercent.Some? && DISCOUNT_MIN <= r.discountPercent.value <= DISCOUNT_MAX
    requires r.discountPercent.value % DISCOUNT_STEP == 0
    requires r.recommendedPrice.Some? && cost + MIN_MARGIN_RP <= r.recommendedPrice.value < price
    requires r.sellThroughUnits.Some? && 0 <= r.sellThroughUnits.value <= stock
    requires r.revenue.Some? && r.revenue.value == r.sellThroughUnits.value * r.recommendedPrice.value
    requires r.lossNoAction.Some? && r.lossNoAction.value >= 0
    ensures SafetyErrors(price, cost, stock, r) == []
  {
    assert r.revenue.value >= 0;
  }

  /** The pricing theorems are exactly what the monitor looks for. */
  lemma OracleIsSafe(inp: PricingInput, power: real -> real)
    ensures SafetyErrors(inp.originalPrice, inp.cost, inp.stock, Compute(inp, power)) == []
  {
    if Compute(inp, power).status == Recommendation {
      RecommendationBounds(inp, power);
      ProjectionsConsistent(inp, power);
      NumbersAreSafe(inp.originalPrice, inp.cost, inp.stock, Compute(inp, power));
    } else {
      OtherwiseNoPrices(inp, power);
    }
  }

  lemma PricingOracleIsSafe(power: real -> real)
    ensures SafeOracle(PricingOracle(power))
  {
    forall facts | Ready(facts)
      ensures ChecksOn(facts, PricingOracle(power)(facts)) == []
    {
      OracleIsSafe(ToPricingInput(facts), power);
    }
  }

  lemma OtherwiseNoPrices(inp: PricingInput, power: real -> real)
    requires Compute(inp, power).status != Recommendation
    ensures var r := Compute(inp, power);
            && r.discountPercent.None? && r.recommendedPrice.None? && r.timing.None? && r.sellThroughUnits.None?
            && r.revenue.None? && r.lossNoAction.None? && r.confidence.None?
  {
  }

  // ---------------------------------------------------------------------------
  // Observations
  // ---------------------------------------------------------------------------

  function HashCounted(alarms: Alarms, violated: bool): Alarms {
    if violated then alarms.(hashViolations := alarms.hashViolations + 1) else alarms
  }

  /** One integrity failure counts once, however often it is seen. */
  method RecordHashViolation(
    counters: Counters, key: (nat, string), errors: seq<StoredError>, reported: set<(nat, string)>)
    returns (nowReported: set<(nat, string)>)
    modifies counters`alarms
    ensures var first := errors != [] && key !in reported;
            && counters.alarms == HashCounted(old(counters.alarms), first)
            && nowReported == if first then reported + {key} else reported
  {
    if errors == [] || key in reported {
      return reported;
    }
    counters.alarms := counters.alarms.(hashViolations := counters.alarms.hashViolations + 1);
    nowReported := reported + {key};
  }

  /** Whether the stored payload may be reused: intact, bound to what was produced, and current. */
  method TrustedSessionResult(
    session: Session<StoredResult>, counters: Counters, reported: set<(nat, string)>,
    bound: map<nat, OracleResult>, hash: Digest)
    returns (trusted: bool, nowReported: set<(nat, string)>)
    modifies counters`alarms
    ensures trusted <==> Trusted(session.Value(), bound, hash)
    ensures var broken := Broken(session.result, bound, hash);
            && counters.alarms == HashCounted(old(counters.alarms), BreaksFirst(session.result, bound, reported, hash))
            && nowReported == if broken then reported + {ReportKey(session.result.value.revision, bound, hash)} else reported
  {
    if session.result.None? {
      return false, reported;
    }
    var payload := session.result.value;
    var expected := if payload.revision in bound then Some(bound[payload.revision]) else None;
    var errors := ValidateStoredResult(payload, expected, hash);
    if payload.revision !in bound {
      errors := errors + [Unbound];
    }
    var key := ReportKey(payload.revision, bound, hash);
    nowReported := RecordHashViolation(counters, key, errors, reported);
    trusted := errors == [] && payload.revision == session.state.revision;
  }

  function ReportKey(revision: nat, bound: map<nat, OracleResult>, hash: Digest): (nat, string) {
    (revision, if revision in bound then hash(bound[revision]) else "unbound")
  }

  predicate Intact(payload: StoredResult, hash: Digest) {
    payload.resultHash == hash(payload.oracle) && payload.status == payload.oracle.status
  }

  predicate Bound(payload: StoredResult, bound: map<nat, OracleResult>) {
    payload.revision in bound && bound[payload.revision] == payload.oracle
  }

  /** The stored payload is not the intact copy of what was produced for its revision. */
  predicate Broken(result: Option<StoredResult>, bound: map<nat, OracleResult>, hash: Digest) {
    result.Some? && !(Intact(result.value, hash) && Bound(result.value, bound))
  }

  /** A broken payload that was not reported before. */
  predicate BreaksFirst(result: Option<StoredResult>, bound: map<nat, OracleResult>, reported: set<(nat, string)>, hash: Digest) {
    Broken(result, bound, hash) && ReportKey(result.value.revision, bound, hash) !in reported
  }

  /** There is a stored payload, intact, bound and of the current revision. */
  predicate Trusted(value: SessionValue<StoredResult>, bound: map<nat, OracleResult>, hash: Digest) {
    value.result.Some? && !Broken(value.result, bound, hash) && value.result.value.revision == value.state.revision
  }

  predicate StaleResultExposed(result: Option<StoredResult>, state: ConsultationState) {
    result.Some? && result.value.revision != state.revision
  }

  function Count(n: nat, happened: bool): nat {
    if happened then n + 1 else n
  }

  /**
   * The alarms after one produced result was looked at: none for the answer a fresh run gives; any
   * other counts once as a pricing violation and once as not reproducible, and once for each kind
   * of breach.
   */
  function Observed(a: Alarms, facts: Facts, answer: OracleResult, expected: OracleResult): Alarms
    requires Ready(facts)
  {
    if answer == expected then a
    else a.(
      pricingViolations := a.pricingViolations + 1,
      nondeterministicResults := a.nondeterministicResults + 1,
      marginViolations := Count(a.marginViolations, Breaches(facts, answer, MarginError)),
      discountViolations := Count(a.discountViolations, Breaches(facts, answer, DiscountError)),
      priceConsistencyViolations := Count(a.priceConsistencyViolations, Breaches(facts, answer, PriceConsistency)),
      statusShapeViolations := Count(a.statusShapeViolations, Breaches(facts, answer, StatusShape)),
      projectionViolations := Count(a.projectionViolations, Breaches(facts, answer, ProjectionError)))
  }

  /** Checks one produced result, stored intact at its revision, against a fresh run. */
  method ObserveResult(
    facts: Facts, answer: OracleResult, payload: StoredResult, counters: Counters, reported: set<(nat, string)>,
    reference: Oracle, hash: Digest)
    returns (nowReported: set<(nat, string)>)
    requires Ready(facts) && SafeOracle(reference)
    modifies counters`alarms, counters`resultEvaluations
    ensures counters.resultEvaluations == old(counters.resultEvaluations) + 1
    ensures var first := !(Intact(payload, hash) && payload.oracle == answer) && (payload.revision, hash(answer)) !in reported;
            && counters.alarms == Observed(HashCounted(old(counters.alarms), first), facts, answer, reference(facts))
            && nowReported == if first then reported + {(payload.revision, hash(answer))} else reported
  {
    var integrity := ValidateStoredResult(payload, Some(answer), hash);
    var errors := ValidateAuthoritativeResult(facts, answer, reference);
    nowReported := RecordHashViolation(counters, (payload.revision, hash(answer)), integrity, reported);
    var reproduced := reference(facts);
    counters.resultEvaluations := counters.resultEvaluations + 1;
    CountPricing(counters, errors, answer == reproduced);
  }

  method CountPricing(counters: Counters, errors: seq<PricingError>, reproducible: bool)
    modifies counters`alarms
    ensures var a := old(counters.alarms);
            var wrong := errors != [] || !reproducible;
            counters.alarms == a.(
              pricingViolations := Count(a.pricingViolations, wrong),
              nondeterministicResults := Count(a.nondeterministicResults, !reproducible),
              marginViolations := Count(a.marginViolations, MarginError in errors),
              discountViolations := Count(a.discountViolations, DiscountError in errors),
              priceConsistencyViolations := Count(a.priceConsistencyViolations, PriceConsistency in errors),
              statusShapeViolations := Count(a.statusShapeViolations, StatusShape in errors),
              projectionViolations := Count(a.projectionViolations, ProjectionError in errors))
  {
    var a := counters.alarms;
    if errors != [] || !reproducible {
      a := a.(
        pricingViolations := a.pricingViolations + 1,
        marginViolations := Count(a.marginViolations, MarginError in errors),
        discountViolations := Count(a.discountViolations, DiscountError in errors),
        priceConsistencyViolations := Count(a.priceConsistencyViolations, PriceConsistency in errors),
        statusShapeViolations := Count(a.statusShapeViolations, StatusShape in errors),
        projectionViolations := Count(a.projectionViolations, ProjectionError in errors));
    }
    if !reproducible {
      a := a.(nondeterministicResults := a.nondeterministicResults + 1);
    }
    counters.alarms := a;
  }

  // ---------------------------------------------------------------------------
  // Rejected keys and the state
  // ---------------------------------------------------------------------------

  /** Whether an attribute of the state, named as a patch would name it, differs. */
  predicate AttributeChanged(before: ConsultationState, after: ConsultationState, key: string) {
    var field := FieldNamed(key);
    if field.Some? then
      (field.value in before.facts) != (field.value in after.facts)
      || (field.value in before.facts && before.facts[field.value] != after.facts[field.value])
    else if key == "revision" then before.revision != after.revision
    else if key == "confirmed" then before.confirmed != after.confirmed
    else if key == "result_revision" then before.resultRevision != after.resultRevision
    else false
  }

  function CountChanged(before: ConsultationState, after: ConsultationState, keys: seq<string>): nat {
    if keys == [] then 0
    else CountChanged(before, after, keys[..|keys| - 1])
         + if AttributeChanged(before, after, keys[|keys| - 1]) then 1 else 0
  }

  method CountUnauthorized(before: ConsultationState, after: ConsultationState, rejected: seq<string>) returns (n: nat)
    ensures n == CountChanged(before, after, rejected)
  {
    n := 0;
    for i := 0 to |rejected|
      invariant n == CountChanged(before, after, rejected[..i])
    {
      assert rejected[..i + 1][..i] == rejected[..i];
      if AttributeChanged(before, after, rejected[i]) {
        n := n + 1;
      }
    }
    assert rejected[..|rejected|] == rejected;
  }

  /**
   * A rejected key sees its attribute change exactly when another key of the patch brought a real
   * change and the rejected one names the control attribute that change resets: always
   * `revision`, and `confirmed` or `result_revision` if they were set. No item field ever does.
   */
  lemma {:induction false} RejectedKeyChangesExactly(before: ConsultationState, items: seq<(string, Value)>, key: string)
    requires UniqueKeys(items) && key in RejectedItems(items)
    ensures var after := MergePatch(before, AcceptedItems(items));
            AttributeChanged(before, after, key) <==>
              && before.facts + AcceptedItems(items) != before.facts
              && (|| key == "revision"
                  || (key == "confirmed" && before.confirmed)
                  || (key == "result_revision" && before.resultRevision.Some?))
  {
    var accepted := AcceptedItems(items);
    if FieldNamed(key).Some? {
      RejectedFieldStays(items, key, FieldNamed(key).value);
      FieldUnchanged(before, accepted, key, FieldNamed(key).value);
    } else {
      ControlChanges(before, accepted, key);
    }
  }

  /** A rejected field is not among the accepted ones. */
  lemma {:induction false} RejectedFieldStays(items: seq<(string, Value)>, key: string, field: Field)
    requires UniqueKeys(items) && key in RejectedItems(items) && FieldNamed(key) == Some(field)
    ensures field !in AcceptedItems(items)
  {
    RejectedExactly(items, key);
    var i :| 0 <= i < |items| && items[i].0 == key && IsRejected(items[i]);
    AcceptedFromItem(items, i, field);
  }

  lemma {:induction false} FieldUnchanged(before: ConsultationState, accepted: Facts, key: string, field: Field)
    requires FieldNamed(key) == Some(field) && field !in accepted
    ensures !AttributeChanged(before, MergePatch(before, accepted), key)
    ensures key != "revision" && key != "confirmed" && key != "result_revision"
  {
    MergeEffect(before, accepted);
  }

  lemma {:induction false} ControlChanges(before: ConsultationState, accepted: Facts, key: string)
    requires FieldNamed(key).None?
    ensures AttributeChanged(before, MergePatch(before, accepted), key) <==>
              && before.facts + accepted != before.facts
              && (|| key == "revision"
                  || (key == "confirmed" && before.confirmed)
                  || (key == "result_revision" && before.resultRevision.Some?))
  {
    MergeEffect(before, accepted);
  }

  /** The false alarm, concretely: a patch that names `revision` beside a valid cost. */
  lemma NamingRevisionTrips(before: ConsultationState)
    requires !(Cost in before.facts && before.facts[Cost] == Number(1))
    ensures IsDict(RevisionBesideCost())
    ensures CountChanged(before, MergePatch(before, Accepted(RevisionBesideCost())), Rejected(RevisionBesideCost())) == 1
  {
    var items := RevisionBesideCost().items;
    RevisionBesideCostIs();
    AcceptedFromItem(items, 1, Cost);
    MergeEffect(before, AcceptedItems(items));
    CountedExactly(before, RevisionBesideCost());
  }

  function RevisionBesideCost(): Proposal {
    Object([("revision", Int(7)), (KeyOf(Cost), Int(1))])
  }

  lemma RevisionBesideCostIs()
    ensures RejectedItems(RevisionBesideCost().items) == ["revision"]
    ensures UniqueKeys(RevisionBesideCost().items)
  {
    var items := RevisionBesideCost().items;
    assert items[..1] == [items[0]] && items[..1][..0] == [];
    assert RejectedItems(items[..1]) == ["revision"];
    NamesAreKeys(Cost, KeyOf(Cost));
  }

  /** A JSON object: no key twice. */
  ghost predicate IsDict(patch: Proposal) {
    patch.Object? ==> UniqueKeys(patch.items)
  }

  /** The control attributes that a real change of the facts resets to another value. */
  function Tripping(state: ConsultationState): set<string> {
    {"revision"} + (if state.confirmed then {"confirmed"} else {})
    + (if state.resultRevision.Some? then {"result_revision"} else {})
  }

  /** How many of the keys are in the set. */
  function CountIn(keys: seq<string>, among: set<string>): (n: nat)
    ensures n == 0 <==> forall i :: 0 <= i < |keys| ==> keys[i] !in among
  {
    if keys == [] then 0
    else CountIn(keys[..|keys| - 1], among) + if keys[|keys| - 1] in among then 1 else 0
  }

  /** What the counter of unauthorized mutations grows by, from the patch and the state it meets. */
  function Tripped(before: ConsultationState, patch: Proposal): nat {
    if before.facts + Accepted(patch) == before.facts then 0 else CountIn(Rejected(patch), Tripping(before))
  }

  /** Of the first `n` rejected keys, none counts without a real change, and with one exactly the tripping ones do. */
  lemma {:induction false} CountedUpTo(before: ConsultationState, patch: Proposal, n: nat)
    requires IsDict(patch) && n <= |Rejected(patch)|
    ensures CountChanged(before, MergePatch(before, Accepted(patch)), Rejected(patch)[..n]) ==
            if before.facts + Accepted(patch) == before.facts then 0 else CountIn(Rejected(patch)[..n], Tripping(before))
  {
    if n > 0 {
      var keys := Rejected(patch);
      assert keys[..n][..n - 1] == keys[..n - 1];
      CountedUpTo(before, patch, n - 1);
      MergeEffect(before, Accepted(patch));
      RejectedKeyChangesExactly(before, patch.items, keys[n - 1]);
    }
  }

  /** The counter grows by exactly `Tripped`. */
  lemma CountedExactly(before: ConsultationState, patch: Proposal)
    requires IsDict(patch)
    ensures CountChanged(before, MergePatch(before, Accepted(patch)), Rejected(patch)) == Tripped(before, patch)
  {
    CountedUpTo(before, patch, |Rejected(patch)|);
    assert Rejected(patch)[..|Rejected(patch)|] == Rejected(patch);
  }

  predicate Names(patch: Proposal, key: string) {
    patch.Object? && exists i :: 0 <= i < |patch.items| && patch.items[i].0 == key
  }

  /** The patch brings no new fact, or names neither `revision` nor a `confirmed` or `result_revision` that is set. */
  predicate Harmless(before: ConsultationState, patch: Proposal) {
    || before.facts + Accepted(patch) == before.facts
    || (&& !Names(patch, "revision")
        && !(before.confirmed && Names(patch, "confirmed"))
        && !(before.resultRevision.Some? && Names(patch, "result_revision")))
  }

  /** A key that is no field's is rejected wherever it stands. */
  lemma RejectedIfNamed(patch: Proposal, key: string)
    requires FieldNamed(key).None?
    ensures key in Rejected(patch) <==> Names(patch, key)
  {
    if patch.Object? {
      RejectedExactly(patch.items, key);
      if Names(patch, key) {
        var i :| 0 <= i < |patch.items| && patch.items[i].0 == key;
        assert IsRejected(patch.items[i]);
      }
    }
  }

  lemma TrippedExactly(before: ConsultationState, patch: Proposal)
    ensures Tripped(before, patch) == 0 <==> Harmless(before, patch)
  {
    var keys := Rejected(patch);
    RejectedIfNamed(patch, "revision");
    RejectedIfNamed(patch, "confirmed");
    RejectedIfNamed(patch, "result_revision");
    assert forall i :: 0 <= i < |keys| ==> keys[i] in keys;
  }

  /** No rejected key of a patch is counted if and only if the patch is harmless to the state it meets. */
  lemma NothingUnauthorizedExactly(before: ConsultationState, patch: Proposal)
    requires IsDict(patch)
    ensures CountChanged(before, MergePatch(before, Accepted(patch)), Rejected(patch)) == 0 <==> Harmless(before, patch)
  {
    CountedExactly(before, patch);
    TrippedExactly(before, patch);
  }
}
