/**
 * The deal and claim tables and the four operations on them (backend/hargaturun/api.py:526-646),
 * each one a transaction that commits or restores the tables (backend/hargaturun/database.py:61-84).
 */
module Deals {
  import opened Consultation
  import opened Pricing
  import opened Text
  import opened Wrappers

  datatype DealStatus = Active | SoldOut | Removed
  datatype ClaimStatus = Claimed | Redeemed

  datatype Deal = Deal(
    originalPrice: int, cost: int, dealPrice: int, discountPercent: int,
    initialStock: int, remainingStock: int, status: DealStatus)

  datatype Claim = Claim(dealId: string, status: ClaimStatus)

  datatype Tables = Tables(deals: map<string, Deal>, claims: map<string, Claim>)

  datatype Outcome = Done(key: string) | Failed(httpStatus: int)

  datatype PublishRequest = PublishRequest(
    category: string, originalPrice: int, cost: int, dealPrice: int, discountPercent: int, initialStock: int,
    namesPresent: bool)

  // ---------------------------------------------------------------------------
  // The operations
  // ---------------------------------------------------------------------------

  /** Python's `round`: to the nearest integer, ties to the even one. */
  function RoundHalfEven(x: real): (r: int)
    ensures r as real - 0.5 <= x <= r as real + 0.5
  {
    var low := x.Floor;
    var over := x - low as real;
    if over < 0.5 then low
    else if over > 0.5 then low + 1
    else if low % 2 == 0 then low else low + 1
  }

  function Abs(n: int): nat {
    if n < 0 then -n else n
  }

  /** The request schema (api.py:96-106). */
  predicate SchemaOk(r: PublishRequest) {
    0 < r.originalPrice && 0 <= r.cost && 0 < r.dealPrice && 0 <= r.discountPercent <= 99 && 0 < r.initialStock
  }

  predicate MarginOk(r: PublishRequest) {
    r.cost < r.originalPrice && r.cost + MIN_MARGIN_RP <= r.dealPrice < r.originalPrice
  }

  predicate DiscountOk(r: PublishRequest)
    requires r.originalPrice != 0
  {
    Abs(RoundHalfEven(100.0 - r.dealPrice as real / r.originalPrice as real * 100.0) - r.discountPercent) <= 1
  }

  predicate Publishable(r: PublishRequest) {
    SchemaOk(r) && CategoryCalled(r.category).Some? && MarginOk(r) && DiscountOk(r) && r.namesPresent
  }

  function Publish(t: Tables, r: PublishRequest, newId: string): (Tables, Outcome) {
    if !Publishable(r) then (t, Failed(422))
    else if newId in t.deals then (t, Failed(500))
    else
      var deal := Deal(r.originalPrice, r.cost, r.dealPrice, r.discountPercent, r.initialStock, r.initialStock, Active);
      (t.(deals := t.deals[newId := deal]), Done(newId))
  }

  function Remove(t: Tables, id: string): (Tables, Outcome) {
    if id !in t.deals then (t, Failed(404))
    else (t.(deals := t.deals[id := t.deals[id].(status := Removed)]), Done(id))
  }

  /** Code number `n`, from 0 to 8999, as it is printed. */
  function CodeText(n: nat): string {
    "HT-" + [Digit((n + 1000) / 1000), Digit((n + 1000) / 100), Digit((n + 1000) / 10), Digit(n + 1000)]
  }

  function Digit(n: nat): char {
    '0' + (n % 10) as char
  }

  /** The first drawn code that no claim has. */
  function FirstFree(draws: seq<nat>, claims: map<string, Claim>): Option<string> {
    if draws == [] then None
    else if CodeText(draws[0]) !in claims then Some(CodeText(draws[0]))
    else FirstFree(draws[1..], claims)
  }

  function TakeOne(deal: Deal): Deal {
    var remaining := deal.remainingStock - 1;
    deal.(remainingStock := remaining, status := if remaining == 0 then SoldOut else Active)
  }

  function ClaimDeal(t: Tables, id: string, draws: seq<nat>): (Tables, Outcome) {
    if id !in t.deals || t.deals[id].status != Active || t.deals[id].remainingStock <= 0 then (t, Failed(409))
    else
      var code := FirstFree(draws, t.claims);
      if code.None? then (t, Failed(503))
      else
        (Tables(t.deals[id := TakeOne(t.deals[id])], t.claims[code.value := Claim(id, Claimed)]), Done(code.value))
  }

  function Redeem(t: Tables, code: string): (Tables, Outcome) {
    var normalized := Upper(Strip(code));
    if normalized !in t.claims then (t, Failed(404))
    else if t.claims[normalized].status == Redeemed then (t, Failed(409))
    else (t.(claims := t.claims[normalized := t.claims[normalized].(status := Redeemed)]), Done(normalized))
  }

  // ---------------------------------------------------------------------------
  // The invariant
  // ---------------------------------------------------------------------------

  function ClaimsOf(t: Tables, id: string): set<string> {
    set code | code in t.claims && t.claims[code].dealId == id
  }

  /** Every unit of a deal is either still there or claimed. */
  predicate Conserved(t: Tables, id: string)
    requires id in t.deals
  {
    var deal := t.deals[id];
    && 0 <= deal.remainingStock
    && deal.remainingStock + |ClaimsOf(t, id)| == deal.initialStock
    && (deal.status == Active ==> 0 < deal.remainingStock)
    && (deal.status == SoldOut ==> deal.remainingStock == 0)
  }

  predicate Consistent(t: Tables) {
    && (forall id | id in t.deals :: Conserved(t, id))
    && (forall code | code in t.claims :: t.claims[code].dealId in t.deals && Upper(code) == code)
  }

  lemma PublishConsistent(t: Tables, r: PublishRequest, newId: string)
    requires Consistent(t)
    ensures Consistent(Publish(t, r, newId).0)
  {
    var after := Publish(t, r, newId).0;
    if Publish(t, r, newId).1.Done? {
      forall id | id in after.deals
        ensures Conserved(after, id)
      {
        assert ClaimsOf(after, id) == ClaimsOf(t, id);
        if id == newId {
          assert ClaimsOf(t, newId) == {};
        } else {
          assert Conserved(t, id);
        }
      }
    }
  }

  lemma RemoveConsistent(t: Tables, removed: string)
    requires Consistent(t)
    ensures Consistent(Remove(t, removed).0)
  {
    var after := Remove(t, removed).0;
    forall id | id in after.deals
      ensures Conserved(after, id)
    {
      assert ClaimsOf(after, id) == ClaimsOf(t, id);
      assert Conserved(t, id);
    }
  }

  lemma CodeIsUpper(n: nat)
    ensures Upper(CodeText(n)) == CodeText(n)
  {
  }

  lemma {:induction false} FirstFreeIs(draws: seq<nat>, claims: map<string, Claim>)
    ensures FirstFree(draws, claims).Some? ==>
              FirstFree(draws, claims).value !in claims && exists n :: n in draws && FirstFree(draws, claims).value == CodeText(n)
    ensures FirstFree(draws, claims).None? <==> forall n :: n in draws ==> CodeText(n) in claims
  {
    if draws != [] {
      FirstFreeIs(draws[1..], claims);
      assert draws[0] in draws;
      assert forall n :: n in draws <==> n == draws[0] || n in draws[1..];
    }
  }

  lemma ClaimConsistent(t: Tables, claimed: string, draws: seq<nat>)
    requires Consistent(t)
    ensures Consistent(ClaimDeal(t, claimed, draws).0)
  {
    var outcome := ClaimDeal(t, claimed, draws).1;
    if outcome.Done? {
      FirstFreeIs(draws, t.claims);
      var n :| n in draws && outcome.key == CodeText(n);
      CodeIsUpper(n);
      AddedClaimConsistent(t, claimed, outcome.key);
    }
  }

  lemma AddedClaimConsistent(t: Tables, claimed: string, code: string)
    requires Consistent(t) && claimed in t.deals && t.deals[claimed].status == Active
    requires code !in t.claims && Upper(code) == code
    ensures Consistent(Tables(t.deals[claimed := TakeOne(t.deals[claimed])], t.claims[code := Claim(claimed, Claimed)]))
  {
    var after := Tables(t.deals[claimed := TakeOne(t.deals[claimed])], t.claims[code := Claim(claimed, Claimed)]);
    forall id | id in after.deals
      ensures Conserved(after, id)
    {
      assert Conserved(t, id);
      ClaimCounted(t, after, claimed, code, id);
      assert after.deals[id] == if id == claimed then TakeOne(t.deals[id]) else t.deals[id];
    }
    assert forall c | c in after.claims :: after.claims[c].dealId in after.deals && Upper(c) == c;
  }

  lemma ClaimCounted(t: Tables, after: Tables, claimed: string, code: string, id: string)
    requires code !in t.claims && after.claims == t.claims[code := Claim(claimed, Claimed)]
    ensures |ClaimsOf(after, id)| == |ClaimsOf(t, id)| + (if id == claimed then 1 else 0)
  {
    if id == claimed {
      assert ClaimsOf(after, id) == ClaimsOf(t, id) + {code};
    } else {
      assert ClaimsOf(after, id) == ClaimsOf(t, id);
    }
  }

  lemma RedeemConsistent(t: Tables, code: string)
    requires Consistent(t)
    ensures Consistent(Redeem(t, code).0)
  {
    var after := Redeem(t, code).0;
    forall id | id in after.deals
      ensures Conserved(after, id)
    {
      assert ClaimsOf(after, id) == ClaimsOf(t, id);
      assert Conserved(t, id);
    }
  }

  // ---------------------------------------------------------------------------
  // Runs
  // ---------------------------------------------------------------------------

  datatype Op =
    | OpPublish(request: PublishRequest, newId: string)
    | OpRemove(id: string)
    | OpClaim(id: string, draws: seq<nat>)
    | OpRedeem(code: string)

  function Apply(t: Tables, op: Op): (Tables, Outcome) {
    match op
    case OpPublish(request, newId) => Publish(t, request, newId)
    case OpRemove(id) => Remove(t, id)
    case OpClaim(id, draws) => ClaimDeal(t, id, draws)
    case OpRedeem(code) => Redeem(t, code)
  }

  function RunOps(ops: seq<Op>): Tables {
    if ops == [] then Tables(map[], map[])
    else Apply(RunOps(ops[..|ops| - 1]), ops[|ops| - 1]).0
  }

  /** The outcome of operation `i` of a run. */
  function OutcomeAt(ops: seq<Op>, i: nat): Outcome
    requires i < |ops|
  {
    Apply(RunOps(ops[..i]), ops[i]).1
  }

  lemma ApplyConsistent(t: Tables, op: Op)
    requires Consistent(t)
    ensures Consistent(Apply(t, op).0)
  {
    match op
    case OpPublish(request, newId) => PublishConsistent(t, request, newId);
    case OpRemove(id) => RemoveConsistent(t, id);
    case OpClaim(id, draws) => ClaimConsistent(t, id, draws);
    case OpRedeem(code) => RedeemConsistent(t, code);
  }

  /** In every reachable store, for every deal, remaining stock and claims add up to the initial stock. */
  lemma {:induction false} StockIsConserved(ops: seq<Op>)
    ensures Consistent(RunOps(ops))
  {
    if ops != [] {
      StockIsConserved(ops[..|ops| - 1]);
      ApplyConsistent(RunOps(ops[..|ops| - 1]), ops[|ops| - 1]);
    }
  }

  /** A failed operation, code exhaustion included, leaves both tables as they were. */
  lemma FailureChangesNothing(t: Tables, op: Op)
    ensures Apply(t, op).1.Failed? ==> Apply(t, op).0 == t
  {
  }

  /** A deal only moves on: no stock comes back, a removed deal stays removed, none returns to active. */
  predicate DealForward(before: Deal, after: Deal) {
    && after.initialStock == before.initialStock
    && after.remainingStock <= before.remainingStock
    && (before.status == Removed ==> after == before)
    && (before.status == SoldOut ==> after.status != Active && after.remainingStock == before.remainingStock)
    && after.(status := before.status, remainingStock := before.remainingStock) == before
  }

  /** A claim only moves on: it keeps its deal, and a redeemed one stays redeemed. */
  predicate ClaimForward(before: Claim, after: Claim) {
    after.dealId == before.dealId && (before.status == Redeemed ==> after == before)
  }

  predicate Forward(before: Tables, after: Tables) {
    && (forall id | id in before.deals :: id in after.deals && DealForward(before.deals[id], after.deals[id]))
    && (forall code | code in before.claims :: code in after.claims && ClaimForward(before.claims[code], after.claims[code]))
  }

  lemma ApplyForward(t: Tables, op: Op)
    ensures Forward(t, Apply(t, op).0)
  {
    if op.OpClaim? {
      FirstFreeIs(op.draws, t.claims);
    }
  }

  /** Between any two points of any run the tables only move on. */
  lemma {:induction false} RunForward(ops: seq<Op>, n: nat)
    requires n <= |ops|
    ensures Forward(RunOps(ops[..n]), RunOps(ops))
  {
    if n == |ops| {
      assert ops[..n] == ops;
    } else {
      var front := ops[..|ops| - 1];
      assert front[..n] == ops[..n];
      RunForward(front, n);
      ApplyForward(RunOps(front), ops[|ops| - 1]);
    }
  }

  /** A code is redeemed at most once in a run, however it is spelled. */
  lemma RedeemedOnce(ops: seq<Op>, i: nat, j: nat)
    requires i < j < |ops| && ops[i].OpRedeem? && ops[j].OpRedeem?
    requires Upper(Strip(ops[i].code)) == Upper(Strip(ops[j].code))
    requires OutcomeAt(ops, i).Done?
    ensures OutcomeAt(ops, j) == Failed(409)
  {
    var upTo := ops[..j];
    RunForward(upTo, i + 1);
    assert upTo[..i + 1] == ops[..i + 1];
    assert ops[..i + 1][..i] == ops[..i];
  }

  /** Redeeming never touches the deals, and works exactly for a claim that is still claimed, removed deal or not. */
  lemma RedeemExactly(t: Tables, code: string)
    ensures Redeem(t, code).0.deals == t.deals
    ensures Redeem(t, code).1.Done? <==>
            Upper(Strip(code)) in t.claims && t.claims[Upper(Strip(code))].status == Claimed
    ensures Redeem(t, code).1.Done? ==>
            forall c | c in t.claims && c != Upper(Strip(code)) ::
              c in Redeem(t, code).0.claims && Redeem(t, code).0.claims[c] == t.claims[c]
  {
  }

  /** In a consistent store a claim succeeds exactly while the deal is active and some draw is free, and takes one unit. */
  lemma ClaimExactly(t: Tables, id: string, draws: seq<nat>)
    requires Consistent(t)
    ensures var (after, outcome) := ClaimDeal(t, id, draws);
            && (outcome.Done? <==>
                  id in t.deals && t.deals[id].status == Active && exists n :: n in draws && CodeText(n) !in t.claims)
            && (outcome.Done? ==>
                  && outcome.key !in t.claims && outcome.key in after.claims
                  && after.claims[outcome.key] == Claim(id, Claimed)
                  && after.deals[id].remainingStock == t.deals[id].remainingStock - 1
                  && (after.deals[id].status == SoldOut <==> t.deals[id].remainingStock == 1))
  {
    FirstFreeIs(draws, t.claims);
    if id in t.deals {
      assert Conserved(t, id);
    }
  }

  /**
   * Publishing succeeds exactly for a sound request under a fresh id, and adds one active deal with
   * the requested prices and its whole stock left; every other deal and every claim stands.
   */
  lemma PublishExactly(t: Tables, r: PublishRequest, newId: string)
    ensures var (after, outcome) := Publish(t, r, newId);
            && (outcome.Done? <==> Publishable(r) && newId !in t.deals)
            && (!Publishable(r) ==> outcome == Failed(422))
            && after.claims == t.claims
            && (outcome.Done? ==>
                  && outcome.key == newId && after.deals.Keys == t.deals.Keys + {newId}
                  && (forall id | id in t.deals :: after.deals[id] == t.deals[id])
                  && var deal := after.deals[newId];
                  && deal.originalPrice == r.originalPrice && deal.cost == r.cost && deal.dealPrice == r.dealPrice
                  && deal.discountPercent == r.discountPercent
                  && deal.initialStock == deal.remainingStock == r.initialStock && deal.status == Active)
  {
  }

  /** Removing succeeds exactly for a deal that exists, and changes nothing but its status, to removed. */
  lemma RemoveExactly(t: Tables, id: string)
    ensures var (after, outcome) := Remove(t, id);
            && (outcome.Done? <==> id in t.deals)
            && (outcome.Failed? ==> outcome == Failed(404))
            && after.claims == t.claims && after.deals.Keys == t.deals.Keys
            && (forall k | k in t.deals && k != id :: after.deals[k] == t.deals[k])
            && (id in t.deals ==>
                  && after.deals[id].status == Removed
                  && after.deals[id].(status := t.deals[id].status) == t.deals[id])
  {
  }

  /** After a deal was removed every claim of it is refused, in any run. */
  lemma NoClaimAfterRemoval(ops: seq<Op>, i: nat, j: nat)
    requires i < j < |ops| && ops[i].OpRemove? && ops[j].OpClaim? && ops[i].id == ops[j].id
    requires OutcomeAt(ops, i).Done?
    ensures OutcomeAt(ops, j) == Failed(409)
  {
    var upTo := ops[..j];
    RunForward(upTo, i + 1);
    assert upTo[..i + 1] == ops[..i + 1];
    assert ops[..i + 1][..i] == ops[..i];
    RemoveExactly(RunOps(ops[..i]), ops[i].id);
  }

  /** The claim codes run from HT-1000 to HT-9999, each number its own code. */
  lemma CodesAreDistinct(m: nat, n: nat)
    requires m < 9000 && n < 9000
    ensures |CodeText(n)| == 7 && CodeText(n)[..3] == "HT-"
    ensures CodeText(m) == CodeText(n) <==> m == n
  {
    FourDigits(m + 1000);
    FourDigits(n + 1000);
    assert CodeText(m)[3..] == [Digit((m + 1000) / 1000), Digit((m + 1000) / 100), Digit((m + 1000) / 10), Digit(m + 1000)];
    assert CodeText(n)[3..] == [Digit((n + 1000) / 1000), Digit((n + 1000) / 100), Digit((n + 1000) / 10), Digit(n + 1000)];
    if CodeText(m) == CodeText(n) {
      assert CodeText(m)[3] == CodeText(n)[3] && CodeText(m)[4] == CodeText(n)[4];
      assert CodeText(m)[5] == CodeText(n)[5] && CodeText(m)[6] == CodeText(n)[6];
    }
  }

  function Place(c: char): int {
    c as int - '0' as int
  }

  lemma PlaceOfDigit(n: nat)
    ensures Place(Digit(n)) == n % 10
  {
  }

  lemma FourDigits(n: nat)
    requires 1000 <= n < 10000
    ensures n == 1000 * Place(Digit(n / 1000)) + 100 * Place(Digit(n / 100)) + 10 * Place(Digit(n / 10)) + Place(Digit(n))
  {
    PlaceOfDigit(n / 1000);
    PlaceOfDigit(n / 100);
    PlaceOfDigit(n / 10);
    PlaceOfDigit(n);
    assert n / 100 == n / 10 / 10 && n / 1000 == n / 100 / 10;
    assert n == 10 * (n / 10) + n % 10 && n / 10 == 10 * (n / 100) + n / 10 % 10 && n / 100 == 10 * (n / 1000) + n / 100 % 10;
  }
}
