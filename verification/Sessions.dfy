/** In-memory sessions and their bounded store (backend/hargaturun/consultation.py:300-368). */
module Sessions {
  import opened Consultation
  import opened Pricing
  import opened Wrappers

  /** The part of a session a turn reasons about; `R` is the stored payload. */
  datatype SessionValue<R> = SessionValue(state: ConsultationState, result: Option<R>, resultStatus: Option<Status>)
  {
    function DropResult(): SessionValue<R> {
      this.(result := None, resultStatus := None)
    }
  }

  function FreshValue<R>(): SessionValue<R> {
    SessionValue(EMPTY_STATE, None, None)
  }

  class Session<R> {
    const id: string
    var state: ConsultationState
    var result: Option<R>
    var resultStatus: Option<Status>
    var turns: nat
    var contextChars: nat

    constructor (id: string)
      ensures this.id == id && Value() == FreshValue() && turns == 0 && contextChars == 0
    {
      this.id := id;
      state, result, resultStatus := EMPTY_STATE, None, None;
      turns, contextChars := 0, 0;
    }

    ghost function Value(): SessionValue<R>
      reads this
    {
      SessionValue(state, result, resultStatus)
    }

    method AcceptTurn(isReset: bool, textChars: nat, maxTurns: nat, maxContextChars: nat) returns (ok: bool)
      modifies this`turns, this`contextChars
      ensures ok <==> isReset || (old(turns) < maxTurns && old(contextChars) + textChars <= maxContextChars)
      ensures turns == old(turns) + (if ok then 1 else 0)
      ensures contextChars == old(contextChars) + (if ok then textChars else 0)
    {
      var nextChars := contextChars + textChars;
      if !isReset && (turns >= maxTurns || nextChars > maxContextChars) {
        return false;
      }
      turns, contextChars := turns + 1, nextChars;
      return true;
    }

    method DropResult()
      modifies this`result, this`resultStatus
      ensures Value() == old(Value()).DropResult()
    {
      result, resultStatus := None, None;
    }
  }

  class SessionStore<R> {
    var sessions: map<string, Session<R>>
    var order: seq<string>  // ids, oldest insertion first: a dict preserves insertion order
    const max: nat
    const maxTurns: nat
    const maxContextChars: nat

    ghost predicate Valid()
      reads this, sessions.Values
    {
      && 0 < max
      && |order| <= max
      && (forall i, j :: 0 <= i < j < |order| ==> order[i] != order[j])
      && (forall id :: id in sessions <==> id in order)
      && (forall id :: id in sessions ==> sessions[id].id == id)
    }

    constructor (max: nat, maxTurns: nat, maxContextChars: nat)
      requires 0 < max
      ensures Valid() && sessions == map[] && order == []
      ensures this.max == max && this.maxTurns == maxTurns && this.maxContextChars == maxContextChars
    {
      sessions, order := map[], [];
      this.max, this.maxTurns, this.maxContextChars := max, maxTurns, maxContextChars;
    }

    /** Opens a fresh session; only the oldest one goes, and only from a full store. */
    method Create(id: string) returns (session: Session<R>)
      requires Valid() && id !in sessions
      modifies this`sessions, this`order
      ensures Valid()
      ensures fresh(session) && session.id == id && session.Value() == FreshValue()
      ensures session.turns == 0 && session.contextChars == 0
      ensures order == (if |old(order)| < max then old(order) else old(order)[1..]) + [id]
      ensures id in sessions && sessions[id] == session
      ensures forall k :: k in sessions ==> k == id || (k in old(sessions) && sessions[k] == old(sessions)[k])
    {
      if |order| >= max {
        var oldest := order[0];
        sessions := map k | k in sessions && k != oldest :: sessions[k];
        order := order[1..];
      }
      session := new Session(id);
      sessions := sessions[id := session];
      order := order + [id];
    }

    method Drop(id: string)
      requires Valid()
      modifies this`sessions, this`order
      ensures Valid()
      ensures sessions == map k | k in old(sessions) && k != id :: old(sessions)[k]
      ensures order == Without(old(order), id)
    {
      if id !in sessions {
        WithoutAbsent(order, id);
        assert sessions == map k | k in sessions && k != id :: sessions[k];
        return;
      }
      WithoutKeepsRest(order, id);
      sessions := map k | k in sessions && k != id :: sessions[k];
      order := Without(order, id);
    }
  }

  function Without(order: seq<string>, id: string): seq<string> {
    if order == [] then []
    else (if order[0] == id then [] else [order[0]]) + Without(order[1..], id)
  }

  lemma {:induction false} WithoutAbsent(order: seq<string>, id: string)
    requires id !in order
    ensures Without(order, id) == order
  {
    if order != [] {
      WithoutAbsent(order[1..], id);
    }
  }

  /** Dropping an id keeps every other id, in order and without repetition. */
  lemma {:induction false} WithoutKeepsRest(order: seq<string>, id: string)
    requires forall i, j :: 0 <= i < j < |order| ==> order[i] != order[j]
    ensures var r := Without(order, id);
            && |r| <= |order|
            && (forall k :: k in r <==> k in order && k != id)
            && (forall i, j :: 0 <= i < j < |r| ==> r[i] != r[j])
  {
    if order != [] {
      var rest := order[1..];
      WithoutKeepsRest(rest, id);
      assert forall k :: k in order <==> k == order[0] || k in rest;
      assert order[0] !in rest;
    }
  }
}
