/**
 * How often the oracle is asked for one revision under overlapping turns
 * (backend/hargaturun/api.py:415-443): again only while every earlier answer for it is still
 * waiting for its prose.
 */
module ChatCalls {
  import opened Chat
  import opened ChatInterleaving
  import opened ChatMarks
  import opened Consultation
  import opened Sessions
  import opened Wrappers

  /** How many of the calls are for the revision. */
  function CallsFor(calls: seq<nat>, revision: nat): nat {
    if calls == [] then 0
    else CallsFor(calls[..|calls| - 1], revision) + if calls[|calls| - 1] == revision then 1 else 0
  }

  predicate WaitsFor(task: Task, revision: nat) {
    task.Writing? && task.pending.revision == revision
  }

  /** The requests whose answer for the revision waits for its prose. */
  function Waiting(tasks: map<nat, Task>, revision: nat): set<nat> {
    set id | id in tasks && WaitsFor(tasks[id], revision)
  }

  /** No call is for a later revision than the current one, and calls come in order. */
  predicate CallsInOrder(calls: seq<nat>, revision: nat) {
    && (forall i :: 0 <= i < |calls| ==> calls[i] <= revision)
    && (forall i, j :: 0 <= i < j < |calls| ==> calls[i] <= calls[j])
  }

  /** While the current revision is unmarked, its calls are exactly its waiting answers. */
  predicate CallsWait(w: World) {
    w.session.state.resultRevision.None? ==>
      CallsFor(w.calls, w.session.state.revision) == |Waiting(w.tasks, w.session.state.revision)|
  }

  lemma {:induction false} NoneForLater(calls: seq<nat>, revision: nat)
    requires forall i :: 0 <= i < |calls| ==> calls[i] < revision
    ensures CallsFor(calls, revision) == 0
  {
    if calls != [] {
      NoneForLater(calls[..|calls| - 1], revision);
    }
  }

  lemma OneMoreCall(calls: seq<nat>, r: nat, revision: nat)
    ensures CallsFor(calls + [r], revision) == CallsFor(calls, revision) + if r == revision then 1 else 0
  {
    assert (calls + [r])[..|calls|] == calls;
  }

  /** Task `id` goes from not waiting for the revision to waiting for it, or stays out. */
  lemma WaitingAfter(tasks: map<nat, Task>, after: map<nat, Task>, id: nat, revision: nat)
    requires id in tasks ==> !WaitsFor(tasks[id], revision)
    requires forall k :: k != id ==> (k in after <==> k in tasks) && (k in tasks ==> after[k] == tasks[k])
    ensures |Waiting(after, revision)| ==
            |Waiting(tasks, revision)| + if id in after && WaitsFor(after[id], revision) then 1 else 0
  {
    if id in after && WaitsFor(after[id], revision) {
      assert Waiting(after, revision) == Waiting(tasks, revision) + {id};
    } else {
      assert Waiting(after, revision) == Waiting(tasks, revision);
    }
  }

  /** What a merging stretch asks: nothing once the revision is marked, and otherwise its answer waits or is marked at once. */
  lemma MergeAsks(session: ChatSession, action: RequestAction, proposal: Proposal, oracle: Oracle)
    requires Marked(session)
    ensures var stretch := Merge(session, action, proposal, oracle);
            var now := stretch.session.state;
            && (stretch.priced.Some? ==> stretch.priced.value == now.revision)
            && (stretch.priced.Some? <==>
                  && now.confirmed && now.IsComplete()
                  && (now.revision == session.state.revision ==> session.state.resultRevision.None?))
            && (stretch.next.AwaitProse? ==> stretch.priced.Some? && stretch.next.pending.revision == now.revision)
            && !stretch.next.AwaitParse?
            && (now.resultRevision.None? ==> (stretch.priced.Some? <==> stretch.next.AwaitProse?))
            && (now.revision == session.state.revision && session.state.resultRevision.Some? ==>
                  stretch.priced.None? && now.resultRevision.Some?)
            && (now.revision == session.state.revision || now.revision == session.state.revision + 1)
  {
    MergeEffect(session.state, Accepted(proposal));
  }

  /** The tasks' answers are for revisions up to the current one. */
  predicate TasksUpTo(w: World) {
    forall id | id in w.tasks :: w.tasks[id].Writing? ==> w.tasks[id].pending.revision <= w.session.state.revision
  }

  lemma WaitingBefore(w: World, revision: nat)
    requires TasksUpTo(w) && CallsInOrder(w.calls, w.session.state.revision) && CallsWait(w)
    requires revision == w.session.state.revision ==> w.session.state.resultRevision.None?
    requires w.session.state.revision <= revision <= w.session.state.revision + 1
    ensures CallsFor(w.calls, revision) == |Waiting(w.tasks, revision)|
  {
    if revision == w.session.state.revision + 1 {
      NoneForLater(w.calls, revision);
      assert Waiting(w.tasks, revision) == {};
    }
  }

  ghost predicate CallsKept(w: World) {
    && Marked(w.session)
    && TasksUpTo(w)
    && CallsInOrder(w.calls, w.session.state.revision)
    && CallsWait(w)
  }

  /** A merging stretch of a request that held no answer keeps the books. */
  lemma SettledMergeWaits(w: World, id: nat, action: RequestAction, proposal: Proposal, oracle: Oracle)
    requires CallsKept(w) && (id in w.tasks ==> !w.tasks[id].Writing?)
    ensures CallsWait(Settle(w, id, Merge(w.session, action, proposal, oracle)))
  {
    var stretch := Merge(w.session, action, proposal, oracle);
    var after := Settle(w, id, stretch);
    var revision := stretch.session.state.revision;
    MergeAsks(w.session, action, proposal, oracle);
    if stretch.session.state.resultRevision.None? {
      WaitingBefore(w, revision);
      WaitingAfter(w.tasks, after.tasks, id, revision);
      if stretch.priced.Some? {
        OneMoreCall(w.calls, revision, revision);
      } else {
        assert after.calls == w.calls;
      }
    }
  }

  lemma SettledMergeInOrder(w: World, id: nat, action: RequestAction, proposal: Proposal, oracle: Oracle)
    requires CallsKept(w) && (id in w.tasks ==> !w.tasks[id].Writing?)
    ensures CallsKept(Settle(w, id, Merge(w.session, action, proposal, oracle)))
  {
    MergeAsks(w.session, action, proposal, oracle);
    MergeKeepsMarked(w.session, action, proposal, oracle);
    SettledMergeWaits(w, id, action, proposal, oracle);
  }

  /** A step that settles request `id` without touching the session or asking. */
  lemma SettledQuietly(w: World, id: nat, stretch: Stretch)
    requires CallsKept(w) && (id in w.tasks ==> !w.tasks[id].Writing?)
    requires stretch.session == w.session && stretch.priced.None? && !stretch.next.AwaitProse?
    ensures CallsKept(Settle(w, id, stretch))
  {
    WaitingAfter(w.tasks, Settle(w, id, stretch).tasks, id, w.session.state.revision);
    assert Settle(w, id, stretch).calls == w.calls;
  }

  lemma StepKeepsCalls(w: World, e: Event, oracle: Oracle)
    requires CallsKept(w)
    ensures CallsKept(Step(w, e, oracle))
  {
    if Enabled(w, e) {
      match e
      case Arrive(id, request) =>
        if request.action != Message {
          SettledMergeInOrder(w, id, request.action, if request.action == ConfirmFacts then request.patch else Object([]), oracle);
        } else {
          SettledQuietly(w, id, StretchOf(w, e, oracle));
        }
      case ParseReturns(id, outcome) =>
        if outcome.Parsed? {
          var p := outcome.proposal;
          SettledMergeInOrder(w, id, Message, if w.tasks[id].image then ImageSafeProposal(p) else p, oracle);
        } else {
          SettledQuietly(w, id, StretchOf(w, e, oracle));
        }
      case ProseReturns(_, _) =>
    }
  }

  /**
   * In every run calls come in the order of revisions, and while the current revision is unmarked
   * the oracle was asked for it exactly once per answer that still waits for its prose.
   */
  lemma {:induction false} CallsAreWaiting(events: seq<Event>, oracle: Oracle)
    ensures CallsKept(RunEvents(events, oracle))
  {
    if events != [] {
      CallsAreWaiting(events[..|events| - 1], oracle);
      StepKeepsCalls(RunEvents(events[..|events| - 1], oracle), events[|events| - 1], oracle);
    }
  }

  /** The event ends in merging a proposal and deciding what to do. */
  predicate Merges(w: World, e: Event) {
    Enabled(w, e) && ((e.Arrive? && e.request.action != Message) || (e.ParseReturns? && e.outcome.Parsed?))
  }

  lemma StepAsksExactly(w: World, e: Event, oracle: Oracle)
    requires Marked(w.session)
    ensures var after := Step(w, e, oracle);
            var now := after.session.state;
            && (after.calls == w.calls || after.calls == w.calls + [now.revision])
            && (after.calls != w.calls <==>
                  && Merges(w, e) && now.confirmed && now.IsComplete()
                  && (now.revision == w.session.state.revision ==> w.session.state.resultRevision.None?))
  {
    if Enabled(w, e) {
      match e
      case Arrive(_, request) =>
        if request.action != Message {
          MergeAsks(w.session, request.action, if request.action == ConfirmFacts then request.patch else Object([]), oracle);
        }
      case ParseReturns(id, outcome) =>
        if outcome.Parsed? {
          var p := outcome.proposal;
          MergeAsks(w.session, Message, if w.tasks[id].image then ImageSafeProposal(p) else p, oracle);
        }
      case ProseReturns(_, _) =>
    }
  }

  /**
   * In every run a step asks the oracle if and only if it merges a proposal into a state left
   * confirmed whose revision is new or unmarked; it asks for that revision, and if the revision
   * stood, all its earlier answers still wait for their prose.
   */
  lemma AskedExactly(events: seq<Event>, e: Event, oracle: Oracle)
    ensures var w := RunEvents(events, oracle);
            var after := RunEvents(events + [e], oracle);
            var r, now := w.session.state.revision, after.session.state;
            && (after.calls == w.calls || after.calls == w.calls + [now.revision])
            && (after.calls != w.calls <==>
                  Merges(w, e) && now.confirmed && (now.revision == r ==> w.session.state.resultRevision.None?))
            && (after.calls != w.calls && now.revision == r ==> CallsFor(w.calls, r) == |Waiting(w.tasks, r)|)
  {
    var w := RunEvents(events, oracle);
    assert (events + [e])[..|events|] == events;
    CallsAreWaiting(events, oracle);
    EveryInterleavingIsSound(events, oracle);
    StepKeepsInvariant(w, e, oracle);
    StepAsksExactly(w, e, oracle);
  }
}
