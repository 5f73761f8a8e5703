/**
 * What `checkServer` guarantees, stated over the functional model `Step` of
 * one tick and `Run` of many consecutive ticks.
 */
module Properties {
  import opened Wrappers
  import opened Store
  import opened Reconcile

  /** The send that publishes the outcome's own notice goes through. */
  predicate SendOk(o: Outcome, r: Replies) {
    if o.Online? then r.onlineSendOk else r.offlineSendOk
  }

  /** The tick takes a transition branch (index.js:57, 91). */
  predicate IsTransition(v: Vars, o: Outcome) {
    v.lastStatus != Some(IsOnline(o))
  }

  /** Nothing for the tick to do: the availability is unchanged and, when
      online, either the count is unchanged or there is no message to edit. */
  predicate Idle(v: Vars, o: Outcome) {
    && v.lastStatus == Some(IsOnline(o))
    && (o.Online? ==> v.lastPlayerCount == Some(o.players) || v.lastMessage.None?)
  }

  /** The first tick always publishes: with nothing known, its first request
      is the send of the notice for the outcome; if that send goes through the
      three variables describe it, and if an online send fails the offline
      notice is sent right after it. */
  lemma FirstTickPublishes(s: StoreState, o: Outcome, r: Replies)
    ensures var c := Calls(World(Initial, s), o, r);
      |c| >= 1 && c[0] == SendCall(NoticeOf(o))
    ensures SendOk(o, r) ==>
      Step(World(Initial, s), o, r).vars == Vars(Some(IsOnline(o)), Some(s.nextId), CountOf(o))
    ensures o.Online? && !r.onlineSendOk ==>
      && Calls(World(Initial, s), o, r) == [SendCall(NoticeOf(o)), SendCall(OfflineNotice)]
      && Step(World(Initial, s), o, r).vars ==
           (if r.offlineSendOk then Vars(Some(false), Some(s.nextId), None) else Initial)
  {
  }

  /** An idle tick makes no request and changes nothing (index.js:57, 75-76, 91). */
  lemma IdleTickChangesNothing(w: World, o: Outcome, r: Replies)
    requires Idle(w.vars, o)
    ensures Step(w, o, r) == w
    ensures Calls(w, o, r) == []
  {
  }

  /** A tick makes no request exactly when it is idle. */
  lemma NoCallsIffIdle(w: World, o: Outcome, r: Replies)
    ensures Calls(w, o, r) == [] <==> Idle(w.vars, o)
  {
    var c := Calls(w, o, r);
    if !Idle(w.vars, o) {
      if IsTransition(w.vars, o) {
        TransitionCalls(w, o, r);
      } else {
        CountChangeEdits(w, o.players, r);
      }
      assert c != [];
    }
  }

  /** The requests of a transition: the delete of the tracked message, if
      any, then the send of the new notice and, when an online send fails
      and the status was not already offline, the send of the offline notice. */
  lemma TransitionCalls(w: World, o: Outcome, r: Replies)
    requires IsTransition(w.vars, o)
    ensures Calls(w, o, r) ==
      Dropped(w.vars) + [SendCall(NoticeOf(o))]
      + (if o.Online? && !r.onlineSendOk && w.vars.lastStatus != Some(false) then [SendCall(OfflineNotice)] else [])
  {
  }

  /** A successful transition sets all three variables: the new status, the
      freshly sent message and the probed count, or `null` when offline; the
      new message holds the new notice (index.js:67-74, 100-107). */
  lemma TransitionPublishes(w: World, o: Outcome, r: Replies)
    requires IsTransition(w.vars, o) && SendOk(o, r)
    ensures Step(w, o, r).vars == Vars(Some(IsOnline(o)), Some(w.store.nextId), CountOf(o))
    ensures w.store.nextId in Step(w, o, r).store.messages
    ensures Step(w, o, r).store.messages[w.store.nextId] == NoticeOf(o)
    ensures w.store.Valid() ==> w.store.nextId !in w.store.messages
  {
  }

  /** A failed delete never blocks the send: the requests and the new
      variables of a transition do not depend on whether the delete went
      through; the old message is no longer tracked, and when its delete
      failed it stays in the channel, orphaned (index.js:58-65, 92-99). */
  lemma DeleteFailureNeverBlocksSend(w: World, o: Outcome, r: Replies, deleteOk: bool)
    requires IsTransition(w.vars, o)
    ensures Calls(w, o, r) == Calls(w, o, r.(deleteOk := deleteOk))
    ensures Step(w, o, r).vars == Step(w, o, r.(deleteOk := deleteOk)).vars
    ensures SendCall(NoticeOf(o)) in Calls(w, o, r)
    ensures Invariant(w) && w.vars.lastMessage.Some? ==>
      && Step(w, o, r).vars.lastMessage != w.vars.lastMessage
      && (!r.deleteOk && w.vars.lastMessage.value in w.store.messages ==>
            w.vars.lastMessage.value in Step(w, o, r).store.messages)
  {
    TransitionCalls(w, o, r);
    TransitionCalls(w, o, r.(deleteOk := deleteOk));
  }

  /** A changed count while online with a tracked message makes exactly one
      request, the edit; the count is recorded only if the edit goes through,
      otherwise nothing changes (index.js:75-87). */
  lemma CountChangeEdits(w: World, n: int, r: Replies)
    requires w.vars.lastStatus == Some(true) && w.vars.lastPlayerCount != Some(n)
    requires w.vars.lastMessage.Some?
    ensures var m := w.vars.lastMessage.value;
      Calls(w, Online(n), r) == [EditCall(m, OnlineNotice(n))]
    ensures var m := w.vars.lastMessage.value;
      var edited := r.editOk && m in w.store.messages;
      && Step(w, Online(n), r).vars == (if edited then w.vars.(lastPlayerCount := Some(n)) else w.vars)
      && Step(w, Online(n), r).store.messages ==
           (if edited then w.store.messages[m := OnlineNotice(n)] else w.store.messages)
  {
  }

  /** A failed edit is retried by the next tick: the variables are as before,
      so the same outcome asks for the same edit again (index.js:84-86). */
  lemma FailedEditRetries(w: World, n: int, r: Replies, next: Replies)
    requires w.vars.lastStatus == Some(true) && w.vars.lastPlayerCount != Some(n)
    requires w.vars.lastMessage.Some?
    requires !r.editOk || w.vars.lastMessage.value !in w.store.messages
    ensures Step(w, Online(n), r).vars == w.vars
    ensures Calls(Step(w, Online(n), r), Online(n), next) == [EditCall(w.vars.lastMessage.value, OnlineNotice(n))]
  {
    CountChangeEdits(w, n, r);
    CountChangeEdits(Step(w, Online(n), r), n, next);
  }

  /** A failed online send falls into the offline handler (index.js:64, 68,
      89-91): the tracked message is already forgotten; the offline notice is
      sent only if the status was not already offline, and only its success
      changes the status. */
  lemma OnlineSendFailureFallsThrough(w: World, n: int, r: Replies)
    requires w.vars.lastStatus != Some(true) && !r.onlineSendOk
    ensures Calls(w, Online(n), r) ==
      Dropped(w.vars) + [SendCall(OnlineNotice(n))]
      + (if w.vars.lastStatus != Some(false) then [SendCall(OfflineNotice)] else [])
    ensures Step(w, Online(n), r).vars ==
      if w.vars.lastStatus != Some(false) && r.offlineSendOk
      then Vars(Some(false), Some(w.store.nextId), None)
      else w.vars.(lastMessage := None)
  {
    TransitionCalls(w, Online(n), r);
  }

  /** When the offline send itself fails, the tick ends with the tracked
      message forgotten and the status and count as they were (index.js:101). */
  lemma OfflineSendFailureKeepsStatus(w: World, r: Replies)
    requires w.vars.lastStatus != Some(false) && !r.offlineSendOk
    ensures Step(w, Failed, r).vars == w.vars.(lastMessage := None)
    ensures Calls(w, Failed, r) == Dropped(w.vars) + [SendCall(OfflineNotice)]
  {
    TransitionCalls(w, Failed, r);
  }

  /** A tick deletes at most one message, and a tick that edits makes no other request. */
  lemma AtMostOneDelete(w: World, o: Outcome, r: Replies)
    ensures var c := Calls(w, o, r);
      forall i, j :: 0 <= i < j < |c| ==> !(c[i].DeleteCall? && c[j].DeleteCall?)
    ensures var c := Calls(w, o, r);
      forall i :: 0 <= i < |c| && c[i].EditCall? ==> |c| == 1
  {
    if IsTransition(w.vars, o) {
      TransitionCalls(w, o, r);
    } else if Idle(w.vars, o) {
      IdleTickChangesNothing(w, o, r);
    } else {
      CountChangeEdits(w, o.players, r);
    }
  }

  /** A tick on the availability already believed sends and deletes nothing
      (it can only edit) and keeps that availability. */
  lemma SameAvailabilityOnlyEdits(w: World, o: Outcome, r: Replies)
    requires w.vars.lastStatus == Some(IsOnline(o))
    ensures Step(w, o, r).vars.lastStatus == w.vars.lastStatus
    ensures forall c :: c in Calls(w, o, r) ==> c.EditCall?
  {
    if !Idle(w.vars, o) {
      CountChangeEdits(w, o.players, r);
    }
  }

  /** Consecutive ticks, each with the outcome of its probe and the replies of the channel. */
  function Run(w: World, ticks: seq<(Outcome, Replies)>): (w': World)
    decreases |ticks|
    ensures w.store.log <= w'.store.log
    ensures Invariant(w) ==> Invariant(w')
    ensures CountMatchesStatus(w.vars) ==> CountMatchesStatus(w'.vars)
    ensures w.vars.lastStatus.Some? ==> w'.vars.lastStatus.Some?
  {
    if ticks == [] then w else Run(Step(w, ticks[0].0, ticks[0].1), ticks[1..])
  }

  /** The requests made by a run of ticks. */
  function RunCalls(w: World, ticks: seq<(Outcome, Replies)>): seq<Call>
  {
    Run(w, ticks).store.log[|w.store.log|..]
  }

  /** The requests of a run are those of its first tick followed by those of the rest. */
  lemma RunCallsUnfold(w: World, ticks: seq<(Outcome, Replies)>)
    requires ticks != []
    ensures RunCalls(w, ticks) ==
      Calls(w, ticks[0].0, ticks[0].1) + RunCalls(Step(w, ticks[0].0, ticks[0].1), ticks[1..])
  {
    var w1 := Step(w, ticks[0].0, ticks[0].1);
    var log0, log1, log2 := w.store.log, w1.store.log, Run(w, ticks).store.log;
    assert log2 == Run(w1, ticks[1..]).store.log;
    assert log2[|log0|..] == log1[|log0|..] + log2[|log1|..];
  }

  /** Repeating an outcome while idle never makes a request: the state stays as it is. */
  lemma {:induction false} IdleRunChangesNothing(w: World, o: Outcome, ticks: seq<(Outcome, Replies)>)
    requires Idle(w.vars, o)
    requires forall i :: 0 <= i < |ticks| ==> ticks[i].0 == o
    ensures Run(w, ticks) == w
    decreases |ticks|
  {
    if ticks != [] {
      IdleTickChangesNothing(w, o, ticks[0].1);
      IdleRunChangesNothing(w, o, ticks[1..]);
    }
  }

  /** Once a transition has been published, further ticks with the same
      outcome make no request at all. */
  lemma PublishedOutcomeSettles(w: World, o: Outcome, r: Replies, ticks: seq<(Outcome, Replies)>)
    requires IsTransition(w.vars, o) && SendOk(o, r)
    requires forall i :: 0 <= i < |ticks| ==> ticks[i].0 == o
    ensures Run(Step(w, o, r), ticks) == Step(w, o, r)
    ensures RunCalls(Step(w, o, r), ticks) == []
  {
    TransitionPublishes(w, o, r);
    IdleRunChangesNothing(Step(w, o, r), o, ticks);
  }

  /** No new message per tick once a transition is published: while every
      probe agrees with the believed availability, no message is posted and
      none is deleted, whatever the channel replies; only edits, which carry
      the same role-mention text, are made, and the availability is kept. */
  lemma {:induction false} NoRepostWhileAvailabilityHolds(w: World, b: bool, ticks: seq<(Outcome, Replies)>)
    requires w.vars.lastStatus == Some(b)
    requires forall i :: 0 <= i < |ticks| ==> IsOnline(ticks[i].0) == b
    ensures Run(w, ticks).vars.lastStatus == Some(b)
    ensures forall c :: c in RunCalls(w, ticks) ==> c.EditCall?
    decreases |ticks|
  {
    if ticks != [] {
      var w1 := Step(w, ticks[0].0, ticks[0].1);
      SameAvailabilityOnlyEdits(w, ticks[0].0, ticks[0].1);
      NoRepostWhileAvailabilityHolds(w1, b, ticks[1..]);
      RunCallsUnfold(w, ticks);
    }
  }
}
