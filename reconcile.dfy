/**
 * The status reconciler of index.js: the three module-level variables
 * (index.js:17-19) and one run of `checkServer` (index.js:51-110).
 *
 * `Step` is the tick as a function of the variables, the channel and the
 * outcome of the probe; `Reconciler.Tick` is the same tick written the way
 * the source does it, step by step over mutable fields, and is proved to
 * agree with `Step`.
 */
module Reconcile {
  import opened Wrappers
  import opened Store

  /** What `status(SERVER_IP, 25565)` produced: a reply carrying
      `players.online`, or a rejection of any kind. */
  datatype Outcome = Online(players: int) | Failed

  /** Whether each channel request that the tick may make goes through.
      A tick deletes at most one message (proved in `Properties.AtMostOneDelete`),
      so one answer serves both delete sites. */
  datatype Replies = Replies(deleteOk: bool, onlineSendOk: bool, editOk: bool, offlineSendOk: bool)

  /** `lastStatus`, `lastMessage`, `lastPlayerCount`; `None` is JavaScript's `null`. */
  datatype Vars = Vars(lastStatus: Option<bool>, lastMessage: Option<MessageId>, lastPlayerCount: Option<int>)

  /** The variables together with the channel they refer to. */
  datatype World = World(vars: Vars, store: StoreState)

  /** The values at index.js:17-19. */
  const Initial := Vars(None, None, None)

  /** The availability the tick concludes from the probe: a failed probe is offline. */
  function IsOnline(o: Outcome): bool { o.Online? }

  /** The notice the tick publishes for an outcome (index.js:67, 100). */
  function NoticeOf(o: Outcome): Notice {
    match o
    case Online(n) => OnlineNotice(n)
    case Failed => OfflineNotice
  }

  /** The value `lastPlayerCount` takes once that notice is published (index.js:74, 107). */
  function CountOf(o: Outcome): Option<int> {
    match o
    case Online(n) => Some(n)
    case Failed => None
  }

  /** `lastPlayerCount` is set exactly while the server is believed online. */
  predicate CountMatchesStatus(v: Vars) {
    v.lastPlayerCount.Some? <==> v.lastStatus == Some(true)
  }

  /** The variables describe what notice `n` displays. */
  predicate Shows(v: Vars, n: Notice) {
    match n
    case OnlineNotice(k) => v.lastStatus == Some(true) && v.lastPlayerCount == Some(k)
    case OfflineNotice => v.lastStatus == Some(false)
  }

  /** The invariant every tick keeps: the count invariant; a tracked message
      was handed out by the channel after a status was known; and if the
      tracked message is still in the channel, it shows the believed state. */
  predicate Invariant(w: World) {
    && CountMatchesStatus(w.vars)
    && w.store.Valid()
    && (w.vars.lastMessage.Some? ==>
          && w.vars.lastStatus.Some?
          && w.vars.lastMessage.value < w.store.nextId
          && (w.vars.lastMessage.value in w.store.messages ==>
                Shows(w.vars, w.store.messages[w.vars.lastMessage.value])))
  }

  /** The delete request a transition makes for the tracked message, if any. */
  function Dropped(v: Vars): seq<Call> {
    if v.lastMessage.Some? then [DeleteCall(v.lastMessage.value)] else []
  }

  /** The transition branch shared by both handlers (index.js:58-74 and
      92-107): delete the tracked message if there is one, ignoring failure,
      forget it, then send the new notice; only a successful send records the
      new status. The flag says whether the send went through. */
  function Publish(w: World, n: Notice, deleteOk: bool, sendOk: bool): (r: (World, bool))
    ensures r.1 <==> sendOk
    ensures r.0.store.log == w.store.log + Dropped(w.vars) + [SendCall(n)]
    ensures r.1 ==>
      && r.0.vars == Vars(Some(n.OnlineNotice?), Some(w.store.nextId), if n.OnlineNotice? then Some(n.players) else None)
      && w.store.nextId in r.0.store.messages && r.0.store.messages[w.store.nextId] == n
    ensures !r.1 ==> r.0.vars == w.vars.(lastMessage := None) && r.0.store.nextId == w.store.nextId
  {
    var w1 :=
      if w.vars.lastMessage.Some? then
        World(w.vars.(lastMessage := None), DeleteMessage(w.store, w.vars.lastMessage.value, deleteOk).0)
      else w;
    var sent := SendMessage(w1.store, n, sendOk);
    if sent.1.Some? then
      (World(Vars(Some(n.OnlineNotice?), sent.1, if n.OnlineNotice? then Some(n.players) else None), sent.0), true)
    else
      (World(w1.vars, sent.0), false)
  }

  /** The body of the outer `try` once the probe has answered (index.js:54-88).
      The flag says whether it threw, which happens only when the send at
      index.js:68 rejects: delete and edit failures are caught inside. */
  function OnlineBranch(w: World, players: int, r: Replies): (res: (World, bool))
    ensures res.1 <==> w.vars.lastStatus != Some(true) && !r.onlineSendOk
    ensures res.1 ==> res.0.vars == w.vars.(lastMessage := None) && res.0.store.nextId == w.store.nextId
    ensures w.vars.lastStatus == Some(true) ==>
      && res.0.vars.lastStatus == Some(true) && res.0.vars.lastMessage == w.vars.lastMessage
      && res.0.store.log == w.store.log +
           (if Some(players) != w.vars.lastPlayerCount && w.vars.lastMessage.Some?
            then [EditCall(w.vars.lastMessage.value, OnlineNotice(players))] else [])
      && (res.0.vars.lastPlayerCount == w.vars.lastPlayerCount || res.0.vars.lastPlayerCount == Some(players))
  {
    if w.vars.lastStatus != Some(true) then
      var p := Publish(w, OnlineNotice(players), r.deleteOk, r.onlineSendOk);
      (p.0, !p.1)
    else if Some(players) != w.vars.lastPlayerCount then
      if w.vars.lastMessage.Some? then
        var e := EditMessage(w.store, w.vars.lastMessage.value, OnlineNotice(players), r.editOk);
        (World(if e.1 then w.vars.(lastPlayerCount := Some(players)) else w.vars, e.0), false)
      else (w, false)
    else (w, false)
  }

  /** The `catch` handler (index.js:89-108). When its own send rejects the
      promise of `checkServer` is left unhandled; the tick ends with the
      state as the handler left it. */
  function OfflineBranch(w: World, r: Replies): (w': World)
    ensures w.vars.lastStatus == Some(false) ==> w' == w
    ensures w.vars.lastStatus != Some(false) ==>
      && w'.store.log == w.store.log + Dropped(w.vars) + [SendCall(OfflineNotice)]
      && w'.vars == (if r.offlineSendOk then Vars(Some(false), Some(w.store.nextId), None)
                     else w.vars.(lastMessage := None))
  {
    if w.vars.lastStatus != Some(false) then
      Publish(w, OfflineNotice, r.deleteOk, r.offlineSendOk).0
    else w
  }

  /** One run of `checkServer`. */
  function Step(w: World, o: Outcome, r: Replies): (w': World)
    ensures w.store.log <= w'.store.log
    ensures Invariant(w) ==> Invariant(w')
    ensures CountMatchesStatus(w.vars) ==> CountMatchesStatus(w'.vars)
    ensures w.vars.lastStatus.Some? ==> w'.vars.lastStatus.Some?
  {
    match o
    case Failed => OfflineBranch(w, r)
    case Online(n) =>
      var t := OnlineBranch(w, n, r);
      if t.1 then OfflineBranch(t.0, r) else t.0
  }

  /** The requests one tick makes, in order. */
  function Calls(w: World, o: Outcome, r: Replies): seq<Call>
  {
    Step(w, o, r).store.log[|w.store.log|..]
  }

  /** The module-level state of index.js together with the channel it posts to. */
  class Reconciler {
    var lastStatus: Option<bool>
    var lastMessage: Option<MessageId>
    var lastPlayerCount: Option<int>
    const channel: Channel

    ghost function State(): World
      reads this, channel
    {
      World(Vars(lastStatus, lastMessage, lastPlayerCount), channel.State())
    }

    ghost predicate Valid()
      reads this, channel
    {
      Invariant(State())
    }

    /** Connects to a channel, with the initial values of index.js:17-19. */
    constructor (channel: Channel)
      requires channel.State().Valid()
      ensures this.channel == channel
      ensures State() == World(Initial, channel.State())
      ensures Valid()
    {
      this.channel := channel;
      lastStatus, lastMessage, lastPlayerCount := None, None, None;
    }

    /** `checkServer()` given the probe's outcome and the replies of the channel. */
    method Tick(o: Outcome, r: Replies)
      requires Valid()
      modifies this, channel
      ensures State() == Step(old(State()), o, r)
      ensures Valid()
    {
      var threw := false;
      match o {
        case Failed =>
          threw := true;
        case Online(playerCount) =>
          if lastStatus != Some(true) {
            if lastMessage.Some? {
              var deleted := channel.Delete(lastMessage.value, r.deleteOk);
              lastMessage := None;
            }
            var msg := channel.Send(OnlineNotice(playerCount), r.onlineSendOk);
            if msg.Some? {
              lastMessage := msg;
              lastStatus := Some(true);
              lastPlayerCount := Some(playerCount);
            } else {
              threw := true;
            }
          } else if Some(playerCount) != lastPlayerCount {
            if lastMessage.Some? {
              var edited := channel.Edit(lastMessage.value, OnlineNotice(playerCount), r.editOk);
              if edited {
                lastPlayerCount := Some(playerCount);
              }
            }
          }
      }
      if threw {
        if lastStatus != Some(false) {
          if lastMessage.Some? {
            var deleted := channel.Delete(lastMessage.value, r.deleteOk);
            lastMessage := None;
          }
          var msg := channel.Send(OfflineNotice, r.offlineSendOk);
          if msg.Some? {
            lastMessage := msg;
            lastStatus := Some(false);
            lastPlayerCount := None;
          }
        }
      }
    }
  }
}
