# Minecraft server status bot: the status reconciler

The bot probes a Minecraft server once per second and keeps one status
message in a Discord channel in step with what it sees. `checkServer` in
`index.js` tracks three module-level variables: `lastStatus`, `lastMessage`
and `lastPlayerCount`. On each tick it decides one of three things:

- replace the message: delete the old one as best it can, then send a new one
  with a role mention;
- edit the message in place, when the player count changed while online;
- do nothing.

This project models that tick and proves what it guarantees.

- `wrappers.dfy`: `Option`, standing for JavaScript `null`.
- `store.dfy`: the channel as a small fallible message store. Each of delete,
  send and edit may fail. Whether it does is an input. A delete or edit of a
  message that is no longer in the channel also fails. The store keeps a log of
  the requests it received. There are pure functions (`DeleteMessage`,
  `SendMessage`, `EditMessage`) and a `Channel` class whose methods follow them.
- `reconcile.dfy`: the tick. `Step` is the tick as a pure function of the
  variables, the channel, the probe outcome and the channel's replies. It keeps
  the source's shape: the online branch of the outer `try`, the `catch`
  handler, and the shared delete-then-send transition. `Reconciler` is a class
  with the three variables as fields. Its method `Tick` runs the branches step
  by step, as the source does, and is proved to end in the state `Step`
  computes. `Tick` also keeps the invariant `Invariant`.
- `properties.dfy`: lemmas about one tick and about `Run`, a sequence of ticks.

The probe becomes an input `Outcome`: `Online(players)` or `Failed`.
`Failed` stands for any error thrown before the branches run: a rejection of `status(...)` or a failure to read `result.players.online` (index.js:53-55). The channel's replies
become an input `Replies` with one answer for each request a tick may make:
the delete, the online send (index.js:68), the edit, and the offline send
(index.js:101). A tick makes at most one delete, so a single delete answer is
enough (`AtMostOneDelete`).

What `checkServer` does and does not do:

- There is no scan of channel history at start-up and no guard against overlapping runs.
- A failed edit is not turned into a replace. The next tick tries the same edit again.
- The role mention is the text content of every send and of every edit. There is no separate alert message.
- A transition forgets the tracked message before it sends. So after a failed send no message is tracked.
- The outer `try` also wraps the online send. A failed online send therefore falls through to the offline handler.

## Model

| member | source | states |
|---|---|---|
| Store.DeleteMessage | index.js:60 | A delete succeeds exactly when the request goes through and the message is still in the channel. Only then is the message removed. The request is logged and identifiers stay fresh. |
| Store.SendMessage | index.js:68-71 | A send returns a handle exactly when it goes through. The handle is a fresh identifier that now holds the notice. A failed send posts nothing. The request is logged. |
| Store.EditMessage | index.js:79-82 | An edit succeeds exactly when the request goes through and the message is still there. Only then is the payload replaced. The request is logged. |
| Store.Channel.Delete | index.js:60-94 | The delete at index.js:60 and at index.js:94. The channel object's delete ends in the state `DeleteMessage` gives and returns its success flag. |
| Store.Channel.Send | index.js:68-104 | The send at index.js:68-71 and at index.js:101-104. The channel object's send ends in the state `SendMessage` gives and returns its handle. |
| Store.Channel.Edit | index.js:79-82 | The channel object's edit ends in the state `EditMessage` gives and returns its success flag. |
| Reconcile.Publish | index.js:58-74 | The transition step shared with index.js:92-107. It deletes the tracked message if there is one, then sends the new notice, and succeeds exactly when the send does. On success the three variables describe the new notice, held by a fresh message. On failure no message is tracked and status and count are unchanged. Whole-tick forms: `TransitionCalls`, `TransitionPublishes`. |
| Reconcile.OnlineBranch | index.js:54-88 | The body of the outer `try` throws exactly when it takes the transition and the online send fails. It then leaves no message tracked. Believed online, it keeps the status and the tracked message. It makes one edit when the count changed and a message is tracked, and otherwise no request. The count ends as before or as the probed one. Whole-tick forms: `CountChangeEdits`, `OnlineSendFailureFallsThrough`. |
| Reconcile.OfflineBranch | index.js:89-108 | The `catch` handler does nothing when the status is already offline. Otherwise it makes the delete (if a message is tracked) and the offline send. It ends offline with the new message on success, and on failure with no message tracked and the status as before. Whole-tick form: `OfflineSendFailureKeepsStatus`. |
| Reconcile.Step | index.js:51-110 | One tick only appends to the request log. It preserves the invariant: the count is set exactly while online, and a tracked message still in the channel shows the believed status and count. Once a status is known it never goes back to `null`. |
| Reconcile.Reconciler.constructor | index.js:17-19 | The three variables start as `null`, and the invariant holds. |
| Reconcile.Reconciler.Tick | index.js:51-110 | Running the branches step by step over the fields and the channel ends exactly in the state `Step` gives, and the invariant is kept. |
| Properties.FirstTickPublishes | index.js:17-19 | With nothing known, the first request is the send of the outcome's notice. If that send succeeds, all three variables describe the new notice. If an online send fails, the offline notice is sent next. |
| Properties.IdleTickChangesNothing | index.js:57 | Online with the same count, online with a changed count but no tracked message, or offline after offline: no request is made and nothing changes. |
| Properties.NoCallsIffIdle | index.js:57-91 | A tick makes no request if and only if it is idle in the sense above. |
| Properties.TransitionCalls | index.js:57-104 | Covers both transitions, online at index.js:57-71 and offline at index.js:91-104. A transition makes these requests, in order: the delete of the tracked message if there is one, the send of the new notice, and the offline send when an online send failed and the status was not already offline. |
| Properties.TransitionPublishes | index.js:67-74 | After a successful transition, `lastStatus` is the new availability and `lastMessage` is the freshly sent message. `lastPlayerCount` is the probed count when online and `null` when offline. The new message holds the new notice. |
| Properties.DeleteFailureNeverBlocksSend | index.js:58-65 | A transition's requests and resulting variables do not depend on whether the delete succeeds. The send is always attempted and the old message is always dropped from tracking. A message whose delete failed stays in the channel, untracked. |
| Properties.CountChangeEdits | index.js:75-87 | A changed count while online with a tracked message makes exactly one request: the edit. The count is recorded only if the edit succeeds. Otherwise nothing changes. |
| Properties.FailedEditRetries | index.js:84-86 | After a failed edit the variables are unchanged, so the next tick with the same outcome asks for the same edit again. |
| Properties.OnlineSendFailureFallsThrough | index.js:64-68 | A failed online send leads into the offline handler. The tracked message is already gone. The offline notice is sent only if the status was not already offline, and only its success changes the status. |
| Properties.OfflineSendFailureKeepsStatus | index.js:100-107 | When the offline send fails, the tick ends with no tracked message and the status and count as they were. |
| Properties.AtMostOneDelete | index.js:51-110 | A tick deletes at most one message. A tick that edits makes no other request. |
| Properties.SameAvailabilityOnlyEdits | index.js:75-88 | A tick whose probe agrees with the believed availability sends nothing, deletes nothing, and keeps the availability. |
| Properties.Run | index.js:112-113 | Any sequence of ticks keeps the invariant and only appends to the request log. |
| Properties.IdleRunChangesNothing | index.js:57 | Repeating an outcome while idle, for any number of ticks, makes no request and changes no state. |
| Properties.PublishedOutcomeSettles | index.js:72-75 | Once a transition is published, further ticks with the same outcome make no request at all. |
| Properties.NoRepostWhileAvailabilityHolds | index.js:57 | While every probe agrees with the believed availability, no new message is posted and none is deleted, whatever the channel replies. Only edits are made, and the availability is kept. |

## Left out

- The Express health-check web server (index.js:6-8): HTTP I/O with no logic.
- Discord client construction, login, the `ready` handler and the channel fetch (index.js:10-12, 21-24, 116): session plumbing. The model starts from a `Channel` already in hand.
- The `minecraft-server-util` probe (index.js:53): a network call. Its result is the `Outcome` input, and every kind of rejection is `Failed`.
- The embed builders (index.js:26-49): only availability and player count are kept, as `Notice`. Title, colours, thumbnail, timestamp, footer and the role-mention text are not modelled.
- `setInterval` scheduling (index.js:112-113): there is no guard against overlapping async runs. Each tick is atomic, and a run of ticks is the sequence `Run` folds over.
- Store.SendMessage: a send whose promise rejects is taken to post nothing. A request that times out may in fact have posted its message, leaving an untracked extra message. No proved property depends on this.
- Platform notification behaviour is not modelled. Every edit carries the role-mention text, and whether Discord notifies again on an edit is outside the model. `NoRepostWhileAvailabilityHolds` states only that no new message is posted.
- Log output (`console.warn`) is not modelled: it is only a side effect.
- The unhandled promise rejection when the offline send fails (index.js:101) is not modelled as process behaviour. The tick just ends with the state as the handler left it.
- Messages deleted by someone else between ticks are not modelled as an operation. The invariant allows for them: it constrains the tracked message only while it is still in the channel.
- JavaScript numbers are modelled as unbounded integers. Player counts are compared exactly, like `!==`.
