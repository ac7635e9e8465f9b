# Hotki core, verified

A Dafny model of the stateful middle of the hotki hotkey engine and of its
delivery lanes, with proofs about whole runs and arbitrary interleavings.
`dafny verify dfyconfig.toml` checks it.

| modules | what they model |
|---|---|
| `UiDelivery`, `UiDeliveryList`, `UiDeliveryRuns`, `UiDeliveryLosses`, `UiDeliveryWaits`, `UiDeliveryClose` | the UI mailbox, the plain list it refines, its runs and what they may lose, its runs with waiting senders, and its close under them |
| `Keys`, `KeyBinding` | chords; the binding manager and the hotkey API it drives |
| `Modes`, `StackRendering`, `Runtime`, `Refresh`, `Sessions` | the mode stack, its rendering and what that means, the runtime state, the refresh transaction, and mode sessions over whole runs |
| `Polling` | on-demand refresh of the polling world |
| `FocusReplica` | world events and the focus cache of the engine |
| `KeyGestures` | held keys, releases and HUD key messages |
| `Dispatching`, `Effects` | dispatch results, effect queues and auto-exit |
| `HudPress` | the cache of pressed HUD rows |
| `ProcessRuns`, `ProcessStops`, `ProcessReturns`, `ProcessPromise` | process runs, tickers and stops; when a stop can be relied on; that it returns; at most one process per id |
| `SelectorWindow`, `Highlight` | the selection and its window, and the highlighting of labels |
| `BoundedCapture` | bounded capture of process output |

## How it is built

Code that changes fields in place is a class whose methods are held to functions
on the value of those fields; the properties are proved about the functions and
about runs of them. The table below lists the properties; a method that is held to
such a function branch by branch stands beside it in its module.

Protocols between tasks (`Polling`, `FocusReplica`, `ProcessRuns`,
`UiDeliveryWaits`, `UiDeliveryClose`) are state machines whose steps are the code
between two points at which another task can run. The server drives the engine on
a current-thread runtime (crates/hotki-server/src/server.rs:263), so in
`FocusReplica` and `ProcessRuns` those points are the awaits; in `Polling` every
access to shared state is a step of its own, and around the mailbox it is what
happens under one hold of its lock, or without it.

What the code does not decide is left open: hash iteration order, failing
removals, the outcome of every send, what Luau modes and handlers compute, when a
process exits, which select branch runs.

## Results that differ from what the code or its comments say

* `ui_delivery.rs:232` expects the snapshot it read to be there "while locked", but
  waiting for space releases the lock. `UiDeliveryWaits.ExpectFails` reaches the
  failing `expect` from an empty mailbox; `KeepsPlaceIffRoom` says exactly when
  neither that nor overtaking can happen: when the send finds room for all pending
  snapshots and itself.
* Dropping the receiver of the mailbox does not release every waiting sender: the
  flag and the notification can fall between a sender's look at the flag and its
  wait (`UiDeliveryClose.SenderIsStranded`). `ReturnsAfterCloseIff` says that this is
  the only way.
* `repeater.rs` promises at most one process in flight per id. That holds per run
  state (`ProcessRuns.AtMostOneRun`); two presses of a one-shot key overlap
  (`TwoPressesOverlap`). `ProcessPromise.StepKeepsPromiseIff` and
  `RunKeepsPromiseIff` say exactly which steps and runs keep the promise;
  `OneActiveRunPerId` gives a condition on stops that suffices.
* A stop of a held key can return while a cancelled ticker of its state still ticks
  (`ProcessRuns.HeldKeyCanBeStoppedTwice`). `ProcessStops.StopIsReliableIff` says
  exactly when it cannot: when every live ticker of the state is the one in the map
  as the stop begins. An earlier stop, or an OS repeat, may have left another.
* A failed rebind does not always put the runtime back. If the refresh before it
  cut a mode off the stack, the root was rendered for a depth that no longer
  holds, and the rollback renders it again (`Sessions.TruncatedRefreshIsVisible`).
  `FailedRebindRestoresIff` says exactly when it does.
* A submenu binding marked `global` is inherited by child modes
  (crates/config/src/script/types.rs:337-338), listed, registered and entered from
  there, but the next rendering cuts it off, because only the frame below it is
  searched for its entry (`Sessions.InheritedSubmenuIsDropped`).
  `StackRendering.SubmenuOpensIff` says exactly which submenus open.
* A visible HUD does not imply a session (`Sessions.HudOutlivesSession`,
  `HudHasSessionIff`).
* `dispatch.rs:255` acts on OS repeats when they are allowed, but nothing ever
  allows them (`KeyGestures.NoRunActsOnRepeats`).
* At 2^32 - 1 matches the selector window comes out short
  (`SelectorWindow.WindowFallsShort`); `Window` states exactly when.

## Model

| member | source | states |
|---|---|---|
| `UiDeliveryRuns.MailboxRefinesList` | crates/hotki-app/src/ui_delivery.rs:197-279 | For every run of sends and receives in which no control finds the list full, the mailbox (lane, seven slots, sequence numbers) delivers the same events, gives the same answers and holds the same pending events as one plain list in which a snapshot deletes the earlier snapshot of its class behind the last ordered event; no send waits and delivered sequences strictly increase |
| `UiDeliveryRuns.CoalescingIsUnobservable` | crates/hotki-app/src/ui_delivery.rs:208-241 | When an ordered event is delivered, the last delivered value of every snapshot class is the last one sent before that event; after a drain every class has its last sent value |
| `UiDeliveryRuns.SendsAreAccountedFor` | crates/hotki-app/src/ui_delivery.rs:197-242 | Sends = delivered + lane + slots + coalesced + dropped logs; the lane holds at most 256 and the slots at most 7 |
| `UiDeliveryLosses.OnlySupersededAreLost` | crates/hotki-app/src/ui_delivery.rs:208-241 | In every such run, every event that was taken in is delivered, pending, or a snapshot behind which a later one of its class was sent with no ordered event in between |
| `UiDeliveryLosses.SlotIsKind` | crates/hotki-app/src/ui_delivery.rs:90-108 | Two messages share a slot if and only if they are snapshots of one constructor, or both about the selector; log lines, and nothing else, may be dropped |
| `UiDeliveryLosses.RefusedIffClosed` | crates/hotki-app/src/ui_delivery.rs:197-207 | A send that does not find the receiver gone is never refused; one that does leaves the mailbox alone |
| `UiDeliveryWaits.BalancedUnderWaits` | crates/hotki-app/src/ui_delivery.rs:197-257 | The same accounts, with waiting, refused and failed senders added, and the same bounds, hold in every interleaving of any number of senders that wait and are woken, receives, and the close |
| `UiDeliveryWaits.KeepsPlaceIffRoom` | crates/hotki-app/src/ui_delivery.rs:219-257 | In every state that any interleaving of sends, waits, wake-ups and receives reaches: an ordered event, control or log, is taken in and keeps its place, whatever other senders and the receiver do afterwards, if and only if its send finds room for every pending snapshot and itself |
| `UiDeliveryWaits.RoomKeepsPlace` | crates/hotki-app/src/ui_delivery.rs:219-241 | The half for controls and logs that find room, whoever is waiting already |
| `UiDeliveryWaits.MissedSnapshot` | crates/hotki-app/src/ui_delivery.rs:227-237 | While a send waits with a snapshot to flush, one more message of that class and enough receives make the `expect` on that snapshot fail |
| `UiDeliveryWaits.ExpectFails` | crates/hotki-app/src/ui_delivery.rs:227-237 | From an empty mailbox: 256 controls, a HUD update and one more control lead to a run in which the `expect` fails |
| `UiDeliveryWaits.Overtaken` | crates/hotki-app/src/ui_delivery.rs:239-257 | A waiting send with nothing left to flush is overtaken by a control sent after a receive has made room |
| `UiDeliveryClose.ReturnsAfterCloseIff` | crates/hotki-app/src/ui_delivery.rs:249-256 | After the receiver is dropped a send can always still be brought to its return if and only if it was not between its look at the flag and its wait when the waiters were notified |
| `UiDeliveryClose.AllReturnAfterCloseIff` | crates/hotki-app/src/ui_delivery.rs:287-291 | All sends can, if and only if none was |
| `UiDeliveryClose.SenderIsStranded` | crates/hotki-app/src/ui_delivery.rs:249-253 | From an empty mailbox: a run that leaves a sender waiting for a receiver that is gone |
| `UiDeliveryList.SendWaitsIffFull` | crates/hotki-app/src/ui_delivery.rs:219-257 | A send waits exactly if it is a control and lane and slots together are at capacity, so an accepted log never waits; otherwise the sender is told what the plain list says |
| `UiDeliveryList.SendRefines` | crates/hotki-app/src/ui_delivery.rs:197-242 | Simulation step: a send that does not wait does to the represented list what a send does to the plain list |
| `UiDeliveryList.ReceiveRefines` | crates/hotki-app/src/ui_delivery.rs:267-279 | Simulation step: a receive takes the head of the represented list |
| `UiDeliveryList.FlushWithRoom` | crates/hotki-app/src/ui_delivery.rs:227-241 | With room for all of it, the flush moves every snapshot in sequence order and then pushes the event |
| `UiDeliveryList.FlushWithoutRoom` | crates/hotki-app/src/ui_delivery.rs:227-257 | Without room the flush stops with a full lane, waiting on the first snapshot that is left |
| `UiDelivery.UiMailbox.LeastSequence` | crates/hotki-app/src/ui_delivery.rs:111-125 | The least sequence of any retained snapshot |
| `UiDelivery.UiMailbox.TakeSnapshot` | crates/hotki-app/src/ui_delivery.rs:144-162 | Empties the first slot, in the fixed order of visit, that holds the sequence, and no other |
| `KeyBinding.KeyBindingManager.UpdateBindings` | crates/hotki-engine/src/key_binding.rs:47-126 | For every iteration order and every failing removal: success leaves exactly the desired identifier-to-chord map, failure exactly the old one; bindings and OS registrations agree; a binding whose chord stays keeps its id and is registered in every intermediate OS state |
| `KeyBinding.KeyBindingManager.TakeDown` | crates/hotki-engine/src/key_binding.rs:96-106 | Removals in any order up to the first refusal: what is still bound and what was noted add up to the old bindings |
| `KeyBinding.KeyBindingManager.RestoreBindings` | crates/hotki-engine/src/key_binding.rs:210-214 | Putting the noted removals back adds exactly their chords, under new ids |
| `KeyBinding.KeyBindingManager.PutUp` | crates/hotki-engine/src/key_binding.rs:108-112 | Registering a set of identifiers, in any order, adds exactly their desired chords |
| `KeyBinding.KeyBindingManager.RegisterBinding` | crates/hotki-engine/src/key_binding.rs:186-197 | Binds the identifier to a fresh registration; maps and OS stay in agreement if and only if the identifier was not bound |
| `KeyBinding.KeyBindingManager.BindingsMatch` | crates/hotki-engine/src/key_binding.rs:177-184 | The size-and-lookup test decides equality of the two maps |
| `KeyBinding.ResolveInverts` | crates/hotki-engine/src/key_binding.rs:145-174 | Resolving an id and looking up an identifier are inverse to each other, and an id resolves exactly if the OS has it |
| `KeyBinding.UpdatedChords` | crates/hotki-engine/src/key_binding.rs:55-112 | Removing what is gone or changed and registering what is new or changed yields the desired map |
| `Modes.RenderIsIdempotent` | crates/config/src/script/render.rs:46-97 | Rendering the result of a successful render again, in the same context, changes nothing, whatever the Luau modes compute |
| `Modes.RenderLeavesSettled` | crates/config/src/script/render.rs:54-82 | After a successful render every frame shows its mode, no child is empty, and every child can still be entered the way it was; the root survives |
| `Modes.SettledRendersSame` | crates/config/src/script/render.rs:54-82 | A stack that is settled renders to itself |
| `Modes.SameRenderIsSettled` | crates/config/src/script/render.rs:54-82 | Conversely, a stack that renders to itself is settled frame by frame |
| `Modes.FlatteningIsScoping` | crates/config/src/script/render.rs:183-208 | Looking a chord up in the flattened bindings is scoping: the first binding of the top frame, or else the first global one of the nearest parent that has one |
| `Modes.FlattenedIsDistinct` | crates/config/src/script/render.rs:183-208 | No chord is listed twice |
| `Modes.DedupKeepsFirst` | crates/config/src/script/render.rs:147-180 | Dropping duplicate chords of a mode keeps the first binding of each |
| `Modes.Render` | crates/config/src/script/render.rs:46-97 | The in-place loop with its two truncations leaves the stack and the output of `RenderStack`; what these are, frame by frame, is the next row |
| `StackRendering.RenderCutsOnlyForCause` | crates/config/src/script/render.rs:46-97 | Without an error every frame that stays has its title, mode, entry and sticky capture flag and shows the deduplicated view of its own mode; every child that stays has bindings and its entry on the frame below; and the stack is cut off at a frame only if its mode has no bindings or the frame below shows no mode binding with its chord and mode id. With an error nothing is cut off, and the frame whose mode failed and those above are untouched |
| `StackRendering.OutputDescribes` | crates/config/src/script/render.rs:84-97 | The output of a stack: its bindings in order, looked up by scoping; the HUD rows of those not hidden; the style of the configuration; the capture flag of the top frame |
| `StackRendering.FlatteningKeepsOrder` | crates/config/src/script/render.rs:183-208 | The flattened bindings are all in reach (the top frame, then the global ones of its parents, nearest first) with the first binding of each chord |
| `StackRendering.DedupPicksFirsts` | crates/config/src/script/render.rs:147-180 | Dropping duplicates keeps exactly the bindings with no earlier one of their chord, in order |
| `StackRendering.HudRowsAreTheVisible` | crates/config/src/script/render.rs:211-228 | The HUD rows are exactly the bindings that are not hidden, in order, with their chord, description, kind and stay flag |
| `StackRendering.SubmenuOpensIff` | crates/config/src/script/render.rs:66-82 | Entering a submenu and rendering leaves it open if and only if it has something to offer and its chord is one of the top frame's own, if that frame goes on showing what it shows |
| `Runtime.PopUndoesPush` | crates/hotki-engine/src/actions.rs:455-470 | A push puts the mode on top, shows the HUD and starts a session unless there is one; a pop takes exactly that frame back, and at the root ends the session and hides the HUD |
| `Runtime.PoppingAllExits` | crates/hotki-engine/src/actions.rs:449-488 | Going back as often as it takes to reach the root is the same as leaving at once |
| `Refresh.FailedRebindIsInvisible` | crates/hotki-engine/src/refresh.rs:245-281 | After a refresh that cut no mode off the stack, or had to recover, any failed rebind leaves the whole runtime as that refresh made it |
| `Refresh.FailedRebindRestoresIff` | crates/hotki-engine/src/refresh.rs:245-281 | A failed rebind puts the runtime of the refresh before it back if and only if that refresh had to recover, or every mode that survived it offers at its new depth what it offered at the old one, or the stack fails to render there |
| `Sessions.TruncatedRefreshIsVisible` | crates/hotki-engine/src/refresh.rs:259-281 | From the start: install a configuration, enter a mode with nothing to offer, refresh; the refresh succeeds and drops the mode, and a failed rebind after it leaves another runtime |
| `Refresh.PlanDescribesRuntime` | crates/hotki-engine/src/refresh.rs:32-90 | The bindings, capture flag and HUD of a plan are those of the runtime it leaves; session, selector and HUD flag are untouched |
| `Refresh.PlanListens` | crates/hotki-engine/src/refresh.rs:54-90 | For every plan: it captures every key if and only if a configuration is loaded and a selector is open, or the HUD is visible and the top frame of a stack that could be rendered asks for it; it registers the selector's chords or those in scope on that stack; without a selector its HUD says whether it captures |
| `Refresh.RefreshRenders` | crates/hotki-engine/src/refresh.rs:32-145 | What a refresh without a selector leaves: the window of the session or the live one; without errors the stack rendered as above; with one error the root alone, rendered at depth zero; with two the root as it was and nothing shown |
| `Refresh.InstallingShowsRoot` | crates/hotki-engine/src/refresh.rs:160-193 | An accepted configuration starts at its root alone, for the window it was given, without a selector, with a session exactly if the HUD stays up, and captures every key exactly if the HUD is up and the root asks for it |
| `Refresh.RegisteredIffResolvable` | crates/hotki-engine/src/refresh.rs:74-80 | The keys a refresh registers are those that mean something: a chord is registered, under its own identifier, if and only if it resolves to a binding |
| `Refresh.RefreshSettles` | crates/hotki-engine/src/refresh.rs:54-145 | A refresh that cuts no mode off, or recovers, reaches a fixed point of refreshing |
| `Refresh.RecoverySettles` | crates/hotki-engine/src/refresh.rs:106-145 | The same for the recovery policy: full stack, then root, then nothing |
| `Refresh.Engine.RebindAndRefresh` | crates/hotki-engine/src/refresh.rs:245-299 | Success: every key is captured if and only if a configuration is loaded and a selector is open, or the HUD is visible and the top frame of a stack that could be rendered asks for it; the registered chords are those of the selector or those in scope on the stack; the one HUD update sent shows the new runtime field by field, and its capture flag is the one in force unless a selector is open. Failure: bindings, capture flag, display cache and UI stream are unchanged |
| `Refresh.Engine.CommitConfig` | crates/hotki-engine/src/refresh.rs:195-225 | Success installs configuration, path, runtime, bindings, displays and one UI message; failure changes none of them |
| `Refresh.PrepareConfig` | crates/hotki-engine/src/refresh.rs:160-193 | A candidate is refused on any render error, otherwise its runtime and plan are those of a first refresh |
| `Sessions.EveryRunIsWellFormed` | crates/hotki-engine/src/actions.rs:449-488 | In every state that any run of navigation, mode entry, refreshes, failed refreshes, selector and configuration steps reaches: depth above zero implies a session, and the root frame of the configuration is at the bottom of the stack |
| `Sessions.SessionFixesWindow` | crates/hotki-engine/src/runtime.rs:106-126 | While one session lasts, the context window is its opening window for every live focus |
| `Sessions.RefreshSeesOpeningWindow` | crates/hotki-engine/src/refresh.rs:37-38 | Every refresh during a session renders for, and records, the opening window |
| `Sessions.HudHasSessionIff` | crates/hotki-engine/src/selector_controller.rs:189-199 | A step keeps "a visible HUD has a session" unless it closes a selector that hid the HUD of a session that has ended since |
| `Sessions.HudOutlivesSession` | crates/hotki-engine/src/selector_controller.rs:189-199 | A run that starts by installing a configuration and after which the HUD is visible without a session |
| `Sessions.CaptureIsAnnounced` | crates/hotki-engine/src/refresh.rs:74-157 | In every run: every key is captured only while the last HUD sent was visible and said so, or a selector was open; a HUD that claims capture is visible and the capture is on |
| `Sessions.EnteringOpensIff` | crates/hotki-engine/src/dispatch.rs:98-110 | From the keyboard: entering a mode binding in scope and refreshing without an error opens it exactly under the condition of `SubmenuOpensIff` |
| `Sessions.InheritedSubmenuIsDropped` | crates/config/src/script/render.rs:66-82 | From the start: a child in which an inherited chord means a submenu of the root; entering it and refreshing succeeds and leaves the child on top |
| `Polling.RefreshIsFresh` | crates/hotki-world/src/polling.rs:40-69 | In every interleaving of any number of callers with the loop: when a call has returned, the capture in the world started after its request; completed never exceeds requested; the interval never exceeds the larger bound |
| `Polling.NoWakeupIsLost` | crates/hotki-world/src/polling.rs:139-178 | In every interleaving: a loop asleep without a permit has left unread only requests whose callers have yet to notify; a caller asleep has a request that is not completed |
| `Polling.AnnouncedRequestsAreServed` | crates/hotki-world/src/polling.rs:40-69 | With the timer off and no other caller moving, every announced request is completed within eleven steps of the loop, and at most two steps of its caller later the call has returned |
| `Polling.EveryCallReturns` | crates/hotki-world/src/polling.rs:40-69 | The same for a call at any point: two steps of its own, eleven of the loop and two more of its own |
| `Polling.ReturnedIff` | crates/hotki-world/src/polling.rs:161-171 | In every interleaving: a call has returned if and only if it has made a check that found the completed generation at least its own |
| `Polling.IntervalFollowsRequests` | crates/hotki-world/src/polling.rs:40-69 | In every interleaving: the interval drops to the minimum exactly when the loop looks for a hint and a request stored one since it last looked, grows by ten up to the maximum at a tick without one, and else stays |
| `Polling.CompletedGrows` | crates/hotki-world/src/polling.rs:157-159 | The completed generation never decreases |
| `Polling.RequestIsThreeSteps` | crates/hotki-world/src/polling.rs:139-151 | The interleaved steps of a request add up to the uninterrupted call |
| `FocusReplica.DrainedCacheIsFocus` | crates/hotki-engine/src/world_sync.rs:15-68 | In every run of world updates, losses, resubscriptions and direct refreshes: when the subscription has read all there is, the cache is the focus of the world |
| `FocusReplica.EventsAreAccountedFor` | crates/hotki-world/src/events.rs:59-78 | Received + lost + pending events = events published since subscribing |
| `FocusReplica.DrainingConverges` | crates/hotki-engine/src/world_sync.rs:15-68 | If the world stands still, one step per pending event brings the cache up to date |
| `FocusReplica.PublishingIsFaithful` | crates/hotki-world/src/state.rs:67-108 | Publishing keeps "cache, then remaining events, lead to the world's focus" |
| `FocusReplica.RefreshIsFaithful` | crates/hotki-engine/src/world_sync.rs:133-137 | So does a direct refresh, however old the events still to be read |
| `FocusReplica.PublishedIff` | crates/hotki-world/src/state.rs:67-108 | An update publishes a displays event exactly if the displays changed, and behind it a focus event with the new focus exactly if the focused window or its snapshot did |
| `FocusReplica.LagLosesTheExcess` | crates/hotki-world/src/events.rs:59-78 | A receiver falls behind exactly with more than 256 events pending, loses exactly the excess, and is told how much |
| `KeyGestures.MessagesAlternate` | crates/hotki-engine/src/dispatch.rs:232-290 | Over every run of presses, repeats, releases, injected events and rebinds, the HUD messages of an identifier are press, release, press, release, each pair with one chord |
| `KeyGestures.MessagesAreOwed` | crates/hotki-engine/src/dispatch.rs:52-72 | Which messages these are: in every run a step sends a press, with its chord, if and only if it is a non-repeat key-down that finds the key up, wants feedback, is not taken by a selector and finds room and the UI open; and a release, with the chord of that press, if and only if it is the first key-up since such a press and the UI is open |
| `KeyGestures.ReleaseFindsItsPress` | crates/hotki-engine/src/dispatch.rs:177-203 | A release, and every repeat before it, belongs to the binding its press resolved to, however bindings have changed since |
| `KeyGestures.HeldComesFromPress` | crates/hotki-engine/src/dispatch.rs:177-203 | A binding is kept for an id only because of such a press, undisturbed since |
| `KeyGestures.NoRunActsOnRepeats` | crates/hotki-engine/src/dispatch.rs:242-260 | No run acts on an OS repeat: permission to do so is only ever withdrawn |
| `HudPress.ActiveMatchesHistory` | crates/hotki-app/src/hud.rs:81-130 | For times that never decrease and a fixed minimum, a row is active if and only if its key is held, or a gesture of it that has not been purged started less than the minimum ago, over the whole event history |
| `HudPress.HistoriesWithoutExpireAgree` | crates/hotki-app/src/hud.rs:119-122 | Leaving an expiry out of a history changes no later answer |
| `HudPress.ExpireIsUnseen` | crates/hotki-app/src/hud.rs:119-122 | Expiring changes no answer from its own time on |
| `HudPress.NothingFlipsBefore` | crates/hotki-app/src/hud.rs:132-139 | No answer changes before the next deadline, or ever if there is none |
| `HudPress.SomethingFlipsAt` | crates/hotki-app/src/hud.rs:132-139 | At the next deadline some key that showed until then stops showing |
| `HudPress.HudPressState.NextDeadline` | crates/hotki-app/src/hud.rs:132-139 | The loop finds the least deadline still to come |
| `ProcessRuns.AtMostOneRun` | crates/hotki-engine/src/repeater.rs:426-473 | In every interleaving of starts, ticks, completions and stops, a run state has at most one unfinished run |
| `ProcessRuns.EndingKeepsOthers` | crates/hotki-engine/src/repeater.rs:447-456 | A finishing run removes no entry but its own, and every one-shot in the map has an unfinished run |
| `ProcessRuns.OneShotsAreCancelledIff` | crates/hotki-engine/src/repeater.rs:602-718 | A one-shot is cancelled exactly by a start of its id while it is in the map, or by the teardown; never by a stop |
| `ProcessRuns.StopEndsInQuiet` | crates/hotki-engine/src/repeater.rs:677-710 | The half for whole runs: with no such ticker, the state has no unfinished run and no live ticker once the stop has returned, then and ever after, although cancelled tickers may still tick |
| `ProcessStops.StopIsReliableIff` | crates/hotki-engine/src/repeater.rs:677-710 | However things go on after a stop of one key or of all has begun, a repeating state it has stopped is quiet once it has returned, if and only if no ticker of that state was alive outside the map when it began |
| `ProcessRuns.StoppedIsNeverActive` | crates/hotki-engine/src/repeater.rs:677-710 | In every run, without any condition: a state that a returned stop has stopped has no run that is not cancelled |
| `ProcessRuns.HeldKeyCanBeStoppedTwice` | crates/hotki-engine/src/ticker.rs:85-113 | From the start: two overlapping stops of a held key, of which the second returns before the cancelled ticker ticks once more |
| `ProcessRuns.ReturnedIsQuiet` | crates/hotki-engine/src/ticker.rs:103-144 | The same for every state a stop covers |
| `ProcessReturns.EveryStopCanReturn` | crates/hotki-engine/src/repeater.rs:677-710 | In every state of every run, every stop under way can be brought to its return by its own steps, the ends of the tickers it has cancelled and the steps of the runs it waits for |
| `ProcessReturns.TeardownEndsAll` | crates/hotki-engine/src/repeater.rs:713-718 | After the teardown nothing is mapped, every state that was is cancelled, and every ticker that had not been cancelled is dead |
| `ProcessRuns.StartLeavesOneActiveRunIff` | crates/hotki-engine/src/repeater.rs:602-615 | A start leaves one active run of its id if and only if no active run belongs to a state outside the map |
| `ProcessPromise.StepKeepsPromiseIff` | crates/hotki-engine/src/repeater.rs:602-668 | Whether all unfinished runs are counted or only those not cancelled: a step keeps "at most one run per id" if and only if it is no start of that id that finds a run it does not settle by cancelling, and no tick that starts a run beside another |
| `ProcessPromise.RunKeepsPromiseIff` | crates/hotki-engine/src/repeater.rs:370-378 | A run keeps the promise in all its states if and only if all its steps do |
| `ProcessRuns.OneActiveRunPerId` | crates/hotki-engine/src/repeater.rs:370-378 | It suffices that no stop takes a state out of the map before its process has ended, other than to cancel it there and then: then each id has at most one run that nothing has told to stop, in every state of the run |
| `ProcessRuns.TwoPressesOverlap` | crates/hotki-engine/src/repeater.rs:677-686 | From the start: a one-shot key pressed, released and pressed again runs two processes at once, against the comment on the run state |
| `Effects.PressExitsIff` | crates/hotki-engine/src/dispatch.rs:76-133 | A key press leaves the menu on its own if and only if it ran a handler to its end and neither the binding, the handler nor any executed effect, at any depth, asked otherwise |
| `Effects.QueueExitsUnlessAsked` | crates/hotki-engine/src/actions.rs:75-136 | The same for one effect queue |
| `Effects.ResultIsStrongest` | crates/hotki-engine/src/actions.rs:75-136 | The result of a queue bounds the results of all executed effects and is one of them, or auto-exit |
| `Effects.PrefixStopsWhereItMust` | crates/hotki-engine/src/actions.rs:75-136 | The executed prefix ends at the first failing or terminal effect and nowhere else; the queue fails exactly if its last executed effect does |
| `Effects.CombineIsJoin` | crates/hotki-engine/src/lib.rs:110-127 | Combining is a commutative, associative, idempotent least upper bound by priority |
| `Effects.WithStayIsJoin` | crates/hotki-engine/src/lib.rs:101-107 | An explicit stay joins with `Stay` |
| `Effects.ApplyEffectQueue` | crates/hotki-engine/src/actions.rs:68-137 | The accumulating loop yields the result of the queue and attempts what the next row says, in its own terms |
| `Effects.QueueMeans` | crates/hotki-engine/src/actions.rs:75-136 | On the effects themselves, at every depth: exactly those are executed that have no failing effect, reload, refused relay, nested repeat or repeated action that cannot run or ends so before them; the queue fails, or is cut short, exactly if an executed effect fails, or is one of these; its result is an open selector, an entered mode, a navigation, staying or leaving, by the strongest that an executed effect asks for |
| `SelectorWindow.Window` | crates/hotki-engine/src/selector.rs:226-259 | The window lies in the list, contains the selection and has at most the wanted rows; it has the full size in the ideal place if and only if the saturating addition does not overflow |
| `SelectorWindow.WindowIsExact` | crates/hotki-engine/src/selector.rs:243-259 | With fewer than 2^32 - 1 matches the window is always full and in the ideal place |
| `SelectorWindow.WindowFallsShort` | crates/hotki-engine/src/selector.rs:248-257 | At 2^32 - 1 matches eight wanted rows come out as five |
| `SelectorWindow.SelectionStaysInRange` | crates/hotki-engine/src/selector.rs:201-224 | After every run of keys and matcher updates the selection names a match or is zero; a select event names a match |
| `SelectorWindow.MovesAreUndone` | crates/hotki-engine/src/selector.rs:365-424 | Opposite moves undo each other, and a backspace undoes a typed character |
| `SelectorWindow.TypingSpells` | crates/hotki-engine/src/selector.rs:365-424 | Typing a word, whatever the matcher finds meanwhile, appends exactly that word and selects the best match |
| `SelectorWindow.ErasingShortens` | crates/hotki-engine/src/selector.rs:365-424 | So many backspaces take away so many characters from the end, as far as there are any |
| `SelectorWindow.MovesReach` | crates/hotki-engine/src/selector.rs:365-424 | So many moves down or up move the selection so far, stopping at the last and the first match |
| `Highlight.LayoutLabelWithMatches` | crates/hotki-app/src/selector.rs:238-292 | Sections are nonempty and alternate, show every codepoint once in order, and mark a codepoint exactly if the list names it before it stops increasing |
| `Highlight.IncreasingListsAreExact` | crates/hotki-app/src/selector.rs:264-282 | For increasing lists that is membership in the list |
| `Highlight.LayoutSpellsLabel` | crates/hotki-app/src/selector.rs:238-292 | The sections read one after the other are the label |
| `Highlight.LayoutIsUnique` | crates/hotki-app/src/selector.rs:238-292 | No other nonempty alternating sections show the same |
| `Highlight.Dedup` | crates/hotki-engine/src/selector.rs:132-133 | Dropping repeats keeps the members and makes a sorted list increasing |
| `Highlight.ShowMatches` | crates/hotki-engine/src/selector.rs:122-137 | From the matcher's raw indices, a codepoint is marked exactly if the matcher named it |
| `BoundedCapture.ReadBounded` | crates/hotki-engine/src/repeater.rs:68-92 | For every sequence of reads: fails exactly if the stream breaks off; otherwise keeps exactly the first 32768 bytes of the stream, or all of it, and is marked truncated exactly if there are more |
| `BoundedCapture.CuttingIsUnobservable` | crates/hotki-engine/src/repeater.rs:73-92 | Cutting any read in two changes neither the stream nor whether it breaks off, so the capture does not depend on how the stream is cut |

## Left out

- UiDeliveryRuns.MailboxRefinesList: speaks of runs of fewer than 2^64 sends, since sequence numbers wrap after that; the mailbox itself wraps as the code does.
- UiDeliveryLosses.OnlySupersededAreLost: the same bound, and no waiting sends; `UiDeliveryWaits.MissedSnapshot` shows what they can lose.
- UiDeliveryRuns.CoalescingIsUnobservable: the same bound, and no waiting sends, for which it fails.
- UiDeliveryWaits.KeepsPlaceIffRoom: sequences stay below 2^64, in the run before and in the moves it quantifies over; any waiting sender may be the next to wake, where the condition variable has an order of its own.
- UiDeliveryWaits.BalancedUnderWaits: sends that are told before taking the lock that the receiver is gone leave the mailbox alone and are not counted; who wakes after the close is settled in `UiDeliveryClose`.
- UiDeliveryClose.ReturnsAfterCloseIff: keeps lengths only, and lets a receive wake any sleeper; that a thread which can go on does go on is the business of the scheduler.
- FocusReplica.EventsAreAccountedFor: fewer than 2^64 events since subscribing; beyond that the lost count saturates, which the model follows.
- Polling.RefreshIsFresh: generations are unbounded here and wrap at 2^64 in the code.
- Polling.AnnouncedRequestsAreServed: bounds the steps of the loop, not time; that tasks are scheduled at all is the business of the runtime.
- ProcessRuns.StopEndsInQuiet: asks that no ticker of the state be alive outside the map when the stop begins; `StopIsReliableIff` shows that this is exactly what it takes, and `StoppedIsNeverActive` is what holds without it.
- KeyGestures.MessagesAreOwed: whether a row wants feedback is a property of the event, as is room in the channel.
- KeyGestures.MessagesAlternate: events are dispatched one after the other; a release that overtakes the handler of its own press is not part of this model.
- HudPress.ActiveMatchesHistory: instants are whole numbers.
- Highlight.LayoutLabelWithMatches: works on codepoints, where the code slices at byte offsets of codepoints; labels are shorter than 2^32.
- The mailbox slots are one map from class to entry rather than seven fields; messages keep only what classifies them.
- Chords are told apart by their canonical text; the hotkey API is a table of registrations whose new ids differ from the live ones and whose failed removals change nothing.
- A mode's Luau function is any function of mode and context, and a handler is given by its effects; failures to synchronise callbacks after a render, render warnings and diagnostics are not modelled.
- The process and polling protocols are modelled on values, not as classes, because their steps belong to several tasks; the shared cells are fields of the state.
- The polling loop's end when the world is dropped, and the closing of the event stream: callers that wait keep both alive.
- Stopping repeats and releasing relays after a rebind, relay delivery, and the commands themselves.
- The chords that an open selector captures are a parameter; matching and ranking of items (Nucleo), and the mapping of keys to selector actions.
- Displays are opaque values compared for equality; window lists, capabilities and status of the world, which no event depends on.
- Rendering with egui, windows, permissions, the RPC transport, configuration loading, styles, themes and notification layout.
- Process spawning, signals and the text of notifications.
