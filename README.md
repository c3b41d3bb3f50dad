# ai-desktop-mascot core, modelled in Dafny

This project models the part of the desktop mascot that decides what the avatars do and where the window is:

- **The stage-director WebSocket service** (`StageDirectorService`):
  - one live socket at a time;
  - stale-socket guards on open, close and message;
  - the fixed 5000 ms reconnect timer;
  - handler groups fanned out in registration order, with a JSON parse per group;
  - connection listeners told of every state change.
- **The VRM avatar component**, as four controllers:
  - `AnimationController`: the animation-switch effect, its `finished` listeners and the 3000 ms force-idle timer;
  - the material baseline table with `captureMaterialBaseState` and `applySceneOpacity`, plus `AppearanceController` for the one-shot fade-in;
  - `DragController`: the process-wide drag state that turns pointer moves into whole-pixel window offsets, sent once per animation frame;
  - `SpeechController`: the speech bubble and voice playback.
- **The stage page** (`StageGate`):
  - the loaded-id and hovered-id reducers;
  - the `allLoaded`, `isAvatarHovered` and `showLoadingOverlay` flags;
  - the 1000 ms start delay;
  - the camera trigger;
  - the click-through effect with `setWindowClickThrough`;
  - the per-avatar emotion and animation updates;
  - unmount.
- **The Electron main process** (`MainProcess`):
  - the `window:move` handler that moves the window by relative offsets through `cachedWindowPosition`;
  - the `window:set-ignore-mouse-events` handler and its `forward` default;
  - the `window-all-closed` reset;
  - the renderer console-level lookup.

How the model is built:

- React effects and callbacks become methods of a class holding the component's state and refs. A state change the effect makes is an assignment; its dependencies are read from the fields.
- Browser timers and animation frames are id maps with explicit "fires" methods.
- Every call into code outside the core is appended to a log field: socket `close`/`send`, handler callbacks, `moveWindow`, `setIgnoreMouseEvents`, `onAnimationEnd`, `onTTSComplete`, `playVoice`.
- Loops the source runs over lists are methods with loop invariants, each proved equal to a function the lemmas are stated on:
  - the handler fan-out and the listener broadcast equal the recursive functions `FanOut` and `Broadcast`;
  - the scene traversals equal the map comprehensions `Captured` and `Painted`.

Files:

- `common.dfy`: `Option`; the insertion-ordered list idioms (`includes`/spread, `filter`, `Set.add`/`delete`); `Math.round` and clamping.
- `websocket_service.dfy`
- `vrm_avatar.dfy`
- `stage_page.dfy`
- `electron_main.dfy`

The model follows the code as written. Two places where the code works against its own evident intent are listed under "## Findings", each with the as-written behaviour and a corrected variant. One branch of the code is left out:

- **The initial-play branch.** The branch at `VRMAvatar.tsx:220-225` plays a clip when there is no current action. It cannot be reached: a request with no current action already differs from the clip, so it takes the switching path. The model has no such branch, and `RequestAnimation` states the switching behaviour for that case.

## Model

| member | source | states |
|---|---|---|
| Sequences.AddIfAbsent | packages/ai-mascot/src/pages/StagePage.tsx:137 | membership becomes old membership plus the id; the old list is a prefix; the list grows exactly when the id was absent; a duplicate-free list stays duplicate-free |
| Sequences.Without | packages/ai-mascot/src/pages/StagePage.tsx:148 | membership becomes old membership minus the id; an absent id leaves the list as it is; the list never grows; duplicate-freedom is kept |
| Sequences.WithoutDistributes | packages/ai-mascot/src/pages/StagePage.tsx:148 | filtering a concatenation filters each part, so the remaining ids keep their relative order |
| JsMath.Round | packages/ai-mascot/electron/main.ts:126-127 | `Math.round` lands within half a unit of its argument, rounding a half upwards |
| JsMath.Clamp01 | packages/ai-mascot/src/components/VRMAvatar.tsx:47 | the clamp lies in [0, 1], is the identity on [0, 1], 0 below and 1 above |
| WebSocketService.NotifyGroups | packages/ai-mascot/src/services/websocket_service.ts:93-124 | the open/close/error loop calls exactly each registered group's handler for the event, in registration order (`FanOut`) |
| WebSocketService.DeliverMessage | packages/ai-mascot/src/services/websocket_service.ts:126-143 | the message loop gives each group `onRawMessage` (if present), then either `onMessage` with the parsed value or a logged parse failure, group by group in registration order |
| WebSocketService.NotifyListeners | packages/ai-mascot/src/services/websocket_service.ts:181-188 | the state-change loop calls every connection listener with the new state, in registration order (`Broadcast`) |
| WebSocketService.BroadcastCallsEachListener | packages/ai-mascot/src/services/websocket_service.ts:187 | every listener is called exactly once, at its own position, with the same value |
| WebSocketService.FanOutOnlyReachesRegistered | packages/ai-mascot/src/services/websocket_service.ts:133-142 | every call a fan-out makes goes to a registered group |
| WebSocketService.MessageReachesEveryGroup | packages/ai-mascot/src/services/websocket_service.ts:133-142 | every group receives its parse outcome; a parse failure for one group does not stop delivery to the next |
| WebSocketService.RawBeforeParsed | packages/ai-mascot/src/services/websocket_service.ts:134-141 | a group with `onRawMessage` receives the raw data before its parsed message |
| WebSocketService.MessageInRegistrationOrder | packages/ai-mascot/src/services/websocket_service.ts:133 | an earlier-registered group receives the message before a later one |
| WebSocketService.StageDirectorService.constructor | packages/ai-mascot/src/services/websocket_service.ts:29-39 | no socket, not connected, no groups or listeners, no timer, no socket created yet; the URL and reconnect delay as given |
| WebSocketService.StageDirectorService.Default | packages/ai-mascot/src/services/websocket_service.ts:35-38 | the same initial state, with the default reconnect delay `ReconnectDelayMs`, the 5000 ms of `RECONNECT_DELAY_MS`, as the program builds its one service |
| WebSocketService.StageDirectorService.RegisterHandlers | packages/ai-mascot/src/services/websocket_service.ts:41-44 | the group joins the set once and a socket is ensured as `EnsureSocket` states; a connecting or open socket is kept and nothing else changes; with no socket, or a closing or closed one, a fresh connecting socket becomes current, the old one is left stale, and the reconnect timer is cancelled |
| WebSocketService.StageDirectorService.UnregisterHandlers | packages/ai-mascot/src/services/websocket_service.ts:46-51 | the group leaves the set; removing the last group tears the socket down |
| WebSocketService.StageDirectorService.AddConnectionListener | packages/ai-mascot/src/services/websocket_service.ts:54-56 | the listener joins the set once and is called at once with the current `connected` |
| WebSocketService.StageDirectorService.RemoveConnectionListener | packages/ai-mascot/src/services/websocket_service.ts:58-60 | the listener leaves the set, the others keep their order |
| WebSocketService.StageDirectorService.Send | packages/ai-mascot/src/services/websocket_service.ts:63-72 | on an open current socket, sends a string as it is and an object as its serialised text; otherwise sends nothing; no state changes |
| WebSocketService.StageDirectorService.GetIsConnected | packages/ai-mascot/src/services/websocket_service.ts:74-76 | returns the connected flag and changes nothing |
| WebSocketService.StageDirectorService.EnsureSocket | packages/ai-mascot/src/services/websocket_service.ts:78-84 | keeps a connecting or open socket with nothing else changed; with no socket, or a closing or closed one, a fresh connecting socket different from the old one becomes current and the reconnect timer is cancelled |
| WebSocketService.StageDirectorService.OpenNewSocket | packages/ai-mascot/src/services/websocket_service.ts:86-91 | the reconnect timer is cancelled and a fresh connecting socket becomes current, whatever was current before (it is overwritten, not closed); groups, listeners and `connected` stay |
| WebSocketService.StageDirectorService.TeardownSocket | packages/ai-mascot/src/services/websocket_service.ts:146-157 | the current socket, if any, is closed when connecting or open and forgotten; `connected` is left as it is |
| WebSocketService.StageDirectorService.ScheduleReconnect | packages/ai-mascot/src/services/websocket_service.ts:159-170 | with no timer armed, arms one timer with the reconnect delay; an armed timer stays; exactly one timer is armed afterwards |
| WebSocketService.StageDirectorService.ClearReconnect | packages/ai-mascot/src/services/websocket_service.ts:172-179 | cancels the armed reconnect timer, if any |
| WebSocketService.StageDirectorService.UpdateConnectionState | packages/ai-mascot/src/services/websocket_service.ts:181-188 | an unchanged state notifies nobody; a change sets the flag and broadcasts it to every listener |
| WebSocketService.StageDirectorService.SocketStartsClosing | packages/ai-mascot/src/services/websocket_service.ts:79 | an open socket the server starts to close becomes closing, the state `ensureSocket` does not keep; nothing else changes |
| WebSocketService.StageDirectorService.SocketOpened | packages/ai-mascot/src/services/websocket_service.ts:93-103 | a stale socket's open closes that socket and changes nothing else; the current one's sets connected (listeners told on a change) and then calls every `onOpen` |
| WebSocketService.StageDirectorService.SocketClosed | packages/ai-mascot/src/services/websocket_service.ts:105-119 | a stale socket's close changes nothing; the current one's clears connected (listeners told first), forgets the socket, calls every `onClose`, and arms a reconnect exactly when groups remain |
| WebSocketService.StageDirectorService.CurrentSocketClosed | packages/ai-mascot/src/services/websocket_service.ts:111-118 | no socket and not connected afterwards; the calls are the listeners' `false` (only on a change) followed by every `onClose`; a reconnect timer with the configured delay is armed exactly when groups remain |
| WebSocketService.StageDirectorService.SocketErrored | packages/ai-mascot/src/services/websocket_service.ts:121-124 | any socket's error, stale or not, calls every `onError` and changes no state |
| WebSocketService.StageDirectorService.SocketMessage | packages/ai-mascot/src/services/websocket_service.ts:126-143 | a stale socket's message changes nothing; the current one's is delivered to every group as `DeliverMessage` states |
| WebSocketService.StageDirectorService.ReconnectTimerFires | packages/ai-mascot/src/services/websocket_service.ts:164-169 | the timer is forgotten and a socket is ensured |
| WebSocketService.ConnectedService | packages/ai-mascot/src/services/websocket_service.ts:93-103 | a listener added before the first group hears `false`; once the socket opens it hears `true`, and the socket is the current, open one |
| WebSocketService.ClosingSocketReplacedHidesDisconnect | packages/ai-mascot/src/services/websocket_service.ts:78-109 | a group registered while the current socket is closing replaces it; that socket's close is then stale, so `connected` stays true, no listener hears `false`, and no reconnect is armed while the replacement is still connecting |
| VrmAvatar.AnimationController.constructor | packages/ai-mascot/src/components/VRMAvatar.tsx:109-116 | no current action, no timer, no listener, nothing reported |
| VrmAvatar.AnimationController.AssetsChanged | packages/ai-mascot/src/components/VRMAvatar.tsx:109-113 | the loader's model, mixer and clip names become the given ones |
| VrmAvatar.AnimationController.ClearForceIdleTimer | packages/ai-mascot/src/components/VRMAvatar.tsx:135-138 | no force-idle timer remains armed |
| VrmAvatar.AnimationController.ReturnToIdle | packages/ai-mascot/src/components/VRMAvatar.tsx:159-176 | with an idle clip the avatar goes to idle and the ended clip is reported when `onAnimationEnd` is given; without one nothing changes |
| VrmAvatar.AnimationController.RequestAnimation | packages/ai-mascot/src/components/VRMAvatar.tsx:126-239 | per branch: a request without model or mixer, with an absent or empty name, or for an unloaded clip changes nothing; otherwise the old timer is cancelled; a clip that cannot be built stops the action; the current clip and `idle` add no timer or listener; any other clip plays once with one new listener and one 3000 ms timer; the timer invariant is kept |
| VrmAvatar.AnimationController.SwitchTo | packages/ai-mascot/src/components/VRMAvatar.tsx:141-233 | past the guard and the cancelled timer: an unbuildable clip stops the action; the current clip or `idle` becomes current with no timer or listener; any other clip gets `StartOneShot`'s listener and timer |
| VrmAvatar.AnimationController.StartOneShot | packages/ai-mascot/src/components/VRMAvatar.tsx:152-213 | the clip becomes current and play-once, gets exactly one new `finished` listener and exactly one armed force-idle timer for itself |
| VrmAvatar.AnimationController.AddFinishedListener | packages/ai-mascot/src/components/VRMAvatar.tsx:186 | the listener list grows by exactly one listener, with a fresh id, for the requested clip, and the bookkeeping invariant is kept |
| VrmAvatar.AnimationController.ArmForceIdleTimer | packages/ai-mascot/src/components/VRMAvatar.tsx:189-213 | exactly one timer is armed, 3000 ms, for the listener's clip, and it is the one remembered in `animationTimeoutRef` |
| VrmAvatar.FreshListenerKeepsBookkeeping | packages/ai-mascot/src/components/VRMAvatar.tsx:186 | a listener with a fresh id is not yet registered, and registering it keeps the listeners duplicate-free and every armed timer's listener registered |
| VrmAvatar.AnimationController.FinishedEventReaches | packages/ai-mascot/src/components/VRMAvatar.tsx:155-183 | an event for another action changes nothing; for its own action the listener removes itself, the avatar returns to idle, the end is reported and the timer cancelled; when only the current request's listener was registered, none is left |
| VrmAvatar.AnimationController.ForceIdleTimerFires | packages/ai-mascot/src/components/VRMAvatar.tsx:189-213 | the timer is forgotten; if its action is still current, the avatar returns to idle, the end is reported and that request's listener removed (none is left when it was the only one); otherwise nothing else changes |
| VrmAvatar.WaveRequested | packages/ai-mascot/src/components/VRMAvatar.tsx:152-213 | requesting a one-shot clip leaves it current with its single listener and nothing reported |
| VrmAvatar.WaveInterruptedByBow | packages/ai-mascot/src/components/VRMAvatar.tsx:155-186 | a clip switch keeps the interrupted clip's listener, and the second clip's finish reports only that clip |
| VrmAvatar.OfferingAvatar | packages/ai-mascot/src/components/VRMAvatar.tsx:109-116 | an avatar whose loader offers `idle`, `wave` and `bow` starts with no action, timer, listener or report |
| VrmAvatar.WaveRequestedAgain | packages/ai-mascot/src/components/VRMAvatar.tsx:152-186 | after wave, bow and bow's end, requesting wave again leaves two wave listeners registered, the old one and the new one |
| VrmAvatar.LeftoverListenerReportsTwice | packages/ai-mascot/src/components/VRMAvatar.tsx:155-213 | the one `finished` event for the second wave action reaches both wave listeners, and the reports come out as `bow, wave, wave` |
| VrmAvatar.Reached | packages/ai-mascot/src/components/VRMAvatar.tsx:155-158 | the listeners one `finished` event acts on are exactly the registered ones for that action |
| VrmAvatar.OnlyCurrentListenerReportsOnce | packages/ai-mascot/src/components/VRMAvatar.tsx:155-183 | when at most the current request's listener is registered, one `finished` event is reported at most once, and only for the action that is current |
| VrmAvatar.AnimationController.RequestAnimationRemovingSuperseded | packages/ai-mascot/src/components/VRMAvatar.tsx:126-239 | the corrected request: the same guard and resulting action as `RequestAnimation`, no report; when the action changes, every earlier listener is gone, a one-shot clip has exactly its own listener, and at most the current request's listener stays registered |
| VrmAvatar.AnimationController.RemoveSupersededRequest | packages/ai-mascot/src/components/VRMAvatar.tsx:135-138 | the superseded request's timer is cancelled and its listener removed, leaving no timer and no listener |
| VrmAvatar.BowEndedRemovingSuperseded | packages/ai-mascot/src/components/VRMAvatar.tsx:152-186 | with the corrected request, after wave, bow and bow's end no listener is left, and only `bow` is reported |
| VrmAvatar.SupersededListenerReportsOnce | packages/ai-mascot/src/components/VRMAvatar.tsx:155-213 | with the corrected request, the second wave's `finished` event reaches one listener, and the reports are `bow, wave` |
| VrmAvatar.Captured | packages/ai-mascot/src/components/VRMAvatar.tsx:23-40 | the baseline table covers the old keys and the scene's materials; recorded baselines are kept; new ones are the material's current fields |
| VrmAvatar.CaptureMaterialBaseState | packages/ai-mascot/src/components/VRMAvatar.tsx:23-40 | the traversal yields exactly `Captured` |
| VrmAvatar.Faded | packages/ai-mascot/src/components/VRMAvatar.tsx:66-74 | full opacity gives the baseline back exactly; any lower opacity makes the material transparent without depth write |
| VrmAvatar.Painted | packages/ai-mascot/src/components/VRMAvatar.tsx:55-74 | the repainted table covers the old materials and the scene's; a material outside the scene keeps its fields |
| VrmAvatar.ApplySceneOpacity | packages/ai-mascot/src/components/VRMAvatar.tsx:42-78 | the traversal captures missing baselines as `Captured` does and paints every scene material from its baseline at the clamped opacity |
| VrmAvatar.RestoreAfterFadeIsExact | packages/ai-mascot/src/components/VRMAvatar.tsx:66-74 | after fading to any opacity, applying full opacity restores every material exactly and records no new baseline |
| VrmAvatar.ApplyIsIdempotent | packages/ai-mascot/src/components/VRMAvatar.tsx:55-74 | applying the same opacity twice leaves what applying it once left |
| VrmAvatar.FadedOpacityWithinBaseline | packages/ai-mascot/src/components/VRMAvatar.tsx:70-74 | a faded material's opacity lies between 0 and its baseline; below full opacity it is transparent without depth write |
| VrmAvatar.AppearanceController.constructor | packages/ai-mascot/src/components/VRMAvatar.tsx:117-121 | no asset, empty baseline table, fade inactive at elapsed 0 |
| VrmAvatar.AppearanceController.AssetChanged | packages/ai-mascot/src/components/VRMAvatar.tsx:109-113 | the loaded flag, scene and materials become the given ones |
| VrmAvatar.AppearanceController.AssetReadyEffect | packages/ai-mascot/src/components/VRMAvatar.tsx:243-250 | once loaded, a fresh baseline table is captured, the fade restarts, and every scene material shows at opacity 0 |
| VrmAvatar.AppearanceController.FrameUpdate | packages/ai-mascot/src/components/VRMAvatar.tsx:261-268 | an active fade accumulates time; before the delay nothing is repainted; at the delay every scene material equals its baseline and the fade ends |
| VrmAvatar.TotalAppend | packages/ai-mascot/src/components/VRMAvatar.tsx:336-338 | the sum of the offsets sent grows by exactly the offset sent |
| VrmAvatar.DragController.constructor | packages/ai-mascot/src/components/VRMAvatar.tsx:314-331 | no drag state, no handlers, nothing pending, scheduled or sent |
| VrmAvatar.DragController.PointerDown | packages/ai-mascot/src/components/VRMAvatar.tsx:281-311 | ignored while dragging; otherwise the drag state exists, dragging starts and the last position is the pointer |
| VrmAvatar.DragController.InstallGlobalHandlers | packages/ai-mascot/src/components/VRMAvatar.tsx:327-331 | the global listeners are registered, once |
| VrmAvatar.DragController.RemoveGlobalHandlers | packages/ai-mascot/src/components/VRMAvatar.tsx:389-397 | listeners removed and no flush scheduled; the conservation invariant is kept |
| VrmAvatar.DragController.ApplyPendingMove | packages/ai-mascot/src/components/VRMAvatar.tsx:334-343 | a pending offset is sent once and cleared when `moveWindow` exists, otherwise kept; the frame id is forgotten; offsets sent plus pending still equal offsets dragged |
| VrmAvatar.DragController.GlobalPointerMove | packages/ai-mascot/src/components/VRMAvatar.tsx:345-371 | while dragging, a non-zero rounded offset advances the last position by exactly that offset, adds to the pending offset and schedules at most one flush; nothing is lost or counted twice |
| VrmAvatar.DragController.GlobalPointerUp | packages/ai-mascot/src/components/VRMAvatar.tsx:373-383 | dragging ends; a scheduled flush is cancelled and done at once; with none scheduled the pending offset stays |
| VrmAvatar.DragController.FrameFires | packages/ai-mascot/src/components/VRMAvatar.tsx:366-368 | the scheduled frame flushes the pending offset and leaves nothing scheduled |
| VrmAvatar.SpeechController.constructor | packages/ai-mascot/src/components/VRMAvatar.tsx:115-123 | mounted, no bubble, not speaking, nothing in flight |
| VrmAvatar.SpeechController.SpeechEffect | packages/ai-mascot/src/components/VRMAvatar.tsx:401-411 | a request with text shows its bubble at once and starts one playback of that text; an empty or absent request changes nothing |
| VrmAvatar.SpeechController.SpeechEffectCleanup | packages/ai-mascot/src/components/VRMAvatar.tsx:414-416 | speaking stops |
| VrmAvatar.SpeechController.Unmount | packages/ai-mascot/src/components/VRMAvatar.tsx:414-416 | speaking stops and later state updates are dropped |
| VrmAvatar.SpeechController.PlaybackStarted | packages/ai-mascot/src/components/VRMAvatar.tsx:405 | speaking starts while mounted |
| VrmAvatar.SpeechController.PlaybackFailed | packages/ai-mascot/src/components/VRMAvatar.tsx:405-411 | a rejected playback only leaves the in-flight set: bubble, flag and completions stay |
| VrmAvatar.SpeechController.PlaybackCompleted | packages/ai-mascot/src/components/VRMAvatar.tsx:405-411 | while mounted the bubble closes and speaking stops; the request's id, when non-empty, is reported once to `onTTSComplete` |
| VrmAvatar.SpeechController.PlaybackCompletedIfNewest | packages/ai-mascot/src/components/VRMAvatar.tsx:401-411 | the corrected completion: only the newest playback, while mounted, closes the bubble and stops speaking; an earlier one leaves both as they are; the id is reported as before |
| VrmAvatar.TwoRequestsInFlight | packages/ai-mascot/src/components/VRMAvatar.tsx:401-416 | after two requests in turn, the bubble shows the second and both playbacks are in flight |
| VrmAvatar.EarlierCompletionClosesNewerBubble | packages/ai-mascot/src/components/VRMAvatar.tsx:401-411 | the first playback's completion closes the second request's bubble and stops speaking while the second playback is still in flight |
| VrmAvatar.EarlierCompletionKeepsNewerBubble | packages/ai-mascot/src/components/VRMAvatar.tsx:401-411 | with the corrected completion, the second request's bubble stays up after the first playback completes, which still reports its id |
| StagePage.Ids | packages/ai-mascot/src/pages/StagePage.tsx:152 | the id list has one entry per avatar, in order |
| StagePage.IsAvatarHovered | packages/ai-mascot/src/pages/StagePage.tsx:153 | true exactly when some id is hovered |
| StagePage.ClickThrough | packages/ai-mascot/src/pages/StagePage.tsx:211-219 | clicks pass through exactly when the stage has started and no avatar is hovered |
| StagePage.IgnoreRequest | packages/ai-mascot/src/pages/StagePage.tsx:163-167 | the bridge call carries `ignore`, with `forward: true` options exactly when ignoring |
| StagePage.ClickThroughKeepsHoverForwarding | packages/ai-mascot/src/pages/StagePage.tsx:163-167 | the main process applies the page's options unchanged, so hover events are forwarded exactly while clicks pass through |
| StagePage.AllLoadedIffEveryAvatarLoaded | packages/ai-mascot/src/pages/StagePage.tsx:152 | with distinct avatar ids and only avatar ids loaded, `allLoaded` holds iff there is an avatar and every avatar's id is loaded |
| StagePage.OverlayHiddenMeansEveryAvatarLoaded | packages/ai-mascot/src/pages/StagePage.tsx:152-154 | the loading overlay hides only when every avatar is loaded, the stage has started and the camera is triggered |
| StagePage.UpdateAvatar | packages/ai-mascot/src/pages/StagePage.tsx:294-308 | the avatar list keeps its length; entries with the id get the update; all others are unchanged |
| StagePage.WithEmotion | packages/ai-mascot/src/pages/StagePage.tsx:293-304 | only the matching avatar's emotion changes; the ids and every other avatar stay |
| StagePage.WithAnimation | packages/ai-mascot/src/pages/StagePage.tsx:305-309 | only the matching avatar's animation changes; the ids and every other avatar stay |
| StagePage.StageGate.constructor | packages/ai-mascot/src/pages/StagePage.tsx:124-133 | empty id lists, not started, camera not triggered, no timer, no bridge call |
| StagePage.StageGate.HandleAvatarLoad | packages/ai-mascot/src/pages/StagePage.tsx:136-138 | the loaded list gains the id once and stays duplicate-free |
| StagePage.StageGate.HandleAvatarPointerOver | packages/ai-mascot/src/pages/StagePage.tsx:141-144 | the hovered list gains the id once, so an avatar is hovered |
| StagePage.StageGate.HandleAvatarPointerOut | packages/ai-mascot/src/pages/StagePage.tsx:146-149 | the id leaves the hovered list; the others keep their order |
| StagePage.StageGate.ChangeEmotion | packages/ai-mascot/src/pages/StagePage.tsx:293-304 | the avatars become `WithEmotion` of the old ones |
| StagePage.StageGate.ChangeAnimation | packages/ai-mascot/src/pages/StagePage.tsx:305-309 | the avatars become `WithAnimation` of the old ones |
| StagePage.StageGate.ClearStartDelay | packages/ai-mascot/src/pages/StagePage.tsx:174-177 | no start timer remains armed |
| StagePage.StageGate.StartDelayCleanup | packages/ai-mascot/src/pages/StagePage.tsx:191-196 | a registered cleanup cancels the armed timer; otherwise nothing changes |
| StagePage.StageGate.StartDelayEffect | packages/ai-mascot/src/pages/StagePage.tsx:172-197 | not all loaded: the timer is cancelled and the stage unstarted; all loaded: a started stage or armed timer stays; otherwise exactly one 1000 ms timer is armed |
| StagePage.StageGate.StartDelayFires | packages/ai-mascot/src/pages/StagePage.tsx:186-189 | the stage starts and the timer is forgotten |
| StagePage.StageGate.CameraTriggerEffect | packages/ai-mascot/src/pages/StagePage.tsx:200-208 | reset when not all loaded or not started; set when all loaded, started and not yet animated; it only turns on under those conditions |
| StagePage.StageGate.CameraAnimationFinished | packages/ai-mascot/src/pages/StagePage.tsx:238 | the camera is marked animated |
| StagePage.StageGate.SetWindowClickThrough | packages/ai-mascot/src/pages/StagePage.tsx:156-169 | with a bridge, one call carrying `IgnoreRequest(ignore)`; without one, none |
| StagePage.StageGate.ClickThroughEffect | packages/ai-mascot/src/pages/StagePage.tsx:211-219 | one bridge call with the `ClickThrough` decision for the current state |
| StagePage.StageGate.Unmount | packages/ai-mascot/src/pages/StagePage.tsx:221-226 | the start-delay cleanup runs, and the last bridge call takes clicks again |
| ElectronMain.ConsoleLevelName | packages/ai-mascot/electron/main.ts:35-40 | levels 0 to 3 map to log, info, warn, error; every other level falls back to log |
| ElectronMain.FinalOptions | packages/ai-mascot/electron/main.ts:94 | given options are used as they are; without options, `forward: true` is supplied exactly when ignoring |
| ElectronMain.MoveTarget | packages/ai-mascot/electron/main.ts:126-127 | each coordinate lands within half a pixel of the cached position plus the offset |
| ElectronMain.IntegerMoveIsExact | packages/ai-mascot/electron/main.ts:126-129 | an integer offset moves the window exactly by that offset |
| ElectronMain.IntegerMovesSum | packages/ai-mascot/electron/main.ts:126-129 | two integer moves equal one move by their sum |
| ElectronMain.HalfPixelMovesRoundUpEachTime | packages/ai-mascot/electron/main.ts:126-129 | from any position, fractional moves do not sum: two half-pixel moves go two pixels, one full-pixel move goes one |
| ElectronMain.MainProcess.constructor | packages/ai-mascot/electron/main.ts:19-21 | no window, no cached position, no Electron call |
| ElectronMain.MainProcess.CreateWindow | packages/ai-mascot/electron/main.ts:60-62 | the window exists and its position is cached |
| ElectronMain.MainProcess.WindowRepositioned | packages/ai-mascot/electron/main.ts:120-123 | the window's own position becomes the given one; the cached position is left as it is, since the handler reads the window only when the cache is empty |
| ElectronMain.MainProcess.HandleSetIgnoreMouseEvents | packages/ai-mascot/electron/main.ts:88-96 | with a window, one `setIgnoreMouseEvents` call with `ignore` and `FinalOptions`; without one, none |
| ElectronMain.MainProcess.HandleMove | packages/ai-mascot/electron/main.ts:103-133 | no window, a non-object payload or a non-numeric delta change nothing; otherwise the cache, filled from the window if empty, moves to the rounded target and the window is set exactly there |
| ElectronMain.MainProcess.WindowAllClosed | packages/ai-mascot/electron/main.ts:138-144 | off darwin, the app quits and both the window and the cached position are cleared; on darwin nothing changes |
| ElectronMain.MovesAccumulateFromCreation | packages/ai-mascot/electron/main.ts:120-132 | integer moves accumulate from the position cached at creation, even when the window is reported elsewhere in between |

## Left out

- `VrmAvatar.AnimationController.FinishedEventReaches`: no at-most-once report per request, because the code as written does not keep it (see "## Findings"). It keeps `OnlyCurrentListener` when that holds before.
- `VrmAvatar.AnimationController.RequestAnimation`: bounds the new listeners and timers per request, but not the number of reports, for the same reason; the corrected variant is `RequestAnimationRemovingSuperseded`.
- `VrmAvatar.SpeechController.PlaybackCompleted`: not tied to the request being shown, as written (see "## Findings"); the corrected variant is `PlaybackCompletedIfNewest`.
- Handler and listener callbacks are assumed to return normally:
  - a throw from `onMessage` is caught and logged in the code (`websocket_service.ts:137`), which the model's parse-failure entry covers only for the parse;
  - a throw from any other callback aborts the rest of that `forEach`;
  - in `onclose`, a throw from a connection listener would skip `socket = null` and the reconnect.
- Crossfades are not modelled:
  - fade durations, action weights, `reset`, `stop` and the mixer's own update;
  - the VRM per-frame update;
  - expressions and emotions beyond the stored name.
  The model keeps which action is current, which is played once, and the listeners and timers.
- Foreign code is left out:
  - JSON parsing is a parameter function (`parse`) and serialising one is `stringify`;
  - `playVoice` is a log entry plus explicit start, completion and failure events;
  - the WebSocket object is a ready-state with explicit open, close, error and message events;
  - `BrowserWindow` and `ipcMain` are the logged calls.
- The endpoint resolution at the top of `websocket_service.ts` is not modelled: the URL is a constructor parameter.
- Re-entrant callbacks are not modelled. These are callbacks that call back into the service or controller while it is iterating; each event runs to completion here.
- Interleavings in React's render and commit phases are not modelled. Effects run as explicit method calls in the order the caller chooses; `setState` is an immediate assignment, and a dropped update after unmount is the `mounted` flag.
- `Number` values are `NaN` or finite reals; infinities are not modelled. The pointer coordinates are reals, and offsets after `Math.round` are integers.
- Console output is not modelled: the text written to the console, including the renderer message's location text, and every `console.warn`/`console.error` log.
- The window-creation options (size, transparency, preload path, dev-server URL) and the `activate`/`whenReady` handlers are not modelled. The window's own OS position is `windowPosition`, changed by `WindowRepositioned`.
- On darwin, `window-all-closed` keeps `win` as it was; the model keeps it too, and does not model the window object being destroyed underneath it.
- The preload bridge exposes only `setWindowIgnoreMouseEvents`. `moveWindow` is absent, so the drag never sends an offset and the pending offset is never cleared. This is `DragController.hasMoveWindow == false`; both cases are modelled.
- `VrmAvatar.DragController.RemoveGlobalHandlers`: the cleanup cancels the scheduled frame but leaves `rafId` set. After the handlers are reinstalled, moves schedule no new frame until a pointer-up flushes. The model keeps this as written.
- `StagePage.AllLoadedIffEveryAvatarLoaded`: the counting test is sound only when loaded ids are avatar ids and avatar ids are distinct. The code relies on both without checking them, so the lemma assumes them.
- The avatar `position` prop and the avatar type file are not part of this model.
- The speech effect's dependency on the avatar id and callbacks is not modelled: a re-run is modelled only for a change of `speechText`.

## Findings

| source | as written | input that shows it | evidently intended | confidence | as-written member | corrected member |
|---|---|---|---|---|---|---|
| packages/ai-mascot/src/components/VRMAvatar.tsx:155-186 | a clip switch cancels the old timer but never removes the old request's `finished` listener, and each listener acts on any `finished` event for its own action | request `wave`, then `bow`; `bow` finishes; request `wave` again; the new wave action finishes | each path that ends a request cancels the other (the listener clears the timer at 178-181, the timer removes the listener at 210), so one request is reported once | not executed | VrmAvatar.LeftoverListenerReportsTwice | VrmAvatar.AnimationController.RequestAnimationRemovingSuperseded |
| packages/ai-mascot/src/components/VRMAvatar.tsx:405-409 | every playback's completion closes the bubble and stops speaking, whichever request is showing | request `m1`, then `m2` before `m1`'s playback ends; `m1`'s playback completes | only the playback of the request being shown closes its bubble | not executed | VrmAvatar.EarlierCompletionClosesNewerBubble | VrmAvatar.SpeechController.PlaybackCompletedIfNewest |

For the first row, `VrmAvatar.OnlyCurrentListenerReportsOnce` proves the corrected bound. `RequestAnimationRemovingSuperseded`, `FinishedEventReaches` and `ForceIdleTimerFires` all keep `OnlyCurrentListener`. Under it, the report from either path leaves no listener and no timer, so nothing can report the same request again. `VrmAvatar.SupersededListenerReportsOnce` replays the same sequence with one report of `wave`. For the second row, `VrmAvatar.EarlierCompletionKeepsNewerBubble` replays the sequence with the bubble kept.
