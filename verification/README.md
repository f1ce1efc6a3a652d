# CDPilot relay protocol, modelled in Dafny

CDPilot lets a program drive a real Chrome tab through the Chrome DevTools Protocol (CDP). It has three parts:

- a browser extension (`background.js`) that attaches `chrome.debugger` to tabs;
- a WebSocket relay (`relay-server.js`) with an `/extension` end and a `/client` end;
- clients: the MCP server's `RelayClient` and `SessionManager`, its `type` and `simulate_drag` tools, and a small Python client.

This project models the bookkeeping each part does around the relay:

- **The extension's session registry.** It consists of the maps `tabs`, `tabBySession` and `childSessionToTab` and the `cb-tab-N` counter. It covers attach, detach with its child-session cascade, child-session tracking and the two lookups. It also covers the routing of forwarded commands and the teardown and re-attach around a relay disconnect.
- **The extension's relay link.** This is the request table, reconnect back-off, heartbeat, message dispatch, log buffer and port reading.
- **The extension's two input synthesizers.** One is the keyDown/char/keyUp chain; the other is the Bézier mouse path.
- **The MCP relay client.** This is its connection state machine around a command correlator: increasing ids, a pending table, per-command timeouts, mass rejection on disconnect, the heartbeat's dead-peer rule and capped exponential back-off.
- **The relay server.** This covers argument parsing, the HTTP probe, the token and path gate at upgrade, ping answering and the opposite-role fan-out.
- **The MCP session mirror.** These are the map updates driven by forwarded CDP events, and the default-session fallback.
- **Smaller pieces:**
  - `getKeyInfo` and the command sequence of the `type` tool;
  - the press/move/release sequence of `simulate_drag`;
  - the Python client's id/future correlator and `press`;
  - the Python `.env` parser `load_env`;
  - the options page's `clampPort`.

How the model is built:

- **State that the source updates in place** becomes a Dafny class: the extension (`Background.Extension`), `RelayClient.RelayClient`, `RelayServer.Broker`, `SessionMirror.SessionManager`, `PythonClient.CDPilot` and `LogBuffer.Log`.
  - Each method is tied by its postcondition to a value-level function of the old state, for example `TabRegistry.DetachTab`, `Correlator.Settle` or `SessionMirror.ApplyEvent`.
  - The invariants and properties are proved about those functions as lemmas.
- **Source loops** become methods with loop invariants: the argument loop, the fan-out loop, the child-session deletion loop, the `type` loop, the drag loop, the mouse-path loop and the `.env` loop.
- **Sockets, timers, `chrome.*` calls, `fetch` and the clock** are not modelled as such. They become explicit inputs:
  - `now` for the clock;
  - whether a connect or attach succeeds;
  - what the runtime answered;
  - which connections are OPEN.
- **`Math.random()` draws** are parameters in [0, 1), in the order the source draws them.
- **JavaScript `Map` and `Set`** keep insertion order. They are modelled as a key sequence plus a map wherever the order is observable: the registry, the session mirror and the relay's connection sets.
- **Tab ids** are positive, because the source treats tab id 0 as absent (`x || y`).

Delays are stated as the source computes them from its draws `r`:

- `dispatchRealKey` waits `5 + 20·r` ms between its events (background.js:558-575), i.e. in [5, 25).
- Each mouse-path sample waits `5 + 15·r` ms (background.js:579-628), i.e. in [5, 20).

## Model

| member | source | states |
|---|---|---|
| Options.ClampPort | options.js:3-8 | The result is always a port in 1..65535. Text that `parseInt` cannot read gives 18792. A value read outside 1..65535 gives 18792. An in-range value is returned unchanged. |
| Options.ClampPortOfPortText | options.js:6-7 | Every valid port, written as decimal text, clamps to itself. |
| Options.ClampPortIdempotent | options.js:57-59 | Clamping the text `String(port)` of a clamped port gives that port again, so saving twice stores the same value. |
| Options.ClampPortRejectsNonNumeric | options.js:4-5 | `""`, `"abc"` and `"-"` give the default port. |
| Options.ClampPortIgnoresTrailingText | options.js:4 | Under `parseInt`'s prefix rule, `"8080x"` gives 8080. |
| Options.ClampPortRejectsZero | options.js:6 | `"0"` gives the default port. |
| Options.ClampPortRejectsNegative | options.js:6 | `"-1"` gives the default port. |
| Options.ClampPortRejectsTooLarge | options.js:6 | `"65536"` gives the default port. |
| JsText.Trim | background.js:461 | The result neither starts nor ends with JavaScript white space. It is empty exactly when the input is all white space. |
| JsText.TrimKeepsMiddle | background.js:461 | `trim` keeps a contiguous piece of the input, and everything it removes before and after that piece is white space. |
| JsText.ReadDigits | options.js:4 | No number is read exactly when the text is empty or does not start with a digit. |
| JsText.ParseSigned | options.js:4 | After one optional sign, the result is NaN exactly when no digit follows. |
| JsText.IntToDecimal | options.js:59 | `String(n)` is a non-empty run of digits with no leading zero (except for 0 itself). |
| JsText.ParseIntOfIntToDecimal | options.js:57-59 | `parseInt(String(n))` gives back `n`. |
| JsText.IntToDecimalInjective | options.js:59 | Distinct integers print differently. |
| JsText.ParseIntOfDigitsThen | options.js:4 | `parseInt` of digits followed by a non-digit reads exactly those digits. |
| JsText.ParseIntSkipsBlank | options.js:4 | A leading blank is skipped. |
| JsText.ParseIntOfDigitStart | options.js:4 | Text that starts with a digit reads its leading digits. |
| JsText.ParseIntReadsPlus | options.js:4 | A `+` before the digits leaves the value unchanged. |
| JsText.ParseIntReadsMinus | options.js:4 | A `-` before the digits negates the value. |
| Background.RelayPort | background.js:136-142 | `getRelayPort` always returns a valid port. With nothing stored it returns 18792. |
| Background.RelayPortReadsSavedPort | background.js:136-142 | The number the options page stores is read back as that same port. |
| Background.ReadRelayRequest | background.js:358-430 | The order of `onRelayMessage`'s tests: non-JSON and falsy values are ignored; then ping, then pong; then a numeric id with `result` or `error` (a response); then `clientConnected`; then `forwardCDPCommand` with a numeric id; anything else is ignored. Each kind is stated with both directions, and a response and a command carry the message's id and fields. |
| Background.ReadCommandArgs | background.js:695-698 | The mouse path is dispatched unless `params.params.dispatch` is exactly `false`. |
| Background.SettleRequest | background.js:386-387 | A relay request is rejected exactly when `error` is truthy, and then with that error value; otherwise it resolves with `result`. |
| Background.Replay | background.js:393-420 | `clientConnected` sends one `Target.attachedToTarget` per attached tab, each carrying page info. |
| Background.ReplayAnnouncesAttachedTabs | background.js:393-420 | Every attached tab is announced under its own session id and target id. The announcement carries the page `chrome.tabs.get` reported, or an empty title and url when the tab is gone. |
| Background.AddId | background.js:348 | `pending.set(id)` adds exactly `id` and keeps the table free of duplicates. |
| Background.RemoveRealId | background.js:352 | `pending.delete(id)` removes exactly `id`. |
| Background.RemoveAfterAdd | background.js:348-353 | Registering a request whose send then fails leaves the table as deleting the id alone would. |
| Background.DropChildSessions | background.js:528-530 | The deletion loop removes exactly the child sessions owned by the tab and keeps the others. |
| Background.Extension.constructor | background.js:77-110 | The initial state: empty registry and tables, back-off 1000, no timer, auto-reconnect off. |
| Background.Extension.AttachTab | background.js:449-507 | The registry becomes `TabRegistry.AttachTab` of the old one, and the announcement is sent. Nothing else changes, and the invariant is kept. |
| Background.Extension.Store | background.js:466-470 | The entry and session mapping become `Record(old registry)`. Nothing else changes. |
| Background.Extension.ForgetTab | background.js:525-530 | The registry becomes `TabRegistry.DetachTab` of the old one. |
| Background.Extension.DetachTab | background.js:509-554 | Same registry change as `ForgetTab`. The detach notice is sent only when the relay is open and the notice is due. The invariant is kept. |
| Background.Extension.OnDebuggerEvent | background.js:853-879 | Child sessions are tracked as in `DebuggerEvent`, with the child session read from `params.sessionId`. For a tracked tab the event is forwarded under the event's session, or else the tab's. Otherwise nothing is sent. |
| Background.Extension.OnDebuggerDetach | background.js:881-886 | A tab the registry has is detached with the runtime's reason. Any other tab changes nothing. |
| Background.Extension.ToggleTab | background.js:660-677 | No active tab: nothing happens. An attached tab is detached with reason `toggle`. Any other tab gets a `connecting` entry. |
| Background.Extension.ToggleFailed | background.js:681-692 | A failed attach removes the tab's whole record (the corrected cleanup, see Findings). |
| Background.Extension.EnsureRelayConnection | background.js:192-255 | An open socket changes nothing. A failed attempt changes nothing. An opened socket enables auto-reconnect, resets the delay to 1000 and starts the heartbeat at `now`. |
| Background.Extension.RequestFromRelay | background.js:345-356 | The id is registered and the request sent. If the send fails, the id is removed again. |
| Background.Extension.ScheduleReconnect | background.js:290-292 | The timer is armed with the current delay only if none is armed. |
| Background.Extension.ForgetAttachedTabs | background.js:257-279 | The remembered tabs are exactly the tabs the registry had, and the three maps are cleared. |
| Background.Extension.OnRelayClosed | background.js:257-286 | Every pending request is rejected, in table order, and the table is emptied. The remembered tabs are exactly the old ones and the maps are cleared. The heartbeat stops. A reconnect is armed only with auto-reconnect on and no timer armed. |
| Background.Extension.ReattachTabs | background.js:310-322 | The registry becomes `ReattachAll` over the remembered tabs, and the remembered set is emptied. |
| Background.Extension.ReconnectFired | background.js:293-307 | On success the delay resets to 1000 and the remembered tabs are re-attached. On failure the delay becomes `min(2·delay, 30000)`, and the timer is re-armed only with auto-reconnect on. |
| Background.Extension.HeartbeatTick | background.js:163-180 | A tick with no socket stops the heartbeat. A tick with no pong for more than 25 s stops it and closes the socket. Otherwise it sends a ping. |
| Background.Extension.OnRelayMessage | background.js:358-430 | Each kind of message has its effect: pong out for a ping; `lastPongTime := now` for a pong; a known response id removed and settled, an unknown one ignored; the replay. A command is answered only while the relay is open. The answer's route is `PlanCommand` of the registry, and its reply fits that route as `AnswersPlan` states. |
| Background.AnswerCommand | background.js:695-792 | The route is `PlanCommand`, and it fails exactly when a tab is needed and none is attached. The reply is then `No attached tab for …`. The key chain and a dispatched mouse path answer `{}`, or the runtime's error if a runtime call failed. An undispatched mouse path answers `{ path }`. That path is drawn by `GenerateHumanMousePath` from the command's start and end points and ends at the rounded end point. Every other route answers with what the runtime returned. |
| Background.RelayClosedTwiceAsWritten | background.js:234-235 | As written, the `error` then `close` pair runs the teardown twice. The second run forgets every tab the first one remembered. |
| Background.RelayClosedTwiceRemembersTabs | background.js:257-286 | With each disconnect handled once, the second event changes nothing, and every tab attached before the disconnect stays remembered. |
| TabRegistry.SessionNameInjective | background.js:466 | Distinct counter values give distinct `cb-tab-N` ids. |
| TabRegistry.EmptyRegistryConsistent | background.js:83-90 | The empty registry satisfies the registry invariant. |
| TabRegistry.NextSessionIsFresh | background.js:466 | No session id in use comes from the counter's current or a later value. |
| TabRegistry.DropChildren | background.js:528-530 | Exactly the child sessions not owned by the tab remain, with their owners unchanged. |
| TabRegistry.AttachTab | background.js:449-470 | A refused attach (or an already attached tab) records nothing. An empty target id throws and records nothing. Otherwise the tab is recorded under the next session id. |
| TabRegistry.Announcement | background.js:476-488 | `Target.attachedToTarget` goes out exactly for an announced attach. |
| TabRegistry.RecordKeepsConsistent | background.js:466-470 | Recording an unattached tab with a non-empty target id keeps the invariant. |
| TabRegistry.AttachKeepsConsistent | background.js:449-507 | Attaching keeps the invariant, whatever the runtime answers. |
| TabRegistry.AttachSessionIsFresh | background.js:466-470 | The new session id is used by no tab and no mapping. The counter moves past it, and the tab is then found by it. |
| TabRegistry.DetachTab | background.js:509-530 | The entry goes, its main-session mapping goes, and every child session the tab owned goes. Everything else stays. |
| TabRegistry.DetachNotice | background.js:511-523 | `Target.detachedFromTarget` goes out exactly when the entry has both a session id and a target id. |
| TabRegistry.DetachKeepsConsistent | background.js:509-530 | Detaching keeps the invariant. |
| TabRegistry.DetachForgetsTab | background.js:525-530 | After a detach no entry and no session leads to the tab, and every other entry and mapping is unchanged. |
| TabRegistry.DetachIdempotent | background.js:509-530 | A second detach changes no map and announces nothing. |
| TabRegistry.GetTabBySessionId | background.js:434-440 | Main sessions are consulted before child sessions. The result reports which kind matched, or nothing. |
| TabRegistry.FirstTab | background.js:442-447 | The first tab, in insertion order, that matches, or nothing when none matches. |
| TabRegistry.AttachedTabs | background.js:393-395 | Exactly the attached tabs, in insertion order. |
| TabRegistry.DebuggerEvent | background.js:853-865 | Only a tracked tab's `Target.attachedToTarget`/`detachedFromTarget` with a session id changes anything, and only `childSessionToTab`. |
| TabRegistry.DebuggerEventKeepsConsistent | background.js:859-865 | Child-session tracking keeps the invariant. |
| TabRegistry.ChildSessionLifecycle | background.js:859-865 | A child session announced by a tracked tab is found as that tab's child. Once its detach is reported it is found no more. |
| TabRegistry.PickTab | background.js:779-790 | A command's session id, when it resolves, decides the tab. |
| TabRegistry.DebuggerSession | background.js:841-846 | The command's session id is passed to the runtime exactly when it is set, the tab has a main session, and the two differ. |
| TabRegistry.PlanCommand | background.js:695-849 | Routing fails only when no tab is attached. |
| TabRegistry.PlanCommandFailsOnlyWhenNoTabPicked | background.js:706-792 | In any registry, a command fails exactly when it needs a tab and the tab lookup finds none. The lookup uses the session id, plus the target id for methods other than the two `Input.*` ones. The error is the message thrown at that point. |
| TabRegistry.PlanCommandFailsOnlyWithoutTabs | background.js:706-792 | In a consistent registry a command fails exactly when it needs a tab (all but `restoreSession`, `getTabs` and an undispatched mouse path) and no tab is attached. The error is then `No attached tab for Input.dispatchRealKey`, `… for Input.humanMouseMove` or `… for method <name>`. |
| TabRegistry.PickTabChoosesAttachedTab | background.js:779-792 | In a consistent registry every route ends at an attached tab. Routing fails exactly when no tab is attached. |
| TabRegistry.MainSessionRoutesToTab | background.js:779-848 | A command on a main session goes to that tab, with no child session. |
| TabRegistry.ChildSessionRoutesToOwner | background.js:779-848 | A command on a child session goes to the owning tab, with the child session passed on. |
| TabRegistry.UnaddressedCommandGoesToFirstAttached | background.js:784-792 | With no session or target id, a command goes to the first attached tab in insertion order. It fails with `No attached tab for method …` when there is none. |
| TabRegistry.MarkConnecting | background.js:671 | The toolbar click writes a `connecting` entry and changes no session mapping. |
| TabRegistry.MarkConnectingKeepsConsistent | background.js:671 | Marking an unattached tab as connecting keeps the invariant. |
| TabRegistry.Cleared | background.js:277-279 | All three maps are emptied and the session counter is kept. |
| TabRegistry.ClearedKeepsConsistent | background.js:277-279 | The cleared registry satisfies the invariant. |
| TabRegistry.ReattachAll | background.js:310-322 | At most one announcement per remembered tab. |
| TabRegistry.ReattachKeepsConsistent | background.js:310-322 | Re-attaching keeps the invariant. |
| TabRegistry.AttachLeavesTabConnected | background.js:449-470 | An attach never disconnects a tab. An accepted attach with a non-empty target id leaves the attached tab connected. |
| TabRegistry.ReattachRestoresTabs | background.js:310-322 | Every remembered tab that still exists, is accepted by the runtime and has a target id is attached afterwards. |
| TabRegistry.FailedToggleCleanupAsWrittenDangles | background.js:682 | The as-written cleanup, after an attach whose announcement threw, leaves a session id routing to a tab that has no entry. |
| TabRegistry.FailedToggleCleanupKeepsConsistent | background.js:681-692 | The corrected cleanup keeps the invariant and removes the tab. |
| TabRegistry.FailedToggleCleanupAgrees | background.js:682 | For a tab that was never recorded, the corrected and as-written cleanups agree. |
| HumanInput.RealKeyChain | background.js:558-575 | `dispatchRealKey` sends keyDown, char (with text = key) and keyUp, all sharing key, code and key code, with two waits in [5, 25) ms between them. |
| HumanInput.EaseRange | background.js:593 | The ease maps [0, 1] into [0, 1], with 0 ↦ 0 and 1 ↦ 1. |
| HumanInput.EaseHalves | background.js:593 | The first half of the samples eases into the first half of the way. |
| HumanInput.EaseMonotone | background.js:593 | The ease never goes back. |
| HumanInput.BezierEnds | background.js:596-597 | The cubic curve starts at the start point and ends at the end point. |
| HumanInput.Steps | background.js:581 | `steps = max(10, floor(dist/5))` is at least 10. |
| HumanInput.GenerateHumanMousePath | background.js:579-628 | The path has steps+1 samples, or steps+3 with the overshoot. The last point is exactly `(round(ex), round(ey))`. Every sample waits [5, 20) ms and lies within 1.5 px of the eased curve. The overshoot points wait [10, 30) and [15, 40) ms. |
| HumanInput.PathStartsNearStart | background.js:584-597 | The curve's first sample is the start point. |
| HumanInput.PathSamplesReachEnd | background.js:589-597 | The curve's last sample is the end point. |
| LogBuffer.Newest | background.js:118-121 | The window of the newest `n` entries is a suffix of the history, of length `min(n, |history|)`. |
| LogBuffer.PushBoundedKeepsNewest | background.js:120-121 | Push-then-shift on the window gives the window of the longer history. |
| LogBuffer.Log.constructor | background.js:115 | The buffer starts empty. |
| LogBuffer.Log.Append | background.js:118-121 | The entry is appended last, the buffer never exceeds 200 entries, and it always equals the newest 200 entries of the history. |
| LogBuffer.EntryKeptForNextAppends | background.js:116-121 | An entry stays in the buffer until 200 newer ones have been appended. |
| Liveness.NextDelay | background.js:302 | `min(2·delay, 30000)` stays in [1000, 30000] and doubles below the cap. |
| Liveness.DelayAfterFailuresClosedForm | background.js:298-302 | After `n` failures the delay is `min(1000·2ⁿ, 30000)` and stays in [1000, 30000]. |
| Liveness.DelaySaturates | background.js:302 | From the fifth failure on, the delay stays at 30000. |
| Liveness.FirstDeadTick | background.js:163-169 | The first 15 s tick at which the peer is declared dead: no earlier tick declares it, and it comes no later than 25 s after the last pong plus one interval. |
| Correlator.InitialLedgerValid | mcp-server/src/relay-client.ts:13-14 | The fresh client (nextId 1, empty table) satisfies the correlator invariant. |
| Correlator.FindCall | mcp-server/src/relay-client.ts:119 | `pending.get(id)` finds the entry with that id exactly when one is pending. |
| Correlator.RemoveId | mcp-server/src/relay-client.ts:121 | `pending.delete(id)` removes exactly the entries with that id and keeps the ascending order. |
| Correlator.RemoveIdIds | mcp-server/src/relay-client.ts:168 | The pending ids lose exactly `id`. |
| Correlator.Issue | mcp-server/src/relay-client.ts:97-109 | The call takes `nextId`, which then grows by one, and is registered last. |
| Correlator.Settle | mcp-server/src/relay-client.ts:165-175 | Only a pending call is settled, exactly once, and it leaves the table. Any other id changes nothing. |
| Correlator.RejectAll | mcp-server/src/relay-client.ts:194-197 | One rejection per pending call, in table order. |
| Correlator.SettleAll | mcp-server/src/relay-client.ts:194-197 | The table is emptied, and the settled ids grow by exactly the pending ids. |
| Correlator.IssueKeepsValid | mcp-server/src/relay-client.ts:97-109 | Issuing keeps the invariant: increasing ids, every issued id pending or settled, none both. |
| Correlator.SettleKeepsValid | mcp-server/src/relay-client.ts:165-175 | Settling keeps the invariant. |
| Correlator.SettleAllKeepsValid | mcp-server/src/relay-client.ts:188-204 | Mass rejection keeps the invariant. |
| Correlator.SettledOnlyOnce | mcp-server/src/relay-client.ts:118-124 | Once a call is settled (by response, timeout or disconnect), settling it again with any outcome changes nothing. |
| Correlator.IssuedIdIsFresh | mcp-server/src/relay-client.ts:97 | The id handed out was never pending or settled before. |
| Correlator.SettleAllRejectsEveryPending | mcp-server/src/relay-client.ts:194-197 | After a disconnect every call that was pending is rejected with the disconnect reason, and nothing is pending. |
| RelayClient.CommandMessage | mcp-server/src/relay-client.ts:98-106 | The envelope is `{id, method: 'forwardCDPCommand', params: {method, params}}`. It carries `sessionId` exactly when a non-empty one was supplied. |
| RelayClient.ResponseOutcome | mcp-server/src/relay-client.ts:169-173 | A truthy `error` rejects the call; otherwise it resolves with `result`. |
| RelayClient.ReadIncoming | mcp-server/src/relay-client.ts:142-186 | `handleMessage` tests, in order: non-JSON, `null`, ping, pong, a numeric id with a result or error, a forwarded event with truthy params. Each is stated with both directions, and an event carries the params' session, method and params. |
| RelayClient.KeyOf | mcp-server/src/relay-client.ts:165-166 | A numeric id matches a pending key exactly when it is a non-negative whole number. |
| RelayClient.ApplyResponse | mcp-server/src/relay-client.ts:165-175 | A response settles the call with that id. An id that is not a key changes nothing. |
| RelayClient.RelayClient.constructor | mcp-server/src/relay-client.ts:12-20 | The initial state: not connected, nextId 1, no timer, delay 1000, auto-reconnect on. |
| RelayClient.RelayClient.Open | mcp-server/src/relay-client.ts:58-66 | `open` sets connected, resets the delay to 1000 and restarts the heartbeat with `now` as the last pong. |
| RelayClient.RelayClient.Connect | mcp-server/src/relay-client.ts:30-90 | Already connected: no-op. A failure changes nothing. Success is `open`. |
| RelayClient.RelayClient.SendCommand | mcp-server/src/relay-client.ts:92-126 | Not connected: the command throws and registers nothing. Otherwise the call takes `nextId` and the envelope is sent. A failed send removes the entry and rejects the call. |
| RelayClient.RelayClient.Timeout | mcp-server/src/relay-client.ts:118-124 | The 30 s timer rejects the call only if it is still pending. |
| RelayClient.RelayClient.HandleMessage | mcp-server/src/relay-client.ts:142-186 | A pong goes out for a ping exactly when connected. A pong sets `lastPongTime := now`. A response applies `ApplyResponse`. Nothing else changes the state. |
| RelayClient.RelayClient.ScheduleReconnect | mcp-server/src/relay-client.ts:206-208 | At most one timer: it is armed only when none is. |
| RelayClient.RelayClient.OnSocketClosed | mcp-server/src/relay-client.ts:188-204 | Ignored unless connected. Otherwise: disconnected, heartbeat stopped, every pending call rejected, and a reconnect armed only with auto-reconnect on. |
| RelayClient.RelayClient.ReconnectFired | mcp-server/src/relay-client.ts:208-218 | The timer is cleared and `connect` runs. A failure gives `min(2·delay, 30000)` and re-arms only with auto-reconnect on. |
| RelayClient.RelayClient.Disconnect | mcp-server/src/relay-client.ts:128-140 | Auto-reconnect off, no timer, no heartbeat, not connected. Pending calls are kept. |
| RelayClient.RelayClient.HeartbeatTick | mcp-server/src/relay-client.ts:224-237 | The socket is terminated exactly when no pong came for more than 25 s. Otherwise a ping is sent. |
| RelayClient.LateResponseIgnored | mcp-server/src/relay-client.ts:166-167 | A response for a call no longer pending changes nothing. |
| RelayClient.FalsyErrorResolves | mcp-server/src/relay-client.ts:169-173 | A present but falsy `error` resolves the call with `result`. |
| RelayClient.PingWinsOverResponse | mcp-server/src/relay-client.ts:151-165 | A ping that also carries an id and a result is handled as a ping. |
| RelayServer.ParseArgs | relay-server.js:15-30 | The index loop with its manual skip computes `ScanArgs` from port 18792 and token `''`. |
| RelayServer.ScanArgsWithoutFlags | relay-server.js:20-28 | Arguments other than the two flags change nothing. |
| RelayServer.ScanArgsTokenFollowsFlag | relay-server.js:24-26 | The token is the default or a non-empty argument directly after `--token`. |
| RelayServer.ScanArgsPortFollowsFlag | relay-server.js:21-23 | The port is the default or the `parseInt` of a non-empty argument directly after `--port`. |
| RelayServer.ScanArgsSkipsPlainPrefix | relay-server.js:20-28 | Arguments that are not flags are skipped one at a time, so the scan resumes from the same settings. |
| RelayServer.TokenFlagTakesEffect | relay-server.js:24-26 | `--token v` with a non-empty `v`, with no flag before it and none after it, sets the token to `v`. |
| RelayServer.PortFlagTakesEffect | relay-server.js:21-23 | `--port v` with a non-empty `v`, with no flag before it and none after it, sets the port to `parseInt(v)`. |
| RelayServer.PortFlagSwallowsNextFlag | relay-server.js:21-23 | In `--port --token x`, the flag name is read as the port (NaN) and the token stays `''`. |
| RelayServer.Preflight | relay-server.js:43-56 | HEAD and GET get 200, with a body only for GET. Every other method gets 404. |
| RelayServer.Gate | relay-server.js:62-88 | 401 exactly when a configured token differs from the query token (missing reads as `''`). Otherwise `/extension` and `/client` join their role and any other path gets 404. |
| RelayServer.GateWithoutToken | relay-server.js:67-74 | With no token configured, no upgrade is refused as unauthorized. |
| RelayServer.Classify | relay-server.js:99-112 | A ping is answered and a pong dropped. Non-JSON, and JSON with another or no method, is forwarded. |
| RelayServer.FanOut | relay-server.js:115-119 | Exactly the OPEN members of the target set receive the text verbatim. |
| RelayServer.FanOutOncePerMember | relay-server.js:115-119 | No member receives the text twice. |
| RelayServer.SendToOpen | relay-server.js:115-119 | The forwarding loop sends what `FanOut` describes. |
| RelayServer.Broker.constructor | relay-server.js:37-39 | Both connection sets start empty. |
| RelayServer.Broker.Upgrade | relay-server.js:62-88 | The gate decides. An accepted connection joins only its role's set. A new client sends one `clientConnected` to each OPEN extension. |
| RelayServer.Broker.OnMessage | relay-server.js:96-120 | A ping is answered on the sender itself and a pong is dropped. Anything else goes verbatim to the OPEN members of the opposite role and to no member of the sender's own role. |
| RelayServer.Broker.Close | relay-server.js:122-130 | Close or error removes only that connection from its own set. |
| SessionMirror.SetEntry | mcp-server/src/session-manager.ts:27 | `Map.set`: a new key goes last and an existing key keeps its place. |
| SessionMirror.DeleteEntry | mcp-server/src/session-manager.ts:41 | `Map.delete` removes exactly that key. |
| SessionMirror.NewSession | mcp-server/src/session-manager.ts:27-33 | Missing fields become `''`, and a missing type becomes `'page'`. |
| SessionMirror.FindTarget | mcp-server/src/session-manager.ts:67-73 | The first session in map order with the target id, or none. |
| SessionMirror.InfoChanged | mcp-server/src/session-manager.ts:69-70 | A truthy url replaces the url. A present title replaces the title. |
| SessionMirror.ApplyEvent | mcp-server/src/session-manager.ts:18-76 | Every event keeps each key listed once in the order. |
| SessionMirror.OtherEventsIgnored | mcp-server/src/session-manager.ts:18-76 | Events with any other method leave the map unchanged. |
| SessionMirror.AttachStoresSession | mcp-server/src/session-manager.ts:19-35 | An attach with an id (`params.sessionId ?? event.sessionId`) and target info stores the defaulted record. A re-attach keeps the key's place. |
| SessionMirror.AttachNeedsIdAndInfo | mcp-server/src/session-manager.ts:26 | Without the id or without target info, an attach changes nothing. |
| SessionMirror.DetachRemovesSession | mcp-server/src/session-manager.ts:37-43 | A detach removes exactly that session. Removing an absent one is a no-op. |
| SessionMirror.NavigationChangesOnlyUrl | mcp-server/src/session-manager.ts:46-52 | A navigation changes only the url, only of the event's known session, and only to a non-empty url. |
| SessionMirror.TitleUpdateSetsTitle | mcp-server/src/session-manager.ts:55-61 | A defined title, including `''`, becomes the title of the event's known session. Every other session and field and the key order stay. Without a title, or for an unknown session, nothing changes. |
| SessionMirror.TargetInfoChangeUpdatesFirstMatch | mcp-server/src/session-manager.ts:64-75 | Only the first session in map order with a matching target id is updated. All others, and the key order, stay. |
| SessionMirror.SessionManager.constructor | mcp-server/src/session-manager.ts:12 | The session map starts empty. |
| SessionMirror.SessionManager.Set | mcp-server/src/session-manager.ts:27 | The fields become `SetEntry` of the old map. |
| SessionMirror.SessionManager.HandleEvent | mcp-server/src/session-manager.ts:18-76 | The fields become `ApplyEvent` of the old map, including the target-info loop with its `break`. |
| SessionMirror.SessionManager.GetSessions | mcp-server/src/session-manager.ts:78-80 | The records in map order. |
| SessionMirror.SessionManager.GetSession | mcp-server/src/session-manager.ts:82-84 | The record for the id exactly when it is present. |
| SessionMirror.SessionManager.GetDefaultSession | mcp-server/src/session-manager.ts:87-90 | The first record in map order, or none exactly when the map is empty. |
| SessionMirror.SessionManager.ResolveSessionId | mcp-server/src/session-manager.ts:93-98 | A non-empty id is returned unchecked. Otherwise the first session's id, or an error when there is none. |
| TypeTool.CodePoints | mcp-server/src/tools/type.ts:58 | `for…of` yields one- or two-unit pieces, and a two-unit piece is a surrogate pair. |
| TypeTool.CodePointsSpellText | mcp-server/src/tools/type.ts:58 | The pieces, concatenated, spell the text: nothing lost, nothing reordered. |
| TypeTool.CodePointsOfBmpText | mcp-server/src/tools/type.ts:58 | Text without surrogates yields one piece per unit. |
| TypeTool.ToUpperCase | mcp-server/src/tools/type.ts:14 | ASCII lower-case letters are capitalised and every other unit is kept. |
| TypeTool.GetKeyInfo | mcp-server/src/tools/type.ts:12-34 | `key` is the character itself. `keyCode` is its code unit for one unit, and 0 with an empty code otherwise. |
| TypeTool.LetterKeys | mcp-server/src/tools/type.ts:13-31 | ASCII letters of either case get `Key` plus the capital, and the typed character's code (so `a` gives 97). |
| TypeTool.DigitAndSpaceKeys | mcp-server/src/tools/type.ts:16-17 | Digits get `Digit` plus the digit. Space gets `Space` and key code 32. |
| TypeTool.CapitalRangeTest | mcp-server/src/tools/type.ts:15 | For one unit, the string test `'A' <= s <= 'Z'` is the range test on the unit. |
| TypeTool.PunctuationKeys | mcp-server/src/tools/type.ts:18-28 | The eleven punctuation characters get their table names. |
| TypeTool.FallbackKeys | mcp-server/src/tools/type.ts:29 | Any other one-unit character gets `Key` plus its upper case. |
| TypeTool.AstralKeys | mcp-server/src/tools/type.ts:33 | A surrogate pair gets an empty code and key code 0. |
| TypeTool.Dispatches | mcp-server/src/tools/type.ts:58-65 | One `Input.dispatchRealKey` per piece, in order, with `getKeyInfo` of that piece. |
| TypeTool.Type | mcp-server/src/tools/type.ts:44-65 | One focus-and-clear evaluation, then exactly one `Input.dispatchRealKey` per code point of the text, in text order. |
| JsMath.Round | mcp-server/src/tools/simulate-drag.ts:65 | `Math.round(x)` lies in (x − 0.5, x + 0.5]. |
| JsMath.JitteredRoundNear | mcp-server/src/tools/simulate-drag.ts:63-66 | A coordinate moved by ±1 of jitter and rounded stays within 1.5 of where it was. |
| SimulateDrag.SmoothstepEnds | mcp-server/src/tools/simulate-drag.ts:13-15 | `smoothstep(0) = 0` and `smoothstep(1) = 1`. |
| SimulateDrag.SmoothstepRange | mcp-server/src/tools/simulate-drag.ts:13-15 | On [0, 1], smoothstep stays in [0, 1]. |
| SimulateDrag.SmoothstepMonotone | mcp-server/src/tools/simulate-drag.ts:13-15 | On [0, 1], smoothstep never decreases, so the drag only advances. |
| SimulateDrag.SmoothstepSymmetric | mcp-server/src/tools/simulate-drag.ts:13-15 | `smoothstep(1 − t) = 1 − smoothstep(t)`. |
| SimulateDrag.LoopBound | mcp-server/src/tools/simulate-drag.ts:60 | `for (i = 1; i <= steps; i++)` runs exactly for i = 1..MoveCount(steps). |
| SimulateDrag.Moves | mcp-server/src/tools/simulate-drag.ts:60-77 | The first `k` moves, move `i` at index `i − 1`. |
| SimulateDrag.Drag | mcp-server/src/tools/simulate-drag.ts:23-86 | No element: no event is sent. Otherwise the press, the moves and the release, with `steps ?? 30` and `offset_y ?? 0`. |
| SimulateDrag.MoveLoop | mcp-server/src/tools/simulate-drag.ts:60-77 | The counted loop produces exactly the `MoveCount(steps)` moves. |
| SimulateDrag.DragEventsShape | mcp-server/src/tools/simulate-drag.ts:51-86 | One press at the rounded start, then exactly `steps` moves, then one release at the rounded start + offset. Move `i` lies within 1.5 px of `start + offset·smoothstep(i/steps)`. |
| SimulateDrag.DefaultDragHasThirtyMoves | mcp-server/src/tools/simulate-drag.ts:23 | Without `steps`, 30 moves lie between the press and the release. |
| PythonClient.ParamsOrEmpty | python_client/cdpilot.py:51 | `params or {}`: a falsy or missing value becomes `{}`. |
| PythonClient.CommandPayload | python_client/cdpilot.py:46-53 | The payload has exactly the keys id, method and params. The inner dict has exactly method and params, with no sessionId. |
| PythonClient.IdKey | python_client/cdpilot.py:28 | Lists and dicts are unhashable (a `TypeError`). `True` looks up key 1 and `False` key 0. A number looks up an int key exactly when it is a non-negative whole number, so `1.0` looks up key 1. Strings and None match no int key. |
| PythonClient.ReadListenerMessage | python_client/cdpilot.py:23-36 | Invalid JSON, and a top-level value that `'id' in data` cannot handle, end the listener. A dict without `id`, or with an id that is not pending, is skipped. The presence of `error`, not its truthiness, selects the exception. |
| PythonClient.PressCommands | python_client/cdpilot.py:107-114 | `press("Enter")` sends rawKeyDown, char and keyUp, each with text `\r`. Any other key sends nothing. |
| PythonClient.CDPilot.constructor | python_client/cdpilot.py:6-10 | No socket, `request_id = 1`, an empty table. |
| PythonClient.CDPilot.Connect | python_client/cdpilot.py:12-21 | Success keeps the socket and starts the listener. A failure changes nothing. |
| PythonClient.CDPilot.SendCommand | python_client/cdpilot.py:38-59 | With no socket it raises before taking an id. Otherwise the request takes `request_id` (+1) and its future is stored before the send. A failed send leaves it pending. |
| PythonClient.CDPilot.OnListenerMessage | python_client/cdpilot.py:26-34 | A fatal message ends the listener. A message for a pending id pops and settles it. Anything else changes nothing. |
| PythonClient.CDPilot.OnConnectionClosed | python_client/cdpilot.py:35-36 | The listener ends, and the pending futures stay unsettled. |
| PythonClient.NullErrorRejects | python_client/cdpilot.py:31-34 | `"error": null` still raises here, while the MCP relay client resolves the same response. |
| PythonClient.TrueIdSettlesRequestOne | python_client/cdpilot.py:28-30 | `"id": true` settles request 1. |
| PythonClient.RequestsNumberedFromOne | python_client/cdpilot.py:43-44 | A fresh client numbers its requests 1, 2, 3, … in send order. |
| PythonClient.ResponseSettlesOnce | python_client/cdpilot.py:28-30 | Only a pending request is settled, and a second response for the same id changes nothing. |
| EnvFile.Strip | python_client/search_x.py:12 | `strip` removes leading and trailing characters of the given kind, and nothing more. |
| EnvFile.LeadingCountIsRun | python_client/search_x.py:12 | `lstrip` removes a maximal run of stripped characters. |
| EnvFile.TrailingCountIsRun | python_client/search_x.py:12 | `rstrip` removes a maximal run of stripped characters. |
| EnvFile.StripKeepsMiddle | python_client/search_x.py:12 | What `strip` keeps is a contiguous piece of the input, and everything it removed is of the stripped kind. |
| EnvFile.StripLeavesClean | python_client/search_x.py:12 | Text that neither starts nor ends with a stripped character is unchanged. |
| EnvFile.StripIdempotent | python_client/search_x.py:12 | Stripping twice is stripping once. |
| EnvFile.FirstIndexOf | python_client/search_x.py:16 | The cut of `split("=", 1)` is at the first `=`. |
| EnvFile.ParseLine | python_client/search_x.py:12-17 | A line assigns nothing exactly when, after stripping, it is blank, starts with `#`, or has no `=`. A key never contains `=`. |
| EnvFile.ParsedLineIsClean | python_client/search_x.py:16-17 | The key is stripped and has no `=`. The value neither starts nor ends with `'`. |
| EnvFile.ParsedLines | python_client/search_x.py:11-17 | What each line assigns, in file order. |
| EnvFile.LoadEnv | python_client/search_x.py:6-20 | A missing file gives `{}`. Otherwise the loop builds `EnvOf(lines)`. |
| EnvFile.AssignedKeys | python_client/search_x.py:17 | A key is in the result exactly when some line assigns it. |
| EnvFile.LastAssignmentWins | python_client/search_x.py:17 | A key's value is the one its last assignment gives. |
| EnvFile.SkippedLineChangesNothing | python_client/search_x.py:13-15 | A blank, comment or `=`-less line changes nothing. |
| EnvFile.SplitsAtFirstEquals | python_client/search_x.py:16-17 | `key=value` is split at the first `=` only, so the value keeps any further `=`. |
| EnvFile.DoubleQuotesOutsideSingle | python_client/search_x.py:17 | Double quotes are removed before single quotes, so a value `"'v'"` loses both pairs (for `v` neither starting nor ending with `'`). |
| EnvFile.SingleQuotesOutsideDouble | python_client/search_x.py:17 | A value `'"v"'` loses only its single quotes, and the double quotes inside stay. |

## Left out

- **I/O becomes inputs or outputs:** WebSocket open, send, close and terminate; `fetch` probes; `chrome.debugger`, `chrome.tabs`, `chrome.storage` and `chrome.action` calls (badges, titles, log persistence, the `sessionTabs` record); console and `print` output. A send's failure, the runtime's answers and which connections are OPEN are inputs. Messages are values, not JSON text.
- **Timers and the clock:** `setTimeout` and `setInterval` are explicit timer-fired and tick methods with `now`. Sleeps in the synthesizers, the drag and the interaction delay are not modelled.
- **Concurrency:**
  - `relayConnectPromise` sharing and the interleaving of `await`s are not modelled; each handler runs atomically.
  - The toolbar click is split into `ToggleTab`, the connect/attach methods and `ToggleFailed`.
  - Promises and futures are not values: a settlement is recorded in a ghost ledger.
- **Socket identity:** the model keeps one relay socket per client. A late event of an old socket cannot be told apart from the current one.
- Background.Extension.OnRelayClosed: handles each socket's disconnect once, instead of running the teardown for both `error` and `close` as written (see Findings).
- Background.Extension.ToggleFailed: models the corrected cleanup, not the single `tabs.delete` the source does (see Findings).
- Background.SettleRequest: the rejection carries the error value itself, not an `Error` whose message is `String(error)`; JavaScript's `String` conversion of an arbitrary value is not modelled.
- RelayClient.RelayClient.HandleMessage: a JSON `null` frame makes the `msg.method` read at relay-client.ts:151 throw a `TypeError` out of the socket's message listener. The model reads it as `NullMessage` and changes no state; what the escaping error does to the process is not modelled.
- Background.MouseMoveOf: a `startX`, `startY`, `endX` or `endY` that is neither a number, missing nor `null` is read as 0. The source would compute with it as JavaScript does (a string concatenates, an object gives `NaN`).
- Background.Extension.OnDebuggerEvent: a truthy `params.sessionId` that is not a string is not recorded as a child session. The source records `String(params.sessionId)`.
- Background.ReadCommandArgs: a `params.method` that is truthy but not a string (`String(5)`) is read as the empty method name.
- Background.RelayPort: a stored number is read through its integer part. Exponent forms of `String(n)` (`1e21`) and arrays are not modelled.
- TabRegistry.PlanCommand: `Target.createTarget`, `Target.closeTarget`, `Target.activateTarget`, `Runtime.enable`, `Extension.getTabs` and `Extension.restoreSession` are routing decisions only. Their runtime calls, and the attach inside `createTarget` and `restoreSession`, are not modelled.
- HumanInput.GenerateHumanMousePath: coordinates are reals, not IEEE doubles. `Math.hypot` is the parameter `dist`, constrained by its defining equation. `cos`/`sin` of `atan2` are `dx/dist` and `dy/dist`. The overshoot point is only placed past the end.
- TypeTool.ToUpperCase: only ASCII letters are mapped. Unicode case mapping (`ß` to `SS`, for example) is not modelled.
- TypeTool.Type: every command is taken to succeed. A throwing `sendCommand` ends the real loop early. `resolveSessionId` and the returned text are left out.
- SimulateDrag.Drag: the element lookup is the input `pos`, which is `None` when the page returns nothing. The session resolution, the `Runtime.evaluate` call and the result text are left out.
- PythonClient.CDPilot.Connect: a second `connect` while connected starts a second listener in the source; the model keeps one.
- PythonClient.ReadListenerMessage: a message that is not valid UTF-8 text is not modelled.
- PythonClient.CDPilot.SendCommand: futures cancelled by their awaiter are not modelled.
- EnvFile.LoadEnv: the file is given as the lines `for line in f` yields. Newline translation, decoding errors and `OSError`s other than `FileNotFoundError` are not modelled.
- **Not part of this model:**
  - `STEALTH_SCRIPT` and every page-side script;
  - the captcha tools;
  - the thin tool wrappers and `server.ts`;
  - the `mcp-server/dist` build output;
  - `log.js`;
  - the DOM and `fetch` parts of `options.js` (`load`, `saveToken`, `checkRelayReachable`);
  - the Python `main` script and its `wait`, `evaluate`, `click`, `type` and `get_page_info` helpers.

## Findings

| source | as written | input that shows it | evidently intended | confidence | as-written member | corrected member |
|---|---|---|---|---|---|---|
| background.js:682 | A toolbar attach that fails removes only the `tabs` entry. | `attachTab` records `cb-tab-N` and then throws because the relay dropped before the announcement. `tabBySession` keeps `cb-tab-N` pointing at a tab that has no entry. | The failed attach removes the tab's whole record, as `detachTab` does, so no session routes to an unknown tab. | not executed; medium | TabRegistry.FailedToggleCleanupAsWrittenDangles | TabRegistry.FailedToggleCleanupKeepsConsistent |
| background.js:234-235 | `onRelayClosed` is bound to both `error` and `close`. A failing WebSocket fires both, so the teardown runs twice. | Any attached tab when the relay socket errors. The second run sees the cleared registry and sets `previouslyAttachedTabs` to the empty set. | Each disconnect is torn down once, so the tabs attached before it are re-attached after the reconnect. | not executed; medium | Background.RelayClosedTwiceAsWritten | Background.RelayClosedTwiceRemembersTabs |
