# Complexity message-policy core in Dafny

This is a Dafny model of the policy layer of the Complexity browser extension for Perplexity. The modelled parts are:

- the interceptors that inspect, rewrite, pass or suppress the site's WebSocket and long-polling messages (`WebpageMessageInterceptors.ts`);
- the one-shot waiters built on those interceptors;
- the socket registry that performs the engine handshake (`InternalWebSocketManager.ts`);
- the text-to-speech player's queue and promise logic (`tts.ts`);
- the sticky toolbar's container bookkeeping (`ThreadMessageStickyToolbar/index.tsx`);
- the language-name logic of code blocks (`MarkdownBlock.ts`);
- the subscription predicate (`useHasActivePplxSub.ts`).

The model is functional. Messages, JavaScript values and component state are immutable datatypes. Each interceptor is a pure function from the parsed message, plus the state it reads, to a `Verdict`. A verdict is either no match, or a match that keeps, replaces or suppresses the message and records side effects such as cache invalidations. Timers, socket events and audio completion are explicit events.

Modules, one per file:

| module | file | models |
|---|---|---|
| `Base` | base.dfy | `Option`; substring search (`includes`); `split`/`join` on one character, with round-trip lemmas |
| `JsValue` | js_value.dfy | JavaScript values: truthiness, `== null`, property reads, object spread |
| `Wire` | wire.dfy | The parsed envelope `{messageCode, event, data}`; the parse result; verdicts and effects |
| `Lists` | lists.dfy | `Array.from(new Set(xs))` and `filter(x => x !== y)` on lists of any values |
| `AskRewrite` | ask_rewrite.dfy | `alterQueries` and `alterNextQuery` |
| `Policies` | policies.dfy | `updateQueryLimits`, `detectSpaceSwap`, `removeComplexityIdentifier`, `blockTelemetry`; the waiters' match predicates; the stop conditions interceptors are registered with and how many messages each sees |
| `Waiter` | waiter.dfy | A waiter's life: its first match resolves it, the timer of the three waiters that arm one rejects it, and it settles once |
| `SocketRegistry` | socket_registry.dfy | `InternalWebSocketManager`: handshake, session-id extraction, `getSocket`, `removeSocket` |
| `TtsPlayer` | tts_player.dfy | The TTS player: PCM decoding, chunk FIFO, `play`, `stop`, listener handling, the idle timer |
| `StickyToolbar` | sticky_toolbar.dfy | `isChanged`, `updateContainers`, `toggleVisibility` |
| `MarkdownBlock` | markdown_block.dfy | `getLang`, `translateLang`, `transformPreBlock`, `getLangFromReactNode`, `isInFlight`, `getPreBlockLocalIndex` |
| `Subscription` | subscription.dfy | `validateHasActivePplxSub` and the hook's `hasActivePplxSub` |

Some behaviours are modelled as the code is written, and lemmas state them:

- In the home branch of `alterQueries`, a comment says organisation files and space files are exclusive. The space step runs after the organisation step and can add "space" back (`AskRewrite.OrgAndSpaceCoexist`).
- `waitForSpaceCreation` negates its predicate. It therefore releases on every parsed message except the space-creation acknowledgement (`Policies.SpaceCreationWaiterInverted`).
- `isChanged` compares against an incognito flag sampled once, when the module loads. Once the flag has changed, every observation of the same list adopts it again and dispatches a state update (`StickyToolbar.ObserveUnchanged`).
- `transformPreBlock` decides nativeness from the element's current parent. A non-native element it has moved into a new wrapper is reported native by every later call, unless that wrapper matches the Markdown-query selector (`MarkdownBlock.MovedPreTurnsNative`).
- A `play` issued while an earlier call is still waiting replaces the pending promise without settling it (`TtsPlayer.PlayOrphansPending`).
- `stop` does not cancel a `play` that is waiting for its handshake. Once the handshake resolves, that call attaches and sends its request after all (`TtsPlayer.StopDuringHandshake`).
- Two `play` calls that both find no open socket both handshake. Both requests are sent, and the earlier promise is never settled (`TtsPlayer.OverlappingHandshakes`).
- `sources` is declared as a string array, but `new Set` also accepts a string. A string `sources` that no file step pushes onto is sent split into its characters (`AskRewrite.StringSourcesSplit`).
- Each `play` adds one more "message" listener, so while k listeners are attached every audio frame is queued k times (`TtsPlayer.ApplyFifo`).

## Model

Source paths are relative to the repository root.

| member | source | states |
|---|---|---|
| JsValue.Spread | src/content-script/main-world/WebpageMessageInterceptors.ts:344-348 | `{ ...v }` copies an object's own fields, one index key per item of an array or character of a string, and nothing from other primitives |
| Lists.Dedup | src/content-script/main-world/WebpageMessageInterceptors.ts:214-216 | `Array.from(new Set(s))` has the same members as `s`, has no duplicates, and keeps first occurrences in their original order |
| Lists.Without | src/content-script/main-world/WebpageMessageInterceptors.ts:189 | The filter drops every occurrence of the removed element and keeps every other element as often as it occurs (multisets), in its original order (a subsequence) |
| AskRewrite.FinalSources | src/content-script/main-world/WebpageMessageInterceptors.ts:214-218 | The sent `sources` is `null` when the deduplicated list is empty. Otherwise it is a non-empty, duplicate-free array listing exactly the draft's members, ordered by their first occurrence in the draft |
| AskRewrite.RewriteHome | src/content-script/main-world/WebpageMessageInterceptors.ts:169-233 | A home/modal/collection ask gets exactly five keys rewritten. The model becomes the selected one when the model selector is on. The query source becomes "collection" when a space is selected. The target becomes the selected space when the space selector is also on. Every other key is unchanged |
| AskRewrite.HomeSourcesRule | src/content-script/main-world/WebpageMessageInterceptors.ts:172-212 | The final focus is internet exactly when the focus after the collection rule is writing and either file step fired. "org", "space" and "web" are listed on the stated conditions. Every other value is listed iff it was in the original list, where a string `sources` counts as its characters |
| AskRewrite.StringSourcesSplit | src/content-script/main-world/WebpageMessageInterceptors.ts:164-216 | A home ask with `sources` "web" and no file step is sent with sources `["w", "e", "b"]` |
| AskRewrite.OrgAndSpaceCoexist | src/content-script/main-world/WebpageMessageInterceptors.ts:184-212 | With organisation files included and the space step firing, both "org" and "space" are sent, despite the exclusivity comment |
| AskRewrite.RewriteFollowup | src/content-script/main-world/WebpageMessageInterceptors.ts:235-292 | A followup/edit/retry ask gets its model rewritten unless it is a retry. A retry becomes an edit, and the target becomes the thread's space, exactly when the thread's space files are attached. Other keys are unchanged |
| AskRewrite.FollowupSourcesRule | src/content-script/main-world/WebpageMessageInterceptors.ts:244-281 | In a followup, "org" and "space" are added on their conditions. An array of sources loses nothing. Any other `sources` is dropped when a file step fires, and otherwise counts as its characters (a string) or as empty (nullish) |
| AskRewrite.FollowupFocusKept | src/content-script/main-world/WebpageMessageInterceptors.ts:283-289 | A followup never changes the search focus |
| AskRewrite.AlterQueries | src/content-script/main-world/WebpageMessageInterceptors.ts:123-317 | Matches exactly the parsed asks whose `data[1]` is an object and that are not default searches, are not flagged to be ignored, and have one of the six known query sources. A match replaces `data[1]` with the branch's rewrite |
| AskRewrite.AlterNextQuery | src/content-script/main-world/WebpageMessageInterceptors.ts:319-369 | Matches exactly the parsed asks that are not default searches. A match replaces `data[1]` by an object spread from it. It sets the model, even to `undefined`, sets the mode to "copilot" only when pro search is on, and copies every other key of the spread |
| Wire.ParseStructured | src/content-script/main-world/WebpageMessageInterceptors.ts:590-603 | Exactly the messages that parse to an envelope yield it, and nothing else does |
| Policies.Deregisters | src/content-script/main-world/WebpageMessageInterceptors.ts:47 | `() => false` never removes an interceptor, `() => true` always does, and a stop condition equal to the match condition removes it exactly on a match |
| Policies.Seen | src/content-script/main-world/WebpageMessageInterceptors.ts:365 | Over a run of messages, an interceptor that never stops sees all of them and one that always stops sees only the first. One that stops on a match sees every message up to and including the first match |
| Policies.RegistrationLifetimes | src/content-script/main-world/WebpageMessageInterceptors.ts:365-367 | Persistent interceptors see the whole run, `alterNextQuery` only its first message even when that does not match, and a waiter up to its first match |
| Policies.UpdateQueryLimits | src/content-script/main-world/WebpageMessageInterceptors.ts:29-49 | Matches exactly the two rate-limit events, invalidates the cached user settings, and passes every message on unchanged |
| Policies.ThreadIdFromPath | src/content-script/main-world/WebpageMessageInterceptors.ts:73 | The thread id is a single path segment, the last one, and a path without `/` is its own id |
| Policies.ThreadIdOfPath | src/content-script/main-world/WebpageMessageInterceptors.ts:73 | The thread id taken from a path ending in `/<id>` is `<id>` |
| Policies.DetectSpaceSwap | src/content-script/main-world/WebpageMessageInterceptors.ts:51-83 | Matches a collection upsert whose first element has `new_collection_uuid`, or any collection-thread removal. It schedules a refresh of the info of the thread named by the page path when the refresh runs, and passes the message on unchanged |
| Policies.RemoveComplexityIdentifier | src/content-script/main-world/WebpageMessageInterceptors.ts:371-399 | Matches exactly when `data[0].is_complexity` is truthy. The replacement clears that field and keeps every other field and element |
| Policies.RemoveComplexityIdentifierOnce | src/content-script/main-world/WebpageMessageInterceptors.ts:383-387 | A message that has already been stripped no longer matches |
| Policies.BlockTelemetry | src/content-script/main-world/WebpageMessageInterceptors.ts:401-425 | When the setting is on, exactly the analytics events are suppressed. Nothing is suppressed otherwise |
| Policies.UpsertWaiterMatch | src/content-script/main-world/WebpageMessageInterceptors.ts:427-437 | Fires exactly on a parsed message with one data element whose status is "completed", and resolves with `null` |
| Policies.ProfileWaiterMatch | src/content-script/main-world/WebpageMessageInterceptors.ts:453-483 | Fires exactly on a code-430 message with one element the schema accepts, and resolves with the schema's parse of it |
| Policies.CollectionsWaiterMatch | src/content-script/main-world/WebpageMessageInterceptors.ts:502-535 | Fires exactly on a code-431 message whose single element is a non-empty array whose first entry the space schema accepts. It resolves with the whole array |
| Policies.SpaceCreationWaiterMatch | src/content-script/main-world/WebpageMessageInterceptors.ts:554-568 | Fires exactly on the parsed messages that are not a space-creation acknowledgement |
| Policies.SpaceCreationWaiterInverted | src/content-script/main-world/WebpageMessageInterceptors.ts:560-567 | Every code-430 message releases the space-creation waiter, and so does every message without exactly one element. The acknowledgement never releases it, although it does release the upsert waiter |
| Waiter.Step | src/content-script/main-world/WebpageMessageInterceptors.ts:485-499 | Every event keeps "registered iff pending". A registered waiter stays registered on a message exactly when it does not match. A waiter without a timer ignores timer events, and only a timer rejects |
| Waiter.OneShot | src/content-script/main-world/WebpageMessageInterceptors.ts:537-551 | Over any event sequence, the waiter stays registered and pending exactly until the first match or, when it has a timer, the first timer event. That first event alone decides the outcome |
| Waiter.RunSettled | src/content-script/main-world/WebpageMessageInterceptors.ts:570-586 | A settled waiter ignores all later messages and timer events |
| Waiter.NoTimerNeverRejects | src/content-script/main-world/WebpageMessageInterceptors.ts:439-450 | `waitForUpsertThreadCollection` arms no timer, so no run of events ever rejects it |
| SocketRegistry.GetInstance | src/utils/InternalWebSocketManager.ts:15-20 | The first call creates an empty registry and stores it. Later calls return the stored one |
| SocketRegistry.Endpoint | src/utils/InternalWebSocketManager.ts:26 | Without a truthy id the endpoint is the bare host. A truthy id is appended as the `src` query parameter |
| SocketRegistry.EndpointInjective | src/utils/InternalWebSocketManager.ts:26 | Different truthy ids give different endpoints, and none equals the endpoint without an id |
| SocketRegistry.StartHandshake | src/utils/InternalWebSocketManager.ts:22-30 | In the main world the handshake rejects without opening a socket. Otherwise it is pending on the endpoint for its id, with its handler attached |
| SocketRegistry.ExtractSid | src/utils/InternalWebSocketManager.ts:38 | An extracted id is non-empty and free of line terminators, and the data is exactly `{"sid":"<id>"}` |
| SocketRegistry.ExtractSidRoundTrip | src/utils/InternalWebSocketManager.ts:38 | Every such id is recovered from the open packet that carries it |
| SocketRegistry.OnMessage | src/utils/InternalWebSocketManager.ts:32-48 | Non-strings are ignored. The first string detaches the handler. Only an open packet with an id stores the socket and resolves a pending handshake |
| SocketRegistry.OnError | src/utils/InternalWebSocketManager.ts:50-52 | An error rejects a pending handshake and leaves a settled one alone |
| SocketRegistry.FirstStringMessageOnly | src/utils/InternalWebSocketManager.ts:33-45 | After the first string message, no later message changes the registry or the handshake |
| SocketRegistry.HandshakeRegisters | src/utils/InternalWebSocketManager.ts:40-42 | A successful handshake resolves with its socket, which can then be retrieved under the server's id |
| SocketRegistry.GetSocket | src/utils/InternalWebSocketManager.ts:56-58 | Returns the stored socket exactly when the id is present |
| SocketRegistry.RemoveSocket | src/utils/InternalWebSocketManager.ts:60-64 | Reports whether the id was present, returns the socket to close, and removes that id and no other |
| TtsPlayer.DecodePcm | src/utils/tts.ts:111 | An even-length buffer becomes half as many samples, each the signed little-endian 16-bit value of its byte pair |
| TtsPlayer.DecodeEncodePcm | src/utils/tts.ts:111 | Decoding recovers every 16-bit sample sequence from its bytes |
| TtsPlayer.GetInstance | src/utils/tts.ts:25-30 | The first call creates the idle player and stores it. Later calls return the stored one |
| TtsPlayer.PlayNextChunk | src/utils/tts.ts:151-184 | Starts the head chunk. On an empty queue it stops playing and resolves the pending promise exactly once. Played chunks followed by the remaining queue equal the old queue |
| TtsPlayer.HandleAudioChunk | src/utils/tts.ts:109-128 | An odd-length buffer is dropped. Otherwise the decoded chunk is appended after all queued chunks, playback starts if idle, and the idle timer is re-armed |
| TtsPlayer.HandleMessage | src/utils/tts.ts:98-107 | Binary data is audio. A string with the completion marker stops listening. Anything else is ignored |
| TtsPlayer.Stop | src/utils/tts.ts:138-149 | Leaves the player idle with an empty queue, no pending promise, no listeners and no timer. It closes the socket iff playing, and resolves iff a promise was pending. Calls waiting for a handshake stay waiting |
| TtsPlayer.TtsRequest | src/utils/tts.ts:73-96 | The request is code 222 "voice_over" with one object carrying the uuid and the voice's name |
| TtsPlayer.Play | src/utils/tts.ts:45-65 | Stops first if playing, which leaves the socket closed. On an open socket the call takes the pending slot, adds a listener and ends by sending the request. Otherwise it waits for a handshake and, apart from stopping, does nothing yet |
| TtsPlayer.SettleHandshake | src/utils/tts.ts:56-64 | A rejected handshake rejects its call's promise and changes nothing else. A resolved one installs the new socket with one listener, gives its call the pending slot and sends its request. Nothing else waiting is affected |
| TtsPlayer.StopListening | src/utils/tts.ts:130-136 | Disarms the idle timer, detaches every listener, and changes nothing else |
| TtsPlayer.DeliverTimes | src/utils/tts.ts:67-71 | A message runs the handler once per attached listener. With no listener, or for a message that is neither audio nor text, nothing changes. The pending promise and the socket are never touched |
| TtsPlayer.Apply | src/utils/tts.ts:109-117 | No event leaves chunks queued while idle |
| TtsPlayer.DeliverTimesDone | src/utils/tts.ts:101-106 | However many listeners see the completion marker, the effect is one `stopListening` |
| TtsPlayer.ApplyFifo | src/utils/tts.ts:112 | Per event, started chunks followed by the queue equal the old queue followed by the arrivals: one copy per attached listener |
| TtsPlayer.RunFifo | src/utils/tts.ts:151-178 | Over any run of socket messages, chunk ends and timer ticks, the chunks reach the audio sink in arrival order |
| TtsPlayer.PlayOrphansPending | src/utils/tts.ts:56-61 | A `play` issued while an earlier one waits on an open socket replaces its promise without settling it |
| TtsPlayer.StopDuringHandshake | src/utils/tts.ts:52-64 | A `stop` while a `play` waits for its handshake neither cancels nor resolves it. When the handshake resolves, the call takes the pending slot and sends its request |
| TtsPlayer.OverlappingHandshakes | src/utils/tts.ts:56-64 | Two calls that both handshake both send their requests when their handshakes resolve. The later one holds the pending slot and the later socket, and the earlier promise is never settled |
| StickyToolbar.IsChanged | src/content-script/components/ThreadMessageStickyToolbar/index.tsx:45-63 | True iff the incognito flag differs from its load-time value or the container lists differ |
| StickyToolbar.UpdateContainers | src/content-script/components/ThreadMessageStickyToolbar/index.tsx:76-98 | Without a change, nothing happens. On a change the list is adopted and the states are resized to it: surviving states are kept and new ones start in the default state |
| StickyToolbar.ObserveUnchanged | src/content-script/components/ThreadMessageStickyToolbar/index.tsx:43-48 | Observing the same list k times dispatches k state updates once the incognito flag has changed since load, and never otherwise. The states stay as they are |
| StickyToolbar.ToggleVisibility | src/content-script/components/ThreadMessageStickyToolbar/index.tsx:100-115 | Re-hiding a hidden entry dispatches nothing. Otherwise only an existing entry at the index gets the new flag, and nothing else changes |
| StickyToolbar.ToggleVisibilityIdempotent | src/content-script/components/ThreadMessageStickyToolbar/index.tsx:106-112 | Toggling twice with the same observation equals toggling once |
| MarkdownBlock.LanguageCapture | src/utils/MarkdownBlock.ts:190 | None iff no `language-` followed by a non-space character occurs. Otherwise the capture is the maximal non-empty, space-free run right after the leftmost such `language-` |
| MarkdownBlock.LanguageCaptureOfClass | src/utils/MarkdownBlock.ts:190 | A class list starting `language-<name>` yields `<name>`, whatever classes follow |
| MarkdownBlock.GetLang | src/utils/MarkdownBlock.ts:184-194 | Returns the first non-empty of `data-lang`, the class capture and the label text. The result is "" iff all three are missing |
| MarkdownBlock.TranslateLang | src/utils/MarkdownBlock.ts:196-203 | "scratchpad" and "claudethinking" become "md". Every other name is unchanged |
| MarkdownBlock.TranslateLangIdempotent | src/utils/MarkdownBlock.ts:196-203 | Translating twice equals translating once |
| MarkdownBlock.TransformPreBlock | src/utils/MarkdownBlock.ts:18-75 | No element gives no result. The language defaults to "text", and nativeness is read from the current parent. A flagged element reuses its parent and its previous sibling, if any. Otherwise a new container and, unless native, a new wrapper are built. The element ends up inside the wrapper after the container and is flagged. A moved element's parent is the new wrapper |
| MarkdownBlock.TransformPreBlockOnce | src/utils/MarkdownBlock.ts:24-39 | A second transform builds nothing, changes nothing, and returns the same wrapper. It returns the same container except for a native element that had a previous sibling. A moved element's nativeness is read from its new wrapper |
| MarkdownBlock.MovedPreTurnsNative | src/utils/MarkdownBlock.ts:24-26 | A non-native element moved into a wrapper outside the Markdown query is non-native on the first call and native on the next |
| MarkdownBlock.AfterFirstDash | src/utils/MarkdownBlock.ts:176 | `split("-").slice(1).join("-")` of a name without a dash is "" |
| MarkdownBlock.AfterFirstDashSplits | src/utils/MarkdownBlock.ts:176 | Splitting on "-", dropping the first piece and rejoining gives everything after the first dash, or "" when there is none |
| MarkdownBlock.GetLangFromReactNode | src/utils/MarkdownBlock.ts:163-182 | Outside the main world it gives the DOM path's language. A missing props key, or props not of type "object", give `undefined`. A string class name gives its text after the first dash, or "text". A nullish class name gives "text". `null` props, or a class name of any other type, throw, and the DOM path's language is returned |
| MarkdownBlock.ReactPathAgreesWithClass | src/utils/MarkdownBlock.ts:175-178 | For a code element of class `language-<name>`, the React path and the DOM path's class capture both give `<name>`, dashes included |
| MarkdownBlock.IsInFlight | src/utils/MarkdownBlock.ts:205-237 | Resolves false without a message block or with a bottom bar. Otherwise it rejects iff the message reply times out, or the data came back and either the code reply times out or the data has no `answer`. It resolves true iff the data came back with an answer that lacks the code followed by a closing fence |
| MarkdownBlock.ClosedBlockNotInFlight | src/utils/MarkdownBlock.ts:236 | An answer containing the code and its closing fence is never in flight |
| MarkdownBlock.GetPreBlockLocalIndex | src/utils/MarkdownBlock.ts:153-161 | -1 without a message block or when the element is absent. Otherwise the position of its first occurrence |
| Subscription.ValidateHasActivePplxSub | src/content-script/hooks/useHasActivePplxSub.ts:4-9 | False for `null`/`undefined`. Otherwise true iff the status is "active" or "trialing" |
| Subscription.OtherStatusesInactive | src/content-script/hooks/useHasActivePplxSub.ts:7-9 | Any other status, or no status, is inactive. The two listed ones are active |
| Subscription.HasActivePplxSub | src/content-script/hooks/useHasActivePplxSub.ts:11-18 | Falsy data, for example before loading, is passed through. Otherwise the value is the validation verdict |

## Left out

- The wire codec (`WsMessageParser`, `isParsedWsMessage`) and the messenger's walk over its interceptors are not part of this model. A message reaches a policy as an abstract parse result, and a rewrite is its new envelope rather than a re-encoded string.
- The zod schemas (`UserAiProfileSchema`, `SpaceSchema`) are parameters: a parser returning the validated value, or a validity predicate.
- `queryClient`, `CplxUserSettings` and the query-box stores are inputs (`AskRewrite.AskContext`, the `blockTelemetry` flag). Cache invalidation is a recorded `Wire.Effect`.
- `setTimeout`, promise settlement, socket events and the settlement of a `play` call's handshake are explicit events. Concurrency between separate interceptors is not modelled.
- TtsPlayer.Stop: `close()` is taken to bring the socket to readyState "closed" at once. The engine.io client passes through "closing" first, and stays there while writes are buffered or an upgrade is running, so a `play` right after `stop` can skip the handshake and send on a closing socket; the engine.io client's code is not part of this model.
- StickyToolbar.ObserveUnchanged: counts `setContainers` dispatches. Whether React re-renders also depends on the observer passing a new array, and `useThreadMessageStickyToolbarObserver` is not part of this model.
- TtsPlayer.Play: the player counts the listeners of its current socket only. After two overlapping handshakes resolve, the first socket keeps its listener and can still feed audio into the queue; that is not modelled. The microtask between `await this.stop()` and the socket check is taken as immediate.
- AskRewrite.AlterQueries: requires `data` to hold at least two elements and `data[1]` not to be `null` or `undefined`, because reading `query_source` throws otherwise. In the home branch it requires `sources` to be nullish, an array or a string, and to be nullish or an array when a file step pushes onto it. In the followup branch it requires the cached thread info, when present, to be non-empty, and `sources` to be nullish, an array or a string when no file step fires. Each excluded case throws in the source, and the exception is not modelled.
- AskRewrite.AlterQueries: objects and arrays inside a `sources` array are compared by value, whereas the `Set` compares them by identity.
- AskRewrite.AlterNextQuery: requires `data` to hold at least two elements and `data[1]` not to be `null` or `undefined`, because reading `query_source` throws otherwise. The exception is not modelled.
- JsValue.Spread: a string is a sequence of Unicode scalar values. Spreading copies one key per UTF-16 code unit, and iteration yields code points, so the two differ for characters outside the Basic Multilingual Plane; that difference is not modelled.
- Policies.DetectSpaceSwap: requires the first data element to be an object or an array, because `in` on a primitive throws in the source and the exception is not modelled.
- Policies.UpsertWaiterMatch and Policies.SpaceCreationWaiterMatch: require a single data element not to be `null` or `undefined`, because reading `.status` on those throws in the source and the exception is not modelled.
- SocketRegistry.OnMessage: a string message is taken as an already decoded engine packet whose data is a string. engine.io's `decodePacket`, and the throw on a packet without data, are not modelled.
- TtsPlayer.PlayNextChunk: the audio context, the conversion to floats (division by 32768) and playback errors are left out. A started chunk is a `PlayChunk` effect, and its end is the `ChunkEnded` event.
- DOM, jQuery and React are reduced to the values the functions read. This covers class and style changes in `transformPreBlock`, rendering, `debounce`, `useScrollDirection` and `handleVisibility`/`handleInFlightState`/`highlightNativelyUnsupportedLang`.
- The two messages that fetch React node data in `isInFlight` and `extractCodeFromPreReactNode` are inputs: a reply or a timeout for each.
- MarkdownBlock.IsInFlight: the message data's `answer` is a string or missing. An `answer` of another type is not modelled.
- `inspectWebSocketEvents` and `inspectLongPollingEvents` only log. They are left out.
- MarkdownBlock.TranslateLang: the table is a plain finite map. A key such as "constructor", which JavaScript would find on the object prototype, is not modelled.
- The context files of the repository (the Canvas language list, the settings pages, the TTS button and animation, `useTextToSpeech`, type declarations) are not part of this model.
- `alterNextQuery` is modelled as the code registers it (`Policies.NextQueryRegistration`). Its stop condition is `() => true`, so it is removed after the first message it sees, whether or not that message matched, and not only after a match (`Policies.Seen`).
- The messenger's `timeout` and `stopPropagation` options are recorded on the registrations, but their effect inside the messenger is not modelled. The waiters' timer delays are recorded on `Waiter.Timer` without a clock.
- MarkdownBlock.TransformPreBlock: whether a freshly made wrapper matches the Markdown-query selector is an input (`wrapperIsQuery`), because the selector is defined in `DomSelectors`, which is not part of this model.
- MarkdownBlock.GetLangFromReactNode: functions are not values in this model, so a class name object that carries its own `split` method cannot be expressed. `getReactPropsKey` and `isMainWorldContext` are reduced to the node's shape.
