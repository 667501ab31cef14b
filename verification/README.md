# minidoc front-end core in Dafny

This project models the decision logic of the minidoc web client, a small
collaborative document editor, and proves properties of that model. The
React components, the Yjs/tiptap editor and the Django back end are not
part of it. The pieces modelled are:

- **The collaboration control channel** (`web/src/hooks/useWebsocketProvider.ts`).
  The provider's socket carries two kinds of frames. Yjs updates are binary;
  control events are JSON objects `{eventType, senderId, ...data}`. The
  hook's `onmessage` override does the following with each frame:
  - parses it with `JSON.parse`;
  - drops it when the frame is this session's own echo;
  - turns `SAVE` and `TITLE_UPDATE` into callbacks;
  - ignores other JSON;
  - hands anything `JSON.parse` rejects to the provider's original handler.

  `sendMessage` sends only through an existing, connected socket. The
  `status` listener calls `onLoad` on `connected`. Module `Multiplexer`.
- **JSON (RFC 8259)**. The round trip between `JSON.stringify` and
  `JSON.parse` is what echo suppression rests on, so this project does not
  assume it. It defines a JSON value type, a serializer with
  `JSON.stringify`'s string escaping and a recursive-descent parser. It then
  proves `Parse(Stringify(j)) == Some(j)` for every well-formed value.
  Object spread and property reads follow JavaScript: a spread key keeps its
  position, and the last duplicate wins. Module `Json`.
- **The document socket with bounded reconnection**
  (`web/src/hooks/useEditorWebSocket.ts`).
  - The state is the retry ref, every socket the hook created with its
    ready state, the socket in `wsRef`, and the reconnect timers not yet
    run, in firing order.
  - Browser events on any of those sockets drive it, along with timer
    firings, sends, the effect's clean-up and the effect running again. It
    emits effects: socket creation, error and close reports, scheduled
    reconnects, transmitted frames and delivered messages.
  - The model proves the bound of `MAX_RETRIES = 5` sockets without an
    intervening open, for one run of the effect. The bound holds from
    mount and again after every successful open, which resets the counter
    (`EditorSocket.RetryBoundAfterOpen`). It also proves that the
    bound does not survive a second run. React's development mode mounts
    the effect twice, and a new `documentId` re-runs it. The retry ref is
    shared, and the closed socket's handler still reconnects, so two
    reconnect chains create six sockets
    (`EditorSocket.RemountExceedsBound`).

  Module `EditorSocket`.
- **The "last updated" label** (`web/src/util/general.ts`). Module `RelativeTime`.
  - The label is computed over the integer elapsed milliseconds.
  - The model has a reader that parses a label back to its bucket.
- **The preview text** (`web/src/components/DocumentPreview.tsx`). Module `Preview`.
  - Tags are stripped by the regular expression `/<\/?[^>]+(>|$)/g`. The
    model is a left-to-right scanner that takes the same matches.
  - The text is then cut with JavaScript `slice` semantics.
- **The title field** (`web/src/pages/DocumentEditorPage/TitleInputField.tsx`).
  It has the width clamp and Enter-to-blur. Module `TitleField`.
- **The two editor pages**:
  - Shared logic in modules `Title` and `Keyboard`: ECMAScript `trim`,
    title normalisation and the display fallback, and the Cmd/Ctrl+S
    predicate.
  - The collaborative page (`web/src/pages/DocumentEditorPage/index.tsx`,
    module `CollabPage`): title, loading flag, publishing.
  - The REST page (`web/src/pages/DocumentEditorPage.tsx`, module
    `RestPage`): save requests, typing flag and autosave gate, snackbar
    queue.
- **The user session** (`web/src/slices/user.ts`). The model covers the
  token-truthiness guard of `web/src/components/ProtectedRoute.tsx` and
  `web/src/components/Header/index.tsx`. Module `UserSession`.

External inputs are parameters:
- the clock (the ISO time `onSave` stamps, the elapsed milliseconds of the
  label);
- the uuid session id;
- the provider's connection state;
- HTTP outcomes;
- the browser's socket events.

Timers are events ("the reconnect timer fired", "the autosave debounce
elapsed"), not real time.

Three behaviours of the code are modelled as written. The lemmas state them:
- An unmounted document socket still schedules a reconnect when its close
  event arrives (`EditorSocket.TeardownStillReconnects`). For the same
  reason, a re-run of the effect can pass the retry bound
  (`EditorSocket.RemountExceedsBound`).
- The REST page decides `isNewDocument` once, from the route. Every save of
  a page opened without an id is therefore a POST, even after the first
  POST created the document (`RestPage.NewDocumentAlwaysPosts`).
- The PUT for an existing document sends an empty body
  (`RestPage.FinishEditingSaves`).

## Model

| member | source | states |
|---|---|---|
| Json.Get | web/src/hooks/useWebsocketProvider.ts:48-57 | A property read on a parsed object is absent exactly when no member has the key. Otherwise it is the value of the last member with that key, as `JSON.parse` keeps the last duplicate. |
| Json.SpreadOtherKey | web/src/hooks/useWebsocketProvider.ts:85 | In `{eventType, senderId, ...data}`, a key that `data` does not mention keeps the value the literal gave it. |
| Json.AssignNewKey | web/src/hooks/useWebsocketProvider.ts:85 | Spreading a key the object lacks appends it with its value, leaving the earlier members in place. |
| Json.SpreadWellFormed | web/src/hooks/useWebsocketProvider.ts:85 | Spreading well-formed members into a well-formed object gives a well-formed object. |
| Json.Parse | web/src/hooks/useWebsocketProvider.ts:45 | Whatever `JSON.parse` accepts is a well-formed value: numbers follow the RFC 8259 grammar. |
| Json.EscapeRoundTrip | web/src/hooks/useWebsocketProvider.ts:85 | A string escaped as `JSON.stringify` escapes it, then closed with a quote, is read back as exactly that string, with the following text left over. |
| Json.ParseStringifyValue | web/src/hooks/useWebsocketProvider.ts:45 | Every well-formed value followed by a delimiter parses back to itself, leaving the delimiter and what follows. |
| Json.ParseStringify | web/src/hooks/useWebsocketProvider.ts:85 | `JSON.parse(JSON.stringify(v))` gives back `v` for every well-formed value `v`. |
| Multiplexer.Classify | web/src/hooks/useWebsocketProvider.ts:43-66 | A frame is forwarded to the Yjs handler exactly when a handler exists and the frame is unparseable or the literal `null`, and then it is the frame itself. It becomes `onSave` exactly when it parses to another sender's `SAVE`. It becomes `onTitleUpdate(data.title)` exactly when it parses to another sender's `TITLE_UPDATE`. A frame carrying this session's id is ignored. |
| Multiplexer.SendMessage | web/src/hooks/useWebsocketProvider.ts:82-88 | A frame is sent exactly when the provider exists, has a socket and is connected. The frame parses back to the envelope `{eventType, senderId, ...data}`. |
| Multiplexer.EnvelopeFields | web/src/hooks/useWebsocketProvider.ts:85 | An envelope whose data has no `senderId` carries the sender's id. With no `eventType` in the data it carries the event type too. |
| Multiplexer.EchoSuppressed | web/src/hooks/useWebsocketProvider.ts:47-50 | Any frame a session sends, whatever its well-formed payload without `senderId`, is ignored by that same session: no callback, and no forwarding to Yjs. |
| Multiplexer.PublishedFramesAreEchoes | web/src/hooks/useWebsocketProvider.ts:90-96 | The frames of `publishSaveDocument` and `publishUpdateTitle` are ignored by the session that published them. |
| Multiplexer.PeerReceivesSave | web/src/hooks/useWebsocketProvider.ts:52-55 | Another session receives a published save as exactly one `onSave`. |
| Multiplexer.PeerReceivesTitle | web/src/hooks/useWebsocketProvider.ts:56-58 | Another session receives a published title as `onTitleUpdate` with that very title. |
| Multiplexer.NullFrameForwarded | web/src/hooks/useWebsocketProvider.ts:45-64 | The text `null` parses and then throws on `data.eventType`. It reaches the Yjs handler if there is one, and is dropped otherwise. |
| Multiplexer.BinaryFrameForwarded | web/src/hooks/useWebsocketProvider.ts:60-66 | A binary frame is read as `[object ArrayBuffer]`, which never parses. It always takes the catch branch. |
| Multiplexer.LoadCallsCountConnected | web/src/hooks/useWebsocketProvider.ts:34-38 | Over any sequence of status events, `onLoad` runs once per `connected` status and for no other status. |
| EditorSocket.NewDocumentNeverConnects | web/src/hooks/useEditorWebSocket.ts:33-35 | Mounting with an empty document id creates no socket and has no effect. After that, no event creates a socket or emits any effect until the effect runs again for another document. |
| EditorSocket.RunCreates | web/src/hooks/useEditorWebSocket.ts:44-45 | Over any run, every `CreateSocket` effect is a new socket on the channel's list, and the list grows by nothing else. |
| EditorSocket.OpenResetsRetries | web/src/hooks/useEditorWebSocket.ts:48-51 | `onopen` of a connecting socket, current or not, sets the retry counter to 0. |
| EditorSocket.CloseSchedulesOneReconnect | web/src/hooks/useEditorWebSocket.ts:60-65 | A live socket's close adds exactly one retry and reports once. It schedules exactly one reconnect after 2000 ms, for the document the socket was created for. |
| EditorSocket.ErrorOnlyReports | web/src/hooks/useEditorWebSocket.ts:68-71 | An error on a live socket reports the connection failure, whatever the retry counter. It changes nothing else. A socket that has closed reports nothing. |
| EditorSocket.GivesUpAtMaxRetries | web/src/hooks/useEditorWebSocket.ts:37-41 | With the budget spent, the reconnect timer only reports the error. |
| EditorSocket.SendGate | web/src/hooks/useEditorWebSocket.ts:84-89 | A message is transmitted exactly when the socket in `wsRef` is open. The frame parses back to an object with `is_save` (the caller's value, or false when absent) and the unchanged content and title. |
| EditorSocket.SentMessageDelivered | web/src/hooks/useEditorWebSocket.ts:54-57 | A frame one session transmits, if relayed verbatim, is delivered by an open socket's `onmessage` as the payload that was sent. |
| EditorSocket.TeardownStillReconnects | web/src/hooks/useEditorWebSocket.ts:74-82 | Unmounting closes the socket in `wsRef`, but its close handler still counts a retry, schedules a reconnect and creates a new socket for the same document. |
| EditorSocket.RetryBound | web/src/hooks/useEditorWebSocket.ts:37-65 | For one run of the effect, any interleaving of closes, errors, messages, timers, sends and unmount without a successful open creates at most 5 sockets. The retry counter never exceeds 5. |
| EditorSocket.RetryBoundAfterOpen | web/src/hooks/useEditorWebSocket.ts:37-65 | Once the newest socket opens, the counter is 0 again. Any later interleaving without another open creates fewer than 5 new sockets, at most 5 counting the opened one. The counter never exceeds 5. |
| EditorSocket.RemountExceedsBound | web/src/hooks/useEditorWebSocket.ts:60-82 | If the effect runs twice for one document and no socket opens, the two reconnect chains share the retry ref. Six sockets are created and the counter reaches 6, so the bound holds per run only. |
| EditorSocket.FiveAttemptsThenGiveUp | web/src/hooks/useEditorWebSocket.ts:14-65 | Five failed connections create exactly five sockets. The last reconnect then reports the terminal error. Every socket ends closed with `retries == 5`, and no reconnect is left waiting. |
| RelativeTime.Bucket | web/src/util/general.ts:12-26 | `diff < 1000`, negative values included, is "now". Otherwise the unit is the largest one not longer than `diff`, and the count is the number of whole units in `diff`. |
| RelativeTime.BucketCountRange | web/src/util/general.ts:14-26 | Counts are 1-59 seconds, 1-59 minutes, 1-23 hours, or at least one day. |
| RelativeTime.BucketsPartition | web/src/util/general.ts:12-26 | Each unit's bucket holds exactly the `diff` values in its range, so the branches partition the integers. |
| RelativeTime.BucketMonotone | web/src/util/general.ts:12-26 | A longer elapsed time never gives a fresher label. |
| RelativeTime.Format | web/src/util/general.ts:12-13 | The label is "now" exactly when `diff < 1000`. |
| RelativeTime.ReadFormat | web/src/util/general.ts:15-25 | Reading a label back (the decimal count, the unit, its plural) gives exactly the bucket it was printed from. |
| RelativeTime.SingularExactlyForOne | web/src/util/general.ts:16-25 | The unit word has no "s" exactly when the count is 1. |
| Preview.StripLeavesNoTag | web/src/components/DocumentPreview.tsx:11 | After stripping, every remaining '<' is followed by '>' or is the last character. |
| Preview.StripFixedIff | web/src/components/DocumentPreview.tsx:11 | Stripping leaves a text unchanged exactly when no tag starts in it. |
| Preview.StripIdempotent | web/src/components/DocumentPreview.tsx:11 | Stripping twice is stripping once. |
| Preview.StripWithoutOpen | web/src/components/DocumentPreview.tsx:11 | A text without '<' is unchanged. |
| Preview.PreviewBounds | web/src/components/DocumentPreview.tsx:13-15 | For a non-negative limit, the preview is the stripped text when it fits. Otherwise it is its first `maxChars` characters followed by "...". It is never longer than `maxChars + 3`. |
| Preview.PreviewNegativeLimit | web/src/components/DocumentPreview.tsx:13-14 | A negative limit cuts from the end as `slice` does, and "..." is always appended. |
| Preview.PreviewDefault | web/src/components/DocumentPreview.tsx:9 | A missing `maxChars` acts as 50. |
| TitleField.WidthClamped | web/src/pages/DocumentEditorPage/TitleInputField.tsx:33 | The width lies in [10, 40]. It equals the title's UTF-16 length inside that range and the nearer bound outside it. |
| TitleField.WidthMonotone | web/src/pages/DocumentEditorPage/TitleInputField.tsx:33 | A longer title never gets a narrower field. |
| TitleField.Utf16LengthBmp | web/src/pages/DocumentEditorPage/TitleInputField.tsx:33 | For a title within the Basic Multilingual Plane, `value.length` is the character count. |
| TitleField.RenderPassesThrough | web/src/pages/DocumentEditorPage/TitleInputField.tsx:26-33 | The value, `onChange` and `onBlur` reach the text field unchanged, and the width is clamped. |
| CollabPage.EnterFinishesEdit | web/src/pages/DocumentEditorPage/TitleInputField.tsx:11-16 | Enter in the title field prevents the default and blurs the field. That finishes the page's edit: editing ends, and the normalised title is stored and published. Any other key reaches only the window's shortcut handler, and editing goes on. |
| Title.Trim | web/src/pages/DocumentEditorPage/index.tsx:86 | `trim` keeps a contiguous middle part. What it cuts off is whitespace, and what it keeps neither starts nor ends with whitespace. |
| Title.TrimEmptyIff | web/src/pages/DocumentEditorPage/index.tsx:86 | The trimmed title is empty exactly when the title is all whitespace. |
| Title.TrimIdempotent | web/src/pages/DocumentEditorPage/index.tsx:86 | Trimming twice is trimming once. |
| Title.NormalizeTitle | web/src/pages/DocumentEditorPage/index.tsx:86 | The normalised title is never empty. It is 'Untitled document' for a blank title and the trimmed title otherwise. |
| Title.NormalizeIdempotent | web/src/pages/DocumentEditorPage/index.tsx:86 | Normalising a normalised title changes nothing. |
| Title.DisplayTitle | web/src/pages/DocumentEditorPage/index.tsx:170 | The displayed title is never empty, and it is the title itself whenever that is non-empty. |
| CollabPage.FinishEditingNormalizes | web/src/pages/DocumentEditorPage/index.tsx:84-89 | Finishing the edit ends editing and sets a non-empty title: 'Untitled document' when blank, trimmed otherwise. It publishes exactly the title it set. |
| CollabPage.FinishEditingIdempotent | web/src/pages/DocumentEditorPage/index.tsx:84-89 | Finishing a second time leaves the page unchanged and republishes the same title. |
| CollabPage.ShortcutPublishesSave | web/src/pages/DocumentEditorPage/index.tsx:103-108 | A key publishes SAVE and prevents the default exactly when it is the shortcut. No key changes the page or calls the REST API. Shift+S, and an `s` without Cmd or Ctrl, do nothing. |
| CollabPage.LoadingUntilLoad | web/src/pages/DocumentEditorPage/index.tsx:57-59 | After any run the page is loading exactly when it was loading before and no `onLoad` arrived. Nothing sets the flag back. |
| CollabPage.SpinnerUntilLoad | web/src/pages/DocumentEditorPage/index.tsx:206-210 | From the first render, the editor replaces the spinner exactly once an `onLoad` has arrived, whatever else happens. |
| CollabPage.TitleReachesPeer | web/src/pages/DocumentEditorPage/index.tsx:49-51 | When one session finishes a title edit, its published frame sets exactly that title on another session's page. The publishing session ignores the echo. |
| RestPage.RemoveIndexSplices | web/src/pages/DocumentEditorPage.tsx:229 | Closing snackbar `i` removes exactly index `i` and keeps the rest in order. An index outside the queue removes nothing. |
| RestPage.CloseNewest | web/src/pages/DocumentEditorPage.tsx:43-45 | Closing the snackbar just queued restores the previous queue. |
| RestPage.FinishEditingSaves | web/src/pages/DocumentEditorPage.tsx:111-119 | A blank title is set to 'Untitled document' and saved as such. A non-blank title is saved trimmed, and the page keeps the text as typed. A new document POSTs the normalised title and the content; an existing one PUTs an empty body. |
| RestPage.StepFacts | web/src/pages/DocumentEditorPage.tsx:100-105 | One event never changes whether the page is new, and only a content edit sets the typing flag. A save is a POST exactly on a new document's page. No autosave is scheduled while the typing flag is clear. |
| RestPage.SaveKindFixed | web/src/pages/DocumentEditorPage.tsx:51-64 | Over any run the page's kind stays as it was. Every save is a POST on a new document's page and a PUT otherwise. |
| RestPage.NewDocumentAlwaysPosts | web/src/pages/DocumentEditorPage.tsx:51-64 | For a page opened without an id, every save request in any run is a POST. |
| RestPage.RouteDecidesRequest | web/src/pages/DocumentEditorPage.tsx:24-64 | From a page opened on a route, a save in any run is a POST exactly when the route had no id or an empty one, and a PUT otherwise. |
| RestPage.TypingFlag | web/src/pages/DocumentEditorPage.tsx:28 | After any run the typing flag is set exactly when it was set before or the run contains an edit: it starts false and never reverts. |
| RestPage.NoAutosaveBeforeTyping | web/src/pages/DocumentEditorPage.tsx:139-143 | Before the first edit no autosave is scheduled, not even by loading the document's content. |
| RestPage.AutosaveGate | web/src/pages/DocumentEditorPage.tsx:139-143 | An autosave is scheduled exactly when the content changed and the typing flag is set. An edit that changes the content schedules one. |
| RestPage.SaveOutcomeReported | web/src/pages/DocumentEditorPage.tsx:66-78 | Success queues 'Changes saved', an axios error 'Error saving changes', and any other error nothing. Earlier snackbars stay. A POST's new id becomes the document id. |
| RestPage.ShortcutSaves | web/src/pages/DocumentEditorPage.tsx:86-91 | The shortcut sends `saveDocument()` without an override, so a new page POSTs its own title. Other keys do nothing, Shift+S and an `s` without Cmd or Ctrl among them. |
| UserSession.ClearUserResets | web/src/slices/user.ts:26-29 | `clearUser` is idempotent, `setUser` then `clearUser` is the initial state, and afterwards the protected route redirects. |
| UserSession.Guard | web/src/components/ProtectedRoute.tsx:16 | The protected element is rendered exactly when the user is authenticated, meaning the token is present and non-empty. |
| UserSession.SetUserAuthenticates | web/src/components/Header/index.tsx:31 | After `setUser` the user is authenticated exactly when the token given is non-empty. |
| UserSession.LastActionDecides | web/src/slices/user.ts:22-29 | After any non-empty sequence of actions, the user is authenticated exactly when the last action was `setUser` with a non-empty token. |

## Left out

- EditorSocket.SentMessageDelivered: the document server's relay (`api/documents/consumers.py`) rebroadcasts only `{content}`. A peer therefore receives no `is_save` or `title`. The lemma covers a verbatim relay, and the server is not part of this model.
- EditorSocket: reconnect timers are taken to fire in the order they were set. All have the same 2000 ms delay. The browser's own scheduling beyond that order is not modelled.
- RestPage: the editor's `onChange` exists only once the document is loaded. The model accepts a `Change` event in any state, so its runs include runs the page cannot produce. The lemmas about all runs therefore cover every run of the page.
- Yjs, the CRDT merge and the y-websocket provider's own sync and reconnection are library code. Forwarding to the Yjs handler is the action `ForwardToYjs`. y-websocket replaces `provider.ws` on reconnect, so whether the `onmessage` override survives a reconnect is not modelled.
- Json.Parse: a `\u` escape naming a lone UTF-16 surrogate is rejected. `JSON.parse` accepts it, but a Dafny `char` cannot hold one. The serializer never produces such an escape.
- Json: numbers are kept as their lexeme and never converted to floating point. Integer-like keys, which JavaScript objects order first, are treated like any other key.
- Multiplexer.Classify: an exception thrown by `onSave` or `onTitleUpdate` would also land in the same `catch` and forward the frame. The callbacks are modelled as not throwing.
- CollabPage.Dispatch: a `TITLE_UPDATE` whose `title` is not a string (or is missing) sets that non-string value as the page's title. The page's title is modelled as a string, so such an update is not applied.
- Preview.PreviewText: `length` and `slice` count UTF-16 code units. The model counts characters, and a cut inside a surrogate pair cannot be expressed. The title width does count UTF-16 units (`TitleField.Utf16Length`).
- RelativeTime: date parsing, `Date.now` and the NaN label for an unparseable date are outside the model. Only the integer difference in milliseconds is modelled.
- Timers and debouncing as real time: the 2000 ms reconnect, the 5 s autosave debounce and the snackbar auto-hide are events or constants.
- `window.history.replaceState`, routing, the metadata and document fetches beyond their results, `api.ts`, the axios interceptors and the console logs are I/O.
- Rendering, layout and theming components.
- The Django back end (views, serializers, models, the Channels consumer and routing) is not part of this model.
