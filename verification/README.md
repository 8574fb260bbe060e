# Camera dashboard state model

A Dafny model of the client-side state logic of a multi-camera monitoring
dashboard. The model covers three parts:

- **The camera wall** (`Cameras`). It holds the latest camera-status snapshot
  and the error banner. It also holds three viewing slots, `main`, `t1` and
  `t2`. The slots are seeded once, from the first successful status poll that
  lists at least three cameras. When polls are applied one after another,
  the slots then change only when the operator swaps the main feed with a
  thumbnail. A poll already in flight at seeding time is the exception; see
  "## Left out".
- **The event page** (`Events`, `BoundedLog`). A push-stream connection has a
  three-valued status (`connecting`, `connected`, `error`) driven by its open and
  error callbacks. Each frame is parsed. Frames that parse are appended to a
  log bounded to the newest 500 entries. Frames that do not parse are dropped.
- **The backend URL helpers** (`Api`). These cover the configured base URL, the
  status, recent-events, event-stream and MJPEG endpoint URLs, and how one
  status request's outcome becomes a poll result. Both pages also share the
  advisory mixed-content check (`MixedContent`).

Supporting modules: `Optional` (absent/present values), `Strings`
(`startsWith`/`includes` with reference definitions) and `Decimal` (the
decimal rendering of a whole number and its inverse).

Every transition is a pure function over an immutable state record. The
timers, the push-stream object and JSON decoding are not modelled. A poll
reaches the model as its settled outcome. The stream reaches it as a
sequence of `Opened` / `Failed` / `Frame(data)` signals. JSON parsing is a
function parameter `string -> Option<EventMessage>`. Each URL builder that
takes parameters has an inverse parser, and a round-trip lemma shows that the
parameters, with their defaults filled in, can be read back from the URL.

Where the intended behaviour and the code differ, the model follows the code:

- A successful poll never clears the error banner. Only a failure sets it, so
  the banner shows the latest failure even after the backend recovers
  (`Cameras.LatestPollsWin`).
- The open callback sets `connected` from any status, including `error`. So a
  reconnect performed by the browser's push-stream object brings the page back
  to `connected` (`Events.OnOpen`).
- Nothing checks the shape of a parsed frame. Every value that parses is
  appended, whether it is a detection event, an info message or anything else.
- Seeding copies the first three ids as they are. If the response repeats an
  id, the slots repeat it too. A swap never introduces a duplicate
  (`Cameras.SwapPermutes`), but it does not remove one either.

## Model

| member | source | states |
|---|---|---|
| Api.ResolveBaseUrl | lib/api.ts:3-4 | The base is the configured value when it is present and non-empty, otherwise `http://127.0.0.1:8000`; it is never empty |
| Api.StatusUrl | lib/api.ts:26 | The status URL is the base followed by exactly `/cameras/status` |
| Api.RecentEventsUrl | lib/api.ts:32 | The recent-events URL starts with `base/events/recent?limit=` and continues with decimal digits only |
| Api.RecentEventsRoundTrip | lib/api.ts:31-32 | Reading the limit back from the recent-events URL gives the limit passed, or 200 when it was omitted |
| Api.EventStreamUrl | lib/api.ts:49-51 | The event-stream URL is the base followed by exactly `/events/stream`, so it never coincides with the status URL |
| Api.MjpegUrl | lib/api.ts:37-47 | The camera id is inserted unencoded: the URL starts with `base/cameras/<id>` and then `/mjpeg?fps=` |
| Api.MjpegRoundTrip | lib/api.ts:39-46 | fps, quality and nonce can be read back from the MJPEG URL; an omitted fps reads as 10 and an omitted quality as 75 |
| Api.MjpegNonceIsSuffix | lib/api.ts:45-46 | With a nonce, the URL is the nonce-free URL followed by `&_=` and the nonce's decimal digits |
| Api.MjpegNonceDistinguishes | lib/api.ts:45 | Two different nonces give two different URLs, so bumping the nonce always re-requests the feed |
| Api.GetCameraStatus | lib/api.ts:25-29 | A 2xx response is a successful poll carrying the body; a non-2xx one is a failure whose Error message is `Failed to fetch camera status: ` followed by the status text; a rejected request fails with what it threw |
| Decimal.DecimalRoundTrip | lib/api.ts:46 | The decimal rendering of a whole number reads back as the same number; it agrees with a template literal's output for integers up to 2^53 |
| Strings.ContainsCorrect | app/cameras/page.tsx:27-28 | The `includes` scan answers true exactly when the substring occurs at some index |
| MixedContent.MixedContentWarningSpec | app/cameras/page.tsx:24-29 | The warning holds exactly when the page protocol is `https:`, the base starts with `http://`, and the base contains neither `localhost` nor `127.0.0.1` anywhere |
| MixedContent.DefaultBaseNeverWarns | app/cameras/page.tsx:27-28 | The default base contains `127.0.0.1`, so it never warns whatever the page protocol |
| MixedContent.LocalhostAnywhereSilences | app/cameras/page.tsx:27-28 | The test is textual: `localhost` anywhere in an http base, even in its path, silences the warning |
| MixedContent.HttpsBaseNeverWarns | app/cameras/page.tsx:26 | An `https://` base never warns |
| Cameras.Mount | app/cameras/page.tsx:8-29 | On mount the camera list is empty, there is no error, the slots are empty and not initialized, and the warning flag is the mixed-content condition |
| Cameras.ErrorMessage | app/cameras/page.tsx:48-51 | The banner shows an Error's own message, and `Failed to fetch cameras` for any other thrown value |
| Cameras.Seed | app/cameras/page.tsx:39-47 | When not yet initialized and given at least three cameras, the slots become the ids of entries 0, 1, 2 and the flag is set; otherwise nothing changes |
| Cameras.SeedIdempotent | app/cameras/page.tsx:40 | Once a list of three or more has seeded the slots, seeding again with any list changes nothing |
| Cameras.ApplyPoll | app/cameras/page.tsx:34-53 | A success replaces the camera list, keeps the error, and seeds only under the one-shot rule; a failure sets the error and changes nothing else |
| Cameras.SwapMainWith | app/cameras/page.tsx:60-66 | Main takes the thumbnail's old id, the thumbnail takes main's old id, and the other thumbnail is unchanged |
| Cameras.SwapInvolution | app/cameras/page.tsx:61-65 | Swapping the same thumbnail twice restores the slots |
| Cameras.SwapPermutes | app/cameras/page.tsx:61-65 | A swap preserves the multiset of slot ids, and slots without duplicate ids stay without duplicates |
| Cameras.SwapEmpty | app/cameras/page.tsx:15-19 | Swapping while all slots are still empty leaves them empty |
| Cameras.SlotsStableAfterSeeding | app/cameras/page.tsx:39-47 | Once initialized, after any inputs the slots are the seeded slots with the clicked swaps applied; polls never reassign them, even when they reorder, drop or replace cameras |
| Cameras.UnseededUntilAdequatePoll | app/cameras/page.tsx:40 | Until some poll succeeds with at least three cameras, the page stays uninitialized with empty slots, whatever is clicked |
| Cameras.SeededByFirstAdequatePoll | app/cameras/page.tsx:39-46 | The slots come from the first successful poll listing at least three cameras, in positional order, followed by every later click |
| Cameras.LatestPollsWin | app/cameras/page.tsx:36-51 | The camera list is that of the latest successful poll; the error is that of the latest failure, and a later success does not clear it |
| Cameras.ReorderedPollDoesNotReseed | app/cameras/page.tsx:40-46 | A poll of A, B, C seeds main=A, t1=B, t2=C; a later poll of C, A, B leaves them; then swapping t1 gives B, A, C |
| BoundedLog.Append | app/events/page.tsx:49 | An append gives min(500, length + 1) entries and the new entry is last |
| BoundedLog.AppendIsNewest | app/events/page.tsx:49 | `[...log, x].slice(-500)` is exactly the newest 500 entries of the log followed by the new one |
| BoundedLog.AppendBelowCap | app/events/page.tsx:49 | Below 500 entries, an append adds the entry last and keeps every earlier entry in order |
| BoundedLog.AppendAtCap | app/events/page.tsx:49 | At 500 entries, an append evicts exactly the oldest entry |
| BoundedLog.AppendAllKeepsNewest | app/events/page.tsx:49 | Appending any sequence to a log within the cap leaves the newest 500 entries of the whole history in arrival order |
| BoundedLog.AppendAllBounded | app/events/page.tsx:49 | The log never exceeds 500 entries |
| BoundedLog.FiveHundredOneMessages | app/events/page.tsx:49 | Appending messages 1 to 501 to an empty log leaves messages 2 to 501 |
| Events.Mount | app/events/page.tsx:18-30 | On mount the status is connecting, the log is empty, and the warning flag is the same mixed-content condition as the camera wall's |
| Events.OnOpen | app/events/page.tsx:38-40 | Opening sets the status to connected from any status and leaves the log alone |
| Events.OnError | app/events/page.tsx:42-44 | An error sets the status to error from any status and leaves the log alone |
| Events.OnMessage | app/events/page.tsx:46-53 | A frame that fails to parse changes nothing; a parsed frame is appended to the bounded log, and the status is unchanged |
| Events.LogIsNewestParsed | app/events/page.tsx:46-53 | After any signals the log is the newest 500 parsed frames of the whole history, in arrival order, with no reordering or dedup |
| Events.StatusIsLatest | app/events/page.tsx:38-44 | After any signals the status is the one set by the latest open or error, or the initial status when there was none; frames never change it |
| Events.LogBounded | app/events/page.tsx:49 | Whatever the stream delivers, the log holds at most 500 entries |
| Events.MalformedFramesIgnored | app/events/page.tsx:47-52 | An unparsable frame leaves the whole state unchanged |

## Left out

- Rendering and markup (all of app/page.tsx, and the JSX of both pages): presentation only.
- Timers and lifecycle: the 1-second `setInterval`, its cleanup, the effect re-running when `initialized` changes, and creating and closing the push-stream object. These are runtime plumbing.
- Cameras.SlotsStableAfterSeeding: the model checks every poll against the current `initialized` flag. In the page, a poll that was in flight when the slots were seeded still reads the stale `initialized = false` from its closure. If it lists three or more cameras, it reseeds the slots and can undo a swap made in between. This is a stale-closure effect of overlapping asynchronous polls, and the sequential model does not represent it.
- `fetch`, `res.ok` and `res.json()`: network I/O. A response reaches the model as a `StatusResponse` value, and its body is assumed to be a list of camera statuses.
- JSON decoding: left abstract as a parse function parameter. The `payload` field of an event is not modelled, because its values are arbitrary JSON.
- Logging of parse failures (`console.error`): a side effect with no state.
- Locale-dependent number and time formatting: foreign and locale-dependent.
- The auto-scroll effect and the MJPEG refresh button that bumps the nonce: UI side effects.
- `getRecentEvents` and `getMjpegUrl` are used as URL builders only; fetching recent events is I/O.
- Api.MjpegUrl: fps, quality and the nonce are whole numbers, because JavaScript renders other numbers, and `encodeURIComponent` renders other nonce strings, in ways this model does not cover.
- Api.RecentEventsUrl: the limit is a whole number, for the same reason.
- Decimal.NatToDecimal: prints every whole number as its plain decimal digits. JavaScript does so exactly only up to 2^53. Larger numbers are stored inexactly, so `${9007199254740993}` prints `9007199254740992`. From 10^21 on, JavaScript prints exponent form: `${1e21}` is `1e+21`, and as a nonce it is encoded as `&_=1e%2B21`. The URLs built by Api.RecentEventsUrl, Api.MjpegUrl and Api.NonceSuffix agree with the page's URLs only for parameters up to 2^53. Double-precision storage and exponent form are not modelled.
- The error branch of the mixed-content check (the `try`/`catch` around reading the page protocol): the protocol is a parameter, so the read cannot fail.
