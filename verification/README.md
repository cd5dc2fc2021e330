# Eva playground session model

A Dafny model of the session logic of the `GeminiVoiceChat` React component
(components/gemini-playground.tsx) and of the helpers it uses from lib/utils.ts. The
component streams microphone audio (and optionally camera or screen frames) to a backend
over a WebSocket. It plays the audio the backend returns, shows its text, and relays a
YouTube live-chat watcher.

Files:

- `wrappers.dfy` holds `Option` and `Result`.
- `utils.dfy` (module `Utils`) models lib/utils.ts:
  - `cn`;
  - `float32ToPcm16`, with the ECMAScript `Int16Array` store (truncation toward zero, then wrap-around modulo 2^16) written out;
  - the stages of `base64ToFloat32Array` from the decoded bytes on: the little-endian `Int16Array` view, which throws `RangeError` on an odd length, and the division by 32768.
- `youtube.dfy` (module `YouTube`) models `extractYouTubeVideoId`. It gives the regular-expression matches their leftmost-match meaning.
- `activity.dfy` (module `Activity`) models the `user_activity` throttle of `onaudioprocess` as a step function, with lemmas about whole runs of audio blocks.
- `wire.dfy` (module `Wire`) holds the JSON frames in both directions as datatypes, and the `response.text ?? response.data` choice.
- `session.dfy` (module `Playground`) models the component as a class `Session`:
  - React state is one `View` value, and each setter replaces a component of it.
  - Each ref is a field: the socket with the handlers `startStream` installed, the media handles, the playback queue and flag, and the throttle refs.
  - Each callback is a method: `onopen`, `onaudioprocess`, `onmessage`, `onerror`, `onclose`, `playAudioData`, `playNextInQueue`, `stopStream`, `toggleVideo`, `stopVideo`, the video effect, and the YouTube chat controls.
  - The frames the socket transmits are recorded in `sent`, and the buffers started for playback in `started`.
  - The object invariant `Valid` says two things about the socket side. The throttle's flag is the one carried by the last `user_activity` frame sent. Every `yt_chat_start` frame carries a well-formed video ID.
  - Playback keeps its own invariant, `PlaybackInOrder`. Buffers leave the queue in arrival order, none dropped or reordered, and exactly the non-empty ones among them were started (`Audible`).

Behaviour of the source worth noting:

- `float32ToPcm16` scales non-negative samples by 32767 and truncates toward zero; it does not round. Decoding divides by 32768. A negative sample therefore comes back within one step of 1/32768. A positive sample can fall short by up to (x + 1)/32768, which is almost two steps. `QuantisationError` proves both bounds, and `QuantisationExceedsOneStep` exhibits a sample that misses by more than one step.
- A `text` message whose `text` field is the empty string shows nothing, even when `data` is non-empty. The `??` operator falls back only on null or undefined.
- `stopStream` releases the video stream and frame timer only when the chat mode is video. The video effect acquires them only in video chat mode, when the `<video>` element exists. Still, they can end up held in an audio session, in two ways. First, an earlier video session ended through `onerror` or `onclose` without `stopStream`, and the next `startStream('audio')` left that effect running. Second, the effect awaits `getUserMedia`/`getDisplayMedia` (components/gemini-playground.tsx:251, 255) before it stores the stream and starts the timer (264, 268). If Stop is pressed while the permission prompt is open, the effect's cleanup runs while both refs are still null, and the handles are stored once the prompt resolves. The model takes each callback as atomic and covers the first way only.
- `toggleVideo` and `stopVideo` send their `mode` frame whenever a socket object is held, whatever its ready state. A closing or closed socket discards the frame. A socket still connecting throws `InvalidStateError`, so `stopVideo` then leaves the video stream and frame timer held.
- An audio message with no samples, reaching an idle player, stalls playback for good. `playNextInQueue` raises `isPlayingRef` and shifts the empty buffer, and then `createBuffer(1, 0, 24000)` throws. No source starts, so no `onended` runs, and every later `playAudioData` only queues. `StalledPlaybackExample` shows this.
- After `stopStream` the queue and `isPlayingRef` are kept. If the playing buffer's `onended` still runs, it finds no context, lowers the flag and keeps the queue; the next session's first buffer then starts the stale queued buffers ahead of itself. If it never runs, the flag stays up and no buffer starts again.

## Model

| member | source | states |
|---|---|---|
| Utils.Kept | lib/utils.ts:2 | `filter(Boolean)` keeps only non-empty names, never more than it was given, and gives nothing exactly when every argument is falsy |
| Utils.Join | lib/utils.ts:2 | joining no parts gives the empty string, one part gives that part, and the result is never shorter than the first part |
| Utils.Cn | lib/utils.ts:1-3 | `cn` is empty exactly when every argument is falsy; a single argument comes back as its name or as the empty string |
| Utils.KeptAppend | lib/utils.ts:2 | filtering distributes over concatenation, so argument order is kept |
| Utils.JoinAppend | lib/utils.ts:2 | joining two non-empty lists is joining each and putting a single space between them |
| Utils.CnAppend | lib/utils.ts:1-3 | `cn(a..., b...)` is `cn(a...)` and `cn(b...)` joined by one space, and an all-falsy side contributes nothing |
| Utils.Clamp | lib/utils.ts:10 | the clamped sample lies in [-1, 1], equals the input inside that range, and is the nearer bound outside it |
| Utils.Trunc | lib/utils.ts:11 | truncation toward zero: the result is the integer part, never further from zero than the input |
| Utils.ToInt16 | lib/utils.ts:11 | the `Int16Array` store is congruent to the truncated value modulo 2^16, and equals it for values in the int16 range |
| Utils.Pcm16Sample | lib/utils.ts:10-11 | input ≥ 1 gives 32767 and input ≤ -1 gives -32768; a negative input gives a result ≤ 0 and a non-negative input a result ≥ 0 |
| Utils.Pcm16SampleNeverWraps | lib/utils.ts:10-11 | after clamping and scaling, the store only truncates and never wraps around |
| Utils.Pcm16Samples | lib/utils.ts:6-12 | one output sample per input sample |
| Utils.Float32ToPcm16 | lib/utils.ts:5-14 | the array has the input's length and holds the converted sample at every index |
| Utils.Unsigned | lib/utils.ts:24 | the 16-bit unsigned value congruent to the sample modulo 2^16 |
| Utils.Int16LE | lib/utils.ts:24 | the sample built from a low and a high byte has exactly those bytes |
| Utils.Int16LEOfBytes | lib/utils.ts:24 | splitting a sample into bytes and rebuilding it gives the sample back |
| Utils.Pcm16Bytes | components/gemini-playground.tsx:139 | the byte view of the samples has two bytes per sample |
| Utils.Int16View | lib/utils.ts:24 | an odd byte count throws `RangeError`; otherwise n bytes give n/2 samples, and sample i is the little-endian value of bytes 2i and 2i+1 |
| Utils.ViewOfPcm16Bytes | lib/utils.ts:19-24 | reading back the byte view of any samples gives exactly those samples |
| Utils.Pcm16BytesOfView | lib/utils.ts:19-24 | an even-length buffer read as samples and viewed again as bytes is the same buffer |
| Utils.UnitSample | lib/utils.ts:28 | every decoded sample lies in [-1, 1) and is the int16 value divided by 32768 |
| Utils.UnitSamples | lib/utils.ts:26-29 | one decoded sample per int16 sample |
| Utils.Base64ToFloat32Array | lib/utils.ts:17-31 | fails exactly on an odd byte count; otherwise holds n/2 samples, each the little-endian pair at 2i, 2i+1 divided by 32768 |
| Utils.QuantisationError | lib/utils.ts:11 | a negative sample decodes to within one step above it; a non-negative one decodes to at most itself and less than (x + 1)/32768 below it |
| Utils.QuantisationExceedsOneStep | lib/utils.ts:11 | the sample 65533/65536 is stored as 32765 and decodes more than one step of 1/32768 below itself |
| Utils.CodecRoundTrip | lib/utils.ts:5-31 | samples in [-1, 1], encoded, viewed as bytes, reassembled and decoded come back one for one, each within (-2/32768, 1/32768) of the input |
| YouTube.FirstMatch | components/gemini-playground.tsx:369 | the position found is a match of the form and no earlier position matches; no position is found exactly when none matches |
| YouTube.MatchForm | components/gemini-playground.tsx:369-375 | a captured group is a well-formed video ID |
| YouTube.ExtractVideoId | components/gemini-playground.tsx:364-377 | the empty input gives null, a bare ID is returned unchanged, and every non-null result is 11 characters of `[A-Za-z0-9_-]` |
| YouTube.FirstMatchIsLeftmost | components/gemini-playground.tsx:369 | a match with no earlier match is the one `match` returns |
| YouTube.ExtractFirstFormLeftmost | components/gemini-playground.tsx:364-377 | for a non-ID input, the first form in priority order that matches anywhere decides, and it gives its capture at its leftmost match |
| YouTube.ExtractNoneIff | components/gemini-playground.tsx:364-377 | the result is null exactly for the empty input and for inputs that are not an ID and match no form anywhere |
| YouTube.ExtractOrigin | components/gemini-playground.tsx:367-376 | a non-null result is the input itself or the capture of some form at some position |
| YouTube.NoQueryIn | components/gemini-playground.tsx:369 | `[?&]v=` cannot match inside a leading part that holds neither `?` nor `&` |
| YouTube.ShortLinkUrl | components/gemini-playground.tsx:372-373 | `<scheme>youtu.be/<id>` gives its ID when the scheme holds no `?`, `&` or `y` |
| YouTube.QueryUrl | components/gemini-playground.tsx:369-370 | `<page>?v=<id><anything>` gives its ID when the page part holds no `?` or `&`; what follows the ID is ignored |
| YouTube.ShortLinkExample | components/gemini-playground.tsx:372-373 | `https://youtu.be/dQw4w9WgXcQ` gives `dQw4w9WgXcQ` |
| YouTube.QueryExample | components/gemini-playground.tsx:369-370 | `https://www.youtube.com/watch?v=dQw4w9WgXcQ&t=42s` gives `dQw4w9WgXcQ` |
| YouTube.InvalidExample | components/gemini-playground.tsx:364-377 | `not-a-valid-id!` gives null |
| Activity.Decide | components/gemini-playground.tsx:156-163 | a notification goes out exactly when the flag changed or strictly more than 1000 ms passed; it sets the refs to (speaking, now), and otherwise both refs are unchanged |
| Activity.Run | components/gemini-playground.tsx:156-163 | feeding a run of audio blocks to the throttle sends at most one notification per block, and an empty run changes nothing |
| Activity.RunRemembersLastSent | components/gemini-playground.tsx:156-163 | over any run, the refs hold the flag and time of the last notification, or their starting values when none was sent |
| Activity.RunTracksClassification | components/gemini-playground.tsx:156-163 | after any non-empty run the remembered flag is the last block's classification |
| Activity.RunSpacing | components/gemini-playground.tsx:156-163 | consecutive notifications differ in flag or are strictly more than 1000 ms apart, whatever the clock does |
| Activity.RunSentFromRun | components/gemini-playground.tsx:156-163 | every notification comes from a block of the run |
| Wire.SourceMode | components/gemini-playground.tsx:327 | a video source always names a video mode, never `audio` |
| Wire.TextFragment | components/gemini-playground.tsx:96-97 | a present `text` field decides alone (shown if non-empty); only a null or missing `text` falls back to a non-empty `data`; nothing empty is shown |
| Playground.ChatLine | components/gemini-playground.tsx:99 | the chat line starts with `[YouTube] ` and ends with the message |
| Playground.ModeSource | components/gemini-playground.tsx:78-81 | a camera or screen session starts with the video source of the same name |
| Playground.LastActivity | components/gemini-playground.tsx:159-161 | the last `user_activity` flag is one that was sent; with none sent, no activity frame is in the log |
| Playground.Audible | components/gemini-playground.tsx:231-233 | no more buffers start than were taken off the queue |
| Playground.AudibleMembers | components/gemini-playground.tsx:231-233 | a buffer starts exactly when it was taken off the queue and is not empty |
| Playground.AudibleAppend | components/gemini-playground.tsx:231-233 | taking one more buffer off the queue starts it exactly when it is not empty |
| Playground.LastActivityAppend | components/gemini-playground.tsx:159-161 | appending an activity frame makes its flag the last one, and other frames leave it |
| Playground.Session.constructor | components/gemini-playground.tsx:22-57 | the first render: every flag down, no handle held, empty queue and logs, throttle refs at (false, 0), and the invariant established |
| Playground.Session.Transmit | components/gemini-playground.tsx:84 | a frame is appended to what the socket transmitted exactly when the socket is open; the invariant is kept |
| Playground.Session.SendActivity | components/gemini-playground.tsx:159-162 | the `user_activity` frame is sent and the refs become (speaking, now), keeping the throttle in step with the log |
| Playground.Session.StartStream | components/gemini-playground.tsx:59-66 | the chat mode is video for camera and screen and audio otherwise; a connecting socket remembers the mode and config |
| Playground.Session.StartAudioStream | components/gemini-playground.tsx:120-175 | the audio context is always created; a granted microphone holds the input and sets streaming, a refused one only sets the error message |
| Playground.Session.OnOpen | components/gemini-playground.tsx:68-88 | exactly `config` then `mode` (carrying `startStream`'s argument) are sent; camera and screen sessions switch video on with that source; streaming and connected are set |
| Playground.Session.OnAudioProcess | components/gemini-playground.tsx:134-165 | nothing is sent unless the socket is open; then the block's PCM16 bytes go out first, followed by a `user_activity` frame exactly when the throttle decides, and the refs follow the throttle |
| Playground.Session.OnSocketError | components/gemini-playground.tsx:109-112 | the error shows `WebSocket error` and streaming stops; nothing else changes |
| Playground.Session.OnSocketClose | components/gemini-playground.tsx:114-116 | streaming stops and the socket held, if any, is marked closed; nothing else changes |
| Playground.Session.StopStream | components/gemini-playground.tsx:178-215 | input, context and socket released; streaming, connected and chat mode cleared; video released only in video mode; a second call changes nothing |
| Playground.Session.PlayNextInQueue | components/gemini-playground.tsx:224-243 | with no context or an empty queue, playback goes idle and the queue is kept; otherwise the flag is raised, exactly the head is removed, and it is started unless it is empty |
| Playground.Session.PlayAudioData | components/gemini-playground.tsx:217-222 | the buffer joins the tail; the consumer runs only when idle, and then starts the head of the queue unless it is empty; buffers leave the queue in arrival order |
| Playground.Session.OnMessage | components/gemini-playground.tsx:90-106 | audio is decoded and pushed (an odd length changes nothing); text, chat lines, the skipped line and the watcher flag update as tagged; any other tag changes nothing |
| Playground.Session.ToggleVideo | components/gemini-playground.tsx:323-329 | the video flag flips; on an open socket the mode sent is `audio` when turning off, and the video source (camera when none) when turning on |
| Playground.Session.StopVideo | components/gemini-playground.tsx:331-345 | video off with no source; `mode: audio` sent on an open socket; stream and timer released unless `send` threw on a socket still connecting |
| Playground.Session.VideoCaptureStarted | components/gemini-playground.tsx:244-270 | only with video on in video chat mode; the stream is held if the source, which must be set, yielded one, and the frame timer is running |
| Playground.Session.VideoEffectCleanup | components/gemini-playground.tsx:290-299 | stream and frame timer released |
| Playground.Session.StartYouTubeChat | components/gemini-playground.tsx:348-357 | nothing happens unless the socket is open; an input with no ID only sets the error; otherwise the chat log is cleared and one `yt_chat_start` carries the extracted ID |
| Playground.Session.StopYouTubeChat | components/gemini-playground.tsx:359-362 | exactly one `yt_chat_stop` on an open socket, nothing otherwise |
| Playground.PlaybackOrderExample | components/gemini-playground.tsx:217-243 | non-empty buffers A, B, C arriving while idle and D arriving mid-playback are started A, B, C, D |
| Playground.ArriveWhileIdle | components/gemini-playground.tsx:217-243 | of two buffers arriving at an idle player holding a context, the first (non-empty) starts and the second waits |
| Playground.ArriveThenEnd | components/gemini-playground.tsx:217-243 | a buffer arriving mid-playback waits behind the one queued, which starts when the playing buffer ends |
| Playground.StalledPlaybackExample | components/gemini-playground.tsx:217-243 | an audio message with no samples reaching an idle player starts nothing and leaves the flag up, so a later buffer only waits |
| Playground.SessionLifecycleExample | components/gemini-playground.tsx:59-88 | an opened session sends exactly config then mode; an invalid ID sends nothing and sets the error; stopping twice leaves the session torn down |

## Left out

- Rendering (JSX, layout, the last-messages slice) is UI and has no state logic to model.
- `captureAndSendFrame`, with its canvas drawing and JPEG encoding, is browser I/O. The model records only that the frame timer is held.
- The failure branch of the video effect (components/gemini-playground.tsx:272-284) is left out. It calls `stopStream` from a stale render, and React's closure capture is not modelled.
- The RMS computation and its 0.02 threshold are floating-point numerics. The speech classification of each block is an input, and so is `Date.now()`.
- `btoa`/`atob` and `String.fromCharCode`/`charCodeAt` are base64 (section 4 of RFC 4648) and are browser builtins. Audio frames carry the bytes the base64 text encodes.
- `JSON.stringify`/`JSON.parse` are left out; frames are datatypes. Fields of the wrong JSON type (a non-string `text`, a missing `data.user`) are not modelled.
- `crypto.randomUUID` and the socket URL are left out, because randomness and the network are outside the model.
- The async interleaving of `onopen`, `await startAudioStream()`, the video effect's `await` of `getUserMedia`/`getDisplayMedia` and `onended` is left out. Each callback is one atomic method, so handles the video effect stores after a `stopStream` that ran during its `await` are not modelled.
- NaN and infinite samples are left out. Samples are reals. For the `Float32Array` input of the only call site (components/gemini-playground.tsx:137), the products and quotients involved are exact for finite inputs; for a `number[]` input, `s * 0x7FFF` on a double can round, and that rounding is not modelled.
- Playground.Session.Transmit: `send` on a socket still connecting throws `InvalidStateError`; `Transmit` only drops the frame, as for a closing or closed socket. Its callers model the throw where code follows the send: `StopVideo` then keeps the stream and timer held (`SendThrows`). In `toggleVideo` the send is the last statement, so nothing else is skipped.
- Playground.Session.StopStream: the chat mode it tests is the current one, not the value captured by the render that created the callback.
- Playground.Session.OnSocketClose: the model also marks the socket held as closed; the handler itself only clears `isStreaming`. A close event from a socket no longer held (after `stopStream` and a new `startStream`) is not modelled. In the source it only clears `isStreaming` of the new session, while the model's event would mark the new, still connecting socket closed.
- Stopping playback: `stopStream` closes the audio context but leaves the queue and `isPlayingRef` as they are, and the model does the same. Whether the playing buffer's `onended` still runs after the context closes is up to the browser. If it does, `PlayNextInQueue` goes idle and keeps the queue, and the next session's first `PlayAudioData` starts the stale buffers ahead of the new one. If it does not, `isPlaying` stays true and no buffer is ever started again.
- Playground.Session.PlayNextInQueue: the model does not track which `onended` callbacks are pending. After a zero-length head no source plays, so the browser never calls it again; a caller of the model must not issue that event either.
