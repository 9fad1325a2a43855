# Quantum Universalis views, modelled in Dafny

This project models the parts of the Quantum Universalis web app whose
logic is more than layout. There is one Dafny module per concern.

- **LiveView** is the real-time voice conversation. It is modelled by four modules.
  - `LiveCodec` covers the audio helpers:
    - `encode` and `decode`, with the browser's `btoa`/`atob` modelled on
      the base64 alphabet of section 4 of RFC 4648, and decoding that
      forgives white space and missing padding as the HTML standard's
      forgiving-base64 algorithm does;
    - the little-endian 16-bit PCM view behind `decodeAudioData`, and its
      channel de-interleave;
    - the float-to-word scaling and framing of `createBlob`.
  - `LiveTranscript` covers the transcription buffers and the append-only
    turn log.
  - `LivePlayback` covers the gapless scheduling of the model's audio
    segments.
  - `LiveSession` covers the session state machine (idle, connecting,
    active, error). It is a class whose boolean fields stand for the
    references the component holds. Ghost fields log every release call
    (`close`, `stop`, `disconnect`) that `cleanUp` makes.
- **RitualView** (`RitualView`) is the five-minute ritual: its durations,
  its `mm:ss` display, and its countdown interval. React's render/commit
  cycle is modelled explicitly, because the two effects only make sense
  against the values of the render they belong to.
- **ChatView** (`ChatView`) is the streaming chat's send handler. The
  awaits of `handleSend` are split into events: the stream opens, a chunk
  arrives, the stream fails, the stream ends. A ghost history records what
  the message list must be after each event.
- **VideoGeneratorView** (`VideoGeneratorView`) covers:
  - the loading-message rotation and the interval that drives it;
  - the input guard of `handleGenerate` and how its outcome is shown;
  - the two reset handlers.
- Shared pieces:
  - `JsText` holds the white-space set of `String.prototype.trim` and
    `includes`;
  - `Wrappers` holds `Option` and `Result`.

Facts about the code that the model keeps:

- The error state is not terminal: the button's "Try Again" starts a new
  session from `error` (components/views/LiveView.tsx:242-248).
- `handleStart` shows "connecting" before it asks for the microphone
  (components/views/LiveView.tsx:108-121).
- `onclose` aims at `idle`, and as written it does not even reach that
  (see Findings).
- `decodeAudioData` fails only on an odd byte length, or when there are no
  frames at all; a partial last frame is dropped
  (components/views/LiveView.tsx:26-44).
- VideoGeneratorView shows a key panel instead of its form until a key is
  selected, so the file input only exists while a key is selected and no
  image preview is shown (components/views/VideoGeneratorView.tsx:162-207).

## Model

| member | source | states |
|---|---|---|
| `LiveCodec.StoredBytesOfBinaryString` | components/views/LiveView.tsx:7-24 | the string `encode` builds holds one code unit below 256 per byte, and `decode`'s byte store recovers exactly the bytes |
| `LiveCodec.BinaryStringOfStoredBytes` | components/views/LiveView.tsx:16-24 | conversely, a binary string rebuilt from its stored bytes is the same string |
| `LiveCodec.Encode` | components/views/LiveView.tsx:7-14 | the loop builds the binary string of the array's bytes, and `btoa` of it succeeds with the returned text |
| `LiveCodec.Decode` | components/views/LiveView.tsx:16-24 | fails exactly when `atob` throws, with its error; otherwise a fresh array holds each code unit of the decoded string as a byte |
| `LiveCodec.EncodeThenDecode` | components/views/LiveView.tsx:7-24 | `decode(encode(bytes))` returns an array of the same length with the same bytes |
| `LiveCodec.AtobInvertsBtoa` | components/views/LiveView.tsx:13-17 | for every binary string, `btoa` succeeds and `atob` of its output gives the string back |
| `LiveCodec.AtobOfBase64Encode` | components/views/LiveView.tsx:13-17 | `atob` of the padded base64 text of any bytes yields their binary string |
| `LiveCodec.DecodeEncodeBody` | components/views/LiveView.tsx:13-17 | the unpadded base64 body is all alphabet digits, never of length 1 mod 4, and decodes back to the bytes |
| `LiveCodec.EncodeBodyLength` | components/views/LiveView.tsx:13 | the base64 body has 4 characters per full 3-byte group plus 2 or 3 for a partial group |
| `LiveCodec.QuantumRoundTrip` | components/views/LiveView.tsx:13-17 | three bytes encode to four alphabet digits whose 6-bit values decode to the same three bytes |
| `LiveCodec.PaddedShape` | components/views/LiveView.tsx:13 | `btoa` output holds only alphabet digits and `=`, and removing its padding leaves exactly the unpadded body |
| `LiveCodec.StripOnlyRemovesWhitespace` | components/views/LiveView.tsx:17 | `atob`'s white-space removal leaves text without white space unchanged |
| `LiveCodec.Int16ViewOfLittleEndian` | components/views/LiveView.tsx:32 | an `Int16Array` view over the little-endian bytes of some words reads those words back |
| `LiveCodec.LittleEndianOfInt16View` | components/views/LiveView.tsx:32 | an even-length byte buffer is exactly the little-endian bytes of its `Int16Array` view |
| `LiveCodec.ReadChannel` | components/views/LiveView.tsx:36-41 | the inner loop gives `floor(words / numChannels)` samples, sample `i` being word `i * numChannels + channel` |
| `LiveCodec.DecodeAudioData` | components/views/LiveView.tsx:26-43 | an odd byte count throws (`RangeError`); no frames throws (`NotSupportedError`); otherwise the buffer has the rate, `floor(words / channels)` frames, and every channel de-interleaved |
| `LiveCodec.Truncate` | components/views/LiveView.tsx:49 | truncation toward zero: within one of the real value, never past it away from zero |
| `LiveCodec.ToInt16` | components/views/LiveView.tsx:49 | the store into an `Int16Array` keeps the value modulo 2^16, and is exact inside the 16-bit range |
| `LiveCodec.SampleInRange` | components/views/LiveView.tsx:49 | a sample in [-1, 1) is truncated without wrapping and lies within one quantisation step of the original |
| `LiveCodec.FullScaleSampleWraps` | components/views/LiveView.tsx:49 | a sample of exactly 1.0 wraps to -32768 instead of clamping to 32767 |
| `LiveCodec.CreateBlob` | components/views/LiveView.tsx:45-55 | the blob is tagged `audio/pcm;rate=16000`, and its data is `btoa` of the two-bytes-per-sample little-endian words of the scaled samples |
| `LiveCodec.WireRoundTrip` | components/views/LiveView.tsx:7-55 | a blob's text decodes back (atob, byte store, 16-bit view) to exactly the words that were framed |
| `LiveTranscript.CompletedTurns` | components/views/LiveView.tsx:167-175 | a turn boundary emits a `You` entry when the trimmed input is not empty, then an `Assistant` entry when the trimmed output is not empty, each holding the non-empty trimmed text |
| `LiveTranscript.Step` | components/views/LiveView.tsx:160-178 | a message only appends to the log; a turn-complete message empties both buffers; any other message leaves the log alone |
| `LiveTranscript.BuffersHoldCurrentTurn` | components/views/LiveView.tsx:160-166 | after any run of messages, each buffer is exactly the concatenation of that channel's fragments since the last turn boundary |
| `LiveTranscript.BoundaryAppendsTurn` | components/views/LiveView.tsx:167-178 | a boundary appends the trimmed text of the whole turn's fragments, including those in the boundary message itself |
| `LiveTranscript.LogIsAppendOnly` | components/views/LiveView.tsx:170-174 | the log after any prefix of the messages is a prefix of the log after all of them |
| `LiveTranscript.LogGrowth` | components/views/LiveView.tsx:170-174 | each message adds at most two entries |
| `LivePlayback.StartTime` | components/views/LiveView.tsx:182 | a segment starts at the later of the cursor and the output clock, so never in the past and never before the queue's end |
| `LivePlayback.ScheduleRespectsArrivals` | components/views/LiveView.tsx:180-191 | every scheduled segment starts no earlier than its arrival and the cursor, lasts its buffer's duration, and ends by the final cursor |
| `LivePlayback.ScheduleHasNoOverlap` | components/views/LiveView.tsx:180-191 | in an uninterrupted run, each later segment starts after every earlier one has stopped, so none overlap |
| `LivePlayback.ScheduleIsGapless` | components/views/LiveView.tsx:180-191 | a segment that arrives before the previous one ends starts exactly when it ends |
| `LivePlayback.InterruptedConversation` | components/views/LiveView.tsx:180-197 | worked example: two segments play back to back, and after an interruption's reset the next one starts at the clock |
| `LiveSession.ButtonLabelNamesAction` | components/views/LiveView.tsx:229-248 | the label says "Stop Conversation" exactly when a click stops, "Connecting..." exactly when the click is disabled, and otherwise it offers a start; the four labels are distinct |
| `LiveSession.PayloadFrames` | components/views/LiveView.tsx:183 | a payload that decodes yields a positive frame count |
| `LiveSession.DecodePayload` | components/views/LiveView.tsx:183 | `decodeAudioData(decode(payload), ctx, 24000, 1)` yields the frame count, or the error `atob` or the buffer raises, as `PayloadFrames` defines them |
| `LiveSession.PayloadFramesOfEncodedSamples` | components/views/LiveView.tsx:183 | a payload encoded from 16-bit samples plays one frame per sample; an empty payload is refused |
| `LiveSession.Session.constructor` | components/views/LiveView.tsx:63-76 | a mounted view is idle with no error, an empty transcript, and no references held |
| `LiveSession.Session.CleanUp` | components/views/LiveView.tsx:78-100 | the tracks, the processor and the two contexts are released in that order when held, the queued sources are stopped and the cursor is reset; the connection's close comes last, because it waits on the session promise (line 79); every reference is dropped, and a second call releases nothing |
| `LiveSession.OwedOncePerReference` | components/views/LiveView.tsx:78-100 | the releases `cleanUp` owes name each held reference exactly once and nothing else, with the connection's close, when owed, last |
| `LiveSession.Session.Start` | components/views/LiveView.tsx:108-113 | the start shows connecting and clears the error, the transcript and both buffers |
| `LiveSession.Session.MicrophoneGranted` | components/views/LiveView.tsx:116-121 | the stream and the connection are held |
| `LiveSession.Session.MicrophoneRefused` | components/views/LiveView.tsx:213-218 | the thrown message, or "Failed to start session.", is shown in the error state, and everything held is released |
| `LiveSession.Session.OnOpen` | components/views/LiveView.tsx:130-158 | with Web Audio, the session turns active and holds both contexts and the processor, releasing nothing; without it, the state is error with the fixed message and everything is released |
| `LiveSession.Session.ApplyTranscription` | components/views/LiveView.tsx:160-178 | the transcript moves on by exactly one `Step` |
| `LiveSession.Session.PlayAudio` | components/views/LiveView.tsx:180-191 | a payload that decodes adds one new source, scheduled at the `Schedule` interval with the cursor moved to its end, and the intervals of earlier sources are kept; one that does not raises its decode error after moving the cursor only, creating no source |
| `LiveSession.Session.QueueSource` | components/views/LiveView.tsx:184-190 | the new source gets the next identity and plays from the cursor for its duration, the cursor moves to its end, and the intervals of earlier sources are kept; queued sources still never overlap |
| `LiveSession.Session.Interrupt` | components/views/LiveView.tsx:193-197 | every queued source is stopped, the queue is emptied and the cursor is reset to 0 |
| `LiveSession.Session.SourceEnded` | components/views/LiveView.tsx:187 | a source that finished leaves the queue |
| `LiveSession.Session.OnMessage` | components/views/LiveView.tsx:159-198 | the transcript step always happens first. A model turn without `parts`, or a first part without inline data, rejects with nothing queued and the cursor unmoved; undecodable audio rejects with the cursor already moved to `max(cursor, clock)`; playable audio adds one new source scheduled at the `Schedule` interval from the cursor; an interruption stops every queued source, the new one included, and resets the cursor to 0; anything else leaves the queue and the cursor alone; only a played source adds an interval, and earlier intervals are kept |
| `LiveSession.Session.OnError` | components/views/LiveView.tsx:199-203 | the error state shows the event's message, or the fallback when it is empty, and everything is released |
| `LiveSession.Session.OnCloseAsWritten` | components/views/LiveView.tsx:204-209 | as written: everything is released, and the state becomes idle only when the state captured at `handleStart`'s render was neither idle nor error |
| `LiveSession.Session.OnClose` | components/views/LiveView.tsx:204-209 | as intended: everything is released, and a close returns a connecting or active session to idle, keeping idle and error |
| `LiveSession.Session.Stop` | components/views/LiveView.tsx:102-106 | everything is released, the state is idle and the transcript log is empty |
| `LiveSession.Session.ButtonClick` | components/views/LiveView.tsx:242-248 | a click in the active state stops; a click while connecting is disabled (line 284) and changes nothing; otherwise a session starts, and only ever from idle or error, holding the same references, queue and cursor as before; a stop keeps the error and both transcription buffers |
| `LiveSession.ServerCloseAsWritten` | components/views/LiveView.tsx:204-209 | a session started from idle, opened, then closed by the server ends showing "active" with no connection held |
| `LiveSession.ServerClose` | components/views/LiveView.tsx:204-209 | the same run with the intended `onclose` ends idle |
| `RitualView.Duration` | components/views/RitualView.tsx:6-10 | every active step has a positive duration |
| `RitualView.DurationsMakeFiveMinutes` | components/views/RitualView.tsx:6-10 | 180 + 60 + 60 seconds make five minutes |
| `RitualView.NextStep` | components/views/RitualView.tsx:88-92 | each active step is followed by the next one in order, lock-in by finished; idle and finished stay put |
| `RitualView.Tick` | components/views/RitualView.tsx:83 | one tick never raises the timer |
| `RitualView.Countdown` | components/views/RitualView.tsx:82-84 | `n` ticks from `t` show `t - n`, and 0 from the `t`-th tick on |
| `RitualView.DecimalString` | components/views/RitualView.tsx:14 | `String(n)` is a non-empty run of decimal digits, one digit long exactly below 10 |
| `RitualView.DecimalRoundTrip` | components/views/RitualView.tsx:14 | the decimal string of `n` denotes `n` |
| `RitualView.PadStart2` | components/views/RitualView.tsx:14 | `padStart(2, '0')` gives at least two characters and keeps the number the digits denote |
| `RitualView.FormatTimeRoundTrip` | components/views/RitualView.tsx:12-16 | `formatTime` has the `mm:ss` shape, is five characters below 100 minutes, and reads back as the seconds it was given |
| `RitualView.FormatTimeExamples` | components/views/RitualView.tsx:12-16 | 180 seconds show as `03:00`, 65 as `01:05` |
| `RitualView.Ritual.constructor` | components/views/RitualView.tsx:65-69 | a mounted view is idle with a zero timer and no interval |
| `RitualView.Ritual.StopTimer` | components/views/RitualView.tsx:72-77 | no interval is left running and the ref is null |
| `RitualView.Ritual.StartTimer` | components/views/RitualView.tsx:79-86 | the previous interval is cleared and exactly one new one runs; the timer and the duration are set |
| `RitualView.Ritual.OnTick` | components/views/RitualView.tsx:82-84 | the timer moves on by one `Tick` |
| `RitualView.Ritual.NextStepClick` | components/views/RitualView.tsx:88-92 | the step becomes `nextStep` of the rendered step |
| `RitualView.Ritual.StartRitual` | components/views/RitualView.tsx:94 | the step becomes grounding |
| `RitualView.Ritual.ResetRitual` | components/views/RitualView.tsx:95-98 | the intent text is cleared and the step is idle |
| `RitualView.Ritual.StepEffect` | components/views/RitualView.tsx:100-106 | entering an active step starts its full countdown; any other step stops the interval |
| `RitualView.Ritual.ExpiryEffect` | components/views/RitualView.tsx:108-113 | a zero timer in an active step stops the interval and advances the step; otherwise nothing changes |
| `RitualView.Ritual.Commit` | components/views/RitualView.tsx:100-113 | as written: the second effect reads the render's timer, so a step entered while the render shows 0 advances at once |
| `RitualView.Ritual.CommitCorrected` | components/views/RitualView.tsx:100-113 | as intended: a step that is entered always starts with its full countdown and a running interval |
| `RitualView.Ritual.Settle` | components/views/RitualView.tsx:100-113 | re-rendering after effects always ends with the last render showing the latest state, and the step never moves backwards |
| `RitualView.Ritual.Unmount` | components/views/RitualView.tsx:115-117 | no interval is left running |
| `RitualView.BeginOnFreshMountAsWritten` | components/views/RitualView.tsx:94-113 | Begin on a fresh view skips grounding and settles on intent |
| `RitualView.BeginOnFreshMount` | components/views/RitualView.tsx:94-113 | with the intended commit, Begin settles on grounding with 180 seconds |
| `RitualView.IntentRunsOutAsWritten` | components/views/RitualView.tsx:79-113 | when intent runs out, lock-in is skipped and the ritual settles on finished |
| `RitualView.GroundingRunsOut` | components/views/RitualView.tsx:79-113 | with the intended commit, grounding running out settles on intent with 60 seconds |
| `ChatView.ExchangeShape` | components/views/ChatView.tsx:36-64 | an exchange adds the user's message as typed, then at most one reply, which holds the concatenated chunks; a failed exchange never leaves an empty reply |
| `ChatView.ConcatGrows` | components/views/ChatView.tsx:47-54 | the reply shown after any prefix of the chunks is a prefix of the final reply |
| `ChatView.ReplaceLastContent` | components/views/ChatView.tsx:49-53 | the chunk updater keeps every message but the last, and gives the last the text so far |
| `JsText.Trim` | components/views/LiveView.tsx:168-169 | `trim()` (also ChatView.tsx line 34) yields the slice of the string between its leading and trailing white space, with no white space at either end, and is empty exactly when the string is all white space |
| `ChatView.DropEmptyReply` | components/views/ChatView.tsx:58-64 | the failure updater removes at most the last message, and removes one exactly when it is an empty model reply |
| `ChatView.Chat.constructor` | components/views/ChatView.tsx:10-14 | a mounted view has no chat, no messages, empty input, no loading and no error |
| `ChatView.Chat.ChatCreated` | components/views/ChatView.tsx:18-27 | the mount effect makes the chat available |
| `ChatView.Chat.SetInput` | components/views/ChatView.tsx:113-115 | typing sets the input |
| `ChatView.Chat.Send` | components/views/ChatView.tsx:33-40 | blank input (trimmed to nothing), no chat yet, or a send in flight changes nothing; otherwise the message as typed is appended, the input is cleared, loading starts and the error is cleared |
| `ChatView.Chat.BeginExchange` | components/views/ChatView.tsx:36-40 | the part of the send after the guard, with the same effect on the state |
| `ChatView.Chat.StreamOpened` | components/views/ChatView.tsx:43-45 | an empty model reply is appended |
| `ChatView.Chat.ChunkReceived` | components/views/ChatView.tsx:47-54 | after each chunk the messages are the history, the user's message, and a reply holding all the chunks so far |
| `ChatView.Chat.StreamFailed` | components/views/ChatView.tsx:55-67 | the error shows the thrown message or the fallback; the reply stays if any text arrived and is removed otherwise; loading ends |
| `ChatView.Chat.StreamFinished` | components/views/ChatView.tsx:65-67 | loading ends and the exchange stays as received |
| `VideoGeneratorView.LoadingMessagesDistinct` | components/views/VideoGeneratorView.tsx:7-15 | the seven loading messages are pairwise distinct |
| `VideoGeneratorView.IndexOf` | components/views/VideoGeneratorView.tsx:52 | `indexOf` is the first position holding the value, and -1 exactly when it is absent |
| `VideoGeneratorView.Successor` | components/views/VideoGeneratorView.tsx:53 | `(index + 1) % length` is the next position, or 0 past the end |
| `VideoGeneratorView.NextMessage` | components/views/VideoGeneratorView.tsx:51-55 | the tick updater always yields an entry of the list |
| `VideoGeneratorView.NextLoadingMessage` | components/views/VideoGeneratorView.tsx:51-55 | the message shown after a tick is always one of the loading messages |
| `VideoGeneratorView.RotationStep` | components/views/VideoGeneratorView.tsx:51-55 | in a list without repeats, entry `i` is followed by entry `i + 1`, and the last by the first |
| `VideoGeneratorView.UnknownRotatesToFirst` | components/views/VideoGeneratorView.tsx:51-55 | a message not in the list is followed by the first entry |
| `VideoGeneratorView.RotationsAdvance` | components/views/VideoGeneratorView.tsx:51-55 | up to a full round, `n` ticks move entry `i` on by `n` places, wrapping past the end |
| `VideoGeneratorView.SevenRotationsReturn` | components/views/VideoGeneratorView.tsx:7-15 | seven ticks bring any loading message back to itself, and one tick turns any message into a loading message |
| `VideoGeneratorView.FailureShownCases` | components/views/VideoGeneratorView.tsx:140-147 | an error mentioning "Requested entity was not found" shows the invalid-key message and deselects the key, and only such an error does; any other shows "Generation failed: " then its text and keeps the key |
| `VideoGeneratorView.VideoGenerator.constructor` | components/views/VideoGeneratorView.tsx:27-37 | a mounted view has empty inputs, 16:9, the first loading message, no error, no video and no interval; no key is selected, so the key panel is shown and there is no file input |
| `VideoGeneratorView.VideoGenerator.KeyChecked` | components/views/VideoGeneratorView.tsx:38-45 | a key the host reports selects the key and mounts the form with an empty file input; no key changes nothing |
| `VideoGeneratorView.VideoGenerator.SelectKey` | components/views/VideoGeneratorView.tsx:68-74 | with a host the key counts as selected once the dialog closes, and the form comes back with an empty file input; without a host nothing changes |
| `VideoGeneratorView.VideoGenerator.SetPrompt` | components/views/VideoGeneratorView.tsx:27 | typing sets the prompt |
| `VideoGeneratorView.VideoGenerator.SetAspectRatio` | components/views/VideoGeneratorView.tsx:223-226 | the ratio buttons set the ratio |
| `VideoGeneratorView.VideoGenerator.RenderImageArea` | components/views/VideoGeneratorView.tsx:190-207 | the file input is rendered exactly when a key is selected (the form replaces the key panel) and no preview is shown; a kept input keeps its value and a newly rendered one is empty |
| `VideoGeneratorView.VideoGenerator.ImageUpload` | components/views/VideoGeneratorView.tsx:76-82 | a chosen file and its object URL are kept and the preview replaces the input; an empty choice keeps the image and leaves the input showing the chosen value |
| `VideoGeneratorView.VideoGenerator.ImageReset` | components/views/VideoGeneratorView.tsx:84-90 | no file and no preview; the input, absent while the preview's button was shown, comes back empty in the form |
| `VideoGeneratorView.VideoGenerator.Generate` | components/views/VideoGeneratorView.tsx:92-99 | with neither a prompt nor an image, only the error is set; otherwise loading starts with no error and no video |
| `VideoGeneratorView.VideoGenerator.GenerationEnded` | components/views/VideoGeneratorView.tsx:127-150 | loading always ends; a video is shown; a failure shows `FailureShown`'s message and deselects the key exactly when it says so, which brings back the key panel and unmounts the file input |
| `VideoGeneratorView.VideoGenerator.Reset` | components/views/VideoGeneratorView.tsx:153-160 | the prompt, ratio, image, error, video and loading flag are all back to their initial values, and the form's file input is rendered empty |
| `VideoGeneratorView.VideoGenerator.Tick` | components/views/VideoGeneratorView.tsx:50-56 | a running interval's tick shows the next loading message |
| `VideoGeneratorView.VideoGenerator.Commit` | components/views/VideoGeneratorView.tsx:48-66 | after a commit, exactly one interval runs while loading and none otherwise; a new interval is only started when loading switches on |
| `VideoGeneratorView.VideoGenerator.Unmount` | components/views/VideoGeneratorView.tsx:62-64 | no interval is left running |
| `VideoGeneratorView.GenerateOnFreshView` | components/views/VideoGeneratorView.tsx:48-99 | an empty form is rejected with the missing-input message; a prompt starts one interval, and once the video arrives the ref is null again and no interval runs |
| `VideoGeneratorView.KeyLostThenSelected` | components/views/VideoGeneratorView.tsx:162-181 | a fresh view has no file input until the host reports a key; a key-not-found failure brings the key panel back and unmounts the input, which comes back empty once a key is selected again |
| `VideoGeneratorView.UploadThenRemove` | components/views/VideoGeneratorView.tsx:76-90 | after an upload the file input is not rendered, so the remove button's handler finds no input to clear; the input then comes back empty and no file is kept |

## Left out

- The browser and SDK objects themselves are not modelled. This covers
  `getUserMedia`, `AudioContext`, the script processor and its
  `onaudioprocess` hook, `createBufferSource`, `GoogleGenAI` and the live
  connection, and the chat and video endpoints. Each is reduced to "the
  component holds a reference" or to an event handler's parameters.
- Awaits are not modelled as interleavings. Every handler runs to
  completion as one atomic step, and the awaited parts become separate
  methods. For example, `MicrophoneGranted`, `OnOpen` and `PlayAudio`
  each run after the previous step's promise settles.
- `LiveCodec.DecodeAudioData`: does not model the `/ 32768.0` float scaling
  of each sample. The buffer holds the 16-bit words, and the channel and
  frame layout is modelled.
- `LiveCodec.CreateBlob`: samples are exact reals, so NaN, the infinities
  and float32 rounding are not represented.
- A little-endian platform is assumed for the `Int16Array` views.
- `LiveCodec.AtobInvertsBtoa`: only the round trip from canonical `btoa`
  output is proved. Which non-canonical inputs `atob` accepts is defined,
  but not characterised by a lemma.
- A transcription fragment or chat chunk whose `text` is `undefined` is
  modelled as absent (empty) in the transcript and as an ordinary string in
  the chat. The source's concatenation of the word "undefined" is not
  represented.
- `close().catch(console.error)`: a failing context close is not modelled.
  The release log records the call.
- The scroll-into-view effects, `TimerCircle` and all rendering are left out.
  So are the ritual's intent text field and the other views of the app.
- The timing of `setInterval` (1 s and 3 s) is not modelled. A tick is an
  event that may happen while the interval is live.
- `RitualView.Ritual.Settle`: React's re-render loop is modelled as
  committing until nothing is pending. It is not a model of React's
  scheduler.
- `ChatView.Chat.Send`: the `isLoading` guard comes from the disabled input
  and send button (lines 116-123). `handleSend` itself does not test it.
- `ChatView.Chat.ChunkReceived`: the updater mutates the last message
  object in place (line 51). That aliases the previous state's message.
  The model replaces the message by value.
- VideoGeneratorView's loading message is not reset between generations.
  The model keeps this: `Generate` does not touch `loadingMessage`.
- The video request, the operation polling loop, the download and the
  base64 read of the uploaded file are not modelled (lines 100-139). Their
  outcome is the parameter of `GenerationEnded`.
- The host's key calls `hasSelectedApiKey` and `openSelectKey` are not
  modelled. Their answers are parameters: whether the host exists and
  reports a key for `KeyChecked`, and whether the host exists for
  `SelectKey`.
- `LiveSession.Session.CleanUp`: the deferred `session.close()` is recorded
  as the last release of the same call. A connect promise that rejects, so
  that the close never runs, is not modelled.
- `ChatView.DropEmptyReply`: on an empty list the source's updater would
  throw reading the last message. That list cannot reach it, because the
  user's message is always appended first; the model returns it unchanged.

## Findings

| source | as written | input that shows it | evidently intended | confidence | as-written member | corrected member |
|---|---|---|---|---|---|---|
| components/views/LiveView.tsx:204-209 | `onclose` tests `sessionState` as captured by the render that ran `handleStart`. That render is always idle or error, so the guard never resets the state | start from idle, the connection opens (state active), then the server closes the connection: the view still says "active" and "Stop Conversation" with nothing connected | a close while connecting or active returns the view to idle | not executed | `LiveSession.ServerCloseAsWritten` (with `LiveSession.Session.OnCloseAsWritten`) | `LiveSession.ServerClose` (with `LiveSession.Session.OnClose`) |
| components/views/RitualView.tsx:100-113 | the expiry effect reads the `timer` of the render in which a step is entered. That is still 0 on a fresh mount and after a step ran out, while the step effect's new countdown only shows in the next render | press Begin on a freshly mounted view: grounding is skipped and intent starts; let intent run out: lock-in is skipped and the ritual finishes | each step entered runs its full duration before the next | not executed | `RitualView.BeginOnFreshMountAsWritten` and `RitualView.IntentRunsOutAsWritten` (with `RitualView.Ritual.Commit`) | `RitualView.BeginOnFreshMount` and `RitualView.GroundingRunsOut` (with `RitualView.Ritual.CommitCorrected`) |
