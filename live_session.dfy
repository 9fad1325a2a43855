/** The LiveView voice session (components/views/LiveView.tsx lines
    59-248): a state machine over idle, connecting, active and error; the
    resources a session holds and the cleanup that releases them; the
    transcript and the playback queue updated by server messages; the
    button that drives it all.

    External objects (the connection, the microphone stream, the two audio
    contexts, the script processor, the playing sources) are modelled by
    whether the component holds a reference to them; every call that gives
    one back (close, disconnect, stop) is recorded in the ghost log
    `released` and the ghost set `stopped`. */
module LiveSession {
  import opened Wrappers
  import LiveCodec
  import opened LiveTranscript
  import opened LivePlayback

  datatype SessionState = Idle | Connecting | Active | Error

  type SourceId = nat

  /** One call that gives an external resource back. */
  datatype Release =
    | CloseSession
    | StopTracks
    | DisconnectProcessor
    | CloseInputContext
    | CloseOutputContext

  /** The first part of the model's turn in a server message, or
      `NoParts` for a model turn without a `parts` array, where reading
      `parts[0]` throws. A message without a model turn, or whose `parts`
      is empty, has no first part at all (None). */
  datatype Part = InlineData(data: string) | NoInlineData | NoParts

  /** The fields of a server message that the handler reads. */
  datatype ServerMessage = ServerMessage(
    transcript: TranscriptFields,
    firstPart: Option<Part>,
    interrupted: bool)

  /** Why a message handler stops before its end (its promise rejects). */
  datatype MessageFault =
    | MissingParts
    | MissingInlineData
    | BadAudio(error: LiveCodec.CodecError)

  const WebAudioMissing: string :=
    "Your browser does not support the Web Audio API, which is required for this feature."
  const StartFailed: string := "Failed to start session."
  const UnknownError: string := "An unknown error occurred."

  function ButtonLabel(state: SessionState): string {
    match state
    case Idle => "Start Conversation"
    case Connecting => "Connecting..."
    case Active => "Stop Conversation"
    case Error => "Try Again"
  }

  /** What a click does; the button is disabled while connecting. */
  datatype ClickAction = StartSession | StopSession | Ignored

  function Click(state: SessionState): ClickAction {
    if state == Active then StopSession
    else if state == Connecting then Ignored
    else StartSession
  }

  /** The label names what the click does, and tells the four states
      apart. */
  lemma ButtonLabelNamesAction(state: SessionState, other: SessionState)
    ensures Click(state) == StopSession <==> ButtonLabel(state) == "Stop Conversation"
    ensures Click(state) == Ignored <==> ButtonLabel(state) == "Connecting..."
    ensures Click(state) == StartSession <==>
      ButtonLabel(state) == "Start Conversation" || ButtonLabel(state) == "Try Again"
    ensures ButtonLabel(state) == ButtonLabel(other) ==> state == other
  {
  }

  /** The frame count of an audio payload played at 24 kHz mono: the
      base64 decode, then the 16-bit view, then a non-empty buffer. */
  function PayloadFrames(payload: string): (r: Result<nat, LiveCodec.CodecError>)
    ensures r.Success? ==> r.value > 0
  {
    match LiveCodec.Atob(payload)
    case Failure(e) => Failure(e)
    case Success(binary) =>
      var n := |LiveCodec.StoredBytes(binary)|;
      if n % 2 == 1 then Failure(LiveCodec.OddByteLength)
      else if n / 2 == 0 then Failure(LiveCodec.EmptyBuffer)
      else Success(n / 2)
  }

  /** `decodeAudioData(decode(payload), context, 24000, 1)`, reduced to
      what the scheduler uses: the buffer's frame count, or the error the
      decode raises. */
  method DecodePayload(payload: string) returns (r: Result<nat, LiveCodec.CodecError>)
    ensures r == PayloadFrames(payload)
  {
    var bytes := LiveCodec.Decode(payload);
    if bytes.Failure? {
      return Failure(bytes.error);
    }
    var buffer := LiveCodec.DecodeAudioData(bytes.value, OutputSampleRate, 1);
    if buffer.Failure? {
      return Failure(buffer.error);
    }
    return Success(buffer.value.length);
  }

  /** A payload the server encodes from 16-bit samples decodes to one
      frame per sample; an empty one is refused. */
  lemma PayloadFramesOfEncodedSamples(words: seq<LiveCodec.Int16>)
    ensures PayloadFrames(LiveCodec.Base64Encode(LiveCodec.LittleEndian(words)))
         == if words == [] then Failure(LiveCodec.EmptyBuffer) else Success(|words|)
  {
    LiveCodec.WireRoundTrip(words);
  }

  /** The audio a message carries: the first part's inline data, when it
      is not empty. */
  function AudioPayload(part: Option<Part>): Option<string> {
    if part.Some? && part.value.InlineData? && part.value.data != "" then Some(part.value.data) else None
  }

  function Single(held: bool, r: Release): seq<Release> {
    if held then [r] else []
  }

  /** The release calls `cleanUp` owes for the references it holds, in
      the order it makes them: the connection is closed last, because its
      `close` waits on the session promise (`.then`) while the others run
      at once. */
  function Owed(session: bool, mediaStream: bool, scriptProcessor: bool, inputContext: bool,
                outputContext: bool): seq<Release>
  {
    Single(mediaStream, StopTracks) + Single(scriptProcessor, DisconnectProcessor)
    + Single(inputContext, CloseInputContext) + Single(outputContext, CloseOutputContext)
    + Single(session, CloseSession)
  }

  /** Whether `cleanUp` owes release call `r`, given the references held. */
  predicate Owes(r: Release, session: bool, mediaStream: bool, scriptProcessor: bool,
                 inputContext: bool, outputContext: bool)
  {
    match r
    case CloseSession => session
    case StopTracks => mediaStream
    case DisconnectProcessor => scriptProcessor
    case CloseInputContext => inputContext
    case CloseOutputContext => outputContext
  }

  /** Each held reference is owed exactly one release call, and nothing
      else is owed; the connection's close, when owed, comes last. */
  lemma OwedOncePerReference(session: bool, mediaStream: bool, scriptProcessor: bool,
                             inputContext: bool, outputContext: bool)
    ensures var r := Owed(session, mediaStream, scriptProcessor, inputContext, outputContext);
      && (forall x :: multiset(r)[x] == if Owes(x, session, mediaStream, scriptProcessor, inputContext, outputContext) then 1 else 0)
      && (session ==> r[|r| - 1] == CloseSession)
  {
    forall x
      ensures multiset(Owed(session, mediaStream, scriptProcessor, inputContext, outputContext))[x]
              == if Owes(x, session, mediaStream, scriptProcessor, inputContext, outputContext) then 1 else 0
    {
      OwedCount(session, mediaStream, scriptProcessor, inputContext, outputContext, x);
    }
  }

  lemma OwedCount(session: bool, mediaStream: bool, scriptProcessor: bool,
                  inputContext: bool, outputContext: bool, x: Release)
    ensures multiset(Owed(session, mediaStream, scriptProcessor, inputContext, outputContext))[x]
            == if Owes(x, session, mediaStream, scriptProcessor, inputContext, outputContext) then 1 else 0
  {
    var a, b, c := Single(mediaStream, StopTracks), Single(scriptProcessor, DisconnectProcessor), Single(inputContext, CloseInputContext);
    var d, e := Single(outputContext, CloseOutputContext), Single(session, CloseSession);
    assert multiset(a + b + c + d + e) == multiset(a) + multiset(b) + multiset(c) + multiset(d) + multiset(e);
    SingleCount(mediaStream, StopTracks, x);
    SingleCount(scriptProcessor, DisconnectProcessor, x);
    SingleCount(inputContext, CloseInputContext, x);
    SingleCount(outputContext, CloseOutputContext, x);
    SingleCount(session, CloseSession, x);
  }

  lemma SingleCount(held: bool, r: Release, x: Release)
    ensures multiset(Single(held, r))[x] == if held && x == r then 1 else 0
  {
  }

  predicate Disjoint(a: Interval, b: Interval) {
    a.stop <= b.start || b.stop <= a.start
  }

  class Session {
    var state: SessionState
    var error: Option<string>
    var transcription: seq<Turn>
    var inputBuffer: string
    var outputBuffer: string

    var session: bool
    var mediaStream: bool
    var scriptProcessor: bool
    var inputContext: bool
    var outputContext: bool
    var outputSources: set<SourceId>
    var nextStartTime: real

    /** Identities handed to the sources created so far. */
    var sourceCount: nat
    /** When each source created so far was scheduled to play. */
    ghost var scheduled: map<SourceId, Interval>
    /** Every release call made so far on the session's own resources, in
        order. */
    ghost var released: seq<Release>
    /** The sources a `stop` call was made on so far. */
    ghost var stopped: set<SourceId>

    /** The sources still queued or playing never overlap and lie before
        the cursor; with no output context there is nothing queued. */
    ghost predicate Valid()
      reads this
    {
      && (forall id :: id in scheduled ==> id < sourceCount)
      && (forall id :: id in stopped ==> id < sourceCount)
      && stopped !! outputSources
      && (forall id :: id in outputSources ==> id in scheduled)
      && (forall id :: id in outputSources ==>
            scheduled[id].start <= scheduled[id].stop <= nextStartTime)
      && (forall a, b :: a in outputSources && b in outputSources && a != b ==>
            Disjoint(scheduled[a], scheduled[b]))
      && (!outputContext ==> outputSources == {} && nextStartTime == 0.0)
      && 0.0 <= nextStartTime
    }

    /** The release calls the held references still owe. */
    ghost function Held(): seq<Release>
      reads this
    {
      Owed(session, mediaStream, scriptProcessor, inputContext, outputContext)
    }

    predicate HoldsNothing()
      reads this
    {
      && !session && !mediaStream && !scriptProcessor && !inputContext && !outputContext
      && outputSources == {} && nextStartTime == 0.0
    }

    function Transcript(): Transcript
      reads this
    {
      LiveTranscript.Transcript(transcription, inputBuffer, outputBuffer)
    }

    constructor ()
      ensures Valid() && HoldsNothing() && Held() == []
      ensures state == Idle && error == None && Transcript() == Empty
      ensures released == [] && stopped == {}
    {
      state, error, transcription, inputBuffer, outputBuffer := Idle, None, [], "", "";
      session, mediaStream, scriptProcessor, inputContext, outputContext := false, false, false, false, false;
      outputSources, nextStartTime, sourceCount := {}, 0.0, 0;
      scheduled, released, stopped := map[], [], {};
    }

    /** `cleanUp`: every held reference is given back exactly once and
        dropped; a second call finds nothing to give back. */
    method CleanUp()
      requires Valid()
      modifies this`session, this`mediaStream, this`scriptProcessor, this`inputContext,
        this`outputContext, this`outputSources, this`nextStartTime, this`released, this`stopped
      ensures Valid() && HoldsNothing()
      ensures released == old(released) + old(Held())
      ensures stopped == old(stopped) + old(outputSources)
      ensures Held() == []
    {
      ghost var log, devices := released, Owed(false, mediaStream, scriptProcessor, inputContext, outputContext);
      assert Held() == devices + Single(session, CloseSession);
      // The connection is dropped now and closed once its promise settles.
      var closeSession := session;
      session := false;
      ReleaseDevices();
      stopped := stopped + outputSources;
      outputSources, nextStartTime := {}, 0.0;
      if closeSession {
        released := released + [CloseSession];
      }
      assert released == log + (devices + Single(closeSession, CloseSession));
    }

    /** The synchronous part of `cleanUp`: the tracks, the processor and
        the two contexts, each released when held, in this order. */
    method ReleaseDevices()
      modifies this`mediaStream, this`scriptProcessor, this`inputContext, this`outputContext, this`released
      ensures !mediaStream && !scriptProcessor && !inputContext && !outputContext
      ensures released == old(released) + Owed(false, old(mediaStream), old(scriptProcessor),
        old(inputContext), old(outputContext))
    {
      ghost var log := released;
      ghost var a, b := Single(mediaStream, StopTracks), Single(scriptProcessor, DisconnectProcessor);
      ghost var c, d := Single(inputContext, CloseInputContext), Single(outputContext, CloseOutputContext);
      if mediaStream {
        released := released + [StopTracks];
        mediaStream := false;
      }
      assert released == log + a;
      if scriptProcessor {
        released := released + [DisconnectProcessor];
        scriptProcessor := false;
      }
      assert released == log + (a + b);
      if inputContext {
        released := released + [CloseInputContext];
        inputContext := false;
      }
      assert released == log + (a + b + c);
      if outputContext {
        released := released + [CloseOutputContext];
        outputContext := false;
      }
      assert released == log + (a + b + c + d + Single(false, CloseSession));
    }

    /** `handleStart`, up to the microphone request. */
    method Start()
      modifies this`state, this`error, this`transcription, this`inputBuffer, this`outputBuffer
      ensures state == Connecting && error == None && Transcript() == Empty
    {
      state, error, transcription, inputBuffer, outputBuffer := Connecting, None, [], "", "";
    }

    /** The microphone is granted: the stream is kept and the connection
        is opened. */
    method MicrophoneGranted()
      requires Valid()
      modifies this`mediaStream, this`session
      ensures Valid() && mediaStream && session
    {
      mediaStream, session := true, true;
    }

    /** The microphone request fails: the thrown error's message, or the
        fallback when what was thrown is not an `Error`. */
    method MicrophoneRefused(message: Option<string>)
      requires Valid()
      modifies this`state, this`error, this`session, this`mediaStream, this`scriptProcessor,
        this`inputContext, this`outputContext, this`outputSources, this`nextStartTime, this`released, this`stopped
      ensures Valid() && HoldsNothing()
      ensures state == Error && error == Some(if message.Some? then message.value else StartFailed)
      ensures released == old(released) + old(Held())
      ensures stopped == old(stopped) + old(outputSources)
    {
      error := Some(if message.Some? then message.value else StartFailed);
      state := Error;
      CleanUp();
    }

    /** `onopen`: the session turns active, and without Web Audio it turns
        to the error state at once and releases everything. */
    method OnOpen(webAudio: bool)
      requires Valid()
      modifies this`state, this`error, this`session, this`mediaStream, this`scriptProcessor,
        this`inputContext, this`outputContext, this`outputSources, this`nextStartTime, this`released, this`stopped
      ensures Valid()
      ensures webAudio ==>
        && state == Active && error == old(error)
        && inputContext && outputContext && scriptProcessor
        && session == old(session) && mediaStream == old(mediaStream)
        && outputSources == old(outputSources) && nextStartTime == old(nextStartTime)
        && released == old(released) && stopped == old(stopped)
      ensures !webAudio ==>
        && state == Error && error == Some(WebAudioMissing) && HoldsNothing()
        && released == old(released) + old(Held())
        && stopped == old(stopped) + old(outputSources)
    {
      state := Active;
      if !webAudio {
        error := Some(WebAudioMissing);
        state := Error;
        CleanUp();
        return;
      }
      inputContext, outputContext, scriptProcessor := true, true, true;
    }

    /** The transcript half of `onmessage`. */
    method ApplyTranscription(fields: TranscriptFields)
      modifies this`transcription, this`inputBuffer, this`outputBuffer
      ensures Transcript() == Step(old(Transcript()), fields)
    {
      inputBuffer := inputBuffer + Fragment(fields.inputTranscription);
      outputBuffer := outputBuffer + Fragment(fields.outputTranscription);
      if fields.turnComplete {
        transcription := transcription + CompletedTurns(inputBuffer, outputBuffer);
        inputBuffer, outputBuffer := "", "";
      }
    }

    /** Queues one audio payload: the cursor moves to the clock if it lags
        behind, then a decoded segment is scheduled at the cursor and
        pushes it by its duration. A payload that does not decode leaves
        only the moved cursor behind. */
    method PlayAudio(payload: string, clock: real) returns (fault: Option<LiveCodec.CodecError>)
      requires Valid() && outputContext
      modifies this`nextStartTime, this`outputSources, this`sourceCount, this`scheduled
      ensures Valid()
      ensures fault.Some? <==> PayloadFrames(payload).Failure?
      ensures fault.Some? ==>
        && fault.value == PayloadFrames(payload).error
        && nextStartTime == StartTime(old(nextStartTime), clock)
        && outputSources == old(outputSources)
        && scheduled == old(scheduled) && sourceCount == old(sourceCount)
      ensures fault.None? ==>
        var id := old(sourceCount);
        && id !in old(outputSources)
        && outputSources == old(outputSources) + {id}
        && sourceCount == id + 1 && id in scheduled && scheduled == old(scheduled)[id := scheduled[id]]
        && [scheduled[id]] == Schedule(old(nextStartTime), [Arrival(PayloadFrames(payload).value, clock)])
        && nextStartTime == Cursor(old(nextStartTime), [Arrival(PayloadFrames(payload).value, clock)])
    {
      nextStartTime := StartTime(nextStartTime, clock);
      var frames := DecodePayload(payload);
      if frames.Failure? {
        return Some(frames.error);
      }
      var id := QueueSource(frames.value);
      return None;
    }

    /** Creates a source for a segment of `frames` frames, starts it at the
        cursor and moves the cursor to its end. */
    method QueueSource(frames: nat) returns (id: SourceId)
      requires Valid() && outputContext
      modifies this`nextStartTime, this`outputSources, this`sourceCount, this`scheduled
      ensures Valid()
      ensures id == old(sourceCount) && id !in old(outputSources)
      ensures outputSources == old(outputSources) + {id}
      ensures sourceCount == old(sourceCount) + 1
      ensures scheduled == old(scheduled)[id := Interval(old(nextStartTime), old(nextStartTime) + Duration(frames))]
      ensures nextStartTime == scheduled[id].stop
    {
      id := sourceCount;
      sourceCount := sourceCount + 1;
      scheduled := scheduled[id := Interval(nextStartTime, nextStartTime + Duration(frames))];
      nextStartTime := nextStartTime + Duration(frames);
      outputSources := outputSources + {id};
    }

    /** An interruption stops every queued source and rewinds the cursor. */
    method Interrupt()
      requires Valid()
      modifies this`outputSources, this`nextStartTime, this`stopped
      ensures Valid()
      ensures outputSources == {} && nextStartTime == 0.0
      ensures stopped == old(stopped) + old(outputSources)
    {
      stopped := stopped + outputSources;
      outputSources, nextStartTime := {}, 0.0;
    }

    /** A source that played to its end leaves the queue. */
    method SourceEnded(id: SourceId)
      requires Valid()
      modifies this`outputSources
      ensures Valid()
      ensures outputSources == old(outputSources) - {id}
    {
      outputSources := outputSources - {id};
    }

    /** `onmessage`, with the output clock read as `clock`: transcript
        first, then audio, then interruption; a fault ends the handler
        where it is raised. */
    method OnMessage(msg: ServerMessage, clock: real) returns (fault: Option<MessageFault>)
      requires Valid()
      modifies this`transcription, this`inputBuffer, this`outputBuffer, this`nextStartTime,
        this`outputSources, this`sourceCount, this`scheduled, this`stopped
      ensures Valid()
      ensures Transcript() == Step(old(Transcript()), msg.transcript)
      ensures var payload := AudioPayload(msg.firstPart);
        var plays := payload.Some? && old(outputContext);
        && (fault == Some(MissingParts) <==> msg.firstPart == Some(NoParts))
        && (fault == Some(MissingInlineData) <==> msg.firstPart == Some(NoInlineData))
        && (fault.Some? && fault.value.BadAudio? <==> plays && PayloadFrames(payload.value).Failure?)
        && (fault.Some? ==> outputSources == old(outputSources) && stopped == old(stopped))
        && (fault.Some? || !plays ==> scheduled == old(scheduled) && sourceCount == old(sourceCount))
        && (fault == Some(MissingParts) || fault == Some(MissingInlineData) ==> nextStartTime == old(nextStartTime))
        && (fault.Some? && fault.value.BadAudio? ==> nextStartTime == StartTime(old(nextStartTime), clock))
        && (fault.None? && plays ==>
              && old(sourceCount) in scheduled && old(sourceCount) !in old(outputSources)
              && sourceCount == old(sourceCount) + 1
              && scheduled == old(scheduled)[old(sourceCount) := scheduled[old(sourceCount)]]
              && [scheduled[old(sourceCount)]]
                 == Schedule(old(nextStartTime), [Arrival(PayloadFrames(payload.value).value, clock)]))
        && (fault.None? && msg.interrupted ==>
              && outputSources == {} && nextStartTime == 0.0
              && stopped == old(stopped) + old(outputSources) + (if plays then {old(sourceCount)} else {}))
        && (fault.None? && !msg.interrupted ==> stopped == old(stopped))
        && (fault.None? && !msg.interrupted && plays ==>
              && outputSources == old(outputSources) + {old(sourceCount)}
              && nextStartTime == Cursor(old(nextStartTime), [Arrival(PayloadFrames(payload.value).value, clock)]))
        && (fault.None? && !msg.interrupted && !plays ==>
              outputSources == old(outputSources) && nextStartTime == old(nextStartTime))
    {
      ApplyTranscription(msg.transcript);
      if msg.firstPart == Some(NoParts) {
        return Some(MissingParts);
      }
      if msg.firstPart == Some(NoInlineData) {
        return Some(MissingInlineData);
      }
      var payload := AudioPayload(msg.firstPart);
      if payload.Some? && outputContext {
        var audioFault := PlayAudio(payload.value, clock);
        if audioFault.Some? {
          return Some(BadAudio(audioFault.value));
        }
      }
      if msg.interrupted {
        Interrupt();
      }
      return None;
    }

    /** `onerror`: the event's message, or the fallback when it is empty. */
    method OnError(message: string)
      requires Valid()
      modifies this`state, this`error, this`session, this`mediaStream, this`scriptProcessor,
        this`inputContext, this`outputContext, this`outputSources, this`nextStartTime, this`released, this`stopped
      ensures Valid() && HoldsNothing()
      ensures state == Error && error == Some(if message == "" then UnknownError else message)
      ensures released == old(released) + old(Held())
      ensures stopped == old(stopped) + old(outputSources)
    {
      error := Some(if message == "" then UnknownError else message);
      state := Error;
      CleanUp();
    }

    /** `onclose` as written: it tests the state of the render that built
        the callbacks (`captured`), not the current one. */
    method OnCloseAsWritten(captured: SessionState)
      requires Valid()
      modifies this`state, this`session, this`mediaStream, this`scriptProcessor,
        this`inputContext, this`outputContext, this`outputSources, this`nextStartTime, this`released, this`stopped
      ensures Valid() && HoldsNothing()
      ensures released == old(released) + old(Held())
      ensures stopped == old(stopped) + old(outputSources)
      ensures state == (if captured != Idle && captured != Error then Idle else old(state))
    {
      CleanUp();
      if captured != Idle && captured != Error {
        state := Idle;
      }
    }

    /** `onclose` as intended: a close while connecting or active returns
        the session to idle; idle and error are kept. */
    method OnClose()
      requires Valid()
      modifies this`state, this`session, this`mediaStream, this`scriptProcessor,
        this`inputContext, this`outputContext, this`outputSources, this`nextStartTime, this`released, this`stopped
      ensures Valid() && HoldsNothing()
      ensures released == old(released) + old(Held())
      ensures stopped == old(stopped) + old(outputSources)
      ensures state == (if old(state) == Error then Error else Idle)
    {
      CleanUp();
      if state != Idle && state != Error {
        state := Idle;
      }
    }

    /** `handleStop`. */
    method Stop()
      requires Valid()
      modifies this`state, this`transcription, this`session, this`mediaStream, this`scriptProcessor,
        this`inputContext, this`outputContext, this`outputSources, this`nextStartTime, this`released, this`stopped
      ensures Valid() && HoldsNothing()
      ensures state == Idle && transcription == []
      ensures released == old(released) + old(Held())
      ensures stopped == old(stopped) + old(outputSources)
    {
      CleanUp();
      state := Idle;
      transcription := [];
    }

    /** `handleButtonClick` behind a button that is disabled while
        connecting. A session is only ever started from idle or error. */
    method ButtonClick()
      requires Valid()
      modifies this`state, this`error, this`transcription, this`inputBuffer, this`outputBuffer,
        this`session, this`mediaStream, this`scriptProcessor, this`inputContext, this`outputContext,
        this`outputSources, this`nextStartTime, this`released, this`stopped
      ensures Valid()
      ensures Click(old(state)) == StopSession ==>
        && state == Idle && transcription == [] && HoldsNothing()
        && released == old(released) + old(Held())
        && stopped == old(stopped) + old(outputSources)
        && error == old(error) && inputBuffer == old(inputBuffer) && outputBuffer == old(outputBuffer)
      ensures Click(old(state)) == Ignored ==> unchanged(this)
      ensures Click(old(state)) == StartSession ==>
        && (old(state) == Idle || old(state) == Error)
        && state == Connecting && error == None && Transcript() == Empty
        && released == old(released) && stopped == old(stopped)
        && session == old(session) && mediaStream == old(mediaStream) && scriptProcessor == old(scriptProcessor)
        && inputContext == old(inputContext) && outputContext == old(outputContext)
        && outputSources == old(outputSources) && nextStartTime == old(nextStartTime)
      ensures state == Connecting ==> old(state) != Active
    {
      match Click(state)
      case StopSession => Stop();
      case StartSession => Start();
      case Ignored =>
    }
  }

  /** A session opened from the idle screen, then closed by the server:
      `onclose` as written leaves it showing "active" although nothing is
      connected any more. */
  method ServerCloseAsWritten() returns (final: SessionState, connected: bool)
    ensures final == Active && !connected
  {
    var s := new Session();
    var captured := s.state;
    s.ButtonClick();
    s.MicrophoneGranted();
    s.OnOpen(true);
    s.OnCloseAsWritten(captured);
    final, connected := s.state, s.session;
  }

  /** The same run with the intended `onclose` ends idle. */
  method ServerClose() returns (final: SessionState, connected: bool)
    ensures final == Idle && !connected
  {
    var s := new Session();
    s.ButtonClick();
    s.MicrophoneGranted();
    s.OnOpen(true);
    s.OnClose();
    final, connected := s.state, s.session;
  }
}
