/** The transcript half of LiveView's `onmessage` handler
    (components/views/LiveView.tsx lines 160-178): input and output
    transcription fragments collect in two buffers, and a turn-complete
    signal turns the trimmed buffers into `You` and `Assistant` entries of
    an append-only log. */
module LiveTranscript {
  import opened Wrappers
  import opened JsText

  datatype Speaker = You | Assistant

  datatype Turn = Turn(speaker: Speaker, text: string)

  /** The transcript-related fields of one server message. */
  datatype TranscriptFields = TranscriptFields(
    inputTranscription: Option<string>,
    outputTranscription: Option<string>,
    turnComplete: bool)

  /** The log and the two accumulation buffers. */
  datatype Transcript = Transcript(log: seq<Turn>, input: string, output: string)

  const Empty := Transcript([], "", "")

  function Fragment(text: Option<string>): string {
    if text.Some? then text.value else ""
  }

  /** The entries one turn boundary adds: `You` before `Assistant`, each
      only when its trimmed buffer is not empty. */
  function CompletedTurns(input: string, output: string): (turns: seq<Turn>)
    ensures |turns| == (if AllWhitespace(input) then 0 else 1) + (if AllWhitespace(output) then 0 else 1)
    ensures !AllWhitespace(input) ==> turns[0] == Turn(You, Trim(input)) && Trim(input) != ""
    ensures !AllWhitespace(output) ==> turns[|turns| - 1] == Turn(Assistant, Trim(output)) && Trim(output) != ""
  {
    var fullInput, fullOutput := Trim(input), Trim(output);
    var you := if fullInput != "" then [Turn(You, fullInput)] else [];
    var assistant := if fullOutput != "" then [Turn(Assistant, fullOutput)] else [];
    you + assistant
  }

  /** One message: its fragments are appended first, so fragments that
      arrive with `turnComplete` belong to the turn it closes. */
  function Step(t: Transcript, m: TranscriptFields): (r: Transcript)
    ensures t.log <= r.log
    ensures m.turnComplete ==> r.input == "" && r.output == ""
    ensures !m.turnComplete ==> r.log == t.log
  {
    var input := t.input + Fragment(m.inputTranscription);
    var output := t.output + Fragment(m.outputTranscription);
    if m.turnComplete then Transcript(t.log + CompletedTurns(input, output), "", "")
    else Transcript(t.log, input, output)
  }

  /** The transcript after a session has received `msgs` since its start. */
  function Aggregate(msgs: seq<TranscriptFields>): Transcript {
    if msgs == [] then Empty else Step(Aggregate(msgs[..|msgs| - 1]), msgs[|msgs| - 1])
  }

  /** Where the current turn began: just after the last message that
      carried `turnComplete`, or 0. */
  function TurnStart(msgs: seq<TranscriptFields>): (i: nat)
    ensures i <= |msgs|
    ensures forall k :: i <= k < |msgs| ==> !msgs[k].turnComplete
    ensures i > 0 ==> msgs[i - 1].turnComplete
  {
    if msgs == [] then 0
    else if msgs[|msgs| - 1].turnComplete then |msgs|
    else TurnStart(msgs[..|msgs| - 1])
  }

  function InputText(msgs: seq<TranscriptFields>): string {
    if msgs == [] then "" else InputText(msgs[..|msgs| - 1]) + Fragment(msgs[|msgs| - 1].inputTranscription)
  }

  function OutputText(msgs: seq<TranscriptFields>): string {
    if msgs == [] then "" else OutputText(msgs[..|msgs| - 1]) + Fragment(msgs[|msgs| - 1].outputTranscription)
  }

  /** Each buffer holds exactly the ordered concatenation of its channel's
      fragments received since the last turn boundary. */
  lemma {:induction false} BuffersHoldCurrentTurn(msgs: seq<TranscriptFields>)
    ensures Aggregate(msgs).input == InputText(msgs[TurnStart(msgs)..])
    ensures Aggregate(msgs).output == OutputText(msgs[TurnStart(msgs)..])
  {
    if msgs != [] {
      var init, last := msgs[..|msgs| - 1], msgs[|msgs| - 1];
      BuffersHoldCurrentTurn(init);
      if !last.turnComplete {
        var s := TurnStart(init);
        assert msgs[s..] == init[s..] + [last];
        TextOfAppend(init[s..], last);
      }
    }
  }

  lemma TextOfAppend(msgs: seq<TranscriptFields>, m: TranscriptFields)
    ensures InputText(msgs + [m]) == InputText(msgs) + Fragment(m.inputTranscription)
    ensures OutputText(msgs + [m]) == OutputText(msgs) + Fragment(m.outputTranscription)
  {
    assert (msgs + [m])[..|msgs|] == msgs;
  }

  /** A turn boundary appends the trimmed concatenations of the whole
      turn's fragments, those in the boundary message included. */
  lemma {:induction false} BoundaryAppendsTurn(msgs: seq<TranscriptFields>, m: TranscriptFields)
    requires m.turnComplete
    ensures var turn := msgs[TurnStart(msgs)..] + [m];
      Aggregate(msgs + [m]).log == Aggregate(msgs).log + CompletedTurns(InputText(turn), OutputText(turn))
  {
    var all := msgs + [m];
    assert all[..|all| - 1] == msgs;
    BuffersHoldCurrentTurn(msgs);
    var turn := msgs[TurnStart(msgs)..] + [m];
    assert turn[..|turn| - 1] == msgs[TurnStart(msgs)..];
  }

  /** The log is append-only: the log after any prefix of the messages is
      a prefix of the log after all of them. */
  lemma {:induction false} LogIsAppendOnly(msgs: seq<TranscriptFields>, n: nat)
    requires n <= |msgs|
    ensures Aggregate(msgs[..n]).log <= Aggregate(msgs).log
    decreases |msgs| - n
  {
    if n < |msgs| {
      var init := msgs[..|msgs| - 1];
      assert init[..n] == msgs[..n];
      LogIsAppendOnly(init, n);
    } else {
      assert msgs[..n] == msgs;
    }
  }

  /** Each message adds at most two entries to the log. */
  lemma {:induction false} LogGrowth(msgs: seq<TranscriptFields>)
    ensures |Aggregate(msgs).log| <= 2 * |msgs|
  {
    if msgs != [] {
      LogGrowth(msgs[..|msgs| - 1]);
    }
  }
}
