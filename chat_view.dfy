/** The chat view's send handler (components/views/ChatView.tsx lines
    33-68): the user's message is appended, the model's reply streams into
    a placeholder message chunk by chunk, and a failure removes the
    placeholder when nothing arrived.

    The awaited steps of `handleSend` become separate events: the stream
    opens, a chunk arrives, the stream fails, the stream ends. */
module ChatView {
  import opened Wrappers
  import opened JsText

  datatype Role = User | Model

  datatype Message = Message(role: Role, content: string)

  const UnknownError: string := "An unknown error occurred."

  function Concat(chunks: seq<string>): string {
    if chunks == [] then "" else Concat(chunks[..|chunks| - 1]) + chunks[|chunks| - 1]
  }

  /** What one exchange leaves after the earlier history: the user's
      message, then the model's message unless the stream never opened, or
      failed before any text arrived. */
  function Exchange(sent: string, began: bool, chunks: seq<string>, failed: bool): seq<Message> {
    [Message(User, sent)]
    + (if !began || (failed && Concat(chunks) == "") then [] else [Message(Model, Concat(chunks))])
  }

  /** An exchange adds the message exactly as typed and at most one reply;
      a failed exchange never leaves an empty reply behind, and a reply
      holds every chunk in order. */
  lemma ExchangeShape(sent: string, began: bool, chunks: seq<string>, failed: bool)
    ensures var e := Exchange(sent, began, chunks, failed);
      && 1 <= |e| <= 2
      && e[0] == Message(User, sent)
      && (|e| == 2 <==> began && !(failed && Concat(chunks) == ""))
      && (|e| == 2 ==> e[1] == Message(Model, Concat(chunks)))
      && (failed && |e| == 2 ==> e[1].content != "")
  {
  }

  /** The reply text grows by each chunk: every earlier reply is a prefix
      of the later one. */
  lemma {:induction false} ConcatGrows(chunks: seq<string>, n: nat)
    requires n <= |chunks|
    ensures Concat(chunks[..n]) <= Concat(chunks)
    decreases |chunks| - n
  {
    if n < |chunks| {
      var init := chunks[..|chunks| - 1];
      assert init[..n] == chunks[..n];
      ConcatGrows(init, n);
    } else {
      assert chunks[..n] == chunks;
    }
  }

  /** The updater of one streamed chunk: the last message's content
      becomes the text so far. */
  function ReplaceLastContent(messages: seq<Message>, content: string): (r: seq<Message>)
    requires |messages| > 0
    ensures |r| == |messages| && r[..|r| - 1] == messages[..|messages| - 1]
    ensures r[|r| - 1] == Message(messages[|messages| - 1].role, content)
  {
    messages[..|messages| - 1] + [Message(messages[|messages| - 1].role, content)]
  }

  /** The updater of a failure: an empty reply from the model is removed. */
  function DropEmptyReply(messages: seq<Message>): (r: seq<Message>)
    ensures r <= messages && |messages| - 1 <= |r|
    ensures |r| < |messages| <==> messages != [] && messages[|messages| - 1] == Message(Model, "")
  {
    if |messages| > 0 && messages[|messages| - 1] == Message(Model, "") then messages[..|messages| - 1]
    else messages
  }

  /** Where `handleSend` is: not sending, waiting for the stream, or
      reading it. */
  datatype Phase = Ready | Awaiting | Streaming

  class Chat {
    var chatReady: bool
    var messages: seq<Message>
    var input: string
    var isLoading: bool
    var error: Option<string>
    var phase: Phase
    var modelResponse: string

    /** The history before the current exchange, what was sent, and the
        chunks received so far. */
    ghost var history: seq<Message>
    ghost var sent: string
    ghost var chunks: seq<string>

    ghost predicate Valid()
      reads this
    {
      && (isLoading <==> phase != Ready)
      && (phase == Awaiting ==> messages == history + Exchange(sent, false, chunks, false) && chunks == [])
      && (phase == Streaming ==> messages == history + Exchange(sent, true, chunks, false))
      && modelResponse == Concat(chunks)
    }

    constructor ()
      ensures Valid() && !chatReady && messages == [] && input == "" && !isLoading && error == None
    {
      chatReady, messages, input, isLoading, error := false, [], "", false, None;
      phase, modelResponse := Ready, "";
      history, sent, chunks := [], "", [];
    }

    /** The mount effect has created the chat session. */
    method ChatCreated()
      modifies this`chatReady
      ensures chatReady
    {
      chatReady := true;
    }

    /** Typing into the input. */
    method SetInput(text: string)
      modifies this`input
      ensures input == text
    {
      input := text;
    }

    /** `handleSend`, up to the request. Blank input, a chat not yet
        created, or a send already in flight (the controls are disabled)
        change nothing. */
    method Send()
      requires Valid()
      modifies this`messages, this`input, this`isLoading, this`error, this`phase, this`modelResponse,
        this`history, this`sent, this`chunks
      ensures Valid()
      ensures AllWhitespace(old(input)) || !chatReady || old(isLoading) ==> unchanged(this)
      ensures !(AllWhitespace(old(input)) || !chatReady || old(isLoading)) ==>
        && messages == old(messages) + [Message(User, old(input))]
        && input == "" && isLoading && error == None && phase == Awaiting
        && history == old(messages) && sent == old(input)
    {
      // `!input.trim()`: the trimmed input is empty exactly when it is all
      // white space (the contract of `Trim`).
      var blank := AllWhitespace(input);
      if blank || !chatReady || isLoading {
        return;
      }
      BeginExchange();
    }

    /** The part of `handleSend` before the request: the message as typed
        is appended, the input cleared, the error reset. */
    method BeginExchange()
      requires Valid() && !isLoading
      modifies this`messages, this`input, this`isLoading, this`error, this`phase, this`modelResponse,
        this`history, this`sent, this`chunks
      ensures Valid()
      ensures messages == old(messages) + [Message(User, old(input))]
      ensures input == "" && isLoading && error == None && phase == Awaiting
      ensures history == old(messages) && sent == old(input)
    {
      var userMessage := Message(User, input);
      assert Exchange(input, false, [], false) == [userMessage];
      history, sent, chunks := messages, input, [];
      messages, input, isLoading, error, phase, modelResponse := messages + [userMessage], "", true, None, Awaiting, "";
    }

    /** The stream is open: an empty reply is appended. */
    method StreamOpened()
      requires Valid() && phase == Awaiting
      modifies this`messages, this`phase, this`modelResponse
      ensures Valid() && phase == Streaming
      ensures messages == old(messages) + [Message(Model, "")]
    {
      modelResponse := "";
      messages := messages + [Message(Model, "")];
      phase := Streaming;
    }

    /** A chunk arrives: the reply shows all the text received so far. */
    method ChunkReceived(text: string)
      requires Valid() && phase == Streaming
      modifies this`messages, this`modelResponse, this`chunks
      ensures Valid() && phase == Streaming
      ensures chunks == old(chunks) + [text]
      ensures messages == history + Exchange(sent, true, chunks, false)
    {
      chunks := chunks + [text];
      assert chunks[..|chunks| - 1] == old(chunks);
      modelResponse := modelResponse + text;
      messages := ReplaceLastContent(messages, modelResponse);
    }

    /** The request or the stream fails: the error is shown, an empty reply
        is dropped, loading ends. */
    method StreamFailed(message: Option<string>)
      requires Valid() && phase != Ready
      modifies this`messages, this`isLoading, this`error, this`phase
      ensures Valid() && phase == Ready && !isLoading
      ensures error == Some(if message.Some? then message.value else UnknownError)
      ensures messages == history + Exchange(sent, old(phase) == Streaming, chunks, true)
    {
      error := Some(if message.Some? then message.value else UnknownError);
      messages := DropEmptyReply(messages);
      isLoading := false;
      phase := Ready;
    }

    /** The stream ends: loading ends and the reply stays as received. */
    method StreamFinished()
      requires Valid() && phase == Streaming
      modifies this`isLoading, this`phase
      ensures Valid() && phase == Ready && !isLoading
      ensures messages == history + Exchange(sent, true, chunks, false)
    {
      isLoading := false;
      phase := Ready;
    }
  }
}
