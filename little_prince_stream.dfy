/**
 * The streaming Little Prince chat server: `POST /stream` appends the user's message to
 * the module-global history and truncates it; the response generator then sends one
 * server-sent event per streamed chunk and a final `done` event, and appends the
 * assistant turn once the stream is exhausted. `GET /` renders the history as one `div`
 * per entry. The chunks the model streams are an input, and the generator is consumed
 * to its end.
 */
module LittlePrinceStream {
  import opened Wrappers
  import opened ChatHistory
  import opened PyJson

  /** The `div`s `read_root` writes, and its greeting for an empty history. */
  const PageMarkup: Markup := Markup(
    "<div class=\"message user-message\"><b>당신:</b> ",
    "<div class=\"message assistant-message\"><b>어린 왕자:</b> ",
    "</div>",
    "<div class=\"message assistant-message\"><i>" + Greeting + "</i></div>")

  const Greeting: string := "안녕하세요! B-612 소행성에서 온 어린 왕자입니다. 무엇이든 물어보세요!"

  lemma PageMarkupDistinguishable()
    ensures Distinguishable(PageMarkup)
  {
    var u, a, g := PageMarkup.userOpen, PageMarkup.assistantOpen, PageMarkup.greeting;
    assert u[20] == 'u' && g[20] == 'a';
    assert a[40] == 'b' && g[40] == 'i';
  }

  // ------------------------------------------------------------------
  // Server-sent events
  // ------------------------------------------------------------------

  /** The two objects the generator serialises: `{'text': t}` and `{'done': True, 'full_text': t}`. */
  datatype Event = TextChunk(text: string) | Done(fullText: string)

  /** What `json.dumps` writes before the string value of each object. */
  const TextKey: string := "{\"text\": "
  const DoneKey: string := "{\"done\": true, \"full_text\": "

  /** `json.dumps` of an event, with its default separators. */
  function Dumps(e: Event): string {
    match e
    case TextChunk(t) => TextKey + EncodeString(t) + "}"
    case Done(t) => DoneKey + EncodeString(t) + "}"
  }

  /** `f"data: {json.dumps(...)}\n\n"`. */
  function Frame(e: Event): string {
    "data: " + Dumps(e) + "\n\n"
  }

  /** `full_response` after the loop: the chunks in order. */
  function Concat(chunks: seq<string>): string
    decreases |chunks|
  {
    if chunks == [] then "" else Concat(chunks[..|chunks| - 1]) + chunks[|chunks| - 1]
  }

  /** The frames the loop yields, one per chunk, in order. */
  function TextFrames(chunks: seq<string>): seq<string> {
    seq(|chunks|, i requires 0 <= i < |chunks| => Frame(TextChunk(chunks[i])))
  }

  /** Every frame the generator yields for `chunks`: one per chunk, then the `done` frame. */
  function StreamFrames(chunks: seq<string>): seq<string> {
    TextFrames(chunks) + [Frame(Done(Concat(chunks)))]
  }

  /** One more chunk adds its frame at the end. */
  lemma TextFramesSnoc(chunks: seq<string>, t: string)
    ensures TextFrames(chunks + [t]) == TextFrames(chunks) + [Frame(TextChunk(t))]
  {
    var a, b := TextFrames(chunks + [t]), TextFrames(chunks) + [Frame(TextChunk(t))];
    assert |a| == |b|;
    forall i | 0 <= i < |a| ensures a[i] == b[i] {
      assert (chunks + [t])[i] == if i < |chunks| then chunks[i] else t;
    }
  }

  /** A frame's text up to the opening quote of its string value, and from the closing quote on. */
  const TextPrefix: string := "data: " + TextKey + "\""
  const DonePrefix: string := "data: " + DoneKey + "\""
  const TextSuffix: string := "\"}\n\n"

  /** How a client reads a frame of one of the two shapes back into the event. */
  function ParseFrame(f: string): Option<Event> {
    if |f| < |TextSuffix| || f[|f| - |TextSuffix|..] != TextSuffix then None
    else
      var body := f[..|f| - |TextSuffix|];
      if TextPrefix <= body then
        match Unescape(body[|TextPrefix|..])
        case Some(t) => Some(TextChunk(t))
        case None => None
      else if DonePrefix <= body then
        match Unescape(body[|DonePrefix|..])
        case Some(t) => Some(Done(t))
        case None => None
      else None
  }

  /** The text an event carries. */
  function Payload(e: Event): string {
    if e.TextChunk? then e.text else e.fullText
  }

  /** A frame is its shape's prefix, the escaped payload, and the closing quote, brace and blank line. */
  lemma FrameShape(e: Event)
    ensures Frame(e) == (if e.TextChunk? then TextPrefix else DonePrefix) + Escape(Payload(e)) + TextSuffix
  {
    FramedAs(if e.TextChunk? then TextKey else DoneKey, Payload(e));
  }

  lemma FramedAs(key: string, x: string)
    ensures "data: " + (key + EncodeString(x) + "}") + "\n\n" == "data: " + key + "\"" + Escape(x) + TextSuffix
  {
  }

  /** Each frame reads back as the event it was written from. */
  lemma FrameRoundTrip(e: Event)
    ensures ParseFrame(Frame(e)) == Some(e)
  {
    var f := Frame(e);
    UnescapeEscape(Payload(e));
    FrameShape(e);
    var body := f[..|f| - |TextSuffix|];
    if e.TextChunk? {
      assert body == TextPrefix + Escape(e.text);
      assert body[|TextPrefix|..] == Escape(e.text);
    } else {
      assert body == DonePrefix + Escape(e.fullText);
      assert body[|DonePrefix|..] == Escape(e.fullText);
      assert !(TextPrefix <= body) by {
        assert TextPrefix[8] != DonePrefix[8];
      }
    }
  }

  /**
   * Each frame is a single `data: ` line followed by a blank line: nothing in the JSON
   * breaks the line, so a client splitting on line breaks sees the whole event.
   */
  lemma FrameIsOneLine(e: Event)
    ensures var f := Frame(e);
      && |f| >= 8 && f[|f| - 2..] == "\n\n" && f[..6] == "data: "
      && forall i :: 0 <= i < |f| - 2 ==> f[i] != '\n'
  {
    var t := Payload(e);
    EscapeOneLine(t);
    FrameShape(e);
    if e.TextChunk? {
      assert '\n' !in TextKey;
      OneLineFrame(TextKey, Escape(t));
    } else {
      assert '\n' !in DoneKey;
      OneLineFrame(DoneKey, Escape(t));
    }
  }

  /** The escaped text holds no line break. */
  lemma EscapeOneLine(t: string)
    ensures '\n' !in Escape(t)
  {
    EscapePrintable(t);
    forall i | 0 <= i < |Escape(t)| ensures Escape(t)[i] != '\n' {
      assert Printable(Escape(t)[i]);
    }
  }

  lemma OneLineFrame(key: string, x: string)
    requires '\n' !in key && '\n' !in x
    ensures var f := "data: " + key + "\"" + x + TextSuffix;
      && |f| >= 8 && f[|f| - 2..] == "\n\n" && f[..6] == "data: "
      && forall i :: 0 <= i < |f| - 2 ==> f[i] != '\n'
  {
    var f := "data: " + key + "\"" + x + TextSuffix;
    var n := 7 + |key|;
    forall i | 0 <= i < |f| - 2 ensures f[i] != '\n' {
      if i < 6 {
        assert f[i] == "data: "[i];
      } else if i < n - 1 {
        assert f[i] == key[i - 6];
      } else if i < n {
        assert f[i] == '"';
      } else if i < n + |x| {
        assert f[i] == x[i - n];
      } else {
        assert f[i] == TextSuffix[i - n - |x|];
      }
    }
    assert f[|f| - 2..] == "\n\n";
    assert f[..6] == "data: ";
  }

  lemma ConcatSnoc(chunks: seq<string>, c: string)
    ensures Concat(chunks + [c]) == Concat(chunks) + c
  {
    assert (chunks + [c])[..|chunks|] == chunks;
  }

  /**
   * The stream carries the reply in order: the frames parse as one text event per chunk
   * and a final `done` event whose `full_text` is their concatenation.
   */
  lemma StreamFramesParse(chunks: seq<string>)
    ensures var frames := StreamFrames(chunks);
      && |frames| == |chunks| + 1
      && (forall i :: 0 <= i < |chunks| ==> ParseFrame(frames[i]) == Some(TextChunk(chunks[i])))
      && ParseFrame(frames[|chunks|]) == Some(Done(Concat(chunks)))
  {
    forall i | 0 <= i < |chunks| ensures ParseFrame(StreamFrames(chunks)[i]) == Some(TextChunk(chunks[i])) {
      assert StreamFrames(chunks)[i] == TextFrames(chunks)[i];
      FrameRoundTrip(TextChunk(chunks[i]));
    }
    FrameRoundTrip(Done(Concat(chunks)));
  }

  // ------------------------------------------------------------------
  // History
  // ------------------------------------------------------------------

  /** `body.get("message", "")`. */
  function MessageField(body: map<string, string>): string {
    if "message" in body then body["message"] else ""
  }

  /** The history `stream_chat` leaves before streaming: user turn, then truncation. */
  function StreamChatStep(h: seq<Message>, body: map<string, string>): seq<Message> {
    KeepLatest(h + [Message(UserRole, MessageField(body))])
  }

  /** The history once the stream is exhausted: the assistant turn is appended, untruncated. */
  function RequestStep(h: seq<Message>, body: map<string, string>, chunks: seq<string>): seq<Message> {
    StreamChatStep(h, body) + [Message(AssistantRole, Concat(chunks))]
  }

  /**
   * Before streaming the history holds at most 20 entries and ends with the user's message,
   * `""` when the body has none. This is the history sent to the model.
   */
  lemma StreamChatStepBounded(h: seq<Message>, body: map<string, string>)
    ensures var h' := StreamChatStep(h, body);
      && 1 <= |h'| <= MaxHistory
      && h'[|h'| - 1] == Message(UserRole, MessageField(body))
      && ("message" !in body ==> h'[|h'| - 1].content == "")
  {
    KeepLatestKeepsTail(h, [Message(UserRole, MessageField(body))]);
    KeepLatestSuffix(h + [Message(UserRole, MessageField(body))]);
  }

  /**
   * Because the assistant turn is appended after truncation, a request that does not
   * overlap another leaves at most 21 entries, and exactly 21 once the history had
   * reached 19: the stored history exceeds the 20-entry limit between requests.
   */
  lemma RequestStepLength(h: seq<Message>, body: map<string, string>, chunks: seq<string>)
    ensures |RequestStep(h, body, chunks)| == if |h| + 2 <= MaxHistory + 1 then |h| + 2 else MaxHistory + 1
    ensures |RequestStep(h, body, chunks)| <= MaxHistory + 1
    ensures |h| >= MaxHistory - 1 ==> |RequestStep(h, body, chunks)| == MaxHistory + 1
    ensures RequestStep(h, body, chunks)[|RequestStep(h, body, chunks)| - 1] == Message(AssistantRole, Concat(chunks))
  {
    KeepLatestSuffix(h + [Message(UserRole, MessageField(body))]);
  }

  class StreamServer {
    /** `conversation_history`. */
    var conversationHistory: seq<Message>

    constructor ()
      ensures conversationHistory == []
    {
      conversationHistory := [];
    }

    /** `POST /stream` with JSON object `body`, up to returning the streaming response. */
    method StreamChat(body: map<string, string>)
      modifies this
      ensures conversationHistory == StreamChatStep(old(conversationHistory), body)
    {
      var message := if "message" in body then body["message"] else "";
      conversationHistory := conversationHistory + [Message("user", message)];
      if |conversationHistory| > 20 {
        conversationHistory := conversationHistory[|conversationHistory| - 20..];
      }
    }

    /**
     * `chatbot_stream_response` run to its end over the chunks the model streams: the
     * frames it yields, in order, and the assistant turn it appends.
     */
    method ChatbotStreamResponse(chunks: seq<string>) returns (frames: seq<string>)
      modifies this
      ensures frames == StreamFrames(chunks)
      ensures conversationHistory == old(conversationHistory) + [Message(AssistantRole, Concat(chunks))]
    {
      var fullResponse := "";
      frames := [];
      for i := 0 to |chunks|
        invariant fullResponse == Concat(chunks[..i])
        invariant frames == TextFrames(chunks[..i])
        invariant conversationHistory == old(conversationHistory)
      {
        var text := chunks[i];
        ConcatSnoc(chunks[..i], text);
        assert chunks[..i + 1] == chunks[..i] + [text];
        TextFramesSnoc(chunks[..i], text);
        fullResponse := fullResponse + text;
        frames := frames + [Frame(TextChunk(text))];
      }
      assert chunks[..|chunks|] == chunks;
      frames := frames + [Frame(Done(fullResponse))];
      conversationHistory := conversationHistory + [Message("assistant", fullResponse)];
    }

    /** `read_root`: the chat container's content, built by appending one `div` per entry. */
    method ReadRoot() returns (container: string)
      ensures container == Container(PageMarkup, conversationHistory)
      ensures conversationHistory == [] <==> container == PageMarkup.greeting
    {
      var chatHistory := RenderLoop(PageMarkup, conversationHistory);
      container := if chatHistory != "" then chatHistory
        else PageMarkup.greeting;
      PageMarkupDistinguishable();
      ContainerGreetingIff(PageMarkup, conversationHistory);
    }
  }
}
