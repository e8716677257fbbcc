/**
 * The form-based Little Prince chat server: `POST /chat` appends the user's message and
 * the model's reply to the module-global history and truncates it, and `GET /` renders
 * the history as one paragraph per entry. The model's reply is an input: `None` stands
 * for the API call raising, which ends the request after the user turn was appended.
 * Only the chat container's content of the page is modelled.
 */
module LittlePrinceChat {
  import opened Wrappers
  import opened ChatHistory

  /** The paragraphs `read_root` writes, and its greeting for an empty history. */
  const PageMarkup: Markup := Markup(
    "<p><b>당신:</b> ",
    "<p><b>어린 왕자:</b> ",
    "</p>",
    "<p><i>" + Greeting + "</i></p>")

  /** The greeting line, shared with the streaming server's page. */
  const Greeting: string := "안녕하세요! B-612 소행성에서 온 어린 왕자입니다. 무엇이든 물어보세요!"

  lemma PageMarkupDistinguishable()
    ensures Distinguishable(PageMarkup)
  {
    var u, a, g := PageMarkup.userOpen, PageMarkup.assistantOpen, PageMarkup.greeting;
    assert u[4] == 'b' && a[4] == 'b' && g[4] == 'i';
  }

  /** The history after a successful `chat`: user turn, assistant turn, then truncation. */
  function ChatStep(h: seq<Message>, message: string, reply: string): seq<Message> {
    KeepLatest(h + [Message(UserRole, message), Message(AssistantRole, reply)])
  }

  /**
   * After `chat` the last two entries are the user's message and the reply, in that order,
   * and the history holds at most 20 entries.
   */
  lemma ChatStepEndsWithPair(h: seq<Message>, message: string, reply: string)
    ensures var h' := ChatStep(h, message, reply);
      && 2 <= |h'| <= MaxHistory
      && h'[|h'| - 2] == Message(UserRole, message)
      && h'[|h'| - 1] == Message(AssistantRole, reply)
  {
    var pair := [Message(UserRole, message), Message(AssistantRole, reply)];
    KeepLatestKeepsTail(h, pair);
    KeepLatestSuffix(h + pair);
  }

  /** Until the limit is reached, `chat` grows the history by exactly the two new entries. */
  lemma ChatStepGrowsByTwo(h: seq<Message>, message: string, reply: string)
    requires |h| + 2 <= MaxHistory
    ensures ChatStep(h, message, reply) == h + [Message(UserRole, message), Message(AssistantRole, reply)]
  {
    KeepLatestSuffix(h + [Message(UserRole, message), Message(AssistantRole, reply)]);
  }

  /** Past the limit, the oldest entries go and the 20 most recent stay, in order. */
  lemma ChatStepDropsOldest(h: seq<Message>, message: string, reply: string)
    requires |h| + 2 > MaxHistory
    ensures var h' := ChatStep(h, message, reply);
      && |h'| == MaxHistory
      && h'[..MaxHistory - 2] == h[|h| + 2 - MaxHistory..]
  {
    var full := h + [Message(UserRole, message), Message(AssistantRole, reply)];
    KeepLatestSuffix(full);
    assert ChatStep(h, message, reply)[..MaxHistory - 2] == full[|full| - MaxHistory..|full| - 2];
  }

  /**
   * Rendering the history after `chat` shows the old entries that stayed, then the two new
   * paragraphs. The entries that stay are the most recent ones: all of them until the limit
   * is reached, the latest 18 after that.
   */
  lemma ChatStepRendersPairLast(mk: Markup, h: seq<Message>, message: string, reply: string)
    ensures var h' := ChatStep(h, message, reply);
      && 2 <= |h'| <= |h| + 2
      && Render(mk, h') ==
           Render(mk, h[|h| - (|h'| - 2)..]) + Entry(mk, Message(UserRole, message)) + Entry(mk, Message(AssistantRole, reply))
      && |h'| - 2 == (if |h| + 2 <= MaxHistory then |h| else MaxHistory - 2)
  {
    var user, assistant := Message(UserRole, message), Message(AssistantRole, reply);
    var full := h + [user, assistant];
    var h' := ChatStep(h, message, reply);
    KeepLatestSuffix(full);
    var kept := h[|h| - (|h'| - 2)..];
    assert h' == (kept + [user]) + [assistant] by {
      assert full[|full| - |h'|..] == (kept + [user]) + [assistant];
    }
    RenderSnoc(mk, kept + [user], assistant);
    RenderSnoc(mk, kept, user);
  }

  class ChatServer {
    /** `conversation_history`. */
    var conversationHistory: seq<Message>

    constructor ()
      ensures conversationHistory == []
    {
      conversationHistory := [];
    }

    /** `read_root`: the chat container's content, built by appending one paragraph per entry. */
    method ReadRoot() returns (container: string)
      ensures container == Container(PageMarkup, conversationHistory)
      ensures conversationHistory == [] <==> container == PageMarkup.greeting
    {
      var chatHistory := RenderLoop(PageMarkup, conversationHistory);
      container := if chatHistory != "" then chatHistory
        else PageMarkup.greeting;
      PageMarkupDistinguishable();
      ContainerGreetingIff(PageMarkup, conversationHistory);
    }

    /**
     * `POST /chat` with form field `message`; `reply` is what the model answers, `None`
     * when the call raises. On success the page is rendered from the new history.
     */
    method Chat(message: string, reply: Option<string>) returns (page: Option<string>)
      modifies this
      ensures reply.None? ==> conversationHistory == old(conversationHistory) + [Message(UserRole, message)] && page == None
      ensures reply.Some? ==>
        conversationHistory == ChatStep(old(conversationHistory), message, reply.value)
        && page == Some(Container(PageMarkup, conversationHistory))
    {
      conversationHistory := conversationHistory + [Message("user", message)];
      if reply.None? {
        return None;
      }
      var assistantResponse := reply.value;
      conversationHistory := conversationHistory + [Message("assistant", assistantResponse)];
      assert conversationHistory == old(conversationHistory) + [Message(UserRole, message), Message(AssistantRole, assistantResponse)];
      if |conversationHistory| > 20 {
        conversationHistory := conversationHistory[|conversationHistory| - 20..];
      }
      assert conversationHistory == ChatStep(old(conversationHistory), message, assistantResponse);
      var container := ReadRoot();
      page := Some(container);
    }
  }
}
