/**
 * What the two Little Prince servers share: the conversation history they keep, its
 * truncation to the latest 20 entries, and the rendering of the history into the chat
 * container of the page, one element per entry, or a greeting when there is none.
 */
module ChatHistory {

  /** One `{"role": ..., "content": ...}` entry of `conversation_history`. */
  datatype Message = Message(role: string, content: string)

  const UserRole: string := "user"
  const AssistantRole: string := "assistant"

  /** The number of entries kept after a request. */
  const MaxHistory: nat := 20

  /** `if len(h) > 20: h = h[-20:]`. */
  function KeepLatest(h: seq<Message>): seq<Message> {
    if |h| > MaxHistory then h[|h| - MaxHistory..] else h
  }

  /**
   * Truncation keeps exactly the most recent entries, in order: never more than 20, all of
   * them when there are at most 20, and a suffix of the history in every case.
   */
  lemma KeepLatestSuffix(h: seq<Message>)
    ensures |KeepLatest(h)| == if |h| <= MaxHistory then |h| else MaxHistory
    ensures KeepLatest(h) == h[|h| - |KeepLatest(h)|..]
    ensures |h| <= MaxHistory ==> KeepLatest(h) == h
  {
  }

  /** Truncating twice is truncating once. */
  lemma KeepLatestIdempotent(h: seq<Message>)
    ensures KeepLatest(KeepLatest(h)) == KeepLatest(h)
  {
  }

  /** Truncation commutes with appending when the appended part fits: the tail is never cut. */
  lemma KeepLatestKeepsTail(h: seq<Message>, tail: seq<Message>)
    requires |tail| <= MaxHistory
    ensures |KeepLatest(h + tail)| >= |tail|
    ensures KeepLatest(h + tail)[|KeepLatest(h + tail)| - |tail|..] == tail
  {
    var r := KeepLatest(h + tail);
    KeepLatestSuffix(h + tail);
    assert r[|r| - |tail|..] == (h + tail)[|h + tail| - |tail|..];
  }

  // ------------------------------------------------------------------
  // Rendering
  // ------------------------------------------------------------------

  /**
   * The markup of one page: the opening text of a user entry and of any other entry, the
   * closing text of an entry, and the greeting shown for an empty history.
   */
  datatype Markup = Markup(userOpen: string, assistantOpen: string, close: string, greeting: string)

  /** One entry: labelled as the user's for role `user`, as the Little Prince's for any other role. */
  function Entry(mk: Markup, m: Message): string {
    if m.role == UserRole then mk.userOpen + m.content + mk.close
    else mk.assistantOpen + m.content + mk.close
  }

  /** The `chat_history` string after the rendering loop: the entries in order. */
  function Render(mk: Markup, h: seq<Message>): string
    decreases |h|
  {
    if h == [] then "" else Render(mk, h[..|h| - 1]) + Entry(mk, h[|h| - 1])
  }

  /** The loop of `read_root`: the entries' markup appended one message at a time, in order. */
  method RenderLoop(mk: Markup, h: seq<Message>) returns (chatHistory: string)
    ensures chatHistory == Render(mk, h)
  {
    chatHistory := "";
    for i := 0 to |h|
      invariant chatHistory == Render(mk, h[..i])
    {
      var msg := h[i];
      if msg.role == "user" {
        chatHistory := chatHistory + (mk.userOpen + msg.content + mk.close);
      } else {
        chatHistory := chatHistory + (mk.assistantOpen + msg.content + mk.close);
      }
      RenderStep(mk, h, i);
    }
    assert h[..|h|] == h;
  }

  /** The rendering of the first `i + 1` entries extends that of the first `i` by entry `i`. */
  lemma RenderStep(mk: Markup, h: seq<Message>, i: nat)
    requires i < |h|
    ensures Render(mk, h[..i + 1]) == Render(mk, h[..i]) + Entry(mk, h[i])
  {
    assert h[..i + 1][..i] == h[..i];
  }

  /** The chat container's content: the rendered history, or the greeting when that is empty. */
  function Container(mk: Markup, h: seq<Message>): string {
    var chatHistory := Render(mk, h);
    if chatHistory != "" then chatHistory else mk.greeting
  }

  /** The opening of every entry is non-empty and is not how the greeting starts. */
  predicate Distinguishable(mk: Markup) {
    && mk.userOpen != [] && mk.assistantOpen != []
    && !(mk.userOpen <= mk.greeting) && !(mk.assistantOpen <= mk.greeting)
  }

  /** Rendering distributes over concatenation of histories. */
  lemma {:induction false} RenderAppend(mk: Markup, a: seq<Message>, b: seq<Message>)
    ensures Render(mk, a + b) == Render(mk, a) + Render(mk, b)
    decreases |b|
  {
    if b == [] {
      assert a + b == a;
    } else {
      RenderAppend(mk, a, b[..|b| - 1]);
      RenderAppendStep(mk, a, b);
    }
  }

  /** The step of `RenderAppend`: the claim for `b` from the claim for `b` without its last entry. */
  lemma RenderAppendStep(mk: Markup, a: seq<Message>, b: seq<Message>)
    requires b != []
    requires Render(mk, a + b[..|b| - 1]) == Render(mk, a) + Render(mk, b[..|b| - 1])
    ensures Render(mk, a + b) == Render(mk, a) + Render(mk, b)
  {
    var b', last := b[..|b| - 1], b[|b| - 1];
    SplitLast(b);
    AppendSnoc(a, b', last);
    RenderSnoc(mk, a + b', last);
    RenderSnoc(mk, b', last);
    Associative(Render(mk, a), Render(mk, b'), Entry(mk, last));
  }

  /** A non-empty sequence is its prefix followed by its last element. */
  lemma SplitLast<T>(s: seq<T>)
    requires s != []
    ensures s == s[..|s| - 1] + [s[|s| - 1]]
  {
  }

  /** Splitting a sequence at an index, and the first element and rest of the second part. */
  lemma SplitAt<T>(s: seq<T>, i: nat)
    requires i < |s|
    ensures s == s[..i] + s[i..]
    ensures s[i..][0] == s[i] && s[i..][1..] == s[i + 1..]
  {
  }

  /** Appending `b + [x]` appends `b`, then `x`. */
  lemma AppendSnoc<T>(a: seq<T>, b: seq<T>, x: T)
    ensures a + (b + [x]) == (a + b) + [x]
  {
  }

  /** Concatenation of strings is associative. */
  lemma Associative(x: string, y: string, z: string)
    ensures (x + y) + z == x + (y + z)
  {
  }

  /** Appending an entry appends its rendering: the rendering loop's step. */
  lemma RenderSnoc(mk: Markup, h: seq<Message>, m: Message)
    ensures Render(mk, h + [m]) == Render(mk, h) + Entry(mk, m)
  {
    assert (h + [m])[..|h|] == h;
  }

  /** A non-empty history renders as its first entry followed by the rest. */
  lemma RenderFirst(mk: Markup, h: seq<Message>)
    requires h != []
    ensures Render(mk, h) == Entry(mk, h[0]) + Render(mk, h[1..])
  {
    var first := [h[0]];
    assert Render(mk, first) == Entry(mk, h[0]) by {
      assert first[..|first| - 1] == [];
    }
    calc {
      Render(mk, h);
      { assert h == first + h[1..]; }
      Render(mk, first + h[1..]);
      { RenderAppend(mk, first, h[1..]); }
      Render(mk, first) + Render(mk, h[1..]);
    }
  }

  /** Entry `i` sits between the rendering of the entries before it and of those after it. */
  lemma RenderAt(mk: Markup, h: seq<Message>, i: nat)
    requires i < |h|
    ensures Render(mk, h) == Render(mk, h[..i]) + Entry(mk, h[i]) + Render(mk, h[i + 1..])
  {
    SplitAt(h, i);
    RenderAppend(mk, h[..i], h[i..]);
    RenderFirst(mk, h[i..]);
  }

  /** The greeting is shown exactly when the history is empty. */
  lemma ContainerGreetingIff(mk: Markup, h: seq<Message>)
    requires Distinguishable(mk)
    ensures Container(mk, h) == mk.greeting <==> h == []
    ensures h != [] ==> Container(mk, h) == Render(mk, h)
  {
    if h != [] {
      RenderFirst(mk, h);
      var open := if h[0].role == UserRole then mk.userOpen else mk.assistantOpen;
      var r := Render(mk, h);
      assert r[..|open|] == open;
      assert r != "";
    }
  }
}
