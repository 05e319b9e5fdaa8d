/** The chat widget's message list: a greeting to start with, one user
    message and one assistant reply per exchange, and a reset. Each exchange
    is one atomic transition; what the relay request to the chat endpoint
    produced is an input. */
module ChatWidget {
  import opened Wrappers
  import opened Text
  import opened Http
  import Content
  import ChatRoute

  datatype Role = User | Assistant

  /** What a message says: a text received from the chat endpoint, or one
      of the widget's own fixed texts, named rather than spelled out. */
  datatype Words = Said(text: string) | Greeting | Fallback | Apology

  /** The characters a message's text stands for. */
  function Show(t: Words): string {
    match t
    case Said(text) => text
    case Greeting => Content.Greeting
    case Fallback => Content.FallbackText
    case Apology => Content.ErrorApology
  }

  /** A chat message. `None` content is JavaScript `undefined`, which a 2xx
      reply without a `response` field resolves to. */
  datatype Message = Message(role: Role, content: Option<Words>)

  datatype State = State(messages: seq<Message>, input: string, isTyping: bool)

  const InitialMessages: seq<Message> := [Message(Assistant, Some(Greeting))]

  /** The state on first render. */
  const Initial: State := State(InitialMessages, "", false)

  /** What `fetch('/api/chat', ...)` produced: a network failure, or a
      status with a body that is not JSON, is JSON `null` (reading
      `data.response` from it throws), or is a JSON payload. */
  datatype ReplyBody = NotJson | JsonNull | Json(payload: Payload)
  datatype Relay = NetworkError | Reply(status: int, body: ReplyBody)

  /** How the awaited reply promise settles. */
  datatype Settled = Resolved(content: Option<Words>) | Rejected

  /** `generatePersonalizedResponse`: the reply's `response` field on a 2xx
      JSON reply, and the fallback text on every failure, including the
      `TypeError` of reading a field of `null`. */
  function Generate(relay: Relay): (s: Settled)
    ensures s.Resolved?
    ensures s.content.None? <==> relay.Reply? && IsOk(relay.status) && relay.body.Json? && !relay.body.payload.Answer?
    ensures s.content == Some(Fallback) <==>
              relay.NetworkError? || !IsOk(relay.status) || relay.body.NotJson? || relay.body.JsonNull?
    ensures s.content.Some? && s.content.value.Said? <==>
              relay.Reply? && IsOk(relay.status) && relay.body.Json? && relay.body.payload.Answer?
    ensures s.content.Some? && s.content.value.Said? ==> relay.body.payload.response == s.content.value.text
  {
    match relay
    case NetworkError => Resolved(Some(Fallback))
    case Reply(status, body) =>
      if !IsOk(status) then Resolved(Some(Fallback))
      else match body
        case NotJson => Resolved(Some(Fallback))
        case JsonNull => Resolved(Some(Fallback))
        case Json(payload) => Resolved(if payload.Answer? then Some(Said(payload.response)) else None)
  }

  /** The user message appended when a question is asked. */
  function Ask(st: State, question: string): (t: State)
    ensures |t.messages| == |st.messages| + 1
    ensures t.messages[..|st.messages|] == st.messages
    ensures t.messages[|st.messages|..] == [Message(User, Some(Said(question)))]
    ensures t.isTyping && t.input == st.input
  {
    st.(messages := st.messages + [Message(User, Some(Said(question)))], isTyping := true)
  }

  /** The awaited reply arrives: an assistant message is appended (the
      apology if the promise rejected) and typing stops. */
  function Settle(st: State, settled: Settled): (t: State)
    ensures |t.messages| == |st.messages| + 1
    ensures t.messages[..|st.messages|] == st.messages
    ensures t.messages[|st.messages|].role == Assistant
    ensures settled.Resolved? ==> t.messages[|st.messages|].content == settled.content
    ensures settled.Rejected? ==> t.messages[|st.messages|].content == Some(Apology)
    ensures !t.isTyping && t.input == st.input
  {
    var content := if settled.Resolved? then settled.content else Some(Apology);
    st.(messages := st.messages + [Message(Assistant, content)], isTyping := false)
  }

  /** `handleSubmit`: a blank input is ignored; otherwise the untrimmed input
      is sent, the input box is cleared, and the reply is appended. */
  function Submit(st: State, relay: Relay): (t: State)
    ensures Trim(st.input) == "" ==> t == st
    ensures Trim(st.input) != "" ==>
              && t.messages == st.messages + [Message(User, Some(Said(st.input))), Message(Assistant, Generate(relay).content)]
              && t.input == "" && !t.isTyping
  {
    if Trim(st.input) == "" then st
    else Settle(Ask(st, st.input).(input := ""), Generate(relay))
  }

  /** Blank input (empty or whitespace only) changes nothing. */
  lemma SubmitBlank(st: State, relay: Relay)
    requires AllSpace(st.input)
    ensures Submit(st, relay) == st
  {
    TrimEmptyIffAllSpace(st.input);
  }

  /** Any other input appends exactly the user's message and one reply,
      clears the input and ends with typing off. */
  lemma SubmitExchange(st: State, relay: Relay)
    requires !AllSpace(st.input)
    ensures var t := Submit(st, relay);
      && t.messages == st.messages + [Message(User, Some(Said(st.input))), Message(Assistant, Generate(relay).content)]
      && t.input == "" && !t.isTyping
  {
    TrimEmptyIffAllSpace(st.input);
    var user := Message(User, Some(Said(st.input)));
    var reply := Message(Assistant, Generate(relay).content);
    var asked := Ask(st, st.input).(input := "");
    assert asked.messages == st.messages + [user];
    var t := Settle(asked, Generate(relay));
    assert t.messages == asked.messages + [reply];
    assert st.messages + [user] + [reply] == st.messages + [user, reply];
  }

  /** `handleQuickQuestion`: the question is asked and answered; the input
      box is left as it was. */
  function QuickQuestion(st: State, question: string, relay: Relay): (t: State)
    ensures t.messages == st.messages + [Message(User, Some(Said(question))), Message(Assistant, Generate(relay).content)]
    ensures t.input == st.input && !t.isTyping
  {
    Settle(Ask(st, question), Generate(relay))
  }

  /** The `triggerChatMessage` listener: an empty message is ignored;
      any other is asked and answered like a quick question. */
  function ServiceMessage(st: State, message: string, relay: Relay): (t: State)
    ensures message == "" ==> t == st
    ensures message != "" ==> t == QuickQuestion(st, message, relay)
  {
    if message == "" then st else Settle(Ask(st, message), Generate(relay))
  }

  /** `resetChat`: only the greeting remains; input and typing are kept. */
  function Reset(st: State): (t: State)
    ensures t.messages == InitialMessages && |t.messages| == 1
    ensures t.messages[0] == Message(Assistant, Some(Greeting))
    ensures t.input == st.input && t.isTyping == st.isTyping
  {
    st.(messages := InitialMessages)
  }

  /** The reply the widget receives when the chat endpoint answered. */
  function Relayed(o: ChatRoute.Outcome): Relay {
    Reply(o.response.status, Json(o.response.payload))
  }

  /** The request body the widget posts for a question. */
  function QueryBody(question: string): Body {
    Fields(map["message" := Str(question)])
  }

  /** Against the real endpoint the widget always shows some text: the
      completion verbatim when it is non-empty, the endpoint's apology when it
      is empty, and the fallback when the completion call throws or the
      question is empty. */
  lemma EndToEnd(kb: string, question: string, upstream: ChatRoute.Upstream)
    ensures var c := Generate(Relayed(ChatRoute.Post(kb, QueryBody(question), upstream))).content;
      && c.Some?
      && (question == "" || upstream.Throws? ==> c == Some(Fallback))
      && (question != "" && upstream.Returns? ==> c == Some(Said(ChatRoute.ReplyText(upstream.choices))))
  {
    assert Field(QueryBody(question).fields, "message") == Str(question);
  }
}
