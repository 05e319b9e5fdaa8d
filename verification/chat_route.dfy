/** The chat endpoint: it validates the posted message, asks the completion
    service for an answer under a fixed system prompt, and maps every outcome
    to a status and a JSON body. The completion call itself is an input: it
    either throws or resolves to a list of choices, each with or without
    message content. */
module ChatRoute {
  import opened Wrappers
  import opened Http
  import Content
  import Text

  datatype Role = System | User

  /** The `content` of a turn: the system prompt around a knowledge base,
      or the value the user posted. */
  datatype TurnContent = Prompt(knowledge: string) | Posted(value: JsValue)

  /** One entry of the `messages` array sent upstream. */
  datatype Turn = Turn(role: Role, content: TurnContent)

  /** The completion request; the temperature 0.7 is kept in tenths. */
  datatype Completion = Completion(model: string, turns: seq<Turn>, maxTokens: nat, temperatureTenths: nat)

  /** What the completion call does. `choices[k]` is the k-th choice's
      `message?.content`: `None` when the message or its content is absent. */
  datatype Upstream =
    | Throws(detail: string)
    | Returns(choices: seq<Option<string>>)

  /** The handler's response, and the completion request it issued, if any. */
  datatype Outcome = Outcome(response: Response, sent: Option<Completion>)

  const RequiredError: string := "Message is required"
  const FailureError: string := "Failed to generate response"

  /** The system prompt with the knowledge base spliced in at its placeholder. */
  function SystemPrompt(kb: string): string {
    Content.PromptHead + kb + Content.PromptTail
  }

  /** The prompt holds the fixed head, then the knowledge base verbatim. */
  lemma PromptEmbedsKnowledge(kb: string)
    ensures Text.At(SystemPrompt(kb), |Content.PromptHead|, kb)
  {
    Text.Splice(Content.PromptHead, kb, Content.PromptTail);
  }

  /** The JSON value a turn's content stands for. */
  function ContentValue(c: TurnContent): JsValue {
    match c
    case Prompt(kb) => Str(SystemPrompt(kb))
    case Posted(v) => v
  }

  /** The request built for a user message: no history, only these two turns. */
  function Request(kb: string, message: JsValue): Completion {
    Completion("gpt-3.5-turbo", [Turn(System, Prompt(kb)), Turn(User, Posted(message))], 1000, 7)
  }

  /** `completion.choices[0]?.message?.content || apology`. */
  function ReplyText(choices: seq<Option<string>>): (r: string)
    ensures r != ""
    ensures r == Content.EmptyCompletionReply
            || (|choices| > 0 && choices[0] == Some(r))
    ensures |choices| > 0 && choices[0].Some? && choices[0].value != "" ==> r == choices[0].value
  {
    if |choices| > 0 && choices[0].Some? && choices[0].value != "" then choices[0].value
    else Content.EmptyCompletionReply
  }

  /** The `POST` handler. `body` is what `request.json()` yields. */
  function Post(kb: string, body: Body, upstream: Upstream): (o: Outcome)
    ensures o.response.status in {200, 400, 500}
    ensures o.sent.Some? <==> body.Fields? && Truthy(Field(body.fields, "message"))
    ensures o.response.status == 400 <==> body.Fields? && !Truthy(Field(body.fields, "message"))
    ensures o.response.status == 200 <==> o.sent.Some? && upstream.Returns?
    ensures o.response.status == 200 <==> o.response.payload.Answer?
    ensures o.response.status == 400 ==> o.response.payload == Problem(RequiredError)
    ensures o.response.status == 500 ==> o.response.payload == Problem(FailureError)
  {
    match body
    case Unparseable => Outcome(Response(500, Problem(FailureError)), None)
    case NullBody => Outcome(Response(500, Problem(FailureError)), None)
    case Fields(fields) =>
      var message := Field(fields, "message");
      if !Truthy(message) then
        Outcome(Response(400, Problem(RequiredError)), None)
      else
        var sent := Some(Request(kb, message));
        match upstream
        case Throws(_) => Outcome(Response(500, Problem(FailureError)), sent)
        case Returns(choices) => Outcome(Response(200, Answer(ReplyText(choices))), sent)
  }

  /** A missing or falsy message is rejected with 400 and nothing is sent. */
  lemma FalsyMessageRejected(kb: string, fields: map<string, JsValue>, upstream: Upstream)
    requires !Truthy(Field(fields, "message"))
    ensures Post(kb, Fields(fields), upstream) == Outcome(Response(400, Problem(RequiredError)), None)
  {
  }

  /** A body that is not JSON, or is JSON `null`, gives 500 before any call. */
  lemma UnreadableBodyFails(kb: string, body: Body, upstream: Upstream)
    requires !body.Fields?
    ensures Post(kb, body, upstream) == Outcome(Response(500, Problem(FailureError)), None)
  {
  }

  /** Whatever is sent is exactly the system prompt followed by the user's
      message, under the fixed model and sampling settings. */
  lemma SentRequestShape(kb: string, body: Body, upstream: Upstream)
    requires Post(kb, body, upstream).sent.Some?
    ensures body.Fields?
    ensures var c := Post(kb, body, upstream).sent.value;
      && c.model == "gpt-3.5-turbo" && c.maxTokens == 1000 && c.temperatureTenths == 7
      && |c.turns| == 2
      && c.turns[0] == Turn(System, Prompt(kb))
      && c.turns[1] == Turn(User, Posted(Field(body.fields, "message")))
  {
  }

  /** The system prompt determines the knowledge base it embeds. */
  lemma PromptDeterminesKnowledge(kb1: string, kb2: string)
    requires ContentValue(Prompt(kb1)) == ContentValue(Prompt(kb2))
    ensures kb1 == kb2
  {
    Text.SpliceInjective(Content.PromptHead, kb1, kb2, Content.PromptTail);
  }

  /** A non-empty first completion is returned verbatim with status 200. */
  lemma CompletionRelayed(kb: string, fields: map<string, JsValue>, choices: seq<Option<string>>, text: string)
    requires Truthy(Field(fields, "message"))
    requires |choices| > 0 && choices[0] == Some(text) && text != ""
    ensures Post(kb, Fields(fields), Returns(choices)).response == Response(200, Answer(text))
  {
  }

  /** No choice, no content, or empty content all give the fixed apology. */
  lemma EmptyCompletionApology(kb: string, fields: map<string, JsValue>, choices: seq<Option<string>>)
    requires Truthy(Field(fields, "message"))
    requires |choices| == 0 || choices[0] == None || choices[0] == Some("")
    ensures Post(kb, Fields(fields), Returns(choices)).response
            == Response(200, Answer(Content.EmptyCompletionReply))
  {
  }

  /** The upstream failure's detail never reaches the response. */
  lemma ErrorDetailHidden(kb: string, body: Body, d1: string, d2: string)
    ensures Post(kb, body, Throws(d1)) == Post(kb, body, Throws(d2))
    ensures Post(kb, body, Throws(d1)).response.status in {400, 500}
  {
  }
}
