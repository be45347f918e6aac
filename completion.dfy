/**
  The completion client: it builds the message list sent to the upstream
  chat-completion endpoint and turns the endpoint's answer, or the failure
  to get one, into the reply text. The HTTP call itself is a parameter.
 */
module Completion {
  import opened Wrappers
  import opened Text

  /** A chat message: a role ("system", "user", "assistant", ...) and its text. */
  datatype Message = Message(role: string, content: string)

  /** Text of the system message before the product context. */
  const PromptIntro: string :=
    "You are a helpful beauty advisor. When recommending products, use this product information:\n"

  /** Text of the system message after the product context. */
  const PromptOutro: string :=
    "\nKeep responses concise and focused on the user's question. If recommending products, explain why they would be good for the user's needs."

  /**
    The system message text: the fixed instructions, with the product
    context embedded verbatim right after the introduction.
   */
  function SystemPrompt(context: string): (prompt: string)
    ensures |prompt| == |PromptIntro| + |context| + |PromptOutro|
    ensures prompt[..|PromptIntro|] == PromptIntro
    ensures OccursAt(context, prompt, |PromptIntro|)
    ensures prompt[|PromptIntro| + |context|..] == PromptOutro
  {
    PromptIntro + context + PromptOutro
  }

  /**
    The messages sent upstream: the system message, then the whole history
    (nothing is dropped), then the new user message.
   */
  function PromptMessages(message: string, history: seq<Message>, context: string): (msgs: seq<Message>)
    ensures |msgs| == |history| + 2
    ensures msgs[0] == Message("system", SystemPrompt(context))
    ensures msgs[1..|history| + 1] == history
    ensures msgs[|history| + 1] == Message("user", message)
  {
    [Message("system", SystemPrompt(context))] + history + [Message("user", message)]
  }

  /** The message list is built step by step: system message, history copied one by one, user message. */
  method AssembleMessages(message: string, history: seq<Message>, context: string)
    returns (messages: seq<Message>)
    ensures messages == PromptMessages(message, history, context)
  {
    messages := [Message("system", SystemPrompt(context))];
    for i := 0 to |history|
      invariant messages == [Message("system", SystemPrompt(context))] + history[..i]
    {
      messages := messages + [Message(history[i].role, history[i].content)];
    }
    assert history[..|history|] == history;
    messages := messages + [Message("user", message)];
  }

  /**
    The shape of the message list: |history| + 2 entries; a system message
    containing the context; the history unchanged and in order; the user's
    message last.
   */
  lemma PromptShape(message: string, history: seq<Message>, context: string)
    ensures var msgs := PromptMessages(message, history, context);
      && |msgs| == |history| + 2
      && msgs[0].role == "system"
      && Occurs(context, msgs[0].content)
      && (forall k :: 0 <= k < |history| ==> msgs[k + 1] == history[k])
      && msgs[|history| + 1] == Message("user", message)
  {
    var msgs := PromptMessages(message, history, context);
    assert OccursAt(context, msgs[0].content, |PromptIntro|);
    forall k | 0 <= k < |history|
      ensures msgs[k + 1] == history[k]
    {
      assert msgs[1..|history| + 1][k] == history[k];
    }
  }

  /** The `error` value of a response body. */
  datatype ErrorField =
    | ErrorObject(message: Option<string>)  // an object, with or without a "message" key
    | ErrorNotObject(typeName: string)      // any other JSON value; Python names its type

  /** The "message" object of a choice, with or without a "content" key. */
  datatype ChoiceMessage = ChoiceMessage(content: Option<string>)

  /** One element of "choices", with or without a "message" key. */
  datatype Choice = Choice(message: Option<ChoiceMessage>)

  /** The response body as parsed from JSON. */
  datatype Body =
    | Unparsable(reason: string)  // decoding the body as JSON raised, with this text
    | JsonObject(error: Option<ErrorField>, choices: Option<seq<Choice>>)

  /** What the HTTP call produced. */
  datatype Exchange =
    | Raised(reason: string)               // the request itself raised, with this text
    | Received(status: int, body: Body)

  const ApologyPrefix: string := "I apologize, but I encountered an error: "
  const UnknownError: string := "Unknown error"

  /** The upstream produced a usable completion: status 200, no error, a first choice with content. */
  ghost predicate Completed(x: Exchange) {
    && x.Received? && x.status == 200
    && x.body.JsonObject? && x.body.error.None?
    && x.body.choices.Some? && |x.body.choices.value| > 0
    && x.body.choices.value[0].message.Some?
    && x.body.choices.value[0].message.value.content.Some?
  }

  /** `response_data.get("error", {}).get("message", "Unknown error")`. */
  function ErrorDetail(error: Option<ErrorField>): (detail: string)
    ensures error.Some? && error.value.ErrorObject? && error.value.message.Some? ==>
              detail == error.value.message.value
    ensures error.None? || (error.value.ErrorObject? && error.value.message.None?) ==>
              detail == UnknownError
    ensures error.Some? && error.value.ErrorNotObject? ==>
              detail == "'" + error.value.typeName + "' object has no attribute 'get'"
  {
    match error
    case None => UnknownError
    case Some(ErrorObject(m)) => m.GetOr(UnknownError)
    case Some(ErrorNotObject(t)) => "'" + t + "' object has no attribute 'get'"
  }

  /**
    `response_data["choices"][0]["message"]["content"]`, or the text of the
    exception it raises: a missing key `k` raises `KeyError` whose text is
    `'k'`, and an empty list raises `IndexError`.
   */
  function FirstContent(choices: Option<seq<Choice>>): (r: Result<string, string>)
    ensures choices.None? ==> r == Failure("'choices'")
    ensures choices.Some? && |choices.value| == 0 ==> r == Failure("list index out of range")
    ensures choices.Some? && |choices.value| > 0 && choices.value[0].message.None? ==>
              r == Failure("'message'")
    ensures choices.Some? && |choices.value| > 0 && choices.value[0].message.Some? &&
            choices.value[0].message.value.content.None? ==>
              r == Failure("'content'")
    ensures r.Success? <==>
              choices.Some? && |choices.value| > 0 && choices.value[0].message.Some? &&
              choices.value[0].message.value.content.Some?
    ensures r.Success? ==> r.value == choices.value[0].message.value.content.value
  {
    match choices
    case None => Failure("'choices'")
    case Some(cs) =>
      if |cs| == 0 then Failure("list index out of range")
      else match cs[0].message
        case None => Failure("'message'")
        case Some(m) => match m.content
          case None => Failure("'content'")
          case Some(c) => Success(c)
  }

  /**
    How the client reads the upstream answer: a completion's content, or the
    reason for the apology. Exceptions are caught, never propagated.
   */
  function Interpret(x: Exchange): (r: Result<string, string>)
    ensures r.Success? <==> Completed(x)
    ensures r.Success? ==> r.value == x.body.choices.value[0].message.value.content.value
    ensures x.Raised? ==> r == Failure(x.reason)
    ensures x.Received? && x.body.Unparsable? ==> r == Failure(x.body.reason)
    ensures x.Received? && x.body.JsonObject? && (x.status != 200 || x.body.error.Some?) ==>
              r == Failure(ErrorDetail(x.body.error))
    ensures x.Received? && x.body.JsonObject? && x.status == 200 && x.body.error.None? ==>
              r == FirstContent(x.body.choices)
  {
    match x
    case Raised(e) => Failure(e)
    case Received(status, body) =>
      match body
      case Unparsable(e) => Failure(e)
      case JsonObject(error, choices) =>
        if status != 200 || error.Some? then Failure(ErrorDetail(error))
        else FirstContent(choices)
  }

  /** The reply text: the completion, or the apology followed by the reason. */
  function Reply(x: Exchange): (reply: string)
    ensures Completed(x) ==> reply == x.body.choices.value[0].message.value.content.value
    ensures !Completed(x) ==> reply == ApologyPrefix + Interpret(x).error
    ensures !Completed(x) ==>
              |reply| >= |ApologyPrefix| && reply[..|ApologyPrefix|] == ApologyPrefix
  {
    match Interpret(x)
    case Success(c) => c
    case Failure(e) => ApologyPrefix + e
  }

  /**
    An error object with a message is reported verbatim after the apology,
    whatever the status and whatever choices the body also holds.
   */
  lemma UpstreamErrorReported(status: int, message: string, choices: Option<seq<Choice>>)
    ensures Reply(Received(status, JsonObject(Some(ErrorObject(Some(message))), choices)))
              == ApologyPrefix + message
  {
  }

  /** A status other than 200 never yields a completion, even with choices present. */
  lemma ErrorStatusNeverCompletes(status: int, body: Body)
    requires status != 200
    ensures Interpret(Received(status, body)).Failure?
  {
  }

  /** Status 429 with `{"error": {"message": "rate limited"}}` gives a reply containing "rate limited". */
  lemma RateLimitedExample()
    ensures Occurs("rate limited", Reply(Received(429, JsonObject(Some(ErrorObject(Some("rate limited"))), None))))
  {
    var reply := Reply(Received(429, JsonObject(Some(ErrorObject(Some("rate limited"))), None)));
    assert reply == ApologyPrefix + "rate limited";
    assert OccursAt("rate limited", reply, |ApologyPrefix|);
  }

  /** Text of the exception raised when the history is `None` rather than a list. */
  const NoneNotIterable: string := "'NoneType' object is not iterable"

  /**
    One completion request. A missing history (`None`) raises while the
    message list is built; the exception is caught and becomes the apology.
   */
  method GetAiResponse(message: string, history: Option<seq<Message>>, context: string,
                       upstream: seq<Message> -> Exchange)
    returns (reply: string)
    ensures history.None? ==> reply == ApologyPrefix + NoneNotIterable
    ensures history.Some? ==> reply == Reply(upstream(PromptMessages(message, history.value, context)))
  {
    if history.None? {
      return ApologyPrefix + NoneNotIterable;
    }
    var messages := AssembleMessages(message, history.value, context);
    var exchange := upstream(messages);
    reply := Reply(exchange);
  }
}
