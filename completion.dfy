/** `ask_ai`: the key gate, the chat-completion request sent to Featherless
    and the reading of the answer out of its reply. The POST itself is not
    modelled: how it ends is a parameter. */
module Completion {
  import opened Strings

  datatype Option<T> = None | Some(value: T) {
    function GetOr(default: T): T {
      if Some? then value else default
    }
  }

  const Endpoint := "https://api.featherless.ai/v1/chat/completions"
  const ModelId := "Qwen/Qwen2.5-7B-Instruct"
  const SystemInstruction := "Answer the user's question based only on the provided text. Be concise."
  const MaxTokens: nat := 500
  /** The JSON number 0.3 sent as `temperature`. */
  const Temperature: real := 0.3
  const Placeholder := "PUT_YOUR_KEY_HERE"
  const KeyNotSet := "FEATHERLESS_API_KEY is not set in .env"
  const NoResponse := "(No response)"

  /** `FEATHERLESS_API_KEY` as the process found it: unset, or some string. */
  datatype ApiKey = Unset | Key(value: string)

  /** The gate `not API_KEY or API_KEY == "PUT_YOUR_KEY_HERE"`, negated: an
      unset key, the empty string (which is falsy) and the placeholder are all
      refused. */
  predicate KeyUsable(key: ApiKey): (b: bool)
    ensures b <==> key !in {Unset, Key(""), Key(Placeholder)}
  {
    key.Key? && key.value != "" && key.value != Placeholder
  }

  datatype ChatMessage = ChatMessage(role: string, content: string)

  /** The JSON body of the POST. */
  datatype Payload = Payload(model: string, messages: seq<ChatMessage>, maxTokens: nat, temperature: real)

  /** One POST: where it goes, its `Authorization` header and its body. */
  datatype PostRequest = PostRequest(endpoint: string, authorization: string, payload: Payload)

  /** The user message `f"Text:\n{content}\n\nQuestion: {question}"`. */
  function UserPrompt(content: string, question: string): (p: string)
    ensures |p| == |content| + |question| + 18
  {
    "Text:\n" + content + "\n\nQuestion: " + question
  }

  /** The prompt splits back into its parts once the length of the content
      is known: the label, the content, the separator, the question. */
  lemma UserPromptParts(content: string, question: string)
    ensures var p := UserPrompt(content, question);
      p[..6] == "Text:\n" && p[6..6 + |content|] == content
      && p[6 + |content|..18 + |content|] == "\n\nQuestion: " && p[18 + |content|..] == question
  {
  }

  /** Two prompts with contents of the same length are equal only when their
      contents and their questions are. */
  lemma UserPromptInjective(c1: string, q1: string, c2: string, q2: string)
    requires |c1| == |c2| && UserPrompt(c1, q1) == UserPrompt(c2, q2)
    ensures c1 == c2 && q1 == q2
  {
    var p := UserPrompt(c1, q1);
    UserPromptParts(c1, q1);
    UserPromptParts(c2, q2);
    assert c1 == p[6..6 + |c1|] == c2;
    assert q1 == p[18 + |c1|..] == q2;
  }

  /** The request `ask_ai` posts for a usable key. */
  function ChatRequest(content: string, question: string, key: string): PostRequest
  {
    PostRequest(
      Endpoint,
      "Bearer " + key,
      Payload(ModelId,
              [ChatMessage("system", SystemInstruction), ChatMessage("user", UserPrompt(content, question))],
              MaxTokens, Temperature))
  }

  /** The request goes to the endpoint for the model, with the key as a
      bearer token and nothing else added to it, exactly two messages (the
      fixed instruction, then the prompt) and the fixed generation limits. */
  lemma ChatRequestShape(content: string, question: string, key: string)
    ensures var r := ChatRequest(content, question, key);
      r.endpoint == Endpoint && r.payload.model == ModelId
      && |r.authorization| == 7 + |key| && r.authorization[..7] == "Bearer " && r.authorization[7..] == key
      && |r.payload.messages| == 2
      && r.payload.messages[0] == ChatMessage("system", SystemInstruction)
      && r.payload.messages[1] == ChatMessage("user", UserPrompt(content, question))
      && r.payload.maxTokens == 500 && r.payload.temperature == 0.3
  {
  }

  /** The parsed JSON of a 2xx reply, as far as `ask_ai` reads it; `None`
      stands for a key that is absent. */
  datatype Message = Message(content: Option<string>)
  datatype Choice = Choice(message: Option<Message>)
  datatype Reply = Reply(choices: Option<seq<Choice>>)

  /** What the POST gave: a parsed reply, or a `RequestException` (a network
      error or a non-2xx status, from `raise_for_status`) with its text. */
  datatype PostOutcome = Replied(reply: Reply) | PostFailed(detail: string)

  /** `data.get("choices", [{}])[0].get("message", {}).get("content", "")`:
      `None` when `choices` is present but empty, which raises `IndexError`. */
  function FirstContent(reply: Reply): (c: Option<string>)
    ensures c.None? <==> reply.choices == Some([])
    ensures reply.choices.None? ==> c == Some("")
    // Otherwise the first choice is read; a missing `message` or `content` reads as "".
    ensures reply.choices.Some? && reply.choices.value != [] ==>
      (var m := reply.choices.value[0].message;
       c == Some(if m.Some? && m.value.content.Some? then m.value.content.value else ""))
  {
    match reply.choices
    case None => Some("")
    case Some(cs) =>
      if cs == [] then None
      else match cs[0].message
        case None => Some("")
        case Some(m) => Some(m.content.GetOr(""))
  }

  /** The answer read from a reply: `content.strip() or "(No response)"`. */
  datatype Reading = Answer(text: string) | NoFirstChoice

  function ReadAnswer(reply: Reply): (r: Reading)
    ensures r.NoFirstChoice? <==> reply.choices == Some([])
    ensures r.Answer? ==> r.text != "" && NoEdgeSpace(r.text)
    ensures r.Answer? && AllSpace(FirstContent(reply).value) ==> r.text == NoResponse
    ensures r.Answer? && !AllSpace(FirstContent(reply).value) ==> r.text == Strip(FirstContent(reply).value)
  {
    match FirstContent(reply)
    case None => NoFirstChoice
    case Some(c) =>
      var t := Strip(c);
      assert NoResponse[0] == '(' && NoResponse[12] == ')';
      Answer(if t == "" then NoResponse else t)
  }

  /** How `ask_ai` ends: with an answer, or by raising. `ConfigError` is the
      `ValueError` of the key gate; `IndexError` is the empty `choices`. */
  datatype Outcome = Answered(answer: string) | ConfigError(message: string) | RequestFailed(detail: string) | IndexError

  /** An outcome together with the POST that led to it, if one was made. */
  datatype Asked = Asked(outcome: Outcome, sent: Option<PostRequest>)

  /** `ask_ai(content, question)` with the key and the POST given. */
  function AskAi(content: string, question: string, key: ApiKey, posted: PostOutcome): (a: Asked)
    // The gate comes before any POST.
    ensures !KeyUsable(key) <==> a.outcome.ConfigError?
    ensures a.outcome.ConfigError? ==> a.outcome.message == KeyNotSet
    ensures !KeyUsable(key) <==> a.sent.None?
    // With a usable key exactly one POST is made, to the endpoint, with the key as bearer
    // token, a system message and then a user message that holds the content and then the question.
    ensures a.sent.Some? ==> a.sent == Some(ChatRequest(content, question, key.value))
    ensures a.sent.Some? ==>
      (var r := a.sent.value;
       r.endpoint == Endpoint && r.authorization == "Bearer " + key.value
       && |r.payload.messages| == 2 && r.payload.messages[0].role == "system"
       && r.payload.messages[1] == ChatMessage("user", UserPrompt(content, question)))
    // A failed POST surfaces with its own text.
    ensures a.outcome.RequestFailed? <==> a.sent.Some? && posted.PostFailed?
    ensures a.outcome.RequestFailed? ==> a.outcome.detail == posted.detail
    // A reply gives an answer that is never empty and never padded, unless `choices` is empty.
    ensures a.outcome.IndexError? <==> a.sent.Some? && posted == Replied(Reply(Some([])))
    ensures a.outcome.Answered? ==>
      (a.sent.Some? && posted.Replied?
       && a.outcome.answer != "" && NoEdgeSpace(a.outcome.answer)
       && Answer(a.outcome.answer) == ReadAnswer(posted.reply))
    // ... and a reply with a first choice is always answered.
    ensures a.sent.Some? && posted.Replied? && ReadAnswer(posted.reply).Answer? ==>
      a.outcome == Answered(ReadAnswer(posted.reply).text)
  {
    if !KeyUsable(key) then Asked(ConfigError(KeyNotSet), None)
    else
      var request := ChatRequest(content, question, key.value);
      match posted
      case PostFailed(detail) => Asked(RequestFailed(detail), Some(request))
      case Replied(reply) =>
        match ReadAnswer(reply)
        case NoFirstChoice => Asked(IndexError, Some(request))
        case Answer(text) => Asked(Answered(text), Some(request))
  }

  /** A whitespace-only `content` is answered with "(No response)". */
  lemma BlankContentAnswer(ws: string)
    requires AllSpace(ws)
    ensures ReadAnswer(Reply(Some([Choice(Some(Message(Some(ws))))]))) == Answer(NoResponse)
  {
  }

  /** Only the first choice is read: its stripped content, or "(No
      response)" when that content is all whitespace. */
  lemma FirstChoiceAnswer(c: string, rest: seq<Choice>)
    ensures ReadAnswer(Reply(Some([Choice(Some(Message(Some(c))))] + rest)))
         == Answer(if AllSpace(c) then NoResponse else Strip(c))
  {
  }

  /** A first choice without `message` is read as an empty content. */
  lemma MissingMessageAnswer(rest: seq<Choice>)
    ensures ReadAnswer(Reply(Some([Choice(None)] + rest))) == Answer(NoResponse)
  {
  }

  /** A message without `content` is read as an empty content. */
  lemma MissingContentAnswer(rest: seq<Choice>)
    ensures ReadAnswer(Reply(Some([Choice(Some(Message(None)))] + rest))) == Answer(NoResponse)
  {
  }

  /** A reply without `choices` is read as an empty content. */
  lemma MissingChoicesAnswer()
    ensures ReadAnswer(Reply(None)) == Answer(NoResponse)
  {
  }
}
