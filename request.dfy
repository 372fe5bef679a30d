/** The request `sendMessage` builds (script.js:74-111), up to the point where
    it is handed to the transport: the credential guard, the Authorization
    value, the prompt template and the JSON body, kept as a record. */
module Request {
  import opened Wrappers

  const Endpoint: string := "https://api.openai.com/v1/chat/completions"
  const Model: string := "gpt-3.5-turbo"
  const JsonContentType: string := "application/json"
  const BearerPrefix: string := "Bearer "
  const SystemPrompt: string := "You are a helpful assistant."
  const PromptHead: string := "Act as a "
  const PromptMiddle: string := ". Write your answer in maximum 170 characters. My question is: "

  /** One entry of the body's `messages` array. */
  datatype ChatMessage = ChatMessage(role: string, content: string)

  /** What `sendMessage` hands to the request object: the method and URL of
      `open`, the two `setRequestHeader` values and the fields of the body
      given to `send`. */
  datatype ChatRequest = ChatRequest(
    httpMethod: string,
    url: string,
    contentType: string,
    authorization: string,
    model: string,
    messages: seq<ChatMessage>)

  /** `!apiKey` is false: the variable is present and not the empty string. */
  predicate HasCredential(apiKey: Option<string>) {
    apiKey.Some? && apiKey.value != []
  }

  /** The Authorization header value, `Bearer ${apiKey}`. */
  function Authorization(apiKey: string): string {
    BearerPrefix + apiKey
  }

  /** Reads the key back out of an Authorization value. */
  function ApiKeyOf(header: string): Option<string> {
    if |BearerPrefix| <= |header| && header[..|BearerPrefix|] == BearerPrefix
    then Some(header[|BearerPrefix|..]) else None
  }

  lemma ApiKeyOfAuthorization(apiKey: string)
    ensures ApiKeyOf(Authorization(apiKey)) == Some(apiKey)
  {
    assert Authorization(apiKey)[..|BearerPrefix|] == BearerPrefix;
  }

  lemma AuthorizationOfApiKey(header: string, apiKey: string)
    requires ApiKeyOf(header) == Some(apiKey)
    ensures Authorization(apiKey) == header
  {
    assert header == header[..|BearerPrefix|] + header[|BearerPrefix|..];
  }

  /** The user prompt of script.js:85. */
  function Prompt(role: string, question: string): string {
    PromptHead + role + PromptMiddle + question
  }

  /** Given the role, reads the question back out of a prompt. */
  function QuestionOf(role: string, prompt: string): Option<string> {
    var head := PromptHead + role + PromptMiddle;
    if |head| <= |prompt| && prompt[..|head|] == head
    then Some(prompt[|head|..]) else None
  }

  lemma QuestionOfPrompt(role: string, question: string)
    ensures QuestionOf(role, Prompt(role, question)) == Some(question)
  {
    var head := PromptHead + role + PromptMiddle;
    assert Prompt(role, question) == head + question;
    assert (head + question)[..|head|] == head;
    assert (head + question)[|head|..] == question;
  }

  lemma PromptOfQuestion(role: string, prompt: string, question: string)
    requires QuestionOf(role, prompt) == Some(question)
    ensures Prompt(role, question) == prompt
  {
    var head := PromptHead + role + PromptMiddle;
    assert prompt == prompt[..|head|] + prompt[|head|..];
  }

  /** For a fixed role, different questions give different prompts. */
  lemma PromptInjective(role: string, q1: string, q2: string)
    requires Prompt(role, q1) == Prompt(role, q2)
    ensures q1 == q2
  {
    QuestionOfPrompt(role, q1);
    QuestionOfPrompt(role, q2);
  }

  /** Without the role the question cannot be recovered: a role that itself
      contains the template's middle text gives the same prompt as a shorter
      role with a longer, different question. */
  lemma PromptAmbiguousWithoutRole(role: string, infix: string, question: string)
    ensures Prompt(role + PromptMiddle + infix, question) ==
            Prompt(role, infix + PromptMiddle + question)
    ensures question != infix + PromptMiddle + question
  {
    Regroup(PromptHead, role, PromptMiddle, infix, question);
    assert |infix + PromptMiddle + question| > |question|;
  }

  lemma Regroup(h: string, r: string, m: string, i: string, q: string)
    ensures h + (r + m + i) + m + q == h + r + m + (i + m + q)
  {
  }

  /** `sendMessage` from its guard to `xhr.send`. */
  function BuildRequest(apiKey: Option<string>, role: string, message: string): Option<ChatRequest> {
    if !HasCredential(apiKey) then None
    else
      Some(ChatRequest("POST", Endpoint, JsonContentType, Authorization(apiKey.value), Model,
                       [ChatMessage("system", SystemPrompt), ChatMessage("user", Prompt(role, message))]))
  }

  /** Nothing is built without a credential; otherwise one POST to the
      completion endpoint whose Authorization value carries exactly the key,
      whose system message is the fixed assistant instruction and whose user
      message is the template around exactly this role and question. */
  lemma BuildRequestSpec(apiKey: Option<string>, role: string, message: string)
    ensures BuildRequest(apiKey, role, message).None? <==> !HasCredential(apiKey)
    ensures var r := BuildRequest(apiKey, role, message); r.Some? ==>
      && r.value.httpMethod == "POST" && r.value.url == Endpoint
      && r.value.contentType == JsonContentType && r.value.model == Model
      && ApiKeyOf(r.value.authorization) == apiKey
      && |r.value.messages| == 2
      && r.value.messages[0] == ChatMessage("system", SystemPrompt)
      && r.value.messages[1].role == "user"
      && QuestionOf(role, r.value.messages[1].content) == Some(message)
  {
    if HasCredential(apiKey) {
      ApiKeyOfAuthorization(apiKey.value);
      QuestionOfPrompt(role, message);
    }
  }

  /** The emitted request carries `"Bearer " + apiKey` and the prompt exactly. */
  lemma BuildRequestContents(apiKey: string, role: string, message: string)
    requires apiKey != []
    ensures BuildRequest(Some(apiKey), role, message).Some?
    ensures BuildRequest(Some(apiKey), role, message).value.authorization == BearerPrefix + apiKey
    ensures BuildRequest(Some(apiKey), role, message).value.messages[1].content ==
            "Act as a " + role + ". Write your answer in maximum 170 characters. My question is: " + message
  {
  }
}
