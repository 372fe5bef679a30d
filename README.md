# nrzXoom voice assistant: a Dafny model of `script.js`

`script.js` is the glue a Storyline course page runs to hold a spoken
conversation with a chat-completion service. The speech recognizer writes
what the learner said into the player variable `message`. When a capture
ends, the script sets the player variable `recognition` to false; when the
message is also non-empty, it sets `listen` to false and then:

1. blanks the old response;
2. shows a shortened caption of the question;
3. sends the question, wrapped in a role prompt, to the completion endpoint
   with the learner's API key as a bearer credential.

When a finished request comes back with status 200 and a non-empty answer,
the script makes that answer the response, speaks it, and sets the player
variable `listen` back to true. It also appends a question/answer block to the chat history and clears
the message.

This project models that core as follows, one module per concern:

- `Text` is JavaScript's `String.prototype.trim`, with the white-space and
  line-terminator set of sections 12.2 and 12.3 of the ECMAScript Language
  Specification.
- `Shorten` is `shortenMessage`, the 125-character caption.
- `Request` is what `sendMessage` builds: the credential guard, the
  `Authorization` value `"Bearer " + apiKey`, the prompt template, the fixed
  system message and the JSON body. The body is kept as a record.
- `Transcript` covers the answer `handleApiResponse` extracts and the history
  blocks it appends.
- `Session` is a class holding the player variables plus the module-level
  `recognizing` flag and `chatHistory` buffer. It has the event handlers, whose
  `modifies` clauses name exactly the variables each handler writes.
  - What the script hands to the browser is appended to logs in the object:
    `recognizerCalls` for recognizer start and stop, `outbox` for requests
    given to `xhr.send` together with the question their callback captured,
    and `spoken` for utterances.
  - The object invariant `Valid()` has three parts:
    - the history is the loaded text followed by one block per committed
      exchange, and every committed answer is non-empty and trimmed;
    - every request that left carries a non-empty bearer key and the fixed
      system message;
    - recognizer calls alternate Start, Stop, … and `recognizing` holds
      exactly when the last call was a Start. This holds of the model only,
      where the toggle is the one writer of `recognizing`; see "Left out"
      for the script's `end` listener.

Modelling assumptions:

- A JavaScript string is a `string` (`seq<char>`). A Dafny `char` is a
  Unicode scalar value, so `.length` and `substring` count what the script
  counts only for text inside the Basic Multilingual Plane, where one
  character is one UTF-16 code unit; the model assumes such text.
- A player variable that may be absent (`apiKey`) is an `Option`, and
  JavaScript truthiness on it means "present and not the empty string".
- The value the optional chain `choices?.[0]?.message?.content` produces is
  an `Option<string>`.

## Model

| member | source | states |
|---|---|---|
| Text.SkipLeading | script.js:114 | the index reached is the first character that is not white space at or after the start, and everything skipped is white space |
| Text.SkipTrailing | script.js:114 | the end reached is just after the last character that is not white space, and everything dropped is white space |
| Text.Trim | script.js:114 | the result of `trim()` has no white space at either end |
| Text.TrimStrips | script.js:114 | the result of `trim()` is a slice of the input with only white space before and after it |
| Text.TrimEmpty | script.js:114 | `trim()` gives the empty string exactly when the input is all white space |
| Text.TrimUnique | script.js:114 | any slice with white space only around it and none at its ends equals `trim()` of the input |
| Text.TrimTrimmed | script.js:114 | a string with no white space at its ends is returned unchanged by `trim()` |
| Text.TrimIdempotent | script.js:114 | trimming twice is trimming once |
| Shorten.ShortenMessage | script.js:53 | computes the caption: the message itself up to 125 characters, otherwise its first 125 characters and "..."; what it promises is stated by the lemmas ShortenBounds, ShortenIdentity, ShortenTruncates, ShortenIdempotent and LongFixedPoint |
| Shorten.ShortenBounds | script.js:53 | the caption is at most 128 characters, starts with the first min(length, 125) characters of the message, has the message's length or exactly 128, and a cut caption ends in "..." |
| Shorten.ShortenIdentity | script.js:53 | a message of at most 125 characters is its own caption |
| Shorten.ShortenTruncates | script.js:53 | a longer message becomes its first 125 characters followed by "..." |
| Shorten.ShortenIdempotent | script.js:53 | shortening a caption again changes nothing |
| Shorten.LongFixedPoint | script.js:53 | a 128-character message ending in "..." is over the limit yet comes back unchanged, so "left alone" does not mean "short" |
| Request.Authorization | script.js:84 | computes the header value `Bearer ${apiKey}`; its inverse ApiKeyOf and the lemmas ApiKeyOfAuthorization and AuthorizationOfApiKey state that it carries exactly the key |
| Request.ApiKeyOfAuthorization | script.js:84 | the key read back from `"Bearer " + apiKey` is exactly the key |
| Request.AuthorizationOfApiKey | script.js:84 | any header from which a key reads back is `"Bearer "` followed by that key |
| Request.Prompt | script.js:85 | computes the user prompt around the role and the question; its inverse QuestionOf and the lemmas QuestionOfPrompt, PromptOfQuestion, PromptInjective and PromptAmbiguousWithoutRole state what it preserves |
| Request.QuestionOfPrompt | script.js:85 | given the role, the question reads back from the prompt exactly |
| Request.PromptOfQuestion | script.js:85 | a prompt from which a question reads back is the template around the role and that question |
| Request.PromptInjective | script.js:85 | for one role, different questions give different prompts |
| Request.PromptAmbiguousWithoutRole | script.js:85 | without knowing the role the question cannot be recovered: a role containing the template's middle text gives the same prompt as a different question |
| Request.BuildRequest | script.js:79-108 | computes what `sendMessage` hands to `xhr.send`, or nothing; its contract is stated by BuildRequestSpec and BuildRequestContents |
| Request.BuildRequestSpec | script.js:79-108 | nothing is built exactly when the key is missing or empty; otherwise a POST to the completion endpoint, JSON content type, model gpt-3.5-turbo, an Authorization value carrying exactly the key, the fixed system message first and a user message carrying exactly this role and question |
| Request.BuildRequestContents | script.js:84-85 | with a non-empty key, the Authorization value is `"Bearer " + apiKey` and the user content is the literal template around role and message |
| Transcript.GeneratedResponse | script.js:114-116 | an extracted answer is never empty and has no white space at its ends |
| Transcript.GeneratedResponseCases | script.js:114-116 | there is no answer exactly when the content is missing or all white space; an answer is the content with only its surrounding white space removed |
| Transcript.GeneratedResponseVerbatim | script.js:114-116 | content with no white space at its ends and at least one character is taken verbatim |
| Transcript.AllAnsweredAppend | script.js:116-121 | appending an exchange whose answer is non-empty and trimmed keeps every committed answer non-empty and trimmed |
| Transcript.Entry | script.js:121 | computes the block `\nQuestion: …\nAnswer: …\n` for one exchange; RenderAppend, HistoryAppend and the history invariant of Session state how it extends the history |
| Transcript.RenderAppend | script.js:121 | committing one more exchange appends exactly its `\nQuestion: …\nAnswer: …\n` block |
| Transcript.HistoryAppend | script.js:121-122 | a history that is the loaded text plus the blocks of the committed exchanges stays so after `chatHistory +=` one more block |
| Transcript.RenderPrefix | script.js:121 | the history only grows: the transcript of earlier exchanges is a prefix of the transcript of later ones |
| Session.Emitted | script.js:79-110 | computes what one `sendMessage` call emits; its contract is stated by EmittedGuard and EmittedQuestion |
| Session.EmittedGuard | script.js:79-85 | `sendMessage` emits nothing exactly when the key is missing or empty, otherwise exactly one request, carrying the question and a credential |
| Session.EmittedQuestion | script.js:75-95 | with a credential, the one request emitted carries the message that was read as its question |
| Session.Session.constructor | script.js:2-5 | page load: the player variables as given, `recognizing` false, nothing sent or spoken, the invariant holds |
| Session.Session.ToggleSpeechRecognition | script.js:43-50 | stops a running recognizer or starts an idle one and negates `recognizing`; without a recognizer nothing changes; the invariant is kept |
| Session.Session.HandleSpeechEnd | script.js:31-41 | always clears `recognition`; with an empty message nothing else changes; otherwise `listen` is false, the response empty, the caption is the shortened message and the outbox gains what `sendMessage` emits |
| Session.Session.ShowQuestion | script.js:36-38 | `listen` false, response empty, caption the shortened question |
| Session.Session.SendMessage | script.js:74-111 | the outbox gains exactly what the guard and the request builder emit for the current key, role and message, and nothing else changes |
| Session.Session.SpeakResponse | script.js:56-61 | a non-empty response is uttered once; an empty one is not uttered |
| Session.Session.HandleApiResponse | script.js:113-127 | a non-empty trimmed content is committed (response, spoken, `listen`, `speak`, history block, message cleared); otherwise none of those variables changes |
| Session.Session.CommitAnswer | script.js:116-123 | the committing branch: response is the answer, it is spoken, `listen` true, `speak` false, the history gains exactly one block, the message is cleared |
| Session.Session.AppendHistory | script.js:121-122 | the history gains exactly the block for this exchange and keeps its invariant |
| Session.Session.OnReadyStateChange | script.js:92-99 | only `readyState` 4 with status 200 reaches `handleApiResponse`, with the question captured at send time; any other state or status changes nothing |
| Session.ToggleTwice | script.js:43-50 | toggling twice restores `recognizing`, and with a recognizer the two calls are one Stop and one Start in the order the flag demands |
| Session.SpeechTurn | script.js:31-41 | a capture's end followed by its request's completion in any state keeps the whole invariant |
| Session.AskAndAnswer | script.js:74-95 | a spoken question answered with status 200 adds the block for exactly that question and the trimmed answer, which becomes the response and is spoken |
| Session.AskAndFail | script.js:92-99 | a spoken question whose request completes with any status but 200 leaves the message and the history as they were |
| Session.AskWithoutKey | script.js:79-82 | without a key, ending a capture sends nothing |

## Left out

- Speech-recognizer set-up (script.js:8-23) is left out. The Web Speech
  API is a browser object. Whether one exists is the constant
  `hasRecognizer`.
- The `start`/`end` listeners that write `recognizing` (script.js:19-20),
  and the listener interleaving that makes `handleSpeechEnd` run on every
  `end` event, are left out. They are browser callbacks; `recognizing` only
  changes through `ToggleSpeechRecognition`.
- Session.Session.ToggleSpeechRecognition: after a capture that ends by
  itself, the script's `end` listener has already set `recognizing` to false,
  so its next toggle calls `start()` again (a second Start with no Stop in
  between). The model's flag is still true there, so it logs a Stop where the
  script issues a Start, and the user must toggle twice to get the Start.
  The Start/Stop alternation of the invariant is a property of the model,
  not of the script.
- `handleSpeechResult` (script.js:25-29) is left out. It copies the
  recognizer's transcript into `message`, which the model takes as given.
- The utterance's voice, volume, rate, pitch and `onend` logging
  (script.js:63-70) are left out. Speech synthesis is a device effect; an
  utterance is one entry in `spoken`.
- The XHR transport, `JSON.stringify` and `JSON.parse` (script.js:87-110)
  are left out; a JSON parse failure is left out too. The request is a
  record in `outbox`, and the reply is the optional content string it
  would carry.
- If `content` is not a string, `trim()` throws; this case is left out.
- The case where `apiKey` or `message` holds a value that is not a string
  is left out. Player variables are strings.
- An absent `role` or `chatHistory` variable is left out: both are strings
  that are always present. In the script an absent `role` puts the text
  "undefined" or "null" into the prompt (script.js:85), whichever the
  player returns for a missing variable, and a `chatHistory` absent at
  load (script.js:3) makes `chatHistory +=` (script.js:121) start the
  history with "undefined" or "null".
- Text outside the Basic Multilingual Plane is left out. Dafny counts such a
  character as one `char` where JavaScript counts two UTF-16 code units, so
  `ShortenMessage` would cut such a message at a different place than
  `substring(0, 125)`. The script's cut through a surrogate pair, which
  leaves a lone surrogate, has no Dafny `char` to stand for it.
- `copyResponse` (script.js:130-137) and `exportChat` (script.js:140-151)
  are outside the modelled core. They hand data to the clipboard and the
  download machinery.
- `console` and `alert` output is left out. It has no effect on state.
- Several requests in flight at once are not modelled as concurrency. Each
  completion is one `OnReadyStateChange` call, in whatever order calls are
  made.
- The module-level `chatHistory` and the player variable of the same name
  are one field. Only this script writes the player variable after load,
  and each write copies the module variable.
