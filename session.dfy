/** The script's state and event handlers: the player variables it reads and
    writes through `GetVar`/`SetVar`, the module-level `recognizing` flag and
    `chatHistory` buffer (script.js:2-5), and the handlers that change them
    (script.js:31-50, 56-61, 74-127). What the script hands to the browser
    (recognizer start/stop, XHR sends, spoken utterances) is recorded in logs
    instead of performed. */
module Session {
  import opened Wrappers
  import opened Text
  import opened Shorten
  import opened Request
  import opened Transcript

  /** A call on the browser's recognizer object. */
  datatype RecognizerCall = Start | Stop

  /** A request handed to `xhr.send`, with the question its completion
      callback captured (the `message` read at script.js:75). */
  datatype Pending = Pending(request: ChatRequest, question: string)

  /** What one `sendMessage` call emits: nothing without a credential,
      otherwise exactly one request for this role and question. */
  function Emitted(apiKey: Option<string>, role: string, message: string): seq<Pending> {
    match BuildRequest(apiKey, role, message)
    case None => []
    case Some(r) => [Pending(r, message)]
  }

  /** The credential guard: a call emits nothing exactly when the key is
      missing or empty, and otherwise one request, for this question. */
  lemma EmittedGuard(apiKey: Option<string>, role: string, message: string)
    ensures Emitted(apiKey, role, message) == [] <==> !HasCredential(apiKey)
    ensures |Emitted(apiKey, role, message)| <= 1
    ensures Emitted(apiKey, role, message) != [] ==>
      Emitted(apiKey, role, message)[0].question == message &&
      Credentialed(Emitted(apiKey, role, message)[0])
  {
    BuildRequestSpec(apiKey, role, message);
  }

  /** With a credential, the one request emitted carries the question. */
  lemma EmittedQuestion(apiKey: Option<string>, role: string, message: string)
    requires HasCredential(apiKey)
    ensures |Emitted(apiKey, role, message)| == 1
    ensures Emitted(apiKey, role, message)[0].question == message
  {
  }

  /** Start, Stop, Start, ...: each call differs from the one before it. */
  ghost predicate Alternating(calls: seq<RecognizerCall>) {
    if |calls| <= 1 then calls == [] || calls == [Start]
    else Alternating(calls[..|calls| - 1]) && calls[|calls| - 1] != calls[|calls| - 2]
  }

  /** No request leaves without a non-empty bearer key and the fixed system
      message. */
  predicate Credentialed(p: Pending) {
    && HasCredential(ApiKeyOf(p.request.authorization))
    && |p.request.messages| == 2
    && p.request.messages[0] == ChatMessage("system", SystemPrompt)
  }

  class Session {
    // player variables
    var message: string
    var response: string
    var shortMessage: string
    var listen: bool
    var speak: bool
    var recognition: bool
    var chatHistory: string
    var apiKey: Option<string>
    var role: string
    // module-level state
    var recognizing: bool
    /** Whether `initializeSpeechRecognition` found a recognizer. */
    const hasRecognizer: bool
    // what was handed to the browser
    var recognizerCalls: seq<RecognizerCall>
    var outbox: seq<Pending>
    var spoken: seq<string>
    // the history as it was loaded, and the exchanges committed since
    ghost var initialHistory: string
    ghost var exchanges: seq<Exchange>

    /** The object invariant: see the three parts below. */
    ghost predicate Valid()
      reads this`chatHistory, this`initialHistory, this`exchanges, this`outbox
      reads this`recognizing, this`recognizerCalls
    {
      HistoryValid() && OutboxValid() && RecognizerValid()
    }

    /** The history is the loaded text followed by one block per committed
        exchange, each with a non-empty trimmed answer. */
    ghost predicate HistoryValid()
      reads this`chatHistory, this`initialHistory, this`exchanges
    {
      chatHistory == initialHistory + Render(exchanges) && AllAnswered(exchanges)
    }

    /** Every emitted request carries a credential. */
    ghost predicate OutboxValid()
      reads this`outbox
    {
      forall i :: 0 <= i < |outbox| ==> Credentialed(outbox[i])
    }

    /** Recognizer calls alternate Start, Stop, ... beginning with Start, and
        `recognizing` holds exactly when the last call was a Start. This holds
        of the model, where only the toggle writes `recognizing`; the page's
        `end` listener (script.js:20) also clears it when a capture ends by
        itself, after which the script starts the recognizer again with no
        stop in between. */
    ghost predicate RecognizerValid()
      reads this`recognizing, this`recognizerCalls
    {
      && (hasRecognizer || recognizerCalls == [])
      && Alternating(recognizerCalls)
      && (recognizing <==> recognizerCalls != [] && recognizerCalls[|recognizerCalls| - 1] == Start)
    }

    /** Page load: the player variables as the page holds them, `chatHistory`
        read once from the player (script.js:3), `recognizing` false
        (script.js:5). */
    constructor (message: string, response: string, shortMessage: string, listen: bool, speak: bool,
                 recognition: bool, chatHistory: string, apiKey: Option<string>, role: string,
                 hasRecognizer: bool)
      ensures Valid()
      ensures this.message == message && this.response == response && this.shortMessage == shortMessage
      ensures this.listen == listen && this.speak == speak && this.recognition == recognition
      ensures this.chatHistory == chatHistory && this.apiKey == apiKey && this.role == role
      ensures this.hasRecognizer == hasRecognizer && !recognizing
      ensures recognizerCalls == [] && outbox == [] && spoken == []
      ensures initialHistory == chatHistory && exchanges == []
    {
      this.message, this.response, this.shortMessage := message, response, shortMessage;
      this.listen, this.speak, this.recognition := listen, speak, recognition;
      this.chatHistory, this.apiKey, this.role := chatHistory, apiKey, role;
      this.hasRecognizer := hasRecognizer;
      recognizing := false;
      recognizerCalls, outbox, spoken := [], [], [];
      initialHistory, exchanges := chatHistory, [];
    }

    /** `toggleSpeechRecognition`: stop the recognizer if it is running, start
        it otherwise, then negate `recognizing`. Without a recognizer the call
        on `undefined` throws before the flag is touched. */
    method ToggleSpeechRecognition()
      requires Valid()
      modifies this`recognizing, this`recognizerCalls
      ensures Valid()
      ensures recognizing == if hasRecognizer then !old(recognizing) else old(recognizing)
      ensures recognizerCalls == old(recognizerCalls) +
        (if !hasRecognizer then [] else if old(recognizing) then [Stop] else [Start])
    {
      if !hasRecognizer {
        return;
      }
      var call := if recognizing then Stop else Start;
      assert (recognizerCalls + [call])[..|recognizerCalls|] == recognizerCalls;
      recognizerCalls := recognizerCalls + [call];
      recognizing := !recognizing;
    }

    /** `handleSpeechEnd`: always clears the `recognition` variable. With an
        empty message nothing else happens; otherwise `listen` is cleared, the
        old response blanked, the caption set to the shortened message and the
        message sent. */
    method HandleSpeechEnd()
      requires Valid()
      modifies this`recognition, this`listen, this`response, this`shortMessage, this`outbox
      ensures Valid()
      ensures !recognition
      ensures message == [] ==>
        listen == old(listen) && response == old(response) &&
        shortMessage == old(shortMessage) && outbox == old(outbox)
      ensures message != [] ==>
        !listen && response == [] && shortMessage == ShortenMessage(message) &&
        outbox == old(outbox) + Emitted(apiKey, role, message)
    {
      recognition := false;
      var captured := message;
      if captured != [] {
        ShowQuestion(captured);
        SendMessage();
      }
    }

    /** The display half of `handleSpeechEnd` (script.js:35-37): stop
        listening, blank the old response, caption the shortened question. */
    method ShowQuestion(captured: string)
      requires Valid()
      modifies this`listen, this`response, this`shortMessage
      ensures Valid()
      ensures !listen && response == [] && shortMessage == ShortenMessage(captured)
    {
      listen := false;
      response := [];
      shortMessage := ShortenMessage(captured);
    }

    /** `sendMessage`: reads `message`, `role` and `apiKey`; without a key it
        stops; otherwise it builds the header and prompt and hands one request
        to the transport. No player variable changes. */
    method SendMessage()
      requires Valid()
      modifies this`outbox
      ensures Valid()
      ensures outbox == old(outbox) + Emitted(apiKey, role, message)
    {
      var question := message;
      var key := apiKey;
      if !HasCredential(key) {
        return;
      }
      var authorization := Authorization(key.value);
      var requestMessage := Prompt(role, question);
      var messages := [ChatMessage("system", SystemPrompt), ChatMessage("user", requestMessage)];
      ApiKeyOfAuthorization(key.value);
      outbox := outbox + [Pending(ChatRequest("POST", Endpoint, JsonContentType, authorization, Model, messages), question)];
    }

    /** `speakResponse`: utters the response, unless it is empty. */
    method SpeakResponse()
      modifies this`spoken
      ensures spoken == old(spoken) + (if response == [] then [] else [response])
    {
      if response == [] {
        return;
      }
      spoken := spoken + [response];
    }

    /** An answer was committed for this question: it is the response, it was
        spoken, the player listens again, the message is cleared and the
        history gained exactly one block. */
    twostate predicate Commits(question: string, answer: string)
      reads this
    {
      && response == answer && listen && !speak && message == []
      && chatHistory == old(chatHistory) + Entry(question, answer)
      && spoken == old(spoken) + [answer]
      && exchanges == old(exchanges) + [Exchange(question, answer)]
    }

    /** Nothing `handleApiResponse` may write has changed. */
    twostate predicate KeepsReplyState()
      reads this
    {
      && response == old(response) && listen == old(listen) && speak == old(speak)
      && message == old(message) && chatHistory == old(chatHistory)
      && spoken == old(spoken) && exchanges == old(exchanges)
    }

    /** `handleApiResponse`: commits the trimmed content of the reply if it is
        non-empty, and changes nothing otherwise. */
    method HandleApiResponse(content: Option<string>, question: string)
      requires Valid()
      modifies this`response, this`listen, this`speak, this`chatHistory, this`message, this`spoken, this`exchanges
      ensures Valid()
      ensures GeneratedResponse(content).Some? ==> Commits(question, GeneratedResponse(content).value)
      ensures GeneratedResponse(content).None? ==> KeepsReplyState()
    {
      var generated := GeneratedResponse(content);
      if generated.Some? {
        CommitAnswer(question, generated.value);
      }
    }

    /** The committing branch of `handleApiResponse` (script.js:117-123). */
    method CommitAnswer(question: string, answer: string)
      requires HistoryValid() && answer != [] && IsTrimmed(answer)
      modifies this`response, this`listen, this`speak, this`chatHistory, this`message, this`spoken, this`exchanges
      ensures HistoryValid()
      ensures Commits(question, answer)
    {
      response := answer;
      SpeakResponse();
      listen := true;
      speak := false;
      AppendHistory(question, answer);
      message := [];
    }

    /** `chatHistory += ...` and its write-back (script.js:121-122): the
        history gains exactly the block for this exchange. */
    method AppendHistory(question: string, answer: string)
      requires HistoryValid() && answer != [] && IsTrimmed(answer)
      modifies this`chatHistory, this`exchanges
      ensures HistoryValid()
      ensures chatHistory == old(chatHistory) + Entry(question, answer)
      ensures exchanges == old(exchanges) + [Exchange(question, answer)]
    {
      ghost var before := exchanges;
      HistoryAppend(chatHistory, initialHistory, before, question, answer);
      AllAnsweredAppend(before, Exchange(question, answer));
      chatHistory := chatHistory + Entry(question, answer);
      exchanges := before + [Exchange(question, answer)];
    }

    /** The request's `onreadystatechange`: only a finished (`readyState` 4)
        request with status 200 reaches `handleApiResponse`, with the question
        captured when it was sent; any other state or status changes nothing. */
    method OnReadyStateChange(sent: Pending, readyState: int, status: int, content: Option<string>)
      requires Valid() && sent in outbox
      modifies this`response, this`listen, this`speak, this`chatHistory, this`message, this`spoken, this`exchanges
      ensures Valid()
      ensures readyState == 4 && status == 200 && GeneratedResponse(content).Some? ==>
        Commits(sent.question, GeneratedResponse(content).value)
      ensures !(readyState == 4 && status == 200 && GeneratedResponse(content).Some?) ==>
        KeepsReplyState()
    {
      if readyState == 4 {
        if status == 200 {
          HandleApiResponse(content, sent.question);
        }
      }
    }
  }

  /** Toggling twice restores `recognizing`; with a recognizer, the two calls
      were one Start and one Stop, in the order the flag demands. */
  method ToggleTwice(s: Session)
    requires s.Valid()
    modifies s`recognizing, s`recognizerCalls
    ensures s.Valid() && s.recognizing == old(s.recognizing)
    ensures s.recognizerCalls == old(s.recognizerCalls) +
      (if !s.hasRecognizer then [] else if old(s.recognizing) then [Stop, Start] else [Start, Stop])
  {
    s.ToggleSpeechRecognition();
    s.ToggleSpeechRecognition();
  }

  /** One turn of the page: a capture ends, and the request it emitted (if
      any) completes in some state with some content. The whole invariant
      holds throughout. */
  method SpeechTurn(s: Session, readyState: int, status: int, content: Option<string>)
    requires s.Valid()
    modifies s`recognition, s`listen, s`response, s`shortMessage, s`outbox
    modifies s`speak, s`chatHistory, s`message, s`spoken, s`exchanges
    ensures s.Valid() && !s.recognition
  {
    var sentBefore := |s.outbox|;
    s.HandleSpeechEnd();
    if |s.outbox| > sentBefore {
      s.OnReadyStateChange(s.outbox[|s.outbox| - 1], readyState, status, content);
    }
  }

  /** A spoken question, end to end: the request it emits is answered with
      status 200, and the history gains the block for exactly that question
      and the trimmed reply. */
  method AskAndAnswer(s: Session, content: string)
    requires s.Valid() && s.message != [] && HasCredential(s.apiKey) && Trim(content) != []
    modifies s`recognition, s`listen, s`response, s`shortMessage, s`outbox
    modifies s`speak, s`chatHistory, s`message, s`spoken, s`exchanges
    ensures s.Valid() && !s.recognition && s.listen && s.message == []
    ensures s.response == Trim(content) && s.spoken == old(s.spoken) + [Trim(content)]
    ensures s.chatHistory == old(s.chatHistory) + Entry(old(s.message), Trim(content))
  {
    var question := s.message;
    var answer := Trim(content);
    ghost var history, spoken := s.chatHistory, s.spoken;
    EmittedQuestion(s.apiKey, s.role, question);
    s.HandleSpeechEnd();
    assert s.chatHistory == history && s.spoken == spoken;
    var sent := s.outbox[|s.outbox| - 1];
    assert sent.question == question;
    assert GeneratedResponse(Some(content)) == Some(answer);
    s.OnReadyStateChange(sent, 4, 200, Some(content));
    assert s.chatHistory == history + Entry(question, answer);
  }

  /** A spoken question whose request completes with any status but 200: the
      reply state, the history included, stays as it was. */
  method AskAndFail(s: Session, status: int, content: Option<string>)
    requires s.Valid() && s.message != [] && HasCredential(s.apiKey)
    requires status != 200
    modifies s`recognition, s`listen, s`response, s`shortMessage, s`outbox
    modifies s`speak, s`chatHistory, s`message, s`spoken, s`exchanges
    ensures !s.recognition && !s.listen && s.response == []
    ensures s.message == old(s.message) && s.chatHistory == old(s.chatHistory)
    ensures |s.outbox| == |old(s.outbox)| + 1
  {
    EmittedQuestion(s.apiKey, s.role, s.message);
    s.HandleSpeechEnd();
    assert !s.listen && s.response == [] && |s.outbox| == |old(s.outbox)| + 1;
    s.OnReadyStateChange(s.outbox[|s.outbox| - 1], 4, status, content);
  }

  /** Without an API key, ending a capture sends nothing. */
  method AskWithoutKey(s: Session)
    requires s.Valid() && !HasCredential(s.apiKey)
    modifies s`recognition, s`listen, s`response, s`shortMessage, s`outbox
    ensures s.outbox == old(s.outbox) && !s.recognition
  {
    EmittedGuard(s.apiKey, s.role, s.message);
    s.HandleSpeechEnd();
  }
}
