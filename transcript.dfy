/** The answer `handleApiResponse` extracts (script.js:114-116) and the
    question/answer blocks it appends to the chat history (script.js:121). */
module Transcript {
  import opened Wrappers
  import opened Text

  /** `content?.trim()` followed by the truthiness test of script.js:116. An
      answer is never empty and never has white space at its ends. */
  function GeneratedResponse(content: Option<string>): (r: Option<string>)
    ensures r.Some? ==> r.value != [] && IsTrimmed(r.value)
  {
    match content
    case None => None
    case Some(c) => if Trim(c) == [] then None else Some(Trim(c))
  }

  /** There is an answer exactly when the reply has a content with at least
      one character that is not white space, and the answer is that content
      with only its surrounding white space removed. */
  lemma GeneratedResponseCases(content: Option<string>)
    ensures GeneratedResponse(content).None? <==> content.None? || AllWhitespace(content.value)
    ensures GeneratedResponse(content).Some? ==>
      StripsTo(content.value, TrimOffset(content.value), GeneratedResponse(content).value)
  {
    if content.Some? {
      TrimEmpty(content.value);
      TrimStrips(content.value);
    }
  }

  /** A reply whose content has no white space at its ends is taken verbatim. */
  lemma GeneratedResponseVerbatim(c: string)
    requires c != [] && IsTrimmed(c)
    ensures GeneratedResponse(Some(c)) == Some(c)
  {
    TrimTrimmed(c);
  }

  /** One committed question and its answer. */
  datatype Exchange = Exchange(question: string, answer: string)

  const QuestionLabel: string := "\nQuestion: "
  const AnswerLabel: string := "\nAnswer: "

  /** Every committed answer is non-empty and trimmed. */
  ghost predicate AllAnswered(exchanges: seq<Exchange>) {
    forall i :: 0 <= i < |exchanges| ==> exchanges[i].answer != [] && IsTrimmed(exchanges[i].answer)
  }

  lemma AllAnsweredAppend(exchanges: seq<Exchange>, e: Exchange)
    requires AllAnswered(exchanges) && e.answer != [] && IsTrimmed(e.answer)
    ensures AllAnswered(exchanges + [e])
  {
    forall i | 0 <= i < |exchanges| + 1
      ensures (exchanges + [e])[i].answer != [] && IsTrimmed((exchanges + [e])[i].answer)
    {
      if i < |exchanges| { assert (exchanges + [e])[i] == exchanges[i]; }
    }
  }

  /** The block appended per answer. */
  function Entry(question: string, answer: string): string {
    QuestionLabel + question + AnswerLabel + answer + "\n"
  }

  /** The text the blocks of `exchanges` make, oldest first. */
  function Render(exchanges: seq<Exchange>): string {
    if exchanges == [] then []
    else
      var last := exchanges[|exchanges| - 1];
      Render(exchanges[..|exchanges| - 1]) + Entry(last.question, last.answer)
  }

  /** Committing one more exchange appends exactly its block. */
  lemma RenderAppend(exchanges: seq<Exchange>, e: Exchange)
    ensures Render(exchanges + [e]) == Render(exchanges) + Entry(e.question, e.answer)
  {
    assert (exchanges + [e])[..|exchanges|] == exchanges;
  }

  /** A history that is `prefix` followed by the blocks of `exchanges`,
      extended by one more block, is `prefix` followed by the blocks of the
      extended exchanges. */
  lemma HistoryAppend(history: string, prefix: string, exchanges: seq<Exchange>, question: string, answer: string)
    requires history == prefix + Render(exchanges)
    ensures history + Entry(question, answer) == prefix + Render(exchanges + [Exchange(question, answer)])
  {
    RenderAppend(exchanges, Exchange(question, answer));
  }

  /** The history only grows: an older transcript is a prefix of a newer one. */
  lemma {:induction false} RenderPrefix(older: seq<Exchange>, newer: seq<Exchange>)
    requires older <= newer
    ensures Render(older) <= Render(newer)
  {
    if |older| < |newer| {
      var shorter := newer[..|newer| - 1];
      assert older <= shorter;
      RenderPrefix(older, shorter);
    } else {
      assert older == newer;
    }
  }
}
