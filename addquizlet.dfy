/**
 * `/addquizlet` (src/commands/addquizlet.js): import a question set from a
 * Quizlet flash-card set.
 *
 * The browser session that loads the page is outside the model: what the
 * page held is the input `Scrape`, the term cells on either side, and the
 * clean-up the page is meant to apply to each cell (`removeWhiteSpace`, then
 * `replaceLineBreaks`) is the parameter `clean`. As written, that clean-up
 * cannot run inside the page; `ScrapeSetAsWritten` states what the page
 * then returns, and the command uses the intended conversion `ScrapeSet`.
 */
module AddQuizlet {
  import opened Types
  import opened Whitespace
  import opened QuestionSets
  import opened ImportGuards
  import Urls

  const MaxTerms: nat := 1000

  /** The term cells found on the page, or a failure of the browser session. */
  datatype Scrape = ScrapeError | Terms(questions: seq<string>, answers: seq<string>)

  datatype QuizletRejection =
    | Guard(reason: GuardRejection)
    | NoSetId
    | RetrieveFailed
    | Unresolved

  datatype QuizletReply =
    | Rejected(reason: QuizletRejection)
    | Uploaded(title: string, description: string, questions: seq<Question>)

  /** One term pair as a question with its single answer; `flip` swaps the two sides. */
  function TermQuestion(term: string, definition: string, flip: bool): Question {
    if flip then Question(definition, [term], 1, None) else Question(term, [definition], 1, None)
  }

  /** The page's `map` over the term pairs, in order. */
  function TermsToQuestions(qs: seq<string>, ans: seq<string>, flip: bool, clean: string -> string): (r: seq<Question>)
    requires |ans| == |qs|
    ensures |r| == |qs|
    ensures forall i :: 0 <= i < |qs| ==> r[i] == TermQuestion(clean(qs[i]), clean(ans[i]), flip)
  {
    if qs == [] then [] else [TermQuestion(clean(qs[0]), clean(ans[0]), flip)] + TermsToQuestions(qs[1..], ans[1..], flip, clean)
  }

  /** `scrapeSet`: nothing when the set is too large or the two sides differ in length. */
  function ScrapeSet(qs: seq<string>, ans: seq<string>, flip: bool, clean: string -> string): (r: Option<seq<Question>>)
    ensures r.None? <==> |qs| > MaxTerms || |ans| != |qs|
  {
    if |qs| > MaxTerms || |ans| != |qs| then None else Some(TermsToQuestions(qs, ans, flip, clean))
  }

  /** What the page's function hands back as written: `null`, an exception, or the questions. */
  datatype PageOutcome = PageNull | PageThrows | PageQuestions(questions: seq<Question>)

  /**
   * The page's function as written. The script injected into the page is
   * the source text of `removeWhiteSpace`, which reads `spaceRegex`, a
   * constant of src/helpers/helpers.js the page does not have, followed by
   * `undefined` for `replaceLineBreaks`, which src/helpers/helpers.js does
   * not export. Cleaning the first term therefore throws.
   */
  function ScrapeSetAsWritten(qs: seq<string>, ans: seq<string>): (r: PageOutcome)
    ensures r.PageNull? <==> |qs| > MaxTerms || |ans| != |qs|
    ensures r.PageQuestions? <==> qs == [] && ans == []
    ensures r.PageQuestions? ==> r.questions == []
  {
    if |qs| > MaxTerms || |ans| != |qs| then PageNull
    else if qs != [] then PageThrows
    else PageQuestions([])
  }

  /**
   * On every set of 1 to 1000 terms with both sides of equal length the
   * page as written throws, so the command replies that retrieving failed,
   * where the intended conversion yields one question per term.
   */
  lemma ScrapeAsWrittenLosesTerms(qs: seq<string>, ans: seq<string>, flip: bool, clean: string -> string)
    requires 1 <= |qs| <= MaxTerms && |ans| == |qs|
    ensures ScrapeSetAsWritten(qs, ans) == PageThrows
    ensures ScrapeSet(qs, ans, flip, clean).Some? && |ScrapeSet(qs, ans, flip, clean).value| == |qs|
  {
  }

  /**
   * Every converted question asks for one answer, has exactly one, and no
   * image; with `flip` the sides trade places.
   */
  lemma {:induction false} ConvertedShape(qs: seq<string>, ans: seq<string>, flip: bool, clean: string -> string, i: nat)
    requires |ans| == |qs| && i < |qs|
    ensures var q := TermsToQuestions(qs, ans, flip, clean)[i];
      && q.multi == 1 && |q.answer| == 1 && q.img == None
      && q.question == clean(if flip then ans[i] else qs[i])
      && q.answer[0] == clean(if flip then qs[i] else ans[i])
  {
  }

  /** Flipping is the same as scraping a set whose two sides are exchanged. */
  lemma {:induction false} FlipSwapsSides(qs: seq<string>, ans: seq<string>, clean: string -> string)
    ensures ScrapeSet(qs, ans, true, clean) == ScrapeSet(ans, qs, false, clean)
    decreases |qs|
  {
    if |qs| <= MaxTerms && |ans| == |qs| {
      FlipSwapsConvert(qs, ans, clean);
    }
  }

  lemma {:induction false} FlipSwapsConvert(qs: seq<string>, ans: seq<string>, clean: string -> string)
    requires |ans| == |qs|
    ensures TermsToQuestions(qs, ans, true, clean) == TermsToQuestions(ans, qs, false, clean)
    decreases |qs|
  {
    if qs != [] {
      FlipSwapsConvert(qs[1..], ans[1..], clean);
    }
  }

  /**
   * The whole command. Besides the reply it gives the address the page was
   * loaded from, when it got that far.
   */
  method AddQuizletCommand(titleIn: string, descriptionIn: string, url: string, currSets: seq<string>,
                           isUrl: bool, flip: bool, scrape: Scrape, clean: string -> string)
    returns (reply: QuizletReply, fetched: Option<string>)
    ensures var guard := Check(titleIn, descriptionIn, currSets, isUrl);
      && (guard.Some? ==> reply == Rejected(Guard(guard.value)) && fetched == None)
      && (guard.None? && Urls.QuizletIds(url).None? ==> reply == Rejected(NoSetId) && fetched == None)
    ensures fetched.Some? <==> Check(titleIn, descriptionIn, currSets, isUrl).None? && Urls.QuizletIds(url).Some?
    ensures fetched.Some? ==> fetched.value == Urls.QuizletUrl(Urls.QuizletIds(url).value.0, Urls.QuizletIds(url).value.1)
    ensures fetched.Some? && scrape.ScrapeError? ==> reply == Rejected(RetrieveFailed)
    ensures reply.Uploaded? <==> fetched.Some? && scrape.Terms? && ScrapeSet(scrape.questions, scrape.answers, flip, clean).Some?
    ensures reply.Uploaded? ==>
      && reply.title == RemoveWhiteSpace(titleIn)
      && reply.description == RemoveWhiteSpace(descriptionIn)
      && reply.questions == ScrapeSet(scrape.questions, scrape.answers, flip, clean).value
  {
    fetched := None;
    var title := RemoveWhiteSpace(titleIn);
    var description := RemoveWhiteSpace(descriptionIn);
    var guard := FirstFailure(title, description, currSets, isUrl);
    if guard.Some? {
      return Rejected(Guard(guard.value)), None;
    }
    var ids := Urls.QuizletIds(url);
    if ids.None? {
      return Rejected(NoSetId), None;
    }
    fetched := Some(Urls.QuizletUrl(ids.value.0, ids.value.1));
    if scrape.ScrapeError? {
      return Rejected(RetrieveFailed), fetched;
    }
    var questionSet := ScrapeSet(scrape.questions, scrape.answers, flip, clean);
    if questionSet.None? {
      return Rejected(Unresolved), fetched;
    }
    reply := Uploaded(title, description, questionSet.value);
  }
}
