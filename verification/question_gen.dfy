/**
 * `generate_questions` of the command-line generator that the server runs:
 * look up the article for (topic, sub-topic), scrape it, chunk it three
 * sentences at a time, and ask the question model once per chunk for at
 * most `numQuestions` chunks, splitting each answer at the `<sep>` token.
 *
 * The web scrape, the sentence tokenizer and the T5 model are opaque: they
 * are the parameters `scrape`, `tokenize` and `generate`.
 */
module QuestionGen {
  import opened Common
  import opened Text
  import Chunking
  import opened Articles

  /** The token the model puts between a question and its answer. */
  const SepToken: string := "<sep>"

  /** `max_sentences_per_chunk` at the call site. */
  const ChunkSize: nat := 3

  /** One entry of the printed `questions` list. */
  datatype GeneratedQuestion = GeneratedQuestion(questionType: string, question: string, answer: string, context: string)

  /** The start of the scraper's text for a response that is not 200. */
  const RetrieveFailure: string := "Failed to retrieve content"

  /** The start of the scraper's text for an exception. */
  const ErrorOccurred: string := "Error occurred"

  /**
   * The failure test on the scraped text: either failure text anywhere in
   * it, so an article that merely mentions one counts as a failure too.
   */
  function ScrapeFailed(context: string): (failed: bool)
    ensures failed <==> (exists j :: OccursAt(context, RetrieveFailure, j)) || (exists j :: OccursAt(context, ErrorOccurred, j))
  {
    Contains(context, RetrieveFailure) || Contains(context, ErrorOccurred)
  }

  /** A text that starts with `prefix` contains it. */
  lemma StartContains(prefix: string, rest: string)
    ensures Contains(prefix + rest, prefix)
  {
    assert OccursAt(prefix + rest, prefix, 0);
  }

  /** Both texts the scraper returns on failure are recognised, whatever status code or exception they carry. */
  lemma ScraperFailuresAreRecognised(status: string, e: string)
    ensures ScrapeFailed(RetrieveFailure + ". HTTP Status Code: " + status)
    ensures ScrapeFailed(ErrorOccurred + ": " + e)
  {
    StartContains(RetrieveFailure, ". HTTP Status Code: " + status);
    assert RetrieveFailure + ". HTTP Status Code: " + status == RetrieveFailure + (". HTTP Status Code: " + status);
    StartContains(ErrorOccurred, ": " + e);
    assert ErrorOccurred + ": " + e == ErrorOccurred + (": " + e);
  }

  /**
   * The `<sep>` split of one model output. With a separator the question is
   * the stripped text before the first `<sep>` and the answer the stripped
   * text between the first and the second; without one the question is the
   * whole stripped output and the answer is empty.
   */
  function ParseQuestionAnswer(raw: string): (qa: (string, string))
    ensures Contains(raw, SepToken) ==>
              qa == (Strip(Before(raw, SepToken)), Strip(Before(After(raw, SepToken), SepToken)))
    ensures !Contains(raw, SepToken) ==> qa == (Strip(raw), "")
    ensures !Contains(qa.0, SepToken)
  {
    var parts := Split(raw, SepToken);
    SplitHead(raw, SepToken);
    SplitPiecesAreSeparatorFree(raw, SepToken, 0);
    StripKeepsAbsence(parts[0], SepToken);
    if |parts| >= 2 then (Strip(parts[0]), Strip(parts[1])) else (Strip(raw), "")
  }

  /** Stripping cannot create an occurrence of a pattern. */
  lemma StripKeepsAbsence(s: string, pat: string)
    ensures !Contains(s, pat) ==> !Contains(Strip(s), pat)
  {
    var r := Strip(s);
    var lead :| TrimOf(s, r, lead);
    if !Contains(s, pat) {
      InfixKeepsAbsence(s, pat, lead, lead + |r|, r);
    }
  }

  /** The entry the loop appends for one chunk. */
  function QuestionFor(questionType: string, chunk: string, generate: (string, string) -> string): (q: GeneratedQuestion)
    ensures q.context == chunk && q.questionType == questionType
    ensures (q.question, q.answer) == ParseQuestionAnswer(generate(questionType, chunk))
  {
    var qa := ParseQuestionAnswer(generate(questionType, chunk));
    GeneratedQuestion(questionType, qa.0, qa.1, chunk)
  }

  /** The chunks of a successfully scraped article. */
  function ArticleChunks(context: string, tokenize: string -> seq<string>): seq<string> {
    Chunking.SplitIntoChunks(tokenize(context), ChunkSize)
  }

  /** `generate_questions(topic, subTopic, questionType, numQuestions)`: the `questions` list it returns. */
  function GenerateQuestions(topic: string, subTopic: string, questionType: string, numQuestions: int,
                             scrape: string -> string, tokenize: string -> seq<string>,
                             generate: (string, string) -> string): (r: seq<GeneratedQuestion>)
    ensures !KnownPair(topic, subTopic) ==> r == []
    ensures KnownPair(topic, subTopic) && ScrapeFailed(scrape(Urls[topic][subTopic])) ==> r == []
    ensures KnownPair(topic, subTopic) && !ScrapeFailed(scrape(Urls[topic][subTopic])) ==>
              var chunks := ArticleChunks(scrape(Urls[topic][subTopic]), tokenize);
              && |r| == (if numQuestions >= 0 then Min(numQuestions, |chunks|) else Max(0, |chunks| + numQuestions))
              && forall i :: 0 <= i < |r| ==> r[i] == QuestionFor(questionType, chunks[i], generate)
  {
    match LookupUrl(topic, subTopic)
    case None => []
    case Some(url) =>
      var context := scrape(url);
      if ScrapeFailed(context) then []
      else Chunking.ForEachChunk(Chunking.PyPrefix(ArticleChunks(context, tokenize), numQuestions),
                                  chunk => QuestionFor(questionType, chunk, generate))
  }

  /** A pair outside the table, or a failed scrape, produces the same empty list whatever the model would say. */
  lemma NothingGeneratedOnMiss(topic: string, subTopic: string, questionType: string, numQuestions: int,
                               scrape: string -> string, tokenize: string -> seq<string>,
                               generate1: (string, string) -> string, generate2: (string, string) -> string)
    requires !KnownPair(topic, subTopic) || ScrapeFailed(scrape(Urls[topic][subTopic]))
    ensures GenerateQuestions(topic, subTopic, questionType, numQuestions, scrape, tokenize, generate1) == []
    ensures GenerateQuestions(topic, subTopic, questionType, numQuestions, scrape, tokenize, generate1)
         == GenerateQuestions(topic, subTopic, questionType, numQuestions, scrape, tokenize, generate2)
  {
  }

  /**
   * Python's slice at line 265 with a negative count: `numQuestions = -1`
   * on an article of three chunks asks the model twice, for all but the
   * last chunk.
   */
  lemma NegativeCountDropsFromTheEnd(chunks: seq<string>, questionType: string, generate: (string, string) -> string)
    requires |chunks| == 3
    ensures var r := Chunking.ForEachChunk(Chunking.PyPrefix(chunks, -1), chunk => QuestionFor(questionType, chunk, generate));
            |r| == 2 && r[0].context == chunks[0] && r[1].context == chunks[1]
  {
  }
}
