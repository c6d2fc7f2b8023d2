/**
 * The generators that ask for every question type at once: the loop in the
 * Streamlit app's `main` and the Flask service's `/fetch-content` and
 * `/generate-questions` routes. Each chunk is paired with the model's raw
 * output for it; the output is not split at `<sep>` here.
 */
module AllTypesGen {
  import opened Common
  import opened Text
  import opened Articles
  import Chunking
  import QuestionGen

  /** The keys of the result, in the order the loops visit them. */
  const QuestionTypes: seq<string> := ["mcq", "True_or_false", "short_qa", "fill_in_the_blanks"]

  /** `max_sentences_per_chunk` at the `/fetch-content` call site. */
  const ChunkSize: nat := 3

  /** A (context, generated text) pair. */
  type Pair = (string, string)

  /** How many chunks `chunks[:n]` keeps. */
  function SelectedCount(chunkCount: nat, n: int): (c: nat)
    ensures c <= chunkCount
  {
    if n >= 0 then Min(n, chunkCount) else Max(0, chunkCount + n)
  }

  /**
   * `{q_type: [] for q_type in question_types}` filled by the loop over
   * `chunks[:num_questions]`: exactly the four type keys, each holding one
   * (chunk, output) pair per selected chunk, in chunk order.
   */
  function GenerateAllTypes(chunks: seq<string>, numQuestions: int, generate: (string, string) -> string)
    : (r: map<string, seq<Pair>>)
    ensures forall t :: t in r <==> t in QuestionTypes
    ensures forall t :: t in r ==>
              && |r[t]| == SelectedCount(|chunks|, numQuestions)
              && forall i :: 0 <= i < |r[t]| ==> r[t][i] == (chunks[i], generate(t, chunks[i]))
  {
    var selected := Chunking.PyPrefix(chunks, numQuestions);
    map t | t in QuestionTypes :: Chunking.ForEachChunk(selected, chunk => (chunk, generate(t, chunk)))
  }

  /** Python truthiness of an optional string field: present and non-empty. */
  predicate Truthy(field: Option<string>) {
    field.Some? && field.value != ""
  }

  /**
   * This service's failure test on scraped text: "Failed" or "Error
   * occurred" anywhere in it.
   */
  function FetchFailed(content: string): (failed: bool)
    ensures failed <==> (exists j :: OccursAt(content, "Failed", j)) || (exists j :: OccursAt(content, "Error occurred", j))
  {
    Contains(content, "Failed") || Contains(content, "Error occurred")
  }

  /**
   * The service's test is broader than the generator script's: whatever the
   * script rejects, the service rejects too, and a text containing only
   * "Failed" is rejected by the service alone.
   */
  lemma FetchFailedIsBroader(content: string)
    ensures QuestionGen.ScrapeFailed(content) ==> FetchFailed(content)
    ensures FetchFailed("Failed") && !QuestionGen.ScrapeFailed("Failed")
  {
    if j :| OccursAt(content, QuestionGen.RetrieveFailure, j) {
      assert content[j..j + 6] == content[j..j + |QuestionGen.RetrieveFailure|][..6];
      assert OccursAt(content, "Failed", j);
    }
    assert OccursAt("Failed", "Failed", 0);
  }

  /**
   * On a known pair whose scrape passes this service's test, `/fetch-content`
   * returns the very chunks the generator script would ask questions about,
   * and the script's own test passes too.
   */
  lemma FetchAgreesWithGenerator(category: string, topic: string, scrape: string -> string, tokenize: string -> seq<string>)
    requires KnownPair(category, topic)
    requires !FetchFailed(scrape(Urls[category][topic]))
    ensures FetchContent(Some(category), Some(topic), scrape, tokenize)
              == Ok(QuestionGen.ArticleChunks(scrape(Urls[category][topic]), tokenize))
    ensures !QuestionGen.ScrapeFailed(scrape(Urls[category][topic]))
  {
    var content := scrape(Urls[category][topic]);
    KnownNamesAreNonEmpty(category, topic);
    FetchFailedIsBroader(content);
    assert FetchContent(Some(category), Some(topic), scrape, tokenize) == Ok(Chunking.SplitIntoChunks(tokenize(content), ChunkSize));
  }

  /**
   * `/fetch-content`: the chunks of the article for (category, topic), or an
   * error body sent with status 400 — "Invalid category or topic" for a
   * missing, empty or unknown pair, the scraped text itself when it reports
   * a failure.
   */
  function FetchContent(category: Option<string>, topic: Option<string>,
                        scrape: string -> string, tokenize: string -> seq<string>): (r: Result<seq<string>, string>)
    ensures !(Truthy(category) && Truthy(topic) && KnownPair(category.value, topic.value)) ==>
              r == Err("Invalid category or topic")
    ensures Truthy(category) && Truthy(topic) && KnownPair(category.value, topic.value) ==>
              var content := scrape(Urls[category.value][topic.value]);
              && (FetchFailed(content) ==> r == Err(content))
              && (!FetchFailed(content) ==> r == Ok(Chunking.SplitIntoChunks(tokenize(content), ChunkSize)))
  {
    if Truthy(category) && Truthy(topic) && category.value in Urls && topic.value in Urls[category.value] then
      var content := scrape(Urls[category.value][topic.value]);
      if FetchFailed(content) then Err(content)
      else Ok(Chunking.SplitIntoChunks(tokenize(content), ChunkSize))
    else
      Err("Invalid category or topic")
  }

  /**
   * `/generate-questions`: 400 "Missing question type or content chunks"
   * when `question_type` is missing or empty or there are no chunks, the
   * four-type map otherwise. `num_questions` defaults to 1; `question_type`
   * is only checked, every type is generated.
   */
  function GenerateQuestionsRoute(questionType: Option<string>, numQuestions: Option<int>, chunks: Option<seq<string>>,
                                  generate: (string, string) -> string): (r: Result<map<string, seq<Pair>>, string>)
    ensures r.Err? <==> !Truthy(questionType) || chunks.GetOr([]) == []
    ensures r.Err? ==> r.error == "Missing question type or content chunks"
    ensures r.Ok? ==> chunks.Some? && r.value == GenerateAllTypes(chunks.value, numQuestions.GetOr(1), generate)
  {
    if !Truthy(questionType) || chunks.GetOr([]) == [] then Err("Missing question type or content chunks")
    else Ok(GenerateAllTypes(chunks.value, numQuestions.GetOr(1), generate))
  }

  /** Without `num_questions` a valid request gets exactly one pair per type, for the first chunk. */
  lemma DefaultIsOneQuestion(questionType: Option<string>, chunks: Option<seq<string>>, generate: (string, string) -> string)
    requires Truthy(questionType) && chunks.Some? && chunks.value != []
    ensures var r := GenerateQuestionsRoute(questionType, None, chunks, generate);
            && r.Ok?
            && forall t :: t in r.value ==> r.value[t] == [(chunks.value[0], generate(t, chunks.value[0]))]
  {
    var r := GenerateQuestionsRoute(questionType, None, chunks, generate);
    forall t | t in r.value
      ensures r.value[t] == [(chunks.value[0], generate(t, chunks.value[0]))]
    {
      assert |r.value[t]| == 1;
    }
  }
}
