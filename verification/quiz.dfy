/**
 * The quiz page: four select fields, a submit that checks them, posts them
 * to `/api/generate-questions` and normalises the questions of the reply
 * for display, and the topic select's reset of the sub-topic. The network
 * round trip is the opaque parameter `fetch`.
 */
module Quiz {
  import opened Common
  import opened JsValues

  /** A displayed question. `context` is present only on entries that were not objects. */
  datatype ParsedQuestion = ParsedQuestion(question: JsValue, answer: JsValue, context: Option<string>)

  /** The component's state. */
  datatype QuizState = QuizState(topic: string, subTopic: string, questionType: string, numQuestions: string,
                                 questions: seq<ParsedQuestion>, error: string)

  /** The sub-topics the page offers under each topic, in select order. */
  const OsSubTopics: seq<string> := [
    "OS Basics", "Structure of OS", "Types of OS", "Process Management", "CPU Scheduling", "Threads",
    "Process Synchronization", "Critical Section Problem", "Deadlocks", "Memory Management",
    "Page Replacement", "Storage Management"]
  const DbmsSubTopics: seq<string> := [
    "Basics of DBMS", "ER Model", "Relational Model", "Relational Algebra", "Functional Dependencies",
    "Normalisation", "TnC Control", "Indexing, B and B+ Trees", "File Organisation"]
  const JavaSubTopics: seq<string> := ["Data Types", "OOPs Concepts", "Exception Handling"]
  const JavaScriptSubTopics: seq<string> := ["Data Types", "Functions", "Loops"]

  /** The sub-topics the page offers for each topic. */
  const TopicMapping: map<string, seq<string>> := map[
    "OS" := OsSubTopics,
    "DBMS" := DbmsSubTopics,
    "Java" := JavaSubTopics,
    "JavaScript" := JavaScriptSubTopics
  ]

  /** The selects can produce this topic and sub-topic. */
  predicate Offered(topic: string, subTopic: string) {
    topic in TopicMapping && subTopic in TopicMapping[topic]
  }

  /** The page as first rendered: everything empty. */
  const Initial: QuizState := QuizState("", "", "", "", [], "")

  /** The JSON body of the request. No `Authorization` header is sent. */
  datatype QuizRequest = QuizRequest(topic: string, subTopic: string, questionType: string, numQuestions: string)

  /**
   * How `fetch` and `response.json()` ended: a rejected fetch with its
   * message, or a response with its `ok` flag and its body, parsed or the
   * parse error's message.
   */
  datatype FetchResult = NetworkError(message: string) | HttpReply(ok: bool, json: Result<JsValue, string>)

  /** The state after a submit, and the request it sent, if any. */
  datatype SubmitResult = SubmitResult(state: QuizState, sent: Option<QuizRequest>)

  const SelectAll := "Please select all fields"
  const FetchFailed := "Failed to fetch questions"
  const BadFormat := "No questions generated or invalid data format."
  const NoQuestionText := "No question text available"
  const NoAnswer := "No answer available"
  const NoContext := "No context available"

  /** The `parsedQuestions` callback for one entry of `data.questions`. */
  function ParseEntry(q: JsValue): (p: ParsedQuestion)
    ensures Truthy(p.question) && Truthy(p.answer)
    ensures IsObjectLike(q) ==>
              && p.question == Or(Member(q, "question"), Str(NoQuestionText))
              && p.answer == Or(Member(q, "answer"), Str(NoAnswer))
              && p.context.None?
    ensures !IsObjectLike(q) ==> p == ParsedQuestion(Str(NoQuestionText), Str(NoAnswer), Some(NoContext))
  {
    if IsObjectLike(q) then
      ParsedQuestion(Or(Member(q, "question"), Str(NoQuestionText)), Or(Member(q, "answer"), Str(NoAnswer)), None)
    else
      ParsedQuestion(Str(NoQuestionText), Str(NoAnswer), Some(NoContext))
  }

  /** `data.questions.map(...)`: one parsed entry per raw entry, in order. */
  function ParseEntries(qs: seq<JsValue>): (r: seq<ParsedQuestion>)
    ensures |r| == |qs|
    ensures forall i :: 0 <= i < |qs| ==> r[i] == ParseEntry(qs[i])
  {
    if |qs| == 0 then [] else ParseEntries(qs[..|qs| - 1]) + [ParseEntry(qs[|qs| - 1])]
  }

  /** The fields are all selected: the negation of `!topic || !subTopic || !questionType || !numQuestions`. */
  function Complete(s: QuizState): (b: bool)
    ensures b <==> Truthy(Str(s.topic)) && Truthy(Str(s.subTopic)) && Truthy(Str(s.questionType)) && Truthy(Str(s.numQuestions))
  {
    s.topic != "" && s.subTopic != "" && s.questionType != "" && s.numQuestions != ""
  }

  /** The request a complete form sends. */
  function RequestOf(s: QuizState): QuizRequest {
    QuizRequest(s.topic, s.subTopic, s.questionType, s.numQuestions)
  }

  /** The error and question list a reply leaves, starting from the cleared error. */
  function ApplyReply(questions: seq<ParsedQuestion>, reply: FetchResult): (r: (seq<ParsedQuestion>, string))
    ensures r.1 == "" ==> reply.HttpReply? && reply.ok && reply.json.Ok?
    ensures r.1 != "" ==> r.0 == questions
  {
    match reply
    case NetworkError(message) => (questions, "Error fetching data: " + message)
    case HttpReply(ok, json) =>
      if !ok then (questions, FetchFailed)
      else
        match json
        case Err(message) => (questions, "Error fetching data: " + message)
        case Ok(data) =>
          if Truthy(data) && Member(data, "questions").Array? then (ParseEntries(Member(data, "questions").elems), "")
          else (questions, BadFormat)
  }

  /**
   * `handleSubmit`. The error is cleared first. With a field empty the
   * error becomes "Please select all fields" and nothing is sent. Otherwise
   * the fields are sent; a failed fetch, a non-ok response, a body without
   * a `questions` array and a body that does not parse each set their own
   * error and keep the displayed questions; a good body replaces them.
   * The fields themselves never change.
   */
  function Submit(s: QuizState, fetch: QuizRequest -> FetchResult): (r: SubmitResult)
    ensures r.state.topic == s.topic && r.state.subTopic == s.subTopic
    ensures r.state.questionType == s.questionType && r.state.numQuestions == s.numQuestions
    ensures r.sent.None? <==> !Complete(s)
    ensures !Complete(s) ==> r.state == s.(error := SelectAll)
    ensures r.sent.Some? ==> r.sent.value == RequestOf(s)
    ensures Complete(s) && fetch(RequestOf(s)).HttpReply? && !fetch(RequestOf(s)).ok ==>
              r.state.error == FetchFailed && r.state.questions == s.questions
    ensures Complete(s) && fetch(RequestOf(s)).NetworkError? ==>
              r.state.error == "Error fetching data: " + fetch(RequestOf(s)).message && r.state.questions == s.questions
    ensures Complete(s) && fetch(RequestOf(s)).HttpReply? && fetch(RequestOf(s)).ok && fetch(RequestOf(s)).json.Err? ==>
              r.state.error == "Error fetching data: " + fetch(RequestOf(s)).json.error && r.state.questions == s.questions
    ensures Complete(s) && fetch(RequestOf(s)).HttpReply? && fetch(RequestOf(s)).ok && fetch(RequestOf(s)).json.Ok? ==>
              var data := fetch(RequestOf(s)).json.value;
              && (Truthy(data) && Member(data, "questions").Array? ==>
                    r.state.error == "" && r.state.questions == ParseEntries(Member(data, "questions").elems))
              && (!(Truthy(data) && Member(data, "questions").Array?) ==>
                    r.state.error == BadFormat && r.state.questions == s.questions)
  {
    var cleared := s.(error := "");
    if !Complete(s) then SubmitResult(cleared.(error := SelectAll), None)
    else
      var req := RequestOf(s);
      var after := ApplyReply(s.questions, fetch(req));
      SubmitResult(cleared.(questions := after.0, error := after.1), Some(req))
  }

  /** Whatever the previous error was, it does not survive a submit: the new error depends only on the fields and the reply. */
  lemma SubmitForgetsOldError(s: QuizState, oldError: string, fetch: QuizRequest -> FetchResult)
    ensures Submit(s.(error := oldError), fetch).state.error == Submit(s, fetch).state.error
  {
  }

  /** The topic select: the new topic, and the sub-topic reset to "". */
  function OnTopicChange(s: QuizState, topic: string): (r: QuizState)
    ensures r.topic == topic && r.subTopic == ""
    ensures r.questionType == s.questionType && r.numQuestions == s.numQuestions
    ensures r.questions == s.questions && r.error == s.error
  {
    s.(topic := topic, subTopic := "")
  }

  /** Right after a topic change the form is incomplete, so a submit sends nothing. */
  lemma TopicChangeBlocksSubmit(s: QuizState, topic: string, fetch: QuizRequest -> FetchResult)
    ensures Submit(OnTopicChange(s, topic), fetch).sent.None?
    ensures Submit(OnTopicChange(s, topic), fetch).state.error == SelectAll
  {
  }
}
