/**
 * How the pieces meet: the generator's printed result as the server reads
 * it, the server's replies as the two pages receive them, and the
 * registration and login flow.
 */
module EndToEnd {
  import opened Common
  import opened JsValues
  import opened ServerStore
  import opened Auth
  import opened Accounts
  import opened GenerateHandlers
  import opened Listing
  import History
  import Quiz
  import QuestionGen
  import Articles

  /** One generated question as `json.dumps` prints it. */
  function EntryJson(q: QuestionGen.GeneratedQuestion): JsValue {
    Object(map["questionType" := Str(q.questionType), "question" := Str(q.question),
               "answer" := Str(q.answer), "context" := Str(q.context)])
  }

  /** The generator's printed result, `{"questions": [...]}`. */
  function GeneratorJson(qs: seq<QuestionGen.GeneratedQuestion>): (v: JsValue)
    ensures !Nullish(v) && Member(v, "questions").Array? && |Member(v, "questions").elems| == |qs|
    ensures forall i :: 0 <= i < |qs| ==> Member(v, "questions").elems[i] == EntryJson(qs[i])
  {
    Object(map["questions" := Array(seq(|qs|, i requires 0 <= i < |qs| => EntryJson(qs[i])))])
  }

  /** A string as the stored field: itself, or the sentinel when it is empty. */
  function StoredText(s: string, sentinel: string): JsValue {
    if s == "" then Str(sentinel) else Str(s)
  }

  /**
   * When the command prints the generator's result and it parses back, the
   * server's step before saving succeeds and keeps one question per
   * generated one, in order, with empty strings replaced by the sentinels.
   * In particular an output without `<sep>` has an empty answer, which is
   * stored as "No answer".
   */
  lemma GeneratorOutputIsStored(stdout: string, qs: seq<QuestionGen.GeneratedQuestion>, parse: string -> Option<JsValue>)
    requires parse(stdout) == Some(GeneratorJson(qs))
    ensures var g := Interpret(ExecCompleted(stdout), parse);
            && g.Parsed?
            && |g.questions| == |qs|
            && forall i :: 0 <= i < |qs| ==>
                 g.questions[i] == StoredQuestion(StoredText(qs[i].question, "No question"),
                                                  StoredText(qs[i].answer, "No answer"),
                                                  StoredText(qs[i].context, "No context"))
  {
    var v := GeneratorJson(qs);
    var g := Interpret(ExecCompleted(stdout), parse);
    forall i | 0 <= i < |qs|
      ensures g.questions[i] == StoredQuestion(StoredText(qs[i].question, "No question"),
                                               StoredText(qs[i].answer, "No answer"),
                                               StoredText(qs[i].context, "No context"))
    {
      var e := EntryJson(qs[i]);
      assert Member(v, "questions").elems[i] == e;
      assert Member(e, "question") == Str(qs[i].question);
      assert Member(e, "answer") == Str(qs[i].answer);
      assert Member(e, "context") == Str(qs[i].context);
    }
  }

  /** What the server stores for the generator's questions passes the String cast: every field is a string. */
  lemma GeneratedFieldsCast(stdout: string, qs: seq<QuestionGen.GeneratedQuestion>, parse: string -> Option<JsValue>)
    requires parse(stdout) == Some(GeneratorJson(qs))
    ensures Interpret(ExecCompleted(stdout), parse).Parsed?
    ensures AllCastable(Interpret(ExecCompleted(stdout), parse).questions)
  {
    GeneratorOutputIsStored(stdout, qs, parse);
  }

  /**
   * A run of the generator whose printed result parses back is saved, once,
   * as a "non-pdf" document under the token's email, and answered 200.
   */
  lemma GeneratorOutputIsSaved(st: Store, user: Payload, req: TopicRequest, qs: seq<QuestionGen.GeneratedQuestion>,
                               exec: string -> ExecOutcome, parse: string -> Option<JsValue>)
    requires user.email != ""
    requires exec(TopicCommand(req)).ExecCompleted? && parse(exec(TopicCommand(req)).stdout) == Some(GeneratorJson(qs))
    ensures var h := TopicHandler(st, user, req, exec, parse);
            && h.outcome.Reply? && h.outcome.status == 200
            && |h.store.questionDocs| == |st.questionDocs| + 1
            && h.store.questionDocs[..|st.questionDocs|] == st.questionDocs
            && h.store.questionDocs[|st.questionDocs|].email == user.email
            && h.store.questionDocs[|st.questionDocs|].sourceType == "non-pdf"
            && h.store.submissionDocs == st.submissionDocs
  {
    GeneratedFieldsCast(exec(TopicCommand(req)).stdout, qs, parse);
  }

  /** A stored question as JSON. */
  function SubmissionJson(d: Submission): JsValue {
    var base := map["questionType" := Str(d.questionType), "numQuestions" := Str(d.numQuestions),
                    "email" := Str(d.email), "sourceType" := Str(d.sourceType),
                    "questions" := Array(seq(|d.questions|, i requires 0 <= i < |d.questions| => AsJson(d.questions[i])))];
    var withTopic := if d.topic.Some? then base["topic" := Str(d.topic.value)] else base;
    Object(if d.subTopic.Some? then withTopic["subTopic" := Str(d.subTopic.value)] else withTopic)
  }

  /** A reply body as the JSON the client receives. */
  function BodyJson(b: Body): JsValue {
    match b
    case Message(text) => Object(map["message" := Str(text)])
    case LoginOk(text, token) => Object(map["message" := Str(text), "token" := Str(token)])
    case ErrorBody(error) => Object(map["error" := Str(error)])
    case Generated(result) => result
    case AuthorizedUser(text, user) => Object(map["message" := Str(text), "user" := Object(map["email" := Str(user.email)])])
    case Submissions(items) =>
      Object(map["submissions" := Array(seq(|items|, i requires 0 <= i < |items| => SubmissionJson(items[i])))])
  }

  /** What the browser's `fetch` sees of a handler's outcome; an exception the server did not handle is a failed response. */
  function AsFetchResult(o: Outcome): (f: Quiz.FetchResult)
    ensures f.HttpReply?
    ensures f.ok <==> o.Reply? && 200 <= o.status < 300
  {
    match o
    case Reply(status, body) => Quiz.HttpReply(200 <= status < 300, Ok(BodyJson(body)))
    case Unhandled(reason) => Quiz.HttpReply(false, Err(reason))
  }

  /** The server's topic request for the quiz page's request body. */
  function AsTopicRequest(r: Quiz.QuizRequest): TopicRequest {
    TopicRequest(r.topic, r.subTopic, r.questionType, r.numQuestions)
  }

  /**
   * The quiz page sends no `Authorization` header, while the generate route
   * sits behind `authenticateToken`: against this server a complete form
   * always ends with "Failed to fetch questions", the old questions still
   * shown and nothing generated or saved.
   */
  lemma QuizIsRefused(s: Quiz.QuizState, st: Store, verify: string -> Option<Payload>,
                      exec: string -> ExecOutcome, parse: string -> Option<JsValue>)
    requires Quiz.Complete(s)
    ensures var server := (r: Quiz.QuizRequest) => GenerateRoute(st, None, AsTopicRequest(r), verify, exec, parse);
            && server(Quiz.RequestOf(s)) == Handled(Reply(401, Message("Access denied. No token provided.")), st, [])
            && Quiz.Submit(s, r => AsFetchResult(server(r).outcome)).state.error == Quiz.FetchFailed
            && Quiz.Submit(s, r => AsFetchResult(server(r).outcome)).state.questions == s.questions
  {
  }

  /**
   * A successful generation shows on the page exactly the questions it
   * saved, one per entry and in order: the page and the database agree on
   * every question and answer the generator filled in, and differ only in
   * the sentinel text used for empty ones.
   */
  lemma PageAgreesWithDatabase(st: Store, user: Payload, req: TopicRequest,
                               exec: string -> ExecOutcome, parse: string -> Option<JsValue>,
                               shown: seq<Quiz.ParsedQuestion>)
    requires TopicHandler(st, user, req, exec, parse).outcome.Reply?
    requires TopicHandler(st, user, req, exec, parse).outcome.status == 200
    ensures var h := TopicHandler(st, user, req, exec, parse);
            var saved := h.effects[1].doc.questions;
            var after := Quiz.ApplyReply(shown, AsFetchResult(h.outcome));
            && after.1 == ""
            && |after.0| == |saved|
            && forall i :: 0 <= i < |saved| ==>
                 && (Truthy(after.0[i].question) && after.0[i].question != Str(Quiz.NoQuestionText) ==> after.0[i].question == saved[i].question)
                 && (Truthy(after.0[i].answer) && after.0[i].answer != Str(Quiz.NoAnswer) ==> after.0[i].answer == saved[i].answer)
  {
    var h := TopicHandler(st, user, req, exec, parse);
    var g := Interpret(exec(TopicCommand(req)), parse);
    var qs := Member(g.result, "questions").elems;
    assert h.outcome.body == Generated(g.result);
    assert Truthy(g.result);
    var after := Quiz.ApplyReply(shown, AsFetchResult(h.outcome));
    assert after.0 == Quiz.ParseEntries(qs);
    forall i | 0 <= i < |qs|
      ensures Truthy(after.0[i].question) && after.0[i].question != Str(Quiz.NoQuestionText) ==> after.0[i].question == g.questions[i].question
      ensures Truthy(after.0[i].answer) && after.0[i].answer != Str(Quiz.NoAnswer) ==> after.0[i].answer == g.questions[i].answer
    {
      assert !Nullish(qs[i]);
    }
  }

  /**
   * The full listing, as the history page splits it: for a store the
   * handlers built, the upload documents and the topic documents come back
   * exactly, each in insertion order.
   */
  lemma HistoryOfFullListing(st: Store, s: History.HistoryState)
    requires ValidStore(st)
    ensures History.FetchHistory(s, Some(ListAll(st).body)) == History.HistoryState(st.submissionDocs, st.questionDocs)
  {
    History.FilterAppend(st.submissionDocs, st.questionDocs, "pdf");
    History.FilterAppend(st.submissionDocs, st.questionDocs, "non-pdf");
    History.FilterOfUniform(st.submissionDocs, "pdf", "non-pdf");
    History.FilterOfUniform(st.questionDocs, "non-pdf", "pdf");
  }

  /**
   * The history page sends no `Authorization` header and the route that
   * answers is the caller's: the reply is a 401 message without
   * `submissions`, so the page stays as it was.
   */
  lemma HistoryIsNeverFilled(st: Store, s: History.HistoryState, verify: string -> Option<Payload>)
    ensures GetSubmissions(st, None, verify) == Reply(401, Message("No token provided"))
    ensures History.FetchHistory(s, Some(GetSubmissions(st, None, verify).body)) == s
  {
  }

  /** With the corrected caller's route, the history page shows exactly the caller's upload and topic documents. */
  lemma HistoryOfCorrectedListing(st: Store, header: Option<string>, verify: string -> Option<Payload>, s: History.HistoryState)
    requires ValidStore(st)
    requires VerifyToken(header, verify).Granted? && VerifyToken(header, verify).user.email != ""
    ensures var email := VerifyToken(header, verify).user.email;
            History.FetchHistory(s, Some(ListForUserCorrected(st, header, verify).body))
              == History.HistoryState(OwnedBy(st.submissionDocs, email), OwnedBy(st.questionDocs, email))
  {
    var email := VerifyToken(header, verify).user.email;
    var mine := OwnedBy(st.submissionDocs, email);
    var theirs := OwnedBy(st.questionDocs, email);
    OwnedByKeepsTags(st.submissionDocs, email, "pdf");
    OwnedByKeepsTags(st.questionDocs, email, "non-pdf");
    History.FilterAppend(mine, theirs, "pdf");
    History.FilterAppend(mine, theirs, "non-pdf");
    History.FilterOfUniform(mine, "pdf", "non-pdf");
    History.FilterOfUniform(theirs, "non-pdf", "pdf");
  }

  /**
   * Register, log in, and generate with the login's token: with a `verify`
   * that decodes what `sign` signed, the request is granted for the
   * registered email, and a run whose printed result parses back is saved,
   * once, as a "non-pdf" document under that email and answered 200.
   */
  lemma LoginTokenAuthorisesGeneration(st: Store, email: string, password: string, scheme: string,
                                       hash: string -> string, compare: (string, string) -> bool, sign: string -> string,
                                       verify: string -> Option<Payload>, req: TopicRequest,
                                       exec: string -> ExecOutcome, parse: string -> Option<JsValue>,
                                       qs: seq<QuestionGen.GeneratedQuestion>)
    requires email !in st.users && email != ""
    requires forall p :: compare(p, hash(p))
    requires forall e :: verify(sign(e)) == Some(Payload(e))
    requires sign(email) != "" && !Text.Contains(sign(email), " ") && !Text.Contains(scheme, " ")
    ensures var st' := Register(st, email, password, password, hash, sign).store;
            var login := Login(st', email, password, compare, sign);
            && login.status == 200
            && var h := GenerateRoute(st', Some(scheme + " " + login.body.token), req, verify, exec, parse);
               && h == TopicHandler(st', Payload(email), req, exec, parse)
               && (h.outcome.status == 200 ==> h.store.questionDocs[|h.store.questionDocs| - 1].email == email)
               && (exec(TopicCommand(req)).ExecCompleted? && parse(exec(TopicCommand(req)).stdout) == Some(GeneratorJson(qs)) ==>
                     && h.outcome.status == 200
                     && h.store.questionDocs[..|st.questionDocs|] == st.questionDocs
                     && |h.store.questionDocs| == |st.questionDocs| + 1
                     && h.store.questionDocs[|st.questionDocs|].email == email
                     && h.store.questionDocs[|st.questionDocs|].sourceType == "non-pdf")
  {
    var st' := Register(st, email, password, password, hash, sign).store;
    RegisterThenLogin(st, email, password, hash, compare, sign);
    BearerRoundTrip(scheme, sign(email));
    if exec(TopicCommand(req)).ExecCompleted? && parse(exec(TopicCommand(req)).stdout) == Some(GeneratorJson(qs)) {
      GeneratorOutputIsSaved(st', Payload(email), req, qs, exec, parse);
    }
  }

  /** The sub-topics the quiz page offers under each topic whose name is not a key of the generator's article table. */
  function Unmatched(topic: string): set<string> {
    if topic == "OS" then {"Structure of OS", "CPU Scheduling", "Threads", "Critical Section Problem", "Deadlocks", "Page Replacement"}
    else if topic == "DBMS" then {"ER Model", "TnC Control"}
    else if topic == "Java" then {"Data Types", "OOPs Concepts", "Exception Handling"}
    else if topic == "JavaScript" then {"Data Types", "Functions", "Loops"}
    else {}
  }

  /** The OS choices 1 to 3, checked one by one against the article table. */
  lemma OsChoices1To3(i: nat)
    requires 0 <= i < 3
    ensures Quiz.OsSubTopics[i] in Articles.OsUrls <==> Quiz.OsSubTopics[i] !in Unmatched("OS")
  {
    var subs := Quiz.OsSubTopics;
    if i == 0 {
      assert subs[i] == subs[0];
    } else if i == 1 {
      assert subs[i] == subs[1];
    } else {
      assert subs[i] == subs[2];
    }
  }

  /** The OS choices 4 to 6, checked one by one against the article table. */
  lemma OsChoices4To6(i: nat)
    requires 3 <= i < 6
    ensures Quiz.OsSubTopics[i] in Articles.OsUrls <==> Quiz.OsSubTopics[i] !in Unmatched("OS")
  {
    var subs := Quiz.OsSubTopics;
    if i == 3 {
      assert subs[i] == subs[3];
    } else if i == 4 {
      assert subs[i] == subs[4];
    } else {
      assert subs[i] == subs[5];
    }
  }

  /** The OS choices 7 to 9, checked one by one against the article table. */
  lemma OsChoices7To9(i: nat)
    requires 6 <= i < 9
    ensures Quiz.OsSubTopics[i] in Articles.OsUrls <==> Quiz.OsSubTopics[i] !in Unmatched("OS")
  {
    var subs := Quiz.OsSubTopics;
    if i == 6 {
      assert subs[i] == subs[6];
    } else if i == 7 {
      assert subs[i] == subs[7];
    } else {
      assert subs[i] == subs[8];
    }
  }

  /** The OS choices 10 to 12, checked one by one against the article table. */
  lemma OsChoices10To12(i: nat)
    requires 9 <= i < 12
    ensures Quiz.OsSubTopics[i] in Articles.OsUrls <==> Quiz.OsSubTopics[i] !in Unmatched("OS")
  {
    var subs := Quiz.OsSubTopics;
    if i == 9 {
      assert subs[i] == subs[9];
    } else if i == 10 {
      assert subs[i] == subs[10];
    } else {
      assert subs[i] == subs[11];
    }
  }

  /** The DBMS choices 1 to 3, checked one by one against the article table. */
  lemma DbmsChoices1To3(i: nat)
    requires 0 <= i < 3
    ensures Quiz.DbmsSubTopics[i] in Articles.DbmsUrls <==> Quiz.DbmsSubTopics[i] !in Unmatched("DBMS")
  {
    var subs := Quiz.DbmsSubTopics;
    if i == 0 {
      assert subs[i] == subs[0];
    } else if i == 1 {
      assert subs[i] == subs[1];
    } else {
      assert subs[i] == subs[2];
    }
  }

  /** The DBMS choices 4 to 6, checked one by one against the article table. */
  lemma DbmsChoices4To6(i: nat)
    requires 3 <= i < 6
    ensures Quiz.DbmsSubTopics[i] in Articles.DbmsUrls <==> Quiz.DbmsSubTopics[i] !in Unmatched("DBMS")
  {
    var subs := Quiz.DbmsSubTopics;
    if i == 3 {
      assert subs[i] == subs[3];
    } else if i == 4 {
      assert subs[i] == subs[4];
    } else {
      assert subs[i] == subs[5];
    }
  }

  /** The DBMS choices 7 to 9, checked one by one against the article table. */
  lemma DbmsChoices7To9(i: nat)
    requires 6 <= i < 9
    ensures Quiz.DbmsSubTopics[i] in Articles.DbmsUrls <==> Quiz.DbmsSubTopics[i] !in Unmatched("DBMS")
  {
    var subs := Quiz.DbmsSubTopics;
    if i == 6 {
      assert subs[i] == subs[6];
    } else if i == 7 {
      assert subs[i] == subs[7];
    } else {
      assert subs[i] == subs[8];
    }
  }

  /** The Java choices 1 to 3, checked one by one against the unmatched list. */
  lemma JavaChoices1To3(i: nat)
    requires 0 <= i < 3
    ensures Quiz.JavaSubTopics[i] in Unmatched("Java")
  {
    var subs := Quiz.JavaSubTopics;
    if i == 0 {
      assert subs[i] == subs[0];
    } else if i == 1 {
      assert subs[i] == subs[1];
    } else {
      assert subs[i] == subs[2];
    }
  }

  /** The JavaScript choices 1 to 3, checked one by one against the unmatched list. */
  lemma JavaScriptChoices1To3(i: nat)
    requires 0 <= i < 3
    ensures Quiz.JavaScriptSubTopics[i] in Unmatched("JavaScript")
  {
    var subs := Quiz.JavaScriptSubTopics;
    if i == 0 {
      assert subs[i] == subs[0];
    } else if i == 1 {
      assert subs[i] == subs[1];
    } else {
      assert subs[i] == subs[2];
    }
  }

  /** Each OS choice is matched against the OS articles. */
  lemma OsChoicesAndArticles(subTopic: string)
    requires subTopic in Quiz.OsSubTopics
    ensures Articles.KnownPair("OS", subTopic) <==> subTopic !in Unmatched("OS")
  {
    assert Articles.Urls["OS"] == Articles.OsUrls;
    var i :| 0 <= i < |Quiz.OsSubTopics| && Quiz.OsSubTopics[i] == subTopic;
    if i < 3 {
      OsChoices1To3(i);
    } else if i < 6 {
      OsChoices4To6(i);
    } else if i < 9 {
      OsChoices7To9(i);
    } else {
      OsChoices10To12(i);
    }
  }

  /** Each DBMS choice is matched against the DBMS articles. */
  lemma DbmsChoicesAndArticles(subTopic: string)
    requires subTopic in Quiz.DbmsSubTopics
    ensures Articles.KnownPair("DBMS", subTopic) <==> subTopic !in Unmatched("DBMS")
  {
    assert Articles.Urls["DBMS"] == Articles.DbmsUrls;
    var i :| 0 <= i < |Quiz.DbmsSubTopics| && Quiz.DbmsSubTopics[i] == subTopic;
    if i < 3 {
      DbmsChoices1To3(i);
    } else if i < 6 {
      DbmsChoices4To6(i);
    } else {
      DbmsChoices7To9(i);
    }
  }

  /** No Java choice names an article: the table has no Java topic. */
  lemma JavaChoicesAndArticles(subTopic: string)
    requires subTopic in Quiz.JavaSubTopics
    ensures !Articles.KnownPair("Java", subTopic) && subTopic in Unmatched("Java")
  {
    assert "Java" !in Articles.Urls;
    var i :| 0 <= i < 3 && Quiz.JavaSubTopics[i] == subTopic;
    JavaChoices1To3(i);
  }

  /** No JavaScript choice names an article: the table has no JavaScript topic. */
  lemma JavaScriptChoicesAndArticles(subTopic: string)
    requires subTopic in Quiz.JavaScriptSubTopics
    ensures !Articles.KnownPair("JavaScript", subTopic) && subTopic in Unmatched("JavaScript")
  {
    assert "JavaScript" !in Articles.Urls;
    var i :| 0 <= i < 3 && Quiz.JavaScriptSubTopics[i] == subTopic;
    JavaScriptChoices1To3(i);
  }

  /** Of the choices the quiz page offers, exactly those listed by `Unmatched` name no article. */
  lemma OfferedChoicesAndArticles(topic: string, subTopic: string)
    requires Quiz.Offered(topic, subTopic)
    ensures Articles.KnownPair(topic, subTopic) <==> subTopic !in Unmatched(topic)
  {
    if topic == "OS" {
      assert Quiz.TopicMapping[topic] == Quiz.OsSubTopics;
      OsChoicesAndArticles(subTopic);
    } else if topic == "DBMS" {
      assert Quiz.TopicMapping[topic] == Quiz.DbmsSubTopics;
      DbmsChoicesAndArticles(subTopic);
    } else if topic == "Java" {
      assert Quiz.TopicMapping[topic] == Quiz.JavaSubTopics;
      JavaChoicesAndArticles(subTopic);
    } else {
      assert Quiz.TopicMapping[topic] == Quiz.JavaScriptSubTopics;
      JavaScriptChoicesAndArticles(subTopic);
    }
  }

  /** For an unmatched choice the generator prints an empty list, whatever the scraper and the model would do. */
  lemma UnmatchedChoiceGeneratesNothing(topic: string, subTopic: string, questionType: string, numQuestions: int,
                                        scrape: string -> string, tokenize: string -> seq<string>,
                                        generate: (string, string) -> string)
    requires Quiz.Offered(topic, subTopic) && subTopic in Unmatched(topic)
    ensures QuestionGen.GenerateQuestions(topic, subTopic, questionType, numQuestions, scrape, tokenize, generate) == []
  {
    OfferedChoicesAndArticles(topic, subTopic);
    QuestionGen.NothingGeneratedOnMiss(topic, subTopic, questionType, numQuestions, scrape, tokenize, generate, generate);
  }
}
