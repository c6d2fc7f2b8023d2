/**
 * The two generation routes of the Express server: run the generator
 * script, parse what it printed, normalise every question to sentinel
 * defaults, and save one document tagged with where the questions came
 * from. The shell (`exec`) and `JSON.parse` are the opaque parameters
 * `exec` and `parse`.
 */
module GenerateHandlers {
  import opened Common
  import opened JsValues
  import opened ServerStore
  import opened Auth

  /** How the child process ended: `error` set (its stderr), or its stdout. */
  datatype ExecOutcome = ExecFailed(stderr: string) | ExecCompleted(stdout: string)

  /** The body fields of `/api/generate-questions`, as the strings interpolated into the command. */
  datatype TopicRequest = TopicRequest(topic: string, subTopic: string, questionType: string, numQuestions: string)

  /** The body fields of `/api/upload-and-generate-questions`. */
  datatype UploadRequest = UploadRequest(questionType: string, numQuestions: string)

  /** The generator command for a topic request. */
  function TopicCommand(req: TopicRequest): string {
    "python3 main.py --topic \"" + (req.topic + ("\" --subTopic \"" + (req.subTopic
      + ("\" --questionType \"" + (req.questionType + ("\" --numQuestions " + req.numQuestions))))))
  }

  /** The generator command for an uploaded file at `path`. */
  function FileCommand(path: string, req: UploadRequest): string {
    "python3 main.py --file \"" + (path + ("\" --questionType \"" + (req.questionType + ("\" --numQuestions " + req.numQuestions))))
  }

  /** `s` has no double quote, so inside the command's quotes it ends where its closing quote is. */
  predicate QuoteFree(s: string) {
    forall i :: 0 <= i < |s| ==> s[i] != '"'
  }

  /** A quote-free field followed by text that starts with a quote is delimited: the field and what follows are both determined. */
  lemma FieldIsDelimited(a: string, ra: string, b: string, rb: string)
    requires QuoteFree(a) && QuoteFree(b) && |ra| > 0 && |rb| > 0 && ra[0] == '"' && rb[0] == '"'
    requires a + ra == b + rb
    ensures a == b && ra == rb
  {
    var x := a + ra;
    assert a == x[..|a|] && b == x[..|b|];
  }

  /** Two texts that agree after the same constant text agree in what follows it. */
  lemma DropCommon(p: string, x: string, y: string)
    requires p + x == p + y
    ensures x == y
  {
    assert x == (p + x)[|p|..];
  }

  /**
   * When the three quoted fields hold no double quote, the shell command
   * determines the request: distinct topic requests run distinct commands.
   */
  lemma TopicCommandIsInjective(r1: TopicRequest, r2: TopicRequest)
    requires QuoteFree(r1.topic) && QuoteFree(r1.subTopic) && QuoteFree(r1.questionType)
    requires QuoteFree(r2.topic) && QuoteFree(r2.subTopic) && QuoteFree(r2.questionType)
    ensures TopicCommand(r1) == TopicCommand(r2) <==> r1 == r2
  {
    if TopicCommand(r1) == TopicCommand(r2) {
      var n1 := "\" --numQuestions " + r1.numQuestions;
      var n2 := "\" --numQuestions " + r2.numQuestions;
      var q1 := "\" --questionType \"" + (r1.questionType + n1);
      var q2 := "\" --questionType \"" + (r2.questionType + n2);
      var s1 := "\" --subTopic \"" + (r1.subTopic + q1);
      var s2 := "\" --subTopic \"" + (r2.subTopic + q2);
      DropCommon("python3 main.py --topic \"", r1.topic + s1, r2.topic + s2);
      FieldIsDelimited(r1.topic, s1, r2.topic, s2);
      DropCommon("\" --subTopic \"", r1.subTopic + q1, r2.subTopic + q2);
      FieldIsDelimited(r1.subTopic, q1, r2.subTopic, q2);
      DropCommon("\" --questionType \"", r1.questionType + n1, r2.questionType + n2);
      FieldIsDelimited(r1.questionType, n1, r2.questionType, n2);
      DropCommon("\" --numQuestions ", r1.numQuestions, r2.numQuestions);
    }
  }

  /** The same for an upload: with a quote-free path and type, the command determines the path and the request. */
  lemma FileCommandIsInjective(p1: string, r1: UploadRequest, p2: string, r2: UploadRequest)
    requires QuoteFree(p1) && QuoteFree(r1.questionType) && QuoteFree(p2) && QuoteFree(r2.questionType)
    ensures FileCommand(p1, r1) == FileCommand(p2, r2) <==> p1 == p2 && r1 == r2
  {
    if FileCommand(p1, r1) == FileCommand(p2, r2) {
      var n1 := "\" --numQuestions " + r1.numQuestions;
      var n2 := "\" --numQuestions " + r2.numQuestions;
      var q1 := "\" --questionType \"" + (r1.questionType + n1);
      var q2 := "\" --questionType \"" + (r2.questionType + n2);
      DropCommon("python3 main.py --file \"", p1 + q1, p2 + q2);
      FieldIsDelimited(p1, q1, p2, q2);
      DropCommon("\" --questionType \"", r1.questionType + n1, r2.questionType + n2);
      FieldIsDelimited(r1.questionType, n1, r2.questionType, n2);
      DropCommon("\" --numQuestions ", r1.numQuestions, r2.numQuestions);
    }
  }

  /** `q.field || sentinel` for a non-empty sentinel: the field when it is truthy, the sentinel otherwise. */
  function OrDefault(q: JsValue, field: string, sentinel: string): (v: JsValue)
    requires !Nullish(q) && sentinel != ""
    ensures Truthy(v)
    ensures Truthy(Member(q, field)) ==> v == Member(q, field)
    ensures !Truthy(Member(q, field)) ==> v == Str(sentinel)
  {
    Or(Member(q, field), Str(sentinel))
  }

  /** The mapping callback of both handlers: every field present and truthy, kept when it already was. */
  function NormaliseQuestion(q: JsValue): (r: StoredQuestion)
    requires !Nullish(q)
    ensures Truthy(r.question) && Truthy(r.answer) && Truthy(r.context)
    ensures r.question == (if Truthy(Member(q, "question")) then Member(q, "question") else Str("No question"))
    ensures r.answer == (if Truthy(Member(q, "answer")) then Member(q, "answer") else Str("No answer"))
    ensures r.context == (if Truthy(Member(q, "context")) then Member(q, "context") else Str("No context"))
  {
    StoredQuestion(OrDefault(q, "question", "No question"), OrDefault(q, "answer", "No answer"),
                   OrDefault(q, "context", "No context"))
  }

  /** A stored question as the JSON object it is saved and sent as. */
  function AsJson(q: StoredQuestion): (v: JsValue)
    ensures !Nullish(v)
    ensures Member(v, "question") == q.question && Member(v, "answer") == q.answer && Member(v, "context") == q.context
  {
    Object(map["question" := q.question, "answer" := q.answer, "context" := q.context])
  }

  /** Normalising a question that was already normalised changes nothing. */
  lemma NormaliseIdempotent(q: JsValue)
    requires !Nullish(q)
    ensures NormaliseQuestion(AsJson(NormaliseQuestion(q))) == NormaliseQuestion(q)
  {
  }

  /**
   * `questions.map(normalise)`: the normalised list, same length and order,
   * or nothing when an entry is null or undefined and reading its field throws.
   */
  function NormaliseAll(qs: seq<JsValue>): (r: Option<seq<StoredQuestion>>)
    ensures r.Some? <==> forall i :: 0 <= i < |qs| ==> !Nullish(qs[i])
    ensures r.Some? ==> |r.value| == |qs| && forall i :: 0 <= i < |qs| ==> r.value[i] == NormaliseQuestion(qs[i])
  {
    if |qs| == 0 then Some([])
    else
      var last := qs[|qs| - 1];
      match NormaliseAll(qs[..|qs| - 1])
      case None => None
      case Some(front) =>
        if Nullish(last) then None else Some(front + [NormaliseQuestion(last)])
  }

  /** What happened between the command and the save. */
  datatype GenStep = ExecError | ParseError | Parsed(result: JsValue, questions: seq<StoredQuestion>)

  /**
   * The `exec` callback up to the save: an execution error, a throw inside
   * the `try` (unparsable output, a null result, `questions` not an array,
   * a null or undefined entry), or the parsed result with its normalised questions.
   */
  function Interpret(out: ExecOutcome, parse: string -> Option<JsValue>): (g: GenStep)
    ensures g.ExecError? <==> out.ExecFailed?
    ensures g.Parsed? <==>
              && out.ExecCompleted?
              && parse(out.stdout).Some?
              && !Nullish(parse(out.stdout).value)
              && Member(parse(out.stdout).value, "questions").Array?
              && (forall i :: 0 <= i < |Member(parse(out.stdout).value, "questions").elems| ==>
                    !Nullish(Member(parse(out.stdout).value, "questions").elems[i]))
    ensures g.Parsed? ==>
              && g.result == parse(out.stdout).value
              && var qs := Member(g.result, "questions").elems;
                 |g.questions| == |qs| && forall i :: 0 <= i < |qs| ==> g.questions[i] == NormaliseQuestion(qs[i])
  {
    match out
    case ExecFailed(_) => ExecError
    case ExecCompleted(stdout) =>
      match parse(stdout)
      case None => ParseError
      case Some(result) =>
        if Nullish(result) then ParseError
        else
          match Member(result, "questions")
          case Array(qs) =>
            (match NormaliseAll(qs)
             case None => ParseError
             case Some(questions) => Parsed(result, questions))
          case _ => ParseError
  }

  /**
   * The `/api/generate-questions` handler once `authenticateToken` has
   * granted `user`. The command always runs first. A document tagged
   * "non-pdf" with the token's email is saved exactly when the run succeeds,
   * its output parses, the token carries an email and every question field
   * casts to a string; only then is the reply 200 with the parsed result.
   * Otherwise the reply is a 500 and the store is untouched.
   */
  function TopicHandler(st: Store, user: Payload, req: TopicRequest,
                        exec: string -> ExecOutcome, parse: string -> Option<JsValue>): (h: Handled)
    ensures 1 <= |h.effects| <= 2 && h.effects[0] == RanCommand(TopicCommand(req))
    ensures h.outcome.Reply?
    ensures exec(TopicCommand(req)).ExecFailed? ==> h.outcome == Reply(500, ErrorBody("Error generating questions"))
    ensures Interpret(exec(TopicCommand(req)), parse).ParseError? ==>
              h.outcome == Reply(500, ErrorBody("Error parsing generated questions"))
    ensures h.outcome.status == 200 <==> |h.effects| == 2
    ensures h.outcome.status == 200 <==>
              && Interpret(exec(TopicCommand(req)), parse).Parsed?
              && user.email != ""
              && AllCastable(Interpret(exec(TopicCommand(req)), parse).questions)
    ensures Interpret(exec(TopicCommand(req)), parse).Parsed? && h.outcome.status != 200 ==>
              h.outcome == Reply(500, ErrorBody("Error saving questions to database"))
    ensures h.outcome.status != 200 ==> h.store == st
    ensures h.outcome.status == 200 ==>
              && var g := Interpret(exec(TopicCommand(req)), parse);
                 && g.Parsed?
                 && h.effects[1] == Saved(Submission(Some(req.topic), Some(req.subTopic), req.questionType,
                                                     req.numQuestions, user.email, g.questions, "non-pdf"))
                 && h.outcome.body == Generated(g.result)
                 && h.store == st.(questionDocs := st.questionDocs + [h.effects[1].doc])
                 && user.email != ""
  {
    var cmd := TopicCommand(req);
    match Interpret(exec(cmd), parse)
    case ExecError => Handled(Reply(500, ErrorBody("Error generating questions")), st, [RanCommand(cmd)])
    case ParseError => Handled(Reply(500, ErrorBody("Error parsing generated questions")), st, [RanCommand(cmd)])
    case Parsed(result, questions) =>
      var doc := Submission(Some(req.topic), Some(req.subTopic), req.questionType, req.numQuestions,
                            user.email, questions, "non-pdf");
      if Valid(doc) then
        Handled(Reply(200, Generated(result)), st.(questionDocs := st.questionDocs + [doc]), [RanCommand(cmd), Saved(doc)])
      else
        Handled(Reply(500, ErrorBody("Error saving questions to database")), st, [RanCommand(cmd)])
  }

  /** `/api/generate-questions` with its `authenticateToken` middleware in front. */
  function GenerateRoute(st: Store, header: Option<string>, req: TopicRequest, verify: string -> Option<Payload>,
                         exec: string -> ExecOutcome, parse: string -> Option<JsValue>): (h: Handled)
    ensures AuthenticateToken(header, verify).Denied? ==>
              h == Handled(DeniedReply(AuthenticateToken(header, verify)), st, [])
    ensures AuthenticateToken(header, verify).Granted? ==>
              h == TopicHandler(st, AuthenticateToken(header, verify).user, req, exec, parse)
  {
    match AuthenticateToken(header, verify)
    case Denied(_, _) => Handled(DeniedReply(AuthenticateToken(header, verify)), st, [])
    case Granted(user) => TopicHandler(st, user, req, exec, parse)
  }

  /**
   * The `/api/upload-and-generate-questions` handler, given what `req.user`
   * holds (`None` when no middleware set it) and the resolved path of the
   * file multer stored, if any. Reading `req.user.email` with no user
   * throws before anything else happens. Without a file the reply is 400
   * and nothing runs. Otherwise the command runs, the file is deleted as
   * soon as it finishes, whatever the result, and only then is a document
   * tagged "pdf" saved, under the same conditions as for a topic.
   */
  function UploadHandler(st: Store, user: Option<Payload>, file: Option<string>, req: UploadRequest,
                         exec: string -> ExecOutcome, parse: string -> Option<JsValue>): (h: Handled)
    ensures user.None? ==> h.outcome.Unhandled? && h.store == st && h.effects == []
    ensures user.Some? && file.None? ==> h == Handled(Reply(400, ErrorBody("No file uploaded")), st, [])
    ensures user.Some? && file.Some? ==>
              && h.outcome.Reply?
              && 2 <= |h.effects| <= 3
              && h.effects[..2] == [RanCommand(FileCommand(file.value, req)), DeletedFile(file.value)]
              && (h.outcome.status == 200 <==> |h.effects| == 3)
    ensures user.Some? && file.Some? ==>
              var g := Interpret(exec(FileCommand(file.value, req)), parse);
              && (h.outcome.status == 200 <==> g.Parsed? && user.value.email != "" && AllCastable(g.questions))
              && (g.Parsed? && h.outcome.status != 200 ==>
                    h.outcome == Reply(500, ErrorBody("Error saving submission to database")))
    ensures user.Some? && file.Some? && exec(FileCommand(file.value, req)).ExecFailed? ==>
              h.outcome == Reply(500, ErrorBody("Error generating questions"))
    ensures user.Some? && file.Some? && Interpret(exec(FileCommand(file.value, req)), parse).ParseError? ==>
              h.outcome == Reply(500, ErrorBody("Error parsing generated questions"))
    ensures !(h.outcome.Reply? && h.outcome.status == 200) ==> h.store == st
    ensures h.outcome.Reply? && h.outcome.status == 200 ==>
              && user.Some? && file.Some?
              && var g := Interpret(exec(FileCommand(file.value, req)), parse);
                 && g.Parsed?
                 && h.effects[2] == Saved(Submission(None, None, req.questionType, req.numQuestions,
                                                     user.value.email, g.questions, "pdf"))
                 && h.outcome.body == Generated(g.result)
                 && h.store == st.(submissionDocs := st.submissionDocs + [h.effects[2].doc])
                 && user.value.email != ""
  {
    match user
    case None => Handled(Unhandled("TypeError: cannot destructure property 'email' of req.user"), st, [])
    case Some(u) =>
      match file
      case None => Handled(Reply(400, ErrorBody("No file uploaded")), st, [])
      case Some(path) =>
        var cmd := FileCommand(path, req);
        var ran := [RanCommand(cmd), DeletedFile(path)];
        match Interpret(exec(cmd), parse)
        case ExecError => Handled(Reply(500, ErrorBody("Error generating questions")), st, ran)
        case ParseError => Handled(Reply(500, ErrorBody("Error parsing generated questions")), st, ran)
        case Parsed(result, questions) =>
          var doc := Submission(None, None, req.questionType, req.numQuestions, u.email, questions, "pdf");
          if Valid(doc) then
            Handled(Reply(200, Generated(result)), st.(submissionDocs := st.submissionDocs + [doc]), ran + [Saved(doc)])
          else
            Handled(Reply(500, ErrorBody("Error saving submission to database")), st, ran)
  }

  /** The number of times `path` is deleted. */
  function Deletions(effects: seq<Effect>, path: string): (n: nat)
    ensures n <= |effects|
    ensures n == 0 <==> DeletedFile(path) !in effects
  {
    if |effects| == 0 then 0
    else Deletions(effects[..|effects| - 1], path) + (if effects[|effects| - 1] == DeletedFile(path) then 1 else 0)
  }

  /** The upload route as registered: no middleware runs before the handler, so `req.user` is never set. */
  function UploadRouteAsWritten(st: Store, file: Option<string>, req: UploadRequest,
                                exec: string -> ExecOutcome, parse: string -> Option<JsValue>): (h: Handled)
    ensures h.outcome.Unhandled? && h.store == st
    ensures file.Some? ==> Deletions(h.effects, file.value) == 0
  {
    UploadHandler(st, None, file, req, exec, parse)
  }

  /** The upload route with `authenticateToken` in front, as the generate route has it. */
  function UploadRouteAuthenticated(st: Store, header: Option<string>, file: Option<string>, req: UploadRequest,
                                    verify: string -> Option<Payload>,
                                    exec: string -> ExecOutcome, parse: string -> Option<JsValue>): (h: Handled)
    ensures AuthenticateToken(header, verify).Denied? ==>
              h == Handled(DeniedReply(AuthenticateToken(header, verify)), st, [])
    ensures AuthenticateToken(header, verify).Granted? ==>
              h == UploadHandler(st, Some(AuthenticateToken(header, verify).user), file, req, exec, parse)
    ensures AuthenticateToken(header, verify).Granted? && file.Some? ==>
              h.outcome.Reply? && Deletions(h.effects, file.value) == 1
  {
    match AuthenticateToken(header, verify)
    case Denied(_, _) => Handled(DeniedReply(AuthenticateToken(header, verify)), st, [])
    case Granted(user) =>
      match file
      case None => UploadHandler(st, Some(user), file, req, exec, parse)
      case Some(path) =>
        var h := UploadHandler(st, Some(user), file, req, exec, parse);
        UploadDeletesOnce(h.effects, path, FileCommand(path, req));
        h
  }

  /** An effect list that starts with running a command and deleting `path`, then at most a save, deletes `path` once. */
  lemma UploadDeletesOnce(effects: seq<Effect>, path: string, cmd: string)
    requires 2 <= |effects| <= 3 && effects[..2] == [RanCommand(cmd), DeletedFile(path)]
    requires |effects| == 3 ==> effects[2].Saved?
    ensures Deletions(effects, path) == 1
  {
    assert effects[0] == RanCommand(cmd) && effects[1] == DeletedFile(path);
    assert effects[..1][..0] == [];
    if |effects| == 3 {
      assert effects[..2] == effects[..|effects| - 1];
      assert effects[..2][..1] == effects[..1];
    } else {
      assert effects[..1] == effects[..|effects| - 1];
    }
  }

  /** Topic generation keeps the store's invariant: what it saves is a valid "non-pdf" document. */
  lemma TopicKeepsStoreValid(st: Store, user: Payload, req: TopicRequest,
                             exec: string -> ExecOutcome, parse: string -> Option<JsValue>)
    requires ValidStore(st)
    ensures ValidStore(TopicHandler(st, user, req, exec, parse).store)
  {
  }

  /** Upload generation keeps the store's invariant: what it saves is a valid "pdf" document. */
  lemma UploadKeepsStoreValid(st: Store, user: Option<Payload>, file: Option<string>, req: UploadRequest,
                              exec: string -> ExecOutcome, parse: string -> Option<JsValue>)
    requires ValidStore(st)
    ensures ValidStore(UploadHandler(st, user, file, req, exec, parse).store)
  {
  }
}
