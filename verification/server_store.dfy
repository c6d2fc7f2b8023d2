/**
 * The state and the replies of the Express server: the three MongoDB
 * collections it writes, the shape of a reply, and the side effects a
 * handler performs (running the generator command, deleting an upload,
 * saving a document).
 */
module ServerStore {
  import opened Common
  import opened JsValues

  /** The decoded token payload the auth middlewares put on `req.user`; "" stands for a missing email. */
  datatype Payload = Payload(email: string)

  /** A `User` document: the password only as its hash, and the token signed at registration. */
  datatype User = User(email: string, passwordHash: string, token: string)

  /** One normalised entry of a document's `questions` array. */
  datatype StoredQuestion = StoredQuestion(question: JsValue, answer: JsValue, context: JsValue)

  /**
   * A document of the shared question schema. `topic` and `subTopic` are
   * absent on documents made from an upload; `createdAt` is not modelled.
   */
  datatype Submission = Submission(
    topic: Option<string>,
    subTopic: Option<string>,
    questionType: string,
    numQuestions: string,
    email: string,
    questions: seq<StoredQuestion>,
    sourceType: string)

  /**
   * The database: `users` keyed by email, the `questions` collection (the
   * `Question` model, written by topic generation) and the `submissions`
   * collection (the `Submission` model, written by upload generation), each
   * in insertion order.
   */
  datatype Store = Store(users: map<string, User>, questionDocs: seq<Submission>, submissionDocs: seq<Submission>)

  /** The JSON body of a reply. */
  datatype Body =
    | Message(text: string)
    | LoginOk(text: string, token: string)
    | ErrorBody(error: string)
    | Generated(result: JsValue)
    | AuthorizedUser(text: string, user: Payload)
    | Submissions(items: seq<Submission>)

  /**
   * A reply the handler sends, or an exception or rejection the handler does not catch.
   * `Unhandled` covers two cases a client sees differently. A synchronous throw, as in the
   * upload route's `req.user` destructuring, is caught by Express, which answers with its
   * default 500. A rejected promise in an async handler, as in the `/register` save, is not
   * seen by Express 4, so that request gets no answer at all. Either way no success reply is sent.
   */
  datatype Outcome = Reply(status: int, body: Body) | Unhandled(reason: string)

  /** What a handler does outside the database, in order. */
  datatype Effect = RanCommand(command: string) | DeletedFile(path: string) | Saved(doc: Submission)

  /** A handler's outcome, the database afterwards, and its effects in the order they happen. */
  datatype Handled = Handled(outcome: Outcome, store: Store, effects: seq<Effect>)

  /**
   * Mongoose's String cast, which the schema's `question`, `answer` and
   * `context` paths apply on save: every value but a plain object or an
   * array passes.
   */
  predicate CastsToString(v: JsValue) {
    !IsObjectLike(v)
  }

  /** Every field of every question passes the String cast. */
  predicate AllCastable(qs: seq<StoredQuestion>) {
    forall i :: 0 <= i < |qs| ==>
      CastsToString(qs[i].question) && CastsToString(qs[i].answer) && CastsToString(qs[i].context)
  }

  /**
   * The schema's validation on save: `email` is required (an empty string
   * fails), `sourceType` is "pdf" or "non-pdf", and every question field
   * casts to a string.
   */
  predicate Valid(doc: Submission) {
    && doc.email != ""
    && (doc.sourceType == "pdf" || doc.sourceType == "non-pdf")
    && AllCastable(doc.questions)
  }

  /** Every document in `docs` passed validation and carries `tag`. */
  predicate AllTagged(docs: seq<Submission>, tag: string) {
    forall i :: 0 <= i < |docs| ==> Valid(docs[i]) && docs[i].sourceType == tag
  }

  /**
   * What the handlers keep true of the database: users are stored under
   * their own non-empty email, topic generation writes only "non-pdf"
   * documents and upload generation only "pdf" ones.
   */
  predicate ValidStore(st: Store) {
    && (forall e :: e in st.users ==> st.users[e].email == e && e != "")
    && AllTagged(st.questionDocs, "non-pdf")
    && AllTagged(st.submissionDocs, "pdf")
  }
}
