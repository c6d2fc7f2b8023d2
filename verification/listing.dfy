/**
 * The two `GET /api/submissions` routes. The first, behind `verifyToken`,
 * looks up the caller's documents but replies with the token payload only;
 * the second lists every document. Express tries them in registration
 * order, and the first always replies, so the second never runs.
 */
module Listing {
  import opened Common
  import opened ServerStore
  import opened Auth

  /** `Model.find({ email })`: the documents saved for `email`, in insertion order. */
  function OwnedBy(docs: seq<Submission>, email: string): (r: seq<Submission>)
    ensures |r| <= |docs|
    ensures forall i :: 0 <= i < |r| ==> r[i].email == email
    ensures forall d :: d in r <==> d in docs && d.email == email
  {
    if |docs| == 0 then []
    else
      var front := OwnedBy(docs[..|docs| - 1], email);
      var last := docs[|docs| - 1];
      assert docs == docs[..|docs| - 1] + [last];
      if last.email == email then front + [last] else front
  }

  /** Selecting by owner distributes over concatenation, so the result keeps the order of the collection. */
  lemma {:induction false} OwnedByAppend(a: seq<Submission>, b: seq<Submission>, email: string)
    ensures OwnedBy(a + b, email) == OwnedBy(a, email) + OwnedBy(b, email)
    decreases |b|
  {
    if |b| > 0 {
      var b' := b[..|b| - 1];
      assert (a + b)[..|a + b| - 1] == a + b';
      assert (a + b)[|a + b| - 1] == b[|b| - 1];
      OwnedByAppend(a, b', email);
    } else {
      assert a + b == a;
    }
  }

  /** One document is selected, once, exactly when it belongs to `email`. */
  lemma OwnedBySingle(d: Submission, email: string)
    ensures OwnedBy([d], email) == if d.email == email then [d] else []
  {
    assert [d][..0] == [];
  }

  /** Selecting by owner keeps the documents' tags. */
  lemma {:induction false} OwnedByKeepsTags(docs: seq<Submission>, email: string, tag: string)
    requires AllTagged(docs, tag)
    ensures AllTagged(OwnedBy(docs, email), tag)
  {
    var r := OwnedBy(docs, email);
    forall i | 0 <= i < |r|
      ensures Valid(r[i]) && r[i].sourceType == tag
    {
      assert r[i] in docs;
    }
  }

  /**
   * The route at line 156 as written: `verifyToken`'s 401s, 400 for a
   * payload without an email, and otherwise 200 with the payload. Its body
   * never carries the documents it looked up.
   */
  function ListForUser(st: Store, header: Option<string>, verify: string -> Option<Payload>): (r: Outcome)
    ensures r.Reply?
    ensures VerifyToken(header, verify).Denied? ==> r == DeniedReply(VerifyToken(header, verify))
    ensures r.status == 200 <==> VerifyToken(header, verify).Granted? && VerifyToken(header, verify).user.email != ""
    ensures VerifyToken(header, verify).Granted? && VerifyToken(header, verify).user.email == "" ==>
              r == Reply(400, Message("User email not found in token"))
    ensures r.status == 200 ==> r.body == AuthorizedUser("Request authorized", VerifyToken(header, verify).user)
    ensures !r.body.Submissions?
  {
    match VerifyToken(header, verify)
    case Denied(_, _) => DeniedReply(VerifyToken(header, verify))
    case Granted(user) =>
      if user.email == "" then Reply(400, Message("User email not found in token"))
      else Reply(200, AuthorizedUser("Request authorized", user))
  }

  /**
   * The caller's route as evidently intended: the same checks, and on
   * success the caller's documents, those from uploads first and those
   * from topics after, as `allSubmissions` is built.
   */
  function ListForUserCorrected(st: Store, header: Option<string>, verify: string -> Option<Payload>): (r: Outcome)
    ensures r.Reply?
    ensures VerifyToken(header, verify).Denied? ==> r == DeniedReply(VerifyToken(header, verify))
    ensures r.status == 200 <==> VerifyToken(header, verify).Granted? && VerifyToken(header, verify).user.email != ""
    ensures r.status != 200 ==> r == ListForUser(st, header, verify)
    ensures r.status == 200 ==>
              && r.body.Submissions?
              && var email := VerifyToken(header, verify).user.email;
                 && r.body.items == OwnedBy(st.submissionDocs, email) + OwnedBy(st.questionDocs, email)
                 && forall d :: d in r.body.items <==> (d in st.submissionDocs || d in st.questionDocs) && d.email == email
  {
    match VerifyToken(header, verify)
    case Denied(_, _) => DeniedReply(VerifyToken(header, verify))
    case Granted(user) =>
      if user.email == "" then Reply(400, Message("User email not found in token"))
      else Reply(200, Submissions(OwnedBy(st.submissionDocs, user.email) + OwnedBy(st.questionDocs, user.email)))
  }

  /** A caller with saved documents gets none of them from the route as written, and all of them from the corrected one. */
  lemma ListingDiscardsDocuments(st: Store, header: Option<string>, verify: string -> Option<Payload>, d: Submission)
    requires VerifyToken(header, verify).Granted? && VerifyToken(header, verify).user.email != ""
    requires d in st.questionDocs && d.email == VerifyToken(header, verify).user.email
    ensures ListForUser(st, header, verify).status == 200 && !ListForUser(st, header, verify).body.Submissions?
    ensures d in ListForUserCorrected(st, header, verify).body.items
  {
  }

  /**
   * The route at line 303: 200 with every document, those from uploads
   * (the `submissions` collection) first and those from topics after,
   * each group in insertion order.
   */
  function ListAll(st: Store): (r: Outcome)
    ensures r.Reply? && r.status == 200 && r.body.Submissions?
    ensures |r.body.items| == |st.submissionDocs| + |st.questionDocs|
    ensures r.body.items[..|st.submissionDocs|] == st.submissionDocs
    ensures r.body.items[|st.submissionDocs|..] == st.questionDocs
  {
    Reply(200, Submissions(st.submissionDocs + st.questionDocs))
  }

  /** Express's dispatch: the handlers registered for one method and path, tried in order; `None` passes to the next. */
  function FirstReply(handlers: seq<Option<Outcome>>): (r: Option<Outcome>)
    ensures r.Some? <==> exists i :: 0 <= i < |handlers| && handlers[i].Some?
    ensures r.Some? ==> exists i :: 0 <= i < |handlers| && handlers[i] == r && forall j :: 0 <= j < i ==> handlers[j].None?
  {
    if |handlers| == 0 then None
    else if handlers[0].Some? then handlers[0]
    else
      var r := FirstReply(handlers[1..]);
      assert forall i :: 0 <= i < |handlers[1..]| ==> handlers[1..][i] == handlers[i + 1];
      r
  }

  /**
   * `GET /api/submissions` as the server registers it: the caller's route
   * always replies, so every request gets its answer and never the full
   * listing.
   */
  function GetSubmissions(st: Store, header: Option<string>, verify: string -> Option<Payload>): (r: Outcome)
    ensures r == ListForUser(st, header, verify)
    ensures r != ListAll(st)
  {
    var first := FirstReply([Some(ListForUser(st, header, verify)), Some(ListAll(st))]);
    first.value
  }
}
