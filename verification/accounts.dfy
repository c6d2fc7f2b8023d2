/**
 * `/register` and `/login`. Hashing, hash comparison and token signing are
 * opaque: `hash`, `compare` and `sign` (the token's expiry and the signing
 * secret are not modelled).
 */
module Accounts {
  import opened ServerStore

  /**
   * `/register`: 400 when the passwords differ or the email is taken, both
   * without touching the store; otherwise exactly one new user, holding
   * `hash(password)` and the token signed for the email, and 201. An empty
   * email passes both checks but fails the schema's `required` validation
   * on save, which the handler does not catch.
   */
  function Register(st: Store, email: string, password: string, confirmPassword: string,
                    hash: string -> string, sign: string -> string): (h: Handled)
    ensures h.effects == []
    ensures password != confirmPassword ==> h.outcome == Reply(400, Message("Passwords do not match"))
    ensures password == confirmPassword && email in st.users ==> h.outcome == Reply(400, Message("User already exists"))
    ensures h.outcome == Reply(201, Message("User registered successfully"))
            <==> password == confirmPassword && email !in st.users && email != ""
    ensures password == confirmPassword && email !in st.users && email == "" ==> h.outcome.Unhandled?
    ensures h.outcome.Reply? && h.outcome.status == 201 ==>
              && h.store.users == st.users[email := User(email, hash(password), sign(email))]
              && h.store.questionDocs == st.questionDocs
              && h.store.submissionDocs == st.submissionDocs
    ensures !(h.outcome.Reply? && h.outcome.status == 201) ==> h.store == st
  {
    if password != confirmPassword then
      Handled(Reply(400, Message("Passwords do not match")), st, [])
    else if email in st.users then
      Handled(Reply(400, Message("User already exists")), st, [])
    else if email == "" then
      Handled(Unhandled("User validation failed: email is required"), st, [])
    else
      var user := User(email, hash(password), sign(email));
      Handled(Reply(201, Message("User registered successfully")), st.(users := st.users[email := user]), [])
  }

  /** A successful registration adds exactly one key and keeps every other user as it was. */
  lemma RegisterAddsOneUser(st: Store, email: string, password: string, confirmPassword: string,
                            hash: string -> string, sign: string -> string)
    requires Register(st, email, password, confirmPassword, hash, sign).outcome.Reply?
    requires Register(st, email, password, confirmPassword, hash, sign).outcome.status == 201
    ensures var users' := Register(st, email, password, confirmPassword, hash, sign).store.users;
            && users'.Keys == st.users.Keys + {email}
            && |users'| == |st.users| + 1
            && users'[email].passwordHash == hash(password)
            && forall e :: e in st.users ==> users'[e] == st.users[e]
  {
    var users' := Register(st, email, password, confirmPassword, hash, sign).store.users;
    assert email !in st.users;
    assert users'.Keys == st.users.Keys + {email};
  }

  /** Registering an email a second time fails and changes nothing. */
  lemma RegisterTwiceFails(st: Store, email: string, password: string, hash: string -> string, sign: string -> string,
                           password2: string, confirm2: string)
    requires Register(st, email, password, password, hash, sign).outcome.Reply?
    requires Register(st, email, password, password, hash, sign).outcome.status == 201
    ensures var st' := Register(st, email, password, password, hash, sign).store;
            var second := Register(st', email, password2, confirm2, hash, sign);
            && second.store == st'
            && second.outcome.Reply? && second.outcome.status == 400
  {
  }

  /** Registration keeps the store's invariant. */
  lemma RegisterKeepsStoreValid(st: Store, email: string, password: string, confirmPassword: string,
                                hash: string -> string, sign: string -> string)
    requires ValidStore(st)
    ensures ValidStore(Register(st, email, password, confirmPassword, hash, sign).store)
  {
  }

  /**
   * `/login`: 200 with a token signed for the stored user's email exactly
   * when the email is known and the password matches its hash; the same 400
   * "Invalid email or password" for an unknown email and for a wrong
   * password. Login never writes.
   */
  function Login(st: Store, email: string, password: string,
                 compare: (string, string) -> bool, sign: string -> string): (r: Outcome)
    ensures r.Reply?
    ensures r.status == 200 <==> email in st.users && compare(password, st.users[email].passwordHash)
    ensures r.status != 200 ==> r == Reply(400, Message("Invalid email or password"))
    ensures email !in st.users ==> r == Reply(400, Message("Invalid email or password"))
    ensures email in st.users && !compare(password, st.users[email].passwordHash) ==>
              r == Reply(400, Message("Invalid email or password"))
    ensures r.status == 200 ==>
              && email in st.users
              && compare(password, st.users[email].passwordHash)
              && r.body == LoginOk("Login successful", sign(st.users[email].email))
  {
    if email !in st.users then Reply(400, Message("Invalid email or password"))
    else
      var user := st.users[email];
      if !compare(password, user.passwordHash) then Reply(400, Message("Invalid email or password"))
      else Reply(200, LoginOk("Login successful", sign(user.email)))
  }

  /** After registering, logging in with the same password yields a token for that email, if `compare` accepts what `hash` made. */
  lemma RegisterThenLogin(st: Store, email: string, password: string,
                          hash: string -> string, compare: (string, string) -> bool, sign: string -> string)
    requires email !in st.users && email != ""
    requires forall p :: compare(p, hash(p))
    ensures var st' := Register(st, email, password, password, hash, sign).store;
            Login(st', email, password, compare, sign) == Reply(200, LoginOk("Login successful", sign(email)))
  {
    var st' := Register(st, email, password, password, hash, sign).store;
    assert st'.users[email] == User(email, hash(password), sign(email));
    assert compare(password, hash(password));
  }
}
