/** End-to-end behaviour of the credential lifecycle: each method builds the
    service over a given index, runs the operations of user.go in sequence
    against a healthy store, and states what the caller observes. */
module Lifecycle {
  import opened Wrappers
  import opened GoString
  import opened Provision
  import opened Handlers

  /** Setting a real password and then logging in with it succeeds; any other
      password succeeds only if bcrypt's comparison accepts it. */
  method SetPasswordThenAuthenticate(users: map<string, UserDoc>, d: UserDoc, other: string, bc: Bcrypt)
    returns (status: int, stored: UserDoc, right: AuthOutcome, wrong: AuthOutcome)
    requires Keyed(users) && Sound(bc)
    requires MinPasswordLen <= Utf8Len(d.password)
    requires bc.generate(d.password, EncCost).Some?
    ensures status == 200
    ensures stored == d.(password := bc.generate(d.password, EncCost).value)
    ensures right == AuthOutcome(true, true, None) && AuthStatus(right) == 200
    ensures wrong == AuthOutcome(true, bc.compare(stored.password, other), None)
  {
    var api := new Api(users);
    var user := new User(d);
    var code, err := api.UpsertUser(user, api.GetUser(d.id), bc);
    status := UpsertStatus(code, err);
    stored := api.users[d.id];
    right := AuthUser(Auth(d.id, d.password), api.GetUser(d.id), bc);
    wrong := AuthUser(Auth(d.id, other), api.GetUser(d.id), bc);
  }

  /** Writing a record back with an empty or redacted password keeps the
      stored credential: every login attempt is answered as before. */
  method RedactedWriteKeepsCredential(users: map<string, UserDoc>, d: UserDoc, attempt: string, bc: Bcrypt)
    returns (status: int, stored: UserDoc, before: AuthOutcome, after: AuthOutcome)
    requires Keyed(users)
    requires d.id in users && IsPlaceholder(d.password)
    ensures status == 200
    ensures stored == d.(password := users[d.id].password)
    ensures after == before
  {
    var api := new Api(users);
    before := AuthUser(Auth(d.id, attempt), api.GetUser(d.id), bc);
    var user := new User(d);
    var code, err := api.UpsertUser(user, api.GetUser(d.id), bc);
    status := UpsertStatus(code, err);
    stored := api.users[d.id];
    after := AuthUser(Auth(d.id, attempt), api.GetUser(d.id), bc);
  }

  /** A new user without a real password is refused and nothing is written. */
  method NewUserNeedsPassword(users: map<string, UserDoc>, d: UserDoc, bc: Bcrypt)
    returns (status: int, err: Option<Error>, after: map<string, UserDoc>)
    requires Keyed(users)
    requires d.id !in users && IsPlaceholder(d.password)
    ensures status == 500 && err == Some(PasswordTooShort)
    ensures after == users
  {
    var api := new Api(users);
    var user := new User(d);
    var code;
    code, err := api.UpsertUser(user, api.GetUser(d.id), bc);
    status := UpsertStatus(code, err);
    after := api.users;
  }

  /** When the lookup behind a placeholder fails, the write is aborted with a
      server error and the index is left as it was. */
  method LookupFailureAborts(users: map<string, UserDoc>, d: UserDoc, reply: GetReply, bc: Bcrypt)
    returns (status: int, err: Option<Error>, after: map<string, UserDoc>)
    requires Keyed(users)
    requires IsPlaceholder(d.password)
    requires reply.err.Some? || reply.code >= 500
    ensures status == 500 && err.Some? && err != Some(PasswordTooShort)
    ensures after == users
  {
    var api := new Api(users);
    var user := new User(d);
    var code;
    code, err := api.UpsertUser(user, reply, bc);
    status := UpsertStatus(code, err);
    after := api.users;
  }

  /** Fetching a user, editing its display name and writing the fetched
      document back changes the display name and nothing else: the redacted
      password in the fetched copy does not overwrite the stored one. */
  method GetEditWriteBack(users: map<string, UserDoc>, id: string, name: string, bc: Bcrypt)
    returns (getStatus: int, status: int, after: map<string, UserDoc>)
    requires Keyed(users) && id in users
    ensures getStatus == 200 && status == 200
    ensures after == users[id := users[id].(displayName := name)]
  {
    var api := new Api(users);
    var response := GetUserResponse(api.GetUser(id));
    getStatus := response.status;
    var user := new User(response.body.value.(displayName := name));
    var code, err := api.UpsertUser(user, api.GetUser(user.id), bc);
    status := UpsertStatus(code, err);
    after := api.users;
  }

  /** Logging in under an id the index does not hold is "not found", not an error. */
  method AuthenticateUnknownId(users: map<string, UserDoc>, auth: Auth, bc: Bcrypt)
    returns (outcome: AuthOutcome, status: int)
    requires Keyed(users) && auth.id !in users
    ensures outcome == AuthOutcome(false, false, None)
    ensures status == 404
  {
    var api := new Api(users);
    outcome := AuthUser(auth, api.GetUser(auth.id), bc);
    status := AuthStatus(outcome);
  }
}
