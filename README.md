# Credential lifecycle of provision user records, in Dafny

This project models the user-record component of the provision service
(`user.go`): how the password of a user record is decided before a write,
how the record is written to the user index, how a login attempt is
authenticated, and which HTTP status each handler answers with.

- `wrappers.dfy` — `Option` and `Result`.
- `gostring.dfy` — Go's `len` on a string counts UTF-8 bytes; `Utf8Len`
  computes that count for a Dafny string of Unicode scalar values.
- `user.dfy` (module `Provision`) — the `UserDoc` document, the `User`
  object whose password field `CheckEncryptPassword` rewrites in place, the
  `Api` class holding the user index as a map from id to document with
  `UpsertUser` (a whole-document write keyed by id), the pure decision
  `ResolvePassword` that specifies `CheckEncryptPassword`, and `AuthUser`
  with its three-valued outcome `(found, valid, err)`.
- `handlers.dfy` — the status codes of `UpsertUserHandler`,
  `AuthUserHandler` and `GetUserHandler`.
- `lifecycle.dfy` — end-to-end sequences over a healthy index: setting a
  password and logging in with it, writing back a redacted record, a new
  user without a password, a failing lookup, fetch-edit-write-back, and an
  unknown id.

Collaborators are abstracted as follows.
- bcrypt is a `Bcrypt` value with a `generate(password, cost)` that may fail
  and a `compare(hash, password)`. The only assumption, `Sound`, is that a
  hash produced at cost 12 compares equal to the password it came from.
  Injectivity is not assumed.
- The document store's answer to a lookup is a `GetReply` (status code,
  decoded document, error). Operations that look a user up take this answer
  as a parameter, so every failure the store can produce is covered.
  `Api.GetUser` is the answer of a healthy index: 200 with the document or
  404.
- A write is `Api.Put`. Like the index API of Elasticsearch, it answers 201
  when it creates a document and 200 when it replaces one.

In a few places the code does more than its own comments and messages
say: the comment at user.go:221-222, the error text at user.go:242, and the
get handler at user.go:196-214, which has no 5xx branch. The model follows
the code.
- `CheckEncryptPassword` keeps the stored password only on status 200. Every
  other status below 500 falls through to validation, not just "not found".
  This includes 201-299 and 3xx.
- `AuthUser` treats every status below 400 as "found" and compares against
  the returned document. This includes codes other than 200.
- The length check counts bytes and accepts exactly 10. The error text speaks
  of "over ten characters", but the model follows the comparison `< 10` on
  the byte length.
- `GetUserHandler` never checks for 5xx. A 5xx lookup without an error is
  answered 200 with whatever document the reply carries, usually an empty
  one, with its password redacted.

## Model

| member | source | states |
|---|---|---|
| `GoString.Utf8Len` | user.go:241 | the byte length Go's `len` reports lies between the number of characters and four times it, and equals it for ASCII text (so `"REDACTED"` is 8 bytes) |
| `GoString.Utf8Width` | user.go:241 | a character takes one to four bytes, one exactly when it is ASCII |
| `Provision.ResolvePassword` | user.go:219-256 | an empty or `"REDACTED"` password succeeds exactly when the lookup has no error and answers 200, and then carries the stored password unchanged whatever its length; a lookup error or a 5xx aborts with that error; a real password succeeds exactly when it is at least 10 bytes long and bcrypt can hash it, the result then being bcrypt's hash of it at cost 12, and a hashing failure is reported as such |
| `Provision.User.CheckEncryptPassword` | user.go:219-256 | in place: on success the password field becomes the resolved value, on error it is unchanged and the error is the resolved one; no other field changes |
| `Provision.Api.GetUser` | user.go:173-189 | a healthy index answers without error, 200 with the stored document exactly when the id is present, 404 otherwise |
| `Provision.Api.Put` | user.go:77 | the document replaces the entry at its id and no other entry; 201 when created, 200 when replaced; every document stays stored under its own id |
| `Provision.Api.UpsertUser` | user.go:67-78 | when the password cannot be resolved the answer is 500 with that error and the index and the user's password are untouched; otherwise the user's password is the resolved value and the index entry at the user's id is exactly the user's whole document, every other entry unchanged |
| `Provision.AuthUser` | user.go:114-138 | `valid` implies `found`; an error implies neither; an error occurs exactly on a lookup error or a 5xx; `found` holds exactly when the lookup has no error and answers below 400; `valid` holds exactly when found and bcrypt accepts the supplied password against the stored one |
| `Provision.HashedPasswordVerifies` | user.go:247-253 | a real password that was accepted verifies against the hash it was replaced by |
| `Provision.ShortPasswordRejected` | user.go:223-243 | any password under 10 bytes that reaches validation is rejected as too short, including a placeholder whose lookup answered neither 200 nor 5xx |
| `Handlers.AuthStatus` | user.go:150-169 | the answer is one of 200, 400, 404, 500; 500 exactly on an error; 404 exactly when not found without error; 200 exactly when found and valid without error; 400 exactly when found and not valid without error |
| `Handlers.AuthStatusOfLookup` | user.go:114-169 | read off the store's answer: 200 exactly when found and bcrypt accepts; 400 exactly when found and bcrypt rejects; 404 exactly on an error-free 4xx; 500 exactly on a lookup error or a 5xx |
| `Handlers.UpsertStatus` | user.go:91-110 | the answer is 200 exactly when the upsert had no error and the store answered in 200-299, otherwise 500 |
| `Handlers.GetUserResponse` | user.go:196-214 | 500 exactly on a lookup error; 404 exactly on an error-free 4xx; otherwise 200 with the stored document whose password is replaced by `"REDACTED"` and all else as stored |
| `Lifecycle.SetPasswordThenAuthenticate` | user.go:67-138 | after upserting a user with a password of at least 10 bytes, the stored record is the user with the password replaced by its hash, login with that password gives `(true, true, nil)` and status 200, and any other password gives `found` with bcrypt's verdict |
| `Lifecycle.RedactedWriteKeepsCredential` | user.go:223-233 | writing an existing user back with an empty or redacted password keeps the stored password, and every login attempt is answered exactly as before |
| `Lifecycle.NewUserNeedsPassword` | user.go:223-243 | a user not in the index written with an empty or redacted password is refused as too short, with status 500 and the index unchanged |
| `Lifecycle.LookupFailureAborts` | user.go:224-237 | a placeholder write whose lookup fails or answers 5xx is refused with status 500, not as a weak password, and the index is unchanged |
| `Lifecycle.GetEditWriteBack` | user.go:205-233 | fetching a user, changing its display name and writing the fetched document back changes only the display name; the redacted password does not overwrite the stored one |
| `Lifecycle.AuthenticateUnknownId` | user.go:122-125 | login under an id the index does not hold is `(false, false, nil)`, answered 404 |

## Left out

- bcrypt internals (salt, cost schedule, 72-byte truncation, constant-time comparison) are a foreign library. They are reduced to `Bcrypt` and the `Sound` assumption.
- Provision.ResolvePassword: does not show that the stored hash differs from the plaintext. That depends on bcrypt's output format, which is not modelled; the model states only that the stored value is bcrypt's output.
- Provision.Api.GetUser: models only a healthy index. Transport errors, JSON decoding errors and other status codes are not computed from the map. They enter as an arbitrary `GetReply` passed to the operations that perform a lookup.
- Provision.Api.Put: always succeeds. A transport failure of the write and the `es.Result` body of the store's answer are not modelled; `UpsertUser` returns only the status code and the error.
- Index paths built with `fmt.Sprintf` (user.go:77, user.go:177), `IdxUser`, `UserResult` and `AccessCheck` are store and wire plumbing with no decision logic.
- Request parsing (`UnmarshalPostAbort`, user.go:85-89 and user.go:144-148), payload texts and response envelopes belong to the HTTP framework and are not modelled. Handlers.UpsertStatus and Handlers.GetUserResponse model a successful send as status 200.
- Logging through zap does not affect outcomes.
- Concurrent upserts of the same id, including the race between the preservation lookup and the write, are concurrency delegated to the store.
- Go strings that are not valid UTF-8 cannot arise from JSON decoding, so strings are sequences of Unicode scalar values.
