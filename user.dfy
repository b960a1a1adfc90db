/** The credential lifecycle of user records (user.go): what ends up in a user's
    password field before a write, the keyed whole-document write itself, and
    the three-valued authentication outcome.

    Collaborators are abstracted:
    - bcrypt is a `Bcrypt` value holding a hash generator and a comparison;
    - the answer of the document store to a lookup by id is a `GetReply`,
      which may carry a transport error or any status code;
    - the user index itself is the map `Api.users`. */
module Provision {
  import opened Wrappers
  import opened GoString

  /** Placeholder a client sends back to mean "keep the stored password". */
  const Redacted: string := "REDACTED"
  /** Minimum password length, in bytes. */
  const MinPasswordLen: nat := 10
  /** bcrypt work factor. */
  const EncCost: int := 12

  /** A user document as the index stores it. */
  datatype UserDoc = UserDoc(
    id: string,
    description: string,
    displayName: string,
    active: bool,
    sysop: bool,
    password: string,
    sections: seq<string>,
    sectionsAll: bool,
    accounts: seq<string>,
    adminAccounts: seq<string>)

  /** An authentication request: an id and a plaintext password. */
  datatype Auth = Auth(id: string, password: string)

  /** The store's answer to a lookup by id: a status code, the decoded
      document, and a transport or decoding error. */
  datatype GetReply = GetReply(code: int, source: UserDoc, err: Option<string>)

  datatype Error =
    | LookupFailed(cause: string)   // the lookup itself returned an error
    | LookupBadStatus               // the lookup answered 5xx while resolving a password
    | PasswordTooShort              // fewer than MinPasswordLen bytes
    | HashFailed                    // the hash generator failed
    | StoreServerError              // the lookup answered 5xx while authenticating

  /** bcrypt as two opaque operations: generate a hash of a password at a
      cost (which may fail), and compare a stored hash with a password. */
  datatype Bcrypt = Bcrypt(generate: (string, int) -> Option<string>, compare: (string, string) -> bool)

  /** The one property of bcrypt the model relies on: a hash it produced
      matches the password it was produced from. Injectivity is not assumed. */
  ghost predicate Sound(bc: Bcrypt)
  {
    forall p: string :: bc.generate(p, EncCost).Some? ==> bc.compare(bc.generate(p, EncCost).value, p)
  }

  /** Every document of an index is stored under its own id. */
  ghost predicate Keyed(users: map<string, UserDoc>)
  {
    forall k :: k in users ==> users[k].id == k
  }

  /** A supplied password that asks to keep the stored one. */
  predicate IsPlaceholder(s: string)
  {
    s == "" || s == Redacted
  }

  /** The password a write carries, decided from the supplied value and the
      store's answer to a lookup of the same id (asked only for a placeholder). */
  function ResolvePassword(supplied: string, existing: GetReply, bc: Bcrypt): (r: Result<string, Error>)
    // a placeholder succeeds exactly when the record exists, and then carries the stored value unchanged
    ensures IsPlaceholder(supplied) ==> (r.Ok? <==> existing.err == None && existing.code == 200)
    ensures IsPlaceholder(supplied) && r.Ok? ==> r.value == existing.source.password
    // a real password succeeds only when long enough, and is replaced by its hash
    ensures !IsPlaceholder(supplied) ==>
              (r.Ok? <==> MinPasswordLen <= Utf8Len(supplied) && bc.generate(supplied, EncCost).Some?)
    ensures !IsPlaceholder(supplied) && MinPasswordLen <= Utf8Len(supplied) && bc.generate(supplied, EncCost).None? ==>
              r == Err(HashFailed)
    ensures !IsPlaceholder(supplied) && r.Ok? ==>
              MinPasswordLen <= Utf8Len(supplied) && bc.generate(supplied, EncCost) == Some(r.value)
    // a failed lookup is reported as such, never as a weak password
    ensures IsPlaceholder(supplied) && existing.err.Some? ==> r == Err(LookupFailed(existing.err.value))
    ensures IsPlaceholder(supplied) && existing.err == None && existing.code >= 500 ==> r == Err(LookupBadStatus)
  {
    if IsPlaceholder(supplied) && existing.err.Some? then
      Err(LookupFailed(existing.err.value))
    else if IsPlaceholder(supplied) && existing.code == 200 then
      Ok(existing.source.password)
    else if IsPlaceholder(supplied) && existing.code >= 500 then
      Err(LookupBadStatus)
    else if Utf8Len(supplied) < MinPasswordLen then
      Err(PasswordTooShort)
    else
      match bc.generate(supplied, EncCost)
      case None => Err(HashFailed)
      case Some(h) => Ok(h)
  }

  /** A user object as the request handler holds it; its password field is
      rewritten in place before the write. */
  class User {
    var id: string
    var description: string
    var displayName: string
    var active: bool
    var sysop: bool
    var password: string
    var sections: seq<string>
    var sectionsAll: bool
    var accounts: seq<string>
    var adminAccounts: seq<string>

    /** The document this object serialises to. */
    function Doc(): (d: UserDoc)
      reads this
      ensures d.id == id && d.password == password
    {
      UserDoc(id, description, displayName, active, sysop, password,
              sections, sectionsAll, accounts, adminAccounts)
    }

    constructor (d: UserDoc)
      ensures Doc() == d
    {
      id, description, displayName := d.id, d.description, d.displayName;
      active, sysop, password := d.active, d.sysop, d.password;
      sections, sectionsAll := d.sections, d.sectionsAll;
      accounts, adminAccounts := d.accounts, d.adminAccounts;
    }

    /** Keeps the stored password for a placeholder, otherwise checks the
        length and replaces the plaintext by its hash. Only `password` may
        change, and only on success. `existing` is the store's answer to
        looking up `id`. */
    method CheckEncryptPassword(existing: GetReply, bc: Bcrypt) returns (err: Option<Error>)
      modifies this`password
      ensures Doc() == old(Doc()).(password := password)
      ensures match ResolvePassword(old(password), existing, bc)
              case Ok(p) => err == None && password == p
              case Err(e) => err == Some(e) && password == old(password)
    {
      if password == "" || password == Redacted {
        if existing.err.Some? {
          return Some(LookupFailed(existing.err.value));
        }
        if existing.code == 200 {
          password := existing.source.password;
          return None;
        }
        if existing.code >= 500 {
          return Some(LookupBadStatus);
        }
      }
      if Utf8Len(password) < MinPasswordLen {
        return Some(PasswordTooShort);
      }
      var encPw := bc.generate(password, EncCost);
      if encPw.None? {
        return Some(HashFailed);
      }
      password := encPw.value;
      return None;
    }
  }

  /** The service: the user index, keyed by id. */
  class Api {
    var users: map<string, UserDoc>

    ghost predicate Valid()
      reads this
    {
      Keyed(users)
    }

    constructor (users: map<string, UserDoc>)
      requires Keyed(users)
      ensures Valid() && this.users == users
    {
      this.users := users;
    }

    /** The answer of a healthy index to a lookup: 200 with the stored
        document, or 404 when there is none. */
    function GetUser(id: string): (r: GetReply)
      reads this
      ensures r.err == None
      ensures r.code == 200 <==> id in users
      ensures id in users ==> r.source == users[id]
      ensures id !in users ==> r.code == 404
    {
      if id in users then GetReply(200, users[id], None)
      else GetReply(404, UserDoc("", "", "", false, false, "", [], false, [], []), None)
    }

    /** Whole-document write keyed by id: 201 when created, 200 when replaced. */
    method Put(id: string, doc: UserDoc) returns (code: int)
      requires Valid() && doc.id == id
      modifies this`users
      ensures Valid()
      ensures users == old(users)[id := doc]
      ensures code == if id in old(users) then 200 else 201
    {
      code := if id in users then 200 else 201;
      users := users[id := doc];
    }

    /** Resolves the password, then writes the whole record under its id; on
        failure answers 500 and writes nothing. `existing` is the index's
        answer to looking up `user.id`. */
    method UpsertUser(user: User, existing: GetReply, bc: Bcrypt) returns (code: int, err: Option<Error>)
      requires Valid()
      modifies this`users, user`password
      ensures Valid()
      ensures user.Doc() == old(user.Doc()).(password := user.password)
      ensures match ResolvePassword(old(user.password), existing, bc)
              case Err(e) =>
                code == 500 && err == Some(e) && users == old(users) && user.password == old(user.password)
              case Ok(p) =>
                err == None && user.password == p && users == old(users)[user.id := user.Doc()] &&
                code == if user.id in old(users) then 200 else 201
    {
      err := user.CheckEncryptPassword(existing, bc);
      if err.Some? {
        code := 500;
        return;
      }
      code := Put(user.id, user.Doc());
    }
  }

  /** Outcome of an authentication attempt. */
  datatype AuthOutcome = AuthOutcome(found: bool, valid: bool, err: Option<Error>)

  /** Authenticates `auth` against the store's answer to looking up `auth.id`. */
  function AuthUser(auth: Auth, reply: GetReply, bc: Bcrypt): (o: AuthOutcome)
    ensures o.valid ==> o.found
    ensures o.err.Some? ==> !o.found && !o.valid
    ensures o.err.Some? <==> reply.err.Some? || (reply.code >= 500)
    ensures reply.err.Some? ==> o.err == Some(LookupFailed(reply.err.value))
    ensures o.found <==> reply.err == None && reply.code < 400
    ensures o.valid <==> o.found && bc.compare(reply.source.password, auth.password)
  {
    if reply.err.Some? then AuthOutcome(false, false, Some(LookupFailed(reply.err.value)))
    else if 400 <= reply.code < 500 then AuthOutcome(false, false, None)
    else if reply.code >= 500 then AuthOutcome(false, false, Some(StoreServerError))
    else if !bc.compare(reply.source.password, auth.password) then AuthOutcome(true, false, None)
    else AuthOutcome(true, true, None)
  }

  /** A password that was hashed on the way in verifies against its hash. */
  lemma HashedPasswordVerifies(supplied: string, existing: GetReply, bc: Bcrypt)
    requires Sound(bc)
    requires !IsPlaceholder(supplied) && ResolvePassword(supplied, existing, bc).Ok?
    ensures bc.compare(ResolvePassword(supplied, existing, bc).value, supplied)
  {
  }

  /** No password shorter than the minimum is ever hashed; in particular a
      placeholder for a record that does not exist is always rejected, so a
      new user must supply a real password. */
  lemma ShortPasswordRejected(supplied: string, existing: GetReply, bc: Bcrypt)
    requires Utf8Len(supplied) < MinPasswordLen
    requires !IsPlaceholder(supplied) || (existing.err == None && existing.code != 200 && existing.code < 500)
    ensures ResolvePassword(supplied, existing, bc) == Err(PasswordTooShort)
  {
  }
}
