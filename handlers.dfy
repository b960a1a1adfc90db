/** The status codes the HTTP handlers of user.go answer with, as functions of
    the domain outcomes; request parsing and response envelopes are not modelled. */
module Handlers {
  import opened Wrappers
  import opened Provision

  /** Status of `POST /user/auth` for an authentication outcome. */
  function AuthStatus(o: AuthOutcome): (status: int)
    ensures status in {200, 400, 404, 500}
    ensures status == 500 <==> o.err.Some?
    ensures status == 200 <==> o.err == None && o.found && o.valid
    ensures status == 400 <==> o.err == None && o.found && !o.valid
    ensures status == 404 <==> o.err == None && !o.found
  {
    if o.err.Some? then 500
    else if !o.found then 404
    else if o.valid then 200
    else 400
  }

  /** The authentication status read directly off the store's answer: an
      unknown id, a wrong password and a store failure stay distinguishable. */
  lemma AuthStatusOfLookup(auth: Auth, reply: GetReply, bc: Bcrypt)
    ensures AuthStatus(AuthUser(auth, reply, bc)) == 200 <==>
              reply.err == None && reply.code < 400 && bc.compare(reply.source.password, auth.password)
    ensures AuthStatus(AuthUser(auth, reply, bc)) == 400 <==>
              reply.err == None && reply.code < 400 && !bc.compare(reply.source.password, auth.password)
    ensures AuthStatus(AuthUser(auth, reply, bc)) == 404 <==> reply.err == None && 400 <= reply.code < 500
    ensures AuthStatus(AuthUser(auth, reply, bc)) == 500 <==> reply.err.Some? || reply.code >= 500
  {
  }

  /** Status of `POST /user`: an upsert error or a store code outside the
      2xx range is a server error. */
  function UpsertStatus(code: int, err: Option<Error>): (status: int)
    ensures status in {200, 500}
    ensures status == 200 <==> err == None && 200 <= code < 300
  {
    if err.Some? then 500
    else if code < 200 || code >= 300 then 500
    else 200
  }

  /** Response of `GET /user/:id`: a status and, on success, the document. */
  datatype GetResponse = GetResponse(status: int, body: Option<UserDoc>)

  /** The stored password never leaves the service: the document sent back
      has it replaced by the placeholder and everything else as stored. */
  function GetUserResponse(reply: GetReply): (r: GetResponse)
    ensures r.status == 500 <==> reply.err.Some?
    ensures r.status == 404 <==> reply.err == None && 400 <= reply.code < 500
    ensures reply.err == None && !(400 <= reply.code < 500) ==> r.status == 200
    ensures r.body.Some? <==> r.status == 200
    ensures r.body.Some? ==> r.body.value == reply.source.(password := Redacted)
  {
    if reply.err.Some? then GetResponse(500, None)
    else
      var redacted := reply.source.(password := Redacted);
      if 400 <= reply.code < 500 then GetResponse(404, None)
      else GetResponse(200, Some(redacted))
  }
}
