/** The `auth` and `isAdmin` middleware of the Express back end: the bearer
    token is taken from the Authorization header, verified, and resolved to
    a user, or the request is halted with a status and an error message. */
module AuthMiddleware {
  import opened Seqs
  import opened Schemas
  import opened Tokens
  import opened MongoStore
  import JsText

  /** `next()` with `req.user` and `req.token` set, or a reply that ends the
      request. */
  datatype Outcome = Next(user: User, token: string) | Halt(status: int, error: string)

  const BearerPrefix: string := "Bearer "

  /** `req.header('Authorization')?.replace('Bearer ', '')`: an absent header
      gives undefined; otherwise the first "Bearer " is cut out, wherever it
      is. */
  function BearerToken(header: Option<string>): (r: Option<string>)
    ensures header.None? <==> r.None?
    ensures header.Some? ==> |header.value| - |BearerPrefix| <= |r.value| <= |header.value|
  {
    match header
    case None => None
    case Some(h) => Some(JsText.ReplaceFirst(h, BearerPrefix, ""))
  }

  /** The usual header gives back exactly the token after the prefix. */
  lemma BearerTokenStripsPrefix(t: string)
    ensures BearerToken(Some(BearerPrefix + t)) == Some(t)
  {
    var h := BearerPrefix + t;
    assert h[..|BearerPrefix|] == BearerPrefix;
    assert JsText.IndexOf(h, BearerPrefix) == Some(0);
    assert h[|BearerPrefix|..] == t;
    assert JsText.ReplaceFirst(h, BearerPrefix, "") == h[..0] + "" + h[|BearerPrefix|..];
    assert h[..0] + "" + h[|BearerPrefix|..] == t;
  }

  /** A header without the prefix is taken as the token itself. */
  lemma BearerTokenWithoutPrefix(h: string)
    requires forall k: nat :: !JsText.MatchesAt(h, BearerPrefix, k)
    ensures BearerToken(Some(h)) == Some(h)
  {
  }

  /** `User.findOne({ _id: decoded.id })` as written: when the payload has no
      `id`, the undefined key is dropped from the filter and the query
      matches the first user. */
  function SessionUserAsWritten(users: seq<User>, id: Option<Id>): (r: Option<User>)
    ensures r.Some? ==> r.value in users
    ensures id.Some? ==> (r.Some? <==> exists k :: 0 <= k < |users| && users[k].id == id.value)
    ensures id.Some? && r.Some? ==> r.value.id == id.value
    ensures id.None? ==> (r.Some? <==> users != [])
  {
    match id
    case None => if users == [] then None else Some(users[0])
    case Some(i) =>
      match UserAt(users, i)
      case None => None
      case Some(k) => Some(users[k])
  }

  /** The lookup the middleware evidently means: a token without an `id`
      claim names no user. */
  function SessionUser(users: seq<User>, id: Option<Id>): (r: Option<User>)
    ensures r.Some? ==> r.value in users && id == Some(r.value.id)
    ensures r.None? <==> id.None? || forall k :: 0 <= k < |users| ==> users[k].id != id.value
  {
    match id
    case None => None
    case Some(i) =>
      match UserAt(users, i)
      case None => None
      case Some(k) => Some(users[k])
  }

  /** The steps common to both versions: no token, then the two verification
      failures, then the user lookup, whose miss throws a plain Error and so
      ends in 500. */
  function Resolve(header: Option<string>, verify: string -> Verified, found: Option<Id> -> Option<User>): Outcome
  {
    var token := BearerToken(header);
    if token.None? || token.value == "" then Halt(401, "Token não fornecido")
    else
      match verify(token.value)
      case Invalid => Halt(401, "Token inválido")
      case Expired => Halt(401, "Token expirado")
      case Decoded(p) =>
        match found(p.id)
        case None => Halt(500, "Erro na autenticação")
        case Some(u) => Next(u, token.value)
  }

  /** `auth` as written. */
  function AuthenticateAsWritten(header: Option<string>, verify: string -> Verified, users: seq<User>): (r: Outcome)
    ensures r.Next? ==> r.user in users && BearerToken(header) == Some(r.token) && r.token != ""
    ensures (header.None? || BearerToken(header) == Some("")) ==> r == Halt(401, "Token não fornecido")
  {
    Resolve(header, verify, (id: Option<Id>) => SessionUserAsWritten(users, id))
  }

  /** As written, a password-reset token (payload `{ userId }`, no `id`)
      passes `auth` as the first user in the collection, whoever it was issued
      for. */
  lemma ResetTokenPassesAsFirstUser(header: string, verify: string -> Verified, users: seq<User>, uid: Id)
    requires users != []
    requires BearerToken(Some(header)).value != ""
    requires verify(BearerToken(Some(header)).value) == Decoded(ResetToken(uid).payload)
    ensures AuthenticateAsWritten(Some(header), verify, users).Next?
    ensures AuthenticateAsWritten(Some(header), verify, users).user == users[0]
  {
  }

  /** `auth`, with the lookup that rejects tokens without an `id`: the model
      of the middleware the routes rely on. */
  function Authenticate(header: Option<string>, verify: string -> Verified, users: seq<User>): (r: Outcome)
    ensures r.Next? ==> r.user in users && BearerToken(header) == Some(r.token) && r.token != ""
    ensures r.Next? ==> verify(r.token).Decoded? && verify(r.token).payload.id == Some(r.user.id)
    ensures (header.None? || BearerToken(header) == Some("")) ==> r == Halt(401, "Token não fornecido")
    ensures r.Halt? ==> r.status in {401, 500}
    ensures r.Halt? && r.status == 401 ==>
      BearerToken(header) in {None, Some("")} || verify(BearerToken(header).value) in {Invalid, Expired}
    ensures var t := BearerToken(header);
      t.Some? && t.value != "" && verify(t.value).Decoded? && verify(t.value).payload.id.Some? &&
      (exists k :: 0 <= k < |users| && users[k].id == verify(t.value).payload.id.value) ==>
        r.Next? && r.token == t.value && r.user.id == verify(t.value).payload.id.value
    ensures var t := BearerToken(header);
      r == Halt(500, "Erro na autenticação") <==>
        t.Some? && t.value != "" && verify(t.value).Decoded? &&
        (verify(t.value).payload.id.None? ||
         forall k :: 0 <= k < |users| ==> users[k].id != verify(t.value).payload.id.value)
  {
    Resolve(header, verify, (id: Option<Id>) => SessionUser(users, id))
  }

  /** The error mapping: a token that fails verification halts with 401 and
      the message of its failure. */
  lemma VerificationFailuresAre401(header: string, verify: string -> Verified, users: seq<User>)
    requires BearerToken(Some(header)).value != ""
    requires verify(BearerToken(Some(header)).value) in {Invalid, Expired}
    ensures var r := Authenticate(Some(header), verify, users);
      r.Halt? && r.status == 401 &&
      r.error == (if verify(BearerToken(Some(header)).value) == Invalid then "Token inválido" else "Token expirado")
  {
  }

  /** A verified session token for an id no user has ends in 500, not 401. */
  lemma UnknownUserIs500(header: string, verify: string -> Verified, users: seq<User>, id: Id)
    requires BearerToken(Some(header)).value != ""
    requires verify(BearerToken(Some(header)).value) == Decoded(SessionToken(id).payload)
    requires forall k :: 0 <= k < |users| ==> users[k].id != id
    ensures Authenticate(Some(header), verify, users) == Halt(500, "Erro na autenticação")
  {
  }

  /** `isAdmin`: `next()` only for an admin, 403 otherwise. */
  datatype Gate = Pass | Deny(status: int, error: string)

  function AdminGate(user: User): (r: Gate)
    ensures r.Pass? <==> user.tipo == "admin"
    ensures r.Deny? ==> r.status == 403 && r.error == "Acesso negado"
  {
    if user.tipo != "admin" then Deny(403, "Acesso negado") else Pass
  }
}
