/** The `/api/auth` routes of the Express back end: register, login,
    password recovery and password reset. Tokens and password hashes are the
    symbolic ones of `Tokens` and `Schemas`; `jwt.verify` is a parameter. */
module AuthRoutes {
  import opened Seqs
  import opened Schemas
  import opened Tokens
  import opened MongoStore

  /** The user as the auth routes send it back: id, nome, email and tipo,
      never `senha`. */
  datatype Profile = Profile(id: Id, nome: string, email: string, tipo: string)

  function ProfileOf(u: User): Profile
  {
    Profile(u.id, u.nome, u.email, u.tipo)
  }

  /** The `{ user, token }` body of register and login. */
  datatype Session = Session(user: Profile, token: Token)

  /** The `{ message, token }` body of recover-password. */
  datatype Notice = Notice(message: string, token: Option<Token>)

  const RecoverMessage: string := "Se o email existir, você receberá as instruções para recuperar sua senha."

  // --------------------------------------------------------------- register

  /** The document register stores: a new cliente whose password the
      pre-save hook has hashed. */
  function Registered(id: Id, nome: string, email: string, password: string, now: int): (u: User)
    ensures u.id == id && u.nome == nome && u.email == email && u.tipo == "cliente" && u.createdAt == now
    ensures forall c :: Matches(c, u.senha) <==> c == password
    ensures nome != "" && email != "" ==> UserValid(u)
  {
    PreSave(NewUser(id, nome, email, password, now), true)
  }

  /** POST /register: 400 when a field is missing (before any lookup), 400
      when the email is taken; otherwise exactly one cliente is appended and
      the reply carries its profile and a session token. The validation
      branch of the catch cannot be reached: the three required strings are
      non-empty by then. */
  method Register(db: Db, nome: Option<string>, email: Option<string>, password: Option<string>,
                  newId: Id, now: int) returns (r: Reply<Session>)
    requires db.Valid()
    requires forall k :: 0 <= k < |db.users| ==> db.users[k].id != newId
    modifies db
    ensures db.Valid()
    ensures db.outdoors == old(db.outdoors) && db.anuncios == old(db.anuncios) && db.uploads == old(db.uploads)
    ensures Missing(nome) || Missing(email) || Missing(password) ==>
      r == Fail(400, "Todos os campos são obrigatórios") && db.users == old(db.users)
    ensures !(Missing(nome) || Missing(email) || Missing(password)) ==>
      if exists k :: 0 <= k < |old(db.users)| && old(db.users)[k].email == email.value
      then r == Fail(400, "Email já cadastrado") && db.users == old(db.users)
      else
        var u := Registered(newId, nome.value, email.value, password.value, now);
        db.users == old(db.users) + [u] &&
        r == Ok(201, Session(Profile(newId, nome.value, email.value, "cliente"), SessionToken(newId)))
  {
    if Missing(nome) || Missing(email) || Missing(password) {
      return Fail(400, "Todos os campos são obrigatórios");
    }
    if UserWithEmail(db.users, email.value).Some? {
      return Fail(400, "Email já cadastrado");
    }
    var u := Registered(newId, nome.value, email.value, password.value, now);
    SnocKeepsUnique(db.users, u, UserId);
    SnocKeepsUnique(db.users, u, UserEmail);
    db.users := db.users + [u];
    r := Ok(201, Session(ProfileOf(u), SessionToken(u.id)));
  }

  // ------------------------------------------------------------------ login

  /** POST /login: 400 when email or password is missing; the same 401 for an
      unknown email and for a wrong password; otherwise the profile of the
      user with that email and a session token for it. */
  function Login(users: seq<User>, email: Option<string>, password: Option<string>): (r: Reply<Session>)
    ensures Missing(email) || Missing(password) ==> r == Fail(400, "Email e senha são obrigatórios")
    ensures r.Fail? && !Missing(email) && !Missing(password) ==> r == Fail(401, "Credenciais inválidas")
    ensures !Missing(email) && !Missing(password) && (forall k :: 0 <= k < |users| ==> users[k].email != email.value) ==>
      r == Fail(401, "Credenciais inválidas")
    ensures r.Ok? ==> r.status == 200
    ensures r.Ok? ==>
      exists k :: (0 <= k < |users| && users[k].email == email.value && Matches(password.value, users[k].senha) &&
                   r.body == Session(ProfileOf(users[k]), SessionToken(users[k].id)))
  {
    if Missing(email) || Missing(password) then Fail(400, "Email e senha são obrigatórios")
    else
      match UserWithEmail(users, email.value)
      case None => Fail(401, "Credenciais inválidas")
      case Some(k) =>
        if !Matches(password.value, users[k].senha) then Fail(401, "Credenciais inválidas")
        else Ok(200, Session(ProfileOf(users[k]), SessionToken(users[k].id)))
  }

  /** With emails unique, login as a given user succeeds exactly when the
      password matches that user's stored hash, and then names that user. */
  lemma LoginSucceedsExactlyOnMatch(users: seq<User>, k: nat, password: string)
    requires UniqueBy(users, UserEmail)
    requires k < |users| && users[k].email != "" && password != ""
    ensures var r := Login(users, Some(users[k].email), Some(password));
      (r.Ok? <==> Matches(password, users[k].senha)) && (r.Ok? ==> r.body.user.id == users[k].id)
  {
    var e := users[k].email;
    var j := UserWithEmail(users, e).value;
    assert users[j].email == e;
  }

  /** Registering and then logging in with the same credentials works, and
      no other password does. */
  lemma RegisteredUserCanLogIn(users: seq<User>, id: Id, nome: string, email: string, password: string,
                               now: int, candidate: string)
    requires UniqueBy(users, UserEmail)
    requires forall k :: 0 <= k < |users| ==> users[k].email != email
    requires email != ""
    ensures var r := Login(users + [Registered(id, nome, email, password, now)], Some(email), Some(candidate));
      (r.Ok? <==> candidate == password && candidate != "") && (r.Ok? ==> r.body.user.id == id)
  {
    var u := Registered(id, nome, email, password, now);
    SnocKeepsUnique(users, u, UserEmail);
    if candidate != "" {
      LoginSucceedsExactlyOnMatch(users + [u], |users|, candidate);
    }
  }

  // ------------------------------------------------------ recover-password

  /** POST /recover-password: 400 without an email; otherwise the same
      message whether or not the email is known, with a one-hour reset token
      for the user when it is. */
  function Recover(users: seq<User>, email: Option<string>): (r: Reply<Notice>)
    ensures r.Fail? <==> Missing(email)
    ensures r.Fail? ==> r == Fail(400, "Email é obrigatório")
    ensures r.Ok? ==> r.status == 200 && r.body.message == RecoverMessage
    ensures r.Ok? ==> (r.body.token.Some? <==> exists k :: 0 <= k < |users| && users[k].email == email.value)
    ensures r.Ok? && r.body.token.Some? ==>
      exists k :: 0 <= k < |users| && users[k].email == email.value && r.body.token.value == ResetToken(users[k].id)
  {
    if Missing(email) then Fail(400, "Email é obrigatório")
    else
      match UserWithEmail(users, email.value)
      case None => Ok(200, Notice(RecoverMessage, None))
      case Some(k) => Ok(200, Notice(RecoverMessage, Some(ResetToken(users[k].id))))
  }

  // -------------------------------------------------------- reset-password

  /** The first half of POST /reset-password, common to the code as written
      and to its correction: the position of the user the token designates
      (`findById(decoded.userId)`), or the failure reply. A verification
      failure is caught by the generic handler (500); a token without a
      `userId` claim finds nobody (400). */
  function ResetTarget(users: seq<User>, token: Option<string>, newPassword: Option<string>,
                       verify: string -> Verified): (r: Reply<nat>)
    ensures Missing(token) || Missing(newPassword) ==> r == Fail(400, "Token e nova senha são obrigatórios")
    ensures !Missing(token) && !Missing(newPassword) && verify(token.value) in {Invalid, Expired} ==>
      r == Fail(500, "Erro ao redefinir senha")
    ensures !Missing(token) && !Missing(newPassword) && verify(token.value).Decoded? &&
            (verify(token.value).payload.userId.None? ||
             forall k :: 0 <= k < |users| ==> users[k].id != verify(token.value).payload.userId.value) ==>
      r == Fail(400, "Token inválido ou expirado")
    ensures r.Ok? ==> (r.body < |users| && !Missing(newPassword) && !Missing(token) &&
      verify(token.value).Decoded? && verify(token.value).payload.userId == Some(users[r.body].id))
  {
    if Missing(token) || Missing(newPassword) then Fail(400, "Token e nova senha são obrigatórios")
    else
      match verify(token.value)
      case Invalid => Fail(500, "Erro ao redefinir senha")
      case Expired => Fail(500, "Erro ao redefinir senha")
      case Decoded(p) =>
        if p.userId.None? then Fail(400, "Token inválido ou expirado")
        else
          match UserAt(users, p.userId.value)
          case None => Fail(400, "Token inválido ou expirado")
          case Some(k) => Ok(200, k)
  }

  /** reset-password as written: the new hash goes to `user.password`, a
      path the schema does not have, so `save()` stores nothing new and the
      reply still reports success. The store is left as it was. */
  function ResetPasswordAsWritten(users: seq<User>, token: Option<string>, newPassword: Option<string>,
                                  verify: string -> Verified): (r: Reply<string>)
    ensures r.Ok? <==> ResetTarget(users, token, newPassword, verify).Ok?
    ensures r.Ok? ==> r == Ok(200, "Senha atualizada com sucesso")
  {
    match ResetTarget(users, token, newPassword, verify)
    case Fail(s, e) => Fail(s, e)
    case Ok(_, _) => Ok(200, "Senha atualizada com sucesso")
  }

  /** As written, a reset reported as successful leaves the old password in
      force: the new one is refused at login and the old one still works. */
  lemma ResetAsWrittenKeepsOldPassword(users: seq<User>, token: string, newPassword: string,
                                       verify: string -> Verified, oldPassword: string)
    requires UniqueBy(users, UserEmail) && AllUsersValid(users)
    requires ResetPasswordAsWritten(users, Some(token), Some(newPassword), verify).Ok?
    requires Matches(oldPassword, users[ResetTarget(users, Some(token), Some(newPassword), verify).body].senha)
    requires oldPassword != "" && newPassword != oldPassword
    ensures var u := users[ResetTarget(users, Some(token), Some(newPassword), verify).body];
      Login(users, Some(u.email), Some(newPassword)) == Fail(401, "Credenciais inválidas") &&
      Login(users, Some(u.email), Some(oldPassword)).Ok?
  {
    var k := ResetTarget(users, Some(token), Some(newPassword), verify).body;
    assert UserValid(users[k]);
    LoginSucceedsExactlyOnMatch(users, k, newPassword);
    LoginSucceedsExactlyOnMatch(users, k, oldPassword);
  }

  /** The evident intent: `user.senha = newPassword`, which the pre-save hook
      then hashes exactly once. */
  function WithPassword(u: User, password: string): (r: User)
    ensures r.(senha := u.senha) == u
    ensures forall c :: Matches(c, r.senha) <==> c == password
    ensures UserValid(u) ==> UserValid(r)
  {
    PreSave(u.(senha := Plain(password)), true)
  }

  /** POST /reset-password, corrected: the designated user's password is
      replaced and nothing else changes. */
  method ResetPassword(db: Db, token: Option<string>, newPassword: Option<string>, verify: string -> Verified)
    returns (r: Reply<string>)
    requires db.Valid()
    modifies db
    ensures db.Valid()
    ensures db.outdoors == old(db.outdoors) && db.anuncios == old(db.anuncios) && db.uploads == old(db.uploads)
    ensures match ResetTarget(old(db.users), token, newPassword, verify)
      case Fail(s, e) => r == Fail(s, e) && db.users == old(db.users)
      case Ok(_, k) =>
        r == Ok(200, "Senha atualizada com sucesso") &&
        db.users == old(db.users)[k := WithPassword(old(db.users)[k], newPassword.value)]
  {
    match ResetTarget(db.users, token, newPassword, verify)
    case Fail(s, e) =>
      r := Fail(s, e);
    case Ok(_, k) =>
      var u := WithPassword(db.users[k], newPassword.value);
      UpdateKeepsUnique(db.users, k, u, UserId);
      UpdateKeepsUnique(db.users, k, u, UserEmail);
      db.users := db.users[k := u];
      r := Ok(200, "Senha atualizada com sucesso");
  }

  /** After the corrected reset the user logs in with the new password and
      with no other one. */
  lemma ResetThenLogin(users: seq<User>, k: nat, password: string, candidate: string)
    requires UniqueBy(users, UserEmail) && AllUsersValid(users)
    requires k < |users| && password != ""
    ensures var after := users[k := WithPassword(users[k], password)];
      Login(after, Some(users[k].email), Some(candidate)).Ok? <==> candidate == password
  {
    var u := WithPassword(users[k], password);
    var after := users[k := u];
    assert UserValid(users[k]);
    UpdateKeepsUnique(users, k, u, UserEmail);
    if candidate != "" {
      LoginSucceedsExactlyOnMatch(after, k, candidate);
    }
  }
}
