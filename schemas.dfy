/** The three Mongoose models of the Express back end (User, Outdoor,
    Anuncio) as records with validity predicates, the defaults a new
    document receives, and the User pre-save hook. Passwords are hashed by
    bcrypt, which is kept symbolic: a hash is a `Hashed` wrapper around what
    was hashed, and `Matches` is what `bcrypt.compare` answers. */
module Schemas {
  import opened Seqs
  import JsText

  /** A document `_id` (an ObjectId). */
  type Id = nat

  // ------------------------------------------------------------------ bcrypt

  datatype Secret = Plain(text: string) | Hashed(of: Secret)

  /** `bcrypt.compare(candidate, stored)`. */
  predicate Matches(candidate: string, stored: Secret)
  {
    stored == Hashed(Plain(candidate))
  }

  /** The stored string is not empty (a hash never is). */
  predicate Filled(s: Secret)
  {
    match s
    case Plain(t) => t != ""
    case Hashed(_) => true
  }

  // -------------------------------------------------------------------- User

  const UserTipos: seq<string> := ["cliente", "admin"]

  datatype User = User(id: Id, nome: string, email: string, senha: Secret, tipo: string, createdAt: int)

  /** Required nome, email and senha; tipo from the enum. */
  predicate UserValid(u: User)
  {
    u.nome != "" && u.email != "" && Filled(u.senha) && u.tipo in UserTipos
  }

  function UserId(u: User): Id { u.id }
  function UserEmail(u: User): string { u.email }

  /** `new User({nome, email, senha})`: `tipo` defaults to cliente and
      `createdAt` to the clock. */
  function NewUser(id: Id, nome: string, email: string, senha: string, now: int): User
  {
    User(id, nome, email, Plain(senha), "cliente", now)
  }

  /** A new user passes validation exactly when the three required strings are
      present, and is always a cliente. */
  lemma NewUserValid(id: Id, nome: string, email: string, senha: string, now: int)
    ensures UserValid(NewUser(id, nome, email, senha, now)) <==> nome != "" && email != "" && senha != ""
    ensures NewUser(id, nome, email, senha, now).tipo == "cliente"
  {
  }

  /** The pre('save') hook: the password is hashed only when it was modified
      since the document was loaded. */
  function PreSave(u: User, senhaModified: bool): (r: User)
    ensures r.(senha := u.senha) == u
    ensures UserValid(u) ==> UserValid(r)
  {
    if senhaModified then u.(senha := Hashed(u.senha)) else u
  }

  /** After the hook a newly registered user logs in with exactly the password
      it registered with. */
  lemma RegisteredPasswordMatches(id: Id, nome: string, email: string, senha: string, now: int, candidate: string)
    ensures Matches(candidate, PreSave(NewUser(id, nome, email, senha, now), true).senha) <==> candidate == senha
  {
  }

  /** Saving without touching the password keeps the stored hash, so the same
      passwords keep matching. */
  lemma SaveWithoutPasswordChangeKeepsLogin(u: User, candidate: string)
    ensures PreSave(u, false).senha == u.senha
    ensures Matches(candidate, PreSave(u, false).senha) <==> Matches(candidate, u.senha)
  {
  }

  /** Were the hook to run on an already hashed password, the password the
      user chose would stop matching: this is why it checks
      `isModified('senha')`. */
  lemma HashingTwiceLocksOut(u: User, p: string)
    requires u.senha == Hashed(Plain(p))
    ensures Matches(p, u.senha)
    ensures !Matches(p, PreSave(u, true).senha)
  {
  }

  // ----------------------------------------------------------------- Outdoor

  const OutdoorTipos: seq<string> := ["led", "lcd", "projetor"]
  const OutdoorStatuses: seq<string> := ["ativo", "inativo", "manutencao"]

  datatype Outdoor = Outdoor(
    id: Id, nome: string, localizacao: string, tipo: string, codigoPublico: string,
    status: string, usuario: Id, anuncios: seq<Id>, createdAt: int)

  /** Required nome, localizacao, tipo and codigoPublico (an absent string is
      kept as ""), tipo and status from their enums. */
  predicate OutdoorValid(o: Outdoor)
  {
    o.nome != "" && o.localizacao != "" && o.tipo in OutdoorTipos &&
    o.codigoPublico != "" && o.status in OutdoorStatuses
  }

  function OutdoorId(o: Outdoor): Id { o.id }
  function OutdoorCode(o: Outdoor): string { o.codigoPublico }

  /** An absent request field as Mongoose sees a required string: missing. */
  function OrEmpty(s: Option<string>): string
  {
    if s.Some? then s.value else ""
  }

  /** `!value` on a request field: absent or the empty string. */
  predicate Missing(v: Option<string>)
  {
    v.None? || v.value == ""
  }

  /** `new Outdoor({nome, localizacao, tipo, codigoPublico, usuario})`:
      status defaults to ativo and the list of anúncios starts empty. */
  function NewOutdoor(id: Id, nome: Option<string>, localizacao: Option<string>, tipo: Option<string>,
                      code: string, usuario: Id, now: int): Outdoor
  {
    Outdoor(id, OrEmpty(nome), OrEmpty(localizacao), OrEmpty(tipo), code, "ativo", usuario, [], now)
  }

  /** A new outdoor is valid exactly when the three submitted fields are
      present and non-empty, tipo is led, lcd or projetor (case matters) and
      the code is non-empty; it starts ativo with no anúncios. */
  lemma NewOutdoorValid(id: Id, nome: Option<string>, localizacao: Option<string>, tipo: Option<string>,
                        code: string, usuario: Id, now: int)
    ensures var o := NewOutdoor(id, nome, localizacao, tipo, code, usuario, now);
      OutdoorValid(o) <==>
        (nome.Some? && nome.value != "" && localizacao.Some? && localizacao.value != "" &&
         tipo.Some? && tipo.value in OutdoorTipos && code != "")
    ensures var o := NewOutdoor(id, nome, localizacao, tipo, code, usuario, now);
      o.status == "ativo" && o.anuncios == [] && o.usuario == usuario && o.codigoPublico == code
  {
  }

  // ----------------------------------------------------------------- Anuncio

  const AnuncioTipos: seq<string> := ["imagem", "video"]
  const AnuncioStatuses: seq<string> := ["ativo", "inativo"]

  datatype Anuncio = Anuncio(
    id: Id, titulo: string, tipo: string, arquivo: string, duracao: int,
    proprietario: Id, outdoors: seq<Id>, status: string, createdAt: int)

  /** Required titulo, tipo, arquivo and duracao; duracao at least 1; tipo and
      status from their enums. */
  predicate AnuncioValid(a: Anuncio)
  {
    a.titulo != "" && a.tipo in AnuncioTipos && a.arquivo != "" && a.duracao >= 1 &&
    a.status in AnuncioStatuses
  }

  function AnuncioId(a: Anuncio): Id { a.id }

  /** `new Anuncio({...})`: the titulo setter trims, status defaults to ativo,
      the outdoor list starts empty and the timestamps supply createdAt. */
  function NewAnuncio(id: Id, titulo: string, tipo: string, arquivo: string, duracao: int,
                      proprietario: Id, now: int): Anuncio
  {
    Anuncio(id, JsText.Trim(titulo), tipo, arquivo, duracao, proprietario, [], "ativo", now)
  }

  /** A new anúncio is valid exactly when its titulo is not all white space,
      tipo is imagem or video, a file name is present and duracao is at
      least 1; its stored titulo has no white space at either end. */
  lemma NewAnuncioValid(id: Id, titulo: string, tipo: string, arquivo: string, duracao: int,
                        proprietario: Id, now: int)
    ensures var a := NewAnuncio(id, titulo, tipo, arquivo, duracao, proprietario, now);
      AnuncioValid(a) <==>
        (!JsText.IsBlank(titulo) && tipo in AnuncioTipos && arquivo != "" && duracao >= 1)
    ensures var a := NewAnuncio(id, titulo, tipo, arquivo, duracao, proprietario, now);
      JsText.Trim(a.titulo) == a.titulo && a.status == "ativo" && a.outdoors == []
  {
    JsText.TrimIdempotent(titulo);
  }
}
