/** The `/api/clientes` routes of the Express back end: the admin's list of
    clientes, the self-or-admin read and edit of one user, and the admin's
    removal of one. `src/server.js` does not mount this router, so these
    handlers are reachable only once it is mounted. */
module ClientesRoutes {
  import opened Seqs
  import opened Schemas
  import opened MongoStore
  import opened Sorting
  import AuthMiddleware

  /** A user document under `.select('-senha')`. */
  datatype ClienteView = ClienteView(id: Id, nome: string, email: string, tipo: string, createdAt: int)

  function ViewOf(u: User): ClienteView
  {
    ClienteView(u.id, u.nome, u.email, u.tipo, u.createdAt)
  }

  predicate IsCliente(u: User) { u.tipo == "cliente" }

  /** `.sort({ createdAt: -1 })` as an ascending sort on the negated key. */
  function NewestFirst(u: User): int { 0 - u.createdAt }

  /** The access rule of GET and PUT /:id: an admin, or the user itself. */
  predicate CanAccess(caller: User, id: Id)
  {
    caller.tipo == "admin" || caller.id == id
  }

  /** `User.find({ tipo: 'cliente' }).sort({ createdAt: -1 })`. */
  function Clientes(users: seq<User>): (r: seq<User>)
    ensures forall u :: u in r <==> u in users && IsCliente(u)
    ensures SortedBy(r, NewestFirst)
    ensures |r| == |Filter(users, IsCliente)|
  {
    var clientes := Filter(users, IsCliente);
    var sorted := SortBy(clientes, NewestFirst);
    assert forall u :: u in sorted <==> u in clientes by {
      forall u ensures u in sorted <==> u in clientes {
        assert u in sorted <==> u in multiset(sorted);
        assert u in clientes <==> u in multiset(clientes);
      }
    }
    sorted
  }

  /** `.select('-senha')` on each document, in order. */
  function Views(s: seq<User>): (r: seq<ClienteView>)
    ensures |r| == |s| && forall i :: 0 <= i < |s| ==> r[i] == ViewOf(s[i])
  {
    seq(|s|, i requires 0 <= i < |s| => ViewOf(s[i]))
  }

  /** What the admin's list is owed: exactly the clientes, each without
      senha, newest first. */
  ghost predicate IsClienteListing(body: seq<ClienteView>, users: seq<User>)
  {
    (forall i, j :: 0 <= i < j < |body| ==> body[i].createdAt >= body[j].createdAt) &&
    (forall v :: v in body ==> v.tipo == "cliente" && exists u :: u in users && ViewOf(u) == v) &&
    (forall k :: 0 <= k < |users| && IsCliente(users[k]) ==> ViewOf(users[k]) in body) &&
    |body| == |Filter(users, IsCliente)|
  }

  lemma ClientesAreListed(users: seq<User>)
    ensures IsClienteListing(Views(Clientes(users)), users)
  {
    var sorted := Clientes(users);
    var body := Views(sorted);
    forall k | 0 <= k < |users| && IsCliente(users[k]) ensures ViewOf(users[k]) in body {
      var i :| 0 <= i < |sorted| && sorted[i] == users[k];
      assert body[i] == ViewOf(users[k]);
    }
    forall i, j | 0 <= i < j < |body| ensures body[i].createdAt >= body[j].createdAt {
      assert NewestFirst(sorted[i]) <= NewestFirst(sorted[j]);
    }
    forall v | v in body ensures v.tipo == "cliente" && exists u :: u in users && ViewOf(u) == v {
      var i :| 0 <= i < |body| && body[i] == v;
      assert sorted[i] in sorted;
    }
  }

  /** GET / (behind `isAdmin`): 403 for anyone but an admin, otherwise the
      listing of every cliente. */
  function List(caller: User, users: seq<User>): (r: Reply<seq<ClienteView>>)
    ensures r.Fail? <==> caller.tipo != "admin"
    ensures r.Fail? ==> r == Fail(403, "Acesso negado")
    ensures r.Ok? ==> r.status == 200 && IsClienteListing(r.body, users)
  {
    match AuthMiddleware.AdminGate(caller)
    case Deny(s, e) => Fail(s, e)
    case Pass =>
      ClientesAreListed(users);
      Ok(200, Views(Clientes(users)))
  }

  /** GET /:id: 403 unless admin or self, 404 for an unknown id, otherwise
      the user without senha. */
  function Get(caller: User, users: seq<User>, id: Id): (r: Reply<ClienteView>)
    ensures !CanAccess(caller, id) ==> r == Fail(403, "Acesso negado")
    ensures CanAccess(caller, id) && (forall k :: 0 <= k < |users| ==> users[k].id != id) ==>
      r == Fail(404, "Cliente não encontrado")
    ensures r.Ok? ==> r.status == 200 && r.body.id == id && exists u :: u in users && ViewOf(u) == r.body
    ensures r.Ok? <==> CanAccess(caller, id) && exists k :: 0 <= k < |users| && users[k].id == id
  {
    if !CanAccess(caller, id) then Fail(403, "Acesso negado")
    else
      match UserAt(users, id)
      case None => Fail(404, "Cliente não encontrado")
      case Some(k) => Ok(200, ViewOf(users[k]))
  }

  /** `if (nome) cliente.nome = nome; if (email) cliente.email = email`:
      only nome and email can change, each only for a non-empty value. */
  function Edited(u: User, nome: Option<string>, email: Option<string>): (r: User)
    ensures r.id == u.id && r.senha == u.senha && r.tipo == u.tipo && r.createdAt == u.createdAt
    ensures r.nome == (if Missing(nome) then u.nome else nome.value)
    ensures r.email == (if Missing(email) then u.email else email.value)
    ensures UserValid(u) ==> UserValid(r)
  {
    var n := if Missing(nome) then u.nome else nome.value;
    var e := if Missing(email) then u.email else email.value;
    u.(nome := n, email := e)
  }

  /** Editing never touches the password: it is not modified, so the
      pre-save hook keeps the stored hash and every password that logged in
      before still does. */
  lemma EditKeepsLogin(u: User, nome: Option<string>, email: Option<string>, candidate: string)
    ensures Matches(candidate, PreSave(Edited(u, nome, email), false).senha) <==> Matches(candidate, u.senha)
  {
    SaveWithoutPasswordChangeKeepsLogin(Edited(u, nome, email), candidate);
  }

  /** PUT /:id: 403 unless admin or self, 404 for an unknown id; an email
      that another user already has violates the unique index (500);
      otherwise the edited user is saved in place. */
  method Update(db: Db, caller: User, id: Id, nome: Option<string>, email: Option<string>)
    returns (r: Reply<string>)
    requires db.Valid()
    modifies db
    ensures db.Valid()
    ensures db.outdoors == old(db.outdoors) && db.anuncios == old(db.anuncios) && db.uploads == old(db.uploads)
    ensures !CanAccess(caller, id) ==> r == Fail(403, "Acesso negado") && db.users == old(db.users)
    ensures CanAccess(caller, id) && UserAt(old(db.users), id).None? ==>
      r == Fail(404, "Cliente não encontrado") && db.users == old(db.users)
    ensures CanAccess(caller, id) && UserAt(old(db.users), id).Some? ==> (
      var k := UserAt(old(db.users), id).value;
      var u := PreSave(Edited(old(db.users)[k], nome, email), false);
      if exists j :: 0 <= j < |old(db.users)| && j != k && old(db.users)[j].email == u.email
      then r == Fail(500, "Erro ao atualizar cliente") && db.users == old(db.users)
      else r == Ok(200, "Cliente atualizado com sucesso") && db.users == old(db.users)[k := u])
  {
    if !CanAccess(caller, id) {
      return Fail(403, "Acesso negado");
    }
    var found := UserAt(db.users, id);
    if found.None? {
      return Fail(404, "Cliente não encontrado");
    }
    var k := found.value;
    var u := PreSave(Edited(db.users[k], nome, email), false);
    var clash := FirstIndex(db.users, (x: User) => x.email == u.email && x.id != id);
    if clash.Some? {
      return Fail(500, "Erro ao atualizar cliente");
    }
    assert forall j :: 0 <= j < |db.users| && j != k ==> db.users[j].id != id by {
      forall j | 0 <= j < |db.users| && j != k ensures db.users[j].id != id {
        assert UserId(db.users[j]) != UserId(db.users[k]);
      }
    }
    var after := db.users[k := u];
    forall a, b | 0 <= a < b < |after| ensures UserEmail(after[a]) != UserEmail(after[b]) {
      assert a != k ==> db.users[a].id != id;
      assert b != k ==> db.users[b].id != id;
    }
    UpdateKeepsUnique(db.users, k, u, UserId);
    db.users := after;
    r := Ok(200, "Cliente atualizado com sucesso");
  }

  /** DELETE /:id (behind `isAdmin`): 404 for an unknown id, otherwise that
      user is removed; outdoors and anúncios that name it are left as they
      are. */
  method Delete(db: Db, caller: User, id: Id) returns (r: Reply<string>)
    requires db.Valid()
    modifies db
    ensures db.Valid()
    ensures db.outdoors == old(db.outdoors) && db.anuncios == old(db.anuncios) && db.uploads == old(db.uploads)
    ensures caller.tipo != "admin" ==> r == Fail(403, "Acesso negado") && db.users == old(db.users)
    ensures caller.tipo == "admin" && UserAt(old(db.users), id).None? ==>
      r == Fail(404, "Cliente não encontrado") && db.users == old(db.users)
    ensures caller.tipo == "admin" && UserAt(old(db.users), id).Some? ==>
      r == Ok(200, "Cliente removido com sucesso") &&
      (forall u :: u in db.users <==> u in old(db.users) && u.id != id) &&
      |db.users| == |old(db.users)| - 1
  {
    if AuthMiddleware.AdminGate(caller).Deny? {
      return Fail(403, "Acesso negado");
    }
    var found := UserAt(db.users, id);
    if found.None? {
      return Fail(404, "Cliente não encontrado");
    }
    var k := found.value;
    var before := db.users;
    RemoveAtKeepsUnique(before, k, UserId);
    RemoveAtKeepsUnique(before, k, UserEmail);
    RemoveAtMembership(before, k, UserId);
    db.users := before[..k] + before[k + 1..];
    r := Ok(200, "Cliente removido com sucesso");
  }
}
