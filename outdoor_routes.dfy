/** The `/api/outdoors` routes of the Express back end. Every route but the
    two public ones runs after `auth`, so it receives the authenticated
    `caller`; outdoors are matched by `_id` together with `usuario`, so
    another user's outdoor is simply not found. */
module OutdoorRoutes {
  import opened Seqs
  import opened Schemas
  import opened MongoStore
  import opened Sorting

  // ------------------------------------------------------------ population

  /** `populate('anuncios')`: each linked id replaced by its document, in the
      order of the ids; ids with no document are dropped. */
  function Populate(ids: seq<Id>, anuncios: seq<Anuncio>): (r: seq<Anuncio>)
    ensures |r| <= |ids|
    ensures forall a :: a in r ==> a in anuncios && a.id in ids
  {
    if ids == [] then []
    else
      var rest := Populate(ids[1..], anuncios);
      match AnuncioAt(anuncios, ids[0])
      case None => rest
      case Some(k) => [anuncios[k]] + rest
  }

  /** Population follows the ids: the ids of `a` then those of `b` give the
      documents of `a` then those of `b`. */
  lemma {:induction false} PopulateAppend(a: seq<Id>, b: seq<Id>, anuncios: seq<Anuncio>)
    ensures Populate(a + b, anuncios) == Populate(a, anuncios) + Populate(b, anuncios)
  {
    if a != [] {
      assert (a + b)[0] == a[0];
      assert (a + b)[1..] == a[1..] + b;
      PopulateAppend(a[1..], b, anuncios);
    } else {
      assert a + b == b;
    }
  }

  /** One link gives the first document with its id, or nothing when no
      document has it; so a link repeated gives its document twice. */
  lemma PopulateOne(i: Id, anuncios: seq<Anuncio>)
    ensures (forall k :: 0 <= k < |anuncios| ==> anuncios[k].id != i) ==> Populate([i], anuncios) == []
    ensures forall k ::
      (0 <= k < |anuncios| && anuncios[k].id == i && forall j :: 0 <= j < k ==> anuncios[j].id != i) ==>
        Populate([i], anuncios) == [anuncios[k]]
  {
    assert [i][1..] == [];
  }

  /** Under unique `_id`s every linked document is in the population. */
  lemma {:induction false} PopulateComplete(ids: seq<Id>, anuncios: seq<Anuncio>, a: Anuncio)
    requires UniqueBy(anuncios, AnuncioId)
    requires a in anuncios && a.id in ids
    ensures a in Populate(ids, anuncios)
  {
    if ids[0] == a.id {
      var j :| 0 <= j < |anuncios| && anuncios[j] == a;
      var k := AnuncioAt(anuncios, ids[0]).value;
      assert AnuncioId(anuncios[k]) == AnuncioId(anuncios[j]);
    } else {
      assert a.id in ids[1..];
      PopulateComplete(ids[1..], anuncios, a);
    }
  }

  // ------------------------------------------------------- public listing

  function CreatedAt(a: Anuncio): int { a.createdAt }

  predicate IsActive(a: Anuncio) { a.status == "ativo" }

  /** What the public player is owed: exactly the active anúncios linked to
      the outdoor, oldest first. */
  ghost predicate IsActiveListing(body: seq<Anuncio>, o: Outdoor, anuncios: seq<Anuncio>)
  {
    (forall a :: a in body ==> a in anuncios && a.id in o.anuncios && IsActive(a)) &&
    (forall a :: a in anuncios && a.id in o.anuncios && IsActive(a) ==> a in body) &&
    SortedBy(body, CreatedAt)
  }

  /** The active linked anúncios, by ascending createdAt. */
  function ActiveAnuncios(o: Outdoor, anuncios: seq<Anuncio>): (r: seq<Anuncio>)
    requires UniqueBy(anuncios, AnuncioId)
    ensures IsActiveListing(r, o, anuncios)
  {
    var linked := Populate(o.anuncios, anuncios);
    var active := Filter(linked, IsActive);
    var r := SortBy(active, CreatedAt);
    assert forall a :: a in r <==> a in active by {
      forall a ensures a in r <==> a in active {
        assert a in r <==> a in multiset(r);
        assert a in active <==> a in multiset(active);
      }
    }
    forall a | a in anuncios && a.id in o.anuncios && IsActive(a) ensures a in r {
      PopulateComplete(o.anuncios, anuncios, a);
    }
    r
  }

  /** GET /publico/:codigo/anuncios: 404 for an unknown code, 403 for an
      outdoor that is not ativo, otherwise its active anúncios oldest first. */
  function PublicAnuncios(outdoors: seq<Outdoor>, anuncios: seq<Anuncio>, code: string): (r: Reply<seq<Anuncio>>)
    requires UniqueBy(outdoors, OutdoorCode) && UniqueBy(anuncios, AnuncioId)
    ensures (forall k :: 0 <= k < |outdoors| ==> outdoors[k].codigoPublico != code) ==>
      r == Fail(404, "Outdoor não encontrado")
    ensures forall k :: 0 <= k < |outdoors| && outdoors[k].codigoPublico == code ==>
      (outdoors[k].status != "ativo" ==> r == Fail(403, "Outdoor inativo")) &&
      (outdoors[k].status == "ativo" ==> r.Ok? && r.status == 200 && IsActiveListing(r.body, outdoors[k], anuncios))
  {
    match OutdoorWithCode(outdoors, code)
    case None => Fail(404, "Outdoor não encontrado")
    case Some(i) =>
      assert forall k :: 0 <= k < |outdoors| && outdoors[k].codigoPublico == code ==> k == i by {
        forall k | 0 <= k < |outdoors| && outdoors[k].codigoPublico == code ensures k == i {
          assert OutdoorCode(outdoors[k]) == OutdoorCode(outdoors[i]);
        }
      }
      if outdoors[i].status != "ativo" then Fail(403, "Outdoor inativo")
      else Ok(200, ActiveAnuncios(outdoors[i], anuncios))
  }

  /** GET /publico/:codigo: the same 404 and 403 rules; the outdoor itself
      only when it is ativo. */
  function PublicOutdoor(outdoors: seq<Outdoor>, code: string): (r: Reply<Outdoor>)
    ensures (forall k :: 0 <= k < |outdoors| ==> outdoors[k].codigoPublico != code) <==>
      r == Fail(404, "Outdoor não encontrado")
    ensures r.Ok? ==> r.status == 200 && r.body in outdoors && r.body.codigoPublico == code && r.body.status == "ativo"
    ensures r.Fail? ==> r.status in {403, 404}
    ensures forall k ::
      (0 <= k < |outdoors| && outdoors[k].codigoPublico == code &&
       forall j :: 0 <= j < k ==> outdoors[j].codigoPublico != code) ==>
        r == if outdoors[k].status == "ativo" then Ok(200, outdoors[k]) else Fail(403, "Outdoor inativo")
  {
    match OutdoorWithCode(outdoors, code)
    case None => Fail(404, "Outdoor não encontrado")
    case Some(i) =>
      if outdoors[i].status != "ativo" then Fail(403, "Outdoor inativo")
      else Ok(200, outdoors[i])
  }

  /** With unique public codes, the outdoor holding the code is the one
      answered, whichever position it has. */
  lemma PublicOutdoorUnderUniqueCodes(outdoors: seq<Outdoor>, code: string, k: nat)
    requires UniqueBy(outdoors, OutdoorCode)
    requires k < |outdoors| && outdoors[k].codigoPublico == code
    ensures PublicOutdoor(outdoors, code) ==
      if outdoors[k].status == "ativo" then Ok(200, outdoors[k]) else Fail(403, "Outdoor inativo")
  {
    forall j | 0 <= j < k
      ensures outdoors[j].codigoPublico != code
    {
      assert OutdoorCode(outdoors[j]) != OutdoorCode(outdoors[k]);
    }
  }

  // ------------------------------------------------------ owner-scoped reads

  /** GET /meus: the caller's outdoors, in collection order. */
  function Mine(outdoors: seq<Outdoor>, caller: User): (r: seq<Outdoor>)
    ensures forall o :: o in r <==> o in outdoors && o.usuario == caller.id
  {
    Filter(outdoors, (o: Outdoor) => o.usuario == caller.id)
  }

  /** GET /:id: the outdoor only when the caller owns it, else 404. */
  function Get(outdoors: seq<Outdoor>, caller: User, id: Id): (r: Reply<Outdoor>)
    ensures r.Ok? <==> exists k :: 0 <= k < |outdoors| && outdoors[k].id == id && outdoors[k].usuario == caller.id
    ensures r.Ok? ==> r.status == 200 && r.body in outdoors && r.body.id == id && r.body.usuario == caller.id
    ensures r.Fail? ==> r == Fail(404, "Outdoor não encontrado")
  {
    match OwnedOutdoorAt(outdoors, id, caller.id)
    case None => Fail(404, "Outdoor não encontrado")
    case Some(k) => Ok(200, outdoors[k])
  }

  /** GET /:id/anuncios: the populated linked anúncios of the caller's
      outdoor, in link order, dangling ids dropped. */
  function ListLinked(outdoors: seq<Outdoor>, anuncios: seq<Anuncio>, caller: User, id: Id): (r: Reply<seq<Anuncio>>)
    ensures r.Ok? <==> exists k :: 0 <= k < |outdoors| && outdoors[k].id == id && outdoors[k].usuario == caller.id
    ensures r.Fail? ==> r == Fail(404, "Outdoor não encontrado")
    ensures r.Ok? ==> exists k :: (
      0 <= k < |outdoors| && outdoors[k].id == id && outdoors[k].usuario == caller.id &&
      |r.body| <= |outdoors[k].anuncios| &&
      (forall a :: a in r.body ==> a in anuncios && a.id in outdoors[k].anuncios) &&
      (UniqueBy(anuncios, AnuncioId) ==> forall a :: a in anuncios && a.id in outdoors[k].anuncios ==> a in r.body))
    ensures r.Ok? ==> exists k ::
      0 <= k < |outdoors| && outdoors[k].id == id && outdoors[k].usuario == caller.id &&
      (forall j :: 0 <= j < k ==> !(outdoors[j].id == id && outdoors[j].usuario == caller.id)) &&
      r.body == Populate(outdoors[k].anuncios, anuncios)
  {
    match OwnedOutdoorAt(outdoors, id, caller.id)
    case None => Fail(404, "Outdoor não encontrado")
    case Some(k) =>
      var body := Populate(outdoors[k].anuncios, anuncios);
      assert UniqueBy(anuncios, AnuncioId) ==> forall a :: a in anuncios && a.id in outdoors[k].anuncios ==> a in body by {
        if UniqueBy(anuncios, AnuncioId) {
          forall a | a in anuncios && a.id in outdoors[k].anuncios ensures a in body {
            PopulateComplete(outdoors[k].anuncios, anuncios, a);
          }
        }
      }
      Ok(200, body)
  }

  // --------------------------------------------------------------- writes

  /** A field of a `findOneAndUpdate` update: an undefined value is dropped
      from the update, so the stored value stays. */
  function OrKeep(v: Option<string>, current: string): string
  {
    if v.Some? then v.value else current
  }

  /** POST /: a new outdoor owned by the caller with the generated code.
      Validation errors and a duplicate code both end in 500. */
  method Create(db: Db, caller: User, nome: Option<string>, localizacao: Option<string>, tipo: Option<string>,
                code: string, newId: Id, now: int) returns (r: Reply<Outdoor>)
    requires db.Valid()
    requires forall k :: 0 <= k < |db.outdoors| ==> db.outdoors[k].id != newId
    modifies db
    ensures db.Valid()
    ensures db.users == old(db.users) && db.anuncios == old(db.anuncios) && db.uploads == old(db.uploads)
    ensures var o := NewOutdoor(newId, nome, localizacao, tipo, code, caller.id, now);
      if OutdoorValid(o) && forall k :: 0 <= k < |old(db.outdoors)| ==> old(db.outdoors)[k].codigoPublico != code
      then r == Ok(201, o) && db.outdoors == old(db.outdoors) + [o]
      else r == Fail(500, "Erro ao criar outdoor") && db.outdoors == old(db.outdoors)
  {
    var o := NewOutdoor(newId, nome, localizacao, tipo, code, caller.id, now);
    if !OutdoorValid(o) {
      return Fail(500, "Erro ao criar outdoor");
    }
    if OutdoorWithCode(db.outdoors, code).Some? {
      return Fail(500, "Erro ao criar outdoor");
    }
    SnocKeepsUnique(db.outdoors, o, OutdoorId);
    SnocKeepsUnique(db.outdoors, o, OutdoorCode);
    db.outdoors := db.outdoors + [o];
    r := Ok(201, o);
  }

  /** PUT /:id: sets nome, localizacao, tipo and status where the body has
      them, on the caller's outdoor only, without running validators. */
  method Update(db: Db, caller: User, id: Id, nome: Option<string>, localizacao: Option<string>,
                tipo: Option<string>, status: Option<string>) returns (r: Reply<Outdoor>)
    requires db.Valid()
    modifies db
    ensures db.Valid()
    ensures db.users == old(db.users) && db.anuncios == old(db.anuncios) && db.uploads == old(db.uploads)
    ensures OwnedOutdoorAt(old(db.outdoors), id, caller.id).None? ==>
      r == Fail(404, "Outdoor não encontrado") && db.outdoors == old(db.outdoors)
    ensures OwnedOutdoorAt(old(db.outdoors), id, caller.id).Some? ==> (
      var k := OwnedOutdoorAt(old(db.outdoors), id, caller.id).value;
      var o := old(db.outdoors)[k];
      r.Ok? && r.status == 200 && db.outdoors == old(db.outdoors)[k := r.body] &&
      r.body.id == o.id && r.body.codigoPublico == o.codigoPublico && r.body.usuario == o.usuario &&
      r.body.anuncios == o.anuncios && r.body.createdAt == o.createdAt &&
      r.body.nome == OrKeep(nome, o.nome) && r.body.localizacao == OrKeep(localizacao, o.localizacao) &&
      r.body.tipo == OrKeep(tipo, o.tipo) && r.body.status == OrKeep(status, o.status))
  {
    var found := OwnedOutdoorAt(db.outdoors, id, caller.id);
    if found.None? {
      return Fail(404, "Outdoor não encontrado");
    }
    var k := found.value;
    var o := db.outdoors[k];
    var updated := o.(nome := OrKeep(nome, o.nome), localizacao := OrKeep(localizacao, o.localizacao),
                      tipo := OrKeep(tipo, o.tipo), status := OrKeep(status, o.status));
    UpdateKeepsUnique(db.outdoors, k, updated, OutdoorId);
    UpdateKeepsUnique(db.outdoors, k, updated, OutdoorCode);
    db.outdoors := db.outdoors[k := updated];
    r := Ok(200, updated);
  }

  /** DELETE /:id: removes the caller's outdoor; the anúncios that list it
      keep their reference. */
  method Delete(db: Db, caller: User, id: Id) returns (r: Reply<string>)
    requires db.Valid()
    modifies db
    ensures db.Valid()
    ensures db.users == old(db.users) && db.anuncios == old(db.anuncios) && db.uploads == old(db.uploads)
    ensures OwnedOutdoorAt(old(db.outdoors), id, caller.id).None? ==>
      r == Fail(404, "Outdoor não encontrado") && db.outdoors == old(db.outdoors)
    ensures OwnedOutdoorAt(old(db.outdoors), id, caller.id).Some? ==>
      r == Ok(200, "Outdoor excluído com sucesso") &&
      |db.outdoors| == |old(db.outdoors)| - 1 &&
      forall o :: o in db.outdoors <==> o in old(db.outdoors) && o.id != id
  {
    var found := OwnedOutdoorAt(db.outdoors, id, caller.id);
    if found.None? {
      return Fail(404, "Outdoor não encontrado");
    }
    var k := found.value;
    var s := db.outdoors;
    var rest := s[..k] + s[k + 1..];
    RemoveAtKeepsUnique(s, k, OutdoorId);
    RemoveAtKeepsUnique(s, k, OutdoorCode);
    RemoveAtMembership(s, k, OutdoorId);
    db.outdoors := rest;
    r := Ok(200, "Outdoor excluído com sucesso");
  }

  /** POST /:id/anuncios/:anuncioId: appends the id to the caller's outdoor
      unless it is there already; the anúncio is neither checked nor touched.
      Saving re-validates the whole outdoor. */
  method Link(db: Db, caller: User, id: Id, anuncioId: Id) returns (r: Reply<Outdoor>)
    requires db.Valid()
    modifies db
    ensures db.Valid()
    ensures db.users == old(db.users) && db.anuncios == old(db.anuncios) && db.uploads == old(db.uploads)
    ensures OwnedOutdoorAt(old(db.outdoors), id, caller.id).None? ==>
      r == Fail(404, "Outdoor não encontrado") && db.outdoors == old(db.outdoors)
    ensures OwnedOutdoorAt(old(db.outdoors), id, caller.id).Some? ==> (
      var k := OwnedOutdoorAt(old(db.outdoors), id, caller.id).value;
      var o := old(db.outdoors)[k];
      if anuncioId in o.anuncios then r == Ok(200, o) && db.outdoors == old(db.outdoors)
      else if !OutdoorValid(o) then r == Fail(500, "Erro ao vincular anúncio") && db.outdoors == old(db.outdoors)
      else r == Ok(200, o.(anuncios := AppendIfAbsent(o.anuncios, anuncioId))) &&
           db.outdoors == old(db.outdoors)[k := r.body])
  {
    var found := OwnedOutdoorAt(db.outdoors, id, caller.id);
    if found.None? {
      return Fail(404, "Outdoor não encontrado");
    }
    var k := found.value;
    var o := db.outdoors[k];
    if anuncioId in o.anuncios {
      return Ok(200, o);
    }
    var linked := o.(anuncios := o.anuncios + [anuncioId]);
    if !OutdoorValid(linked) {
      return Fail(500, "Erro ao vincular anúncio");
    }
    UpdateKeepsUnique(db.outdoors, k, linked, OutdoorId);
    UpdateKeepsUnique(db.outdoors, k, linked, OutdoorCode);
    db.outdoors := db.outdoors[k := linked];
    r := Ok(200, linked);
  }

  /** DELETE /:id/anuncios/:anuncioId: drops every occurrence of the id from
      the caller's outdoor, linked or not; the anúncio is not touched. */
  method Unlink(db: Db, caller: User, id: Id, anuncioId: Id) returns (r: Reply<Outdoor>)
    requires db.Valid()
    modifies db
    ensures db.Valid()
    ensures db.users == old(db.users) && db.anuncios == old(db.anuncios) && db.uploads == old(db.uploads)
    ensures OwnedOutdoorAt(old(db.outdoors), id, caller.id).None? ==>
      r == Fail(404, "Outdoor não encontrado") && db.outdoors == old(db.outdoors)
    ensures OwnedOutdoorAt(old(db.outdoors), id, caller.id).Some? ==> (
      var k := OwnedOutdoorAt(old(db.outdoors), id, caller.id).value;
      var o := old(db.outdoors)[k];
      if !OutdoorValid(o) then r == Fail(500, "Erro ao desvincular anúncio") && db.outdoors == old(db.outdoors)
      else r == Ok(200, o.(anuncios := Without(o.anuncios, anuncioId))) &&
           db.outdoors == old(db.outdoors)[k := r.body])
  {
    var found := OwnedOutdoorAt(db.outdoors, id, caller.id);
    if found.None? {
      return Fail(404, "Outdoor não encontrado");
    }
    var k := found.value;
    var o := db.outdoors[k];
    var unlinked := o.(anuncios := Without(o.anuncios, anuncioId));
    if !OutdoorValid(unlinked) {
      return Fail(500, "Erro ao desvincular anúncio");
    }
    UpdateKeepsUnique(db.outdoors, k, unlinked, OutdoorId);
    UpdateKeepsUnique(db.outdoors, k, unlinked, OutdoorCode);
    db.outdoors := db.outdoors[k := unlinked];
    r := Ok(200, unlinked);
  }
}
