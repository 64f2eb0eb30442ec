/** The Flask back end (app.py): three in-memory tables (users, outdoors,
    anuncios) that every handler loads, changes in place and saves back.
    A handler that returns before its `save_*` call leaves the tables as they
    were, so each method below changes the tables only on the paths where the
    source saves. */
module FlaskRegistry {
  import opened PyJson
  import opened Seqs

  datatype UserRec = UserRec(nome: Json, email: Json, senha: Json, tipo: string)

  /** The user object of the login reply: every field but `senha`. */
  datatype UserView = UserView(nome: Json, email: Json, tipo: string)

  /** The per-outdoor override of a linked ad (`anuncios_vinculados[aid]`). */
  datatype Override = Override(titulo: Json, duracao: Json)

  /** An outdoor; an absent 'anuncios' key is the empty list (every handler
      treats the two alike) and an absent 'anuncios_vinculados' is the empty
      map. */
  datatype OutdoorRec = OutdoorRec(
    id: int, nome: Json, localizacao: Json, tipo: Json, usuario: Json,
    anuncios: seq<string>, overrides: map<string, Override>)

  datatype AdRec = AdRec(id: string, titulo: Json, tipo: Json, duracao: Json, arquivo: Json)

  // ---------------------------------------------------------------- lookups

  function UserIndex(users: seq<UserRec>, email: Json): (r: Option<nat>)
  {
    FirstIndex(users, (u: UserRec) => u.email == email)
  }

  function OutdoorIndex(outdoors: seq<OutdoorRec>, id: int): (r: Option<nat>)
  {
    FirstIndex(outdoors, (o: OutdoorRec) => o.id == id)
  }

  function AdIndex(ads: seq<AdRec>, id: string): (r: Option<nat>)
  {
    FirstIndex(ads, (a: AdRec) => a.id == id)
  }

  /** The entry of `{a['_id']: a for a in anuncios}` for `id`: a later ad
      with the same id overwrites an earlier one, so it is the LAST match. */
  function DictLookup(ads: seq<AdRec>, id: string): (r: Option<AdRec>)
    ensures r.None? <==> forall i :: 0 <= i < |ads| ==> ads[i].id != id
    ensures r.Some? ==> r.value in ads && r.value.id == id
  {
    if ads == [] then None
    else
      var last := ads[|ads| - 1];
      if last.id == id then Some(last)
      else
        var r := DictLookup(ads[..|ads| - 1], id);
        assert forall j :: 0 <= j < |ads| - 1 ==> ads[..|ads| - 1][j] == ads[j];
        r
  }

  /** The dict keeps the LAST ad with a given id: the ad found sits at a
      position after which no ad has that id. */
  lemma {:induction false} DictLookupFindsLast(ads: seq<AdRec>, id: string)
    requires DictLookup(ads, id).Some?
    ensures exists i :: 0 <= i < |ads| && ads[i] == DictLookup(ads, id).value &&
                        forall j :: i < j < |ads| ==> ads[j].id != id
  {
    var n := |ads| - 1;
    if ads[n].id != id {
      var front := ads[..n];
      DictLookupFindsLast(front, id);
      var i :| 0 <= i < |front| && front[i] == DictLookup(front, id).value &&
               forall j :: i < j < |front| ==> front[j].id != id;
      assert ads[i] == front[i];
      assert forall j :: i < j < |ads| ==> ads[j].id != id by {
        forall j | i < j < |ads| ensures ads[j].id != id {
          if j < n {
            assert ads[j] == front[j];
          }
        }
      }
    }
  }

  /** The key of the outdoors table. */
  function OutdoorId(o: OutdoorRec): int { o.id }


  // ------------------------------------------------------------ register/login

  /** `data.get('password') or data.get('senha')` */
  function SubmittedSenha(data: Body): Json
  {
    Or(Get(data, "password"), Get(data, "senha"))
  }

  function View(u: UserRec): (v: UserView)
    ensures v.nome == u.nome && v.email == u.email && v.tipo == u.tipo
  {
    UserView(u.nome, u.email, u.tipo)
  }

  /** A user appended by a successful register is the first user with that
      email, so a login with the same email finds exactly that record. */
  lemma RegisteredUserIsFound(users: seq<UserRec>, u: UserRec)
    requires UserIndex(users, u.email).None?
    ensures UserIndex(users + [u], u.email) == Some(|users|)
  {
    var s := users + [u];
    var p := (x: UserRec) => x.email == u.email;
    assert forall i :: 0 <= i < |users| ==> s[i] == users[i];
    assert p(s[|users|]);
  }

  // ---------------------------------------------------------- create_outdoor

  /** Outcome of the checks at app.py:85-93: 400, 500 (`tipo.upper()` on a
      value that is not a string raises), or the normalised tipo. */
  datatype TipoCheck = Reject(status: int) | Accept(tipo: string)

  predicate TipoAccepted(t: string)
  {
    Upper(t) in ["LED", "LCD"] || Lower(t) == "projetor"
  }

  function NormalizeTipo(t: string): (r: string)
    requires TipoAccepted(t)
    ensures r in ["LED", "LCD", "projetor"]
    ensures Upper(r) == Upper(t)
  {
    if Lower(t) == "projetor" then
      UpperOfLower(t);
      "projetor"
    else
      UpperOfUpper(t);
      Upper(t)
  }

  lemma UpperOfUpper(s: string)
    ensures Upper(Upper(s)) == Upper(s)
  {
    var a, b := Upper(Upper(s)), Upper(s);
    forall i | 0 <= i < |s| ensures a[i] == b[i] {
      assert Upper(s)[i] == UpperChar(s[i]);
    }
  }

  function CheckOutdoorInput(data: Body): (r: TipoCheck)
    ensures r.Reject? ==> r.status in {400, 500}
    ensures r.Reject? && r.status == 400 <==>
      !Truthy(Get(data, "nome")) || !Truthy(Get(data, "localizacao")) ||
      !Truthy(Get(data, "tipo")) || !Truthy(Get(data, "usuario")) ||
      (Get(data, "tipo").JStr? && !TipoAccepted(Get(data, "tipo").s))
    ensures r.Accept? ==> Get(data, "tipo").JStr? && Upper(r.tipo) == Upper(Get(data, "tipo").s)
    ensures r.Accept? ==> r.tipo in ["LED", "LCD", "projetor"]
    ensures r.Accept? ==> "nome" in data && "localizacao" in data && "usuario" in data
  {
    var nome, localizacao, tipo, usuario :=
      Get(data, "nome"), Get(data, "localizacao"), Get(data, "tipo"), Get(data, "usuario");
    if !Truthy(nome) || !Truthy(localizacao) || !Truthy(tipo) || !Truthy(usuario) then Reject(400)
    else if !tipo.JStr? then Reject(500)
    else if !TipoAccepted(tipo.s) then Reject(400)
    else Accept(NormalizeTipo(tipo.s))
  }

  /** The tipo check does not depend on the case the client wrote tipo in. */
  lemma {:induction false} TipoCheckIgnoresCase(t: string)
    ensures TipoAccepted(Upper(t)) <==> TipoAccepted(t)
    ensures TipoAccepted(Lower(t)) <==> TipoAccepted(t)
    ensures TipoAccepted(t) ==> NormalizeTipo(Upper(t)) == NormalizeTipo(t)
    ensures TipoAccepted(t) ==> NormalizeTipo(Lower(t)) == NormalizeTipo(t)
  {
    UpperOfUpper(t);
    UpperOfLower(t);
    LowerOfUpper(t);
    LowerOfLower(t);
  }

  lemma LowerOfLower(s: string)
    ensures Lower(Lower(s)) == Lower(s)
  {
    var a, b := Lower(Lower(s)), Lower(s);
    forall i | 0 <= i < |s| ensures a[i] == b[i] {
      assert Lower(s)[i] == LowerChar(s[i]);
    }
  }

  /** `max([o['id'] for o in outdoors], default=0) + 1 if outdoors else 1` */
  function NextId(outdoors: seq<OutdoorRec>): (r: int)
    ensures forall i :: 0 <= i < |outdoors| ==> outdoors[i].id < r
    ensures outdoors == [] ==> r == 1
    ensures outdoors != [] ==> exists i :: 0 <= i < |outdoors| && r == outdoors[i].id + 1
  {
    if outdoors == [] then 1 else MaxId(outdoors) + 1
  }

  function MaxId(outdoors: seq<OutdoorRec>): (m: int)
    requires outdoors != []
    ensures forall i :: 0 <= i < |outdoors| ==> outdoors[i].id <= m
    ensures exists i :: 0 <= i < |outdoors| && m == outdoors[i].id
  {
    if |outdoors| == 1 then outdoors[0].id
    else
      var rest := MaxId(outdoors[1..]);
      assert forall i :: 1 <= i < |outdoors| ==> outdoors[i] == outdoors[1..][i - 1];
      if outdoors[0].id >= rest then outdoors[0].id else rest
  }

  /** Appending a record with the next id keeps the ids distinct. */
  lemma NextIdKeepsIdsDistinct(outdoors: seq<OutdoorRec>, o: OutdoorRec)
    requires UniqueBy(outdoors, OutdoorId)
    requires o.id == NextId(outdoors)
    ensures UniqueBy(outdoors + [o], OutdoorId)
  {
    SnocKeepsUnique(outdoors, o, OutdoorId);
  }


  // ----------------------------------------------------------- link / unlink

  /** `l.remove(aid)`: drops the first occurrence. */
  function RemoveFirst(l: seq<string>, aid: string): (r: seq<string>)
    requires aid in l
    ensures |r| == |l| - 1
    ensures multiset(r) == multiset(l) - multiset{aid}
  {
    assert l == [l[0]] + l[1..];
    if l[0] == aid then l[1..]
    else [l[0]] + RemoveFirst(l[1..], aid)
  }

  /** Removing the first occurrence of an id that only the last element
      has gives back the rest. */
  lemma {:induction false} RemoveFirstOfSnoc(l: seq<string>, aid: string)
    requires aid !in l
    ensures RemoveFirst(l + [aid], aid) == l
  {
    var linked := l + [aid];
    if l == [] {
      assert linked == [aid];
    } else {
      assert linked[0] == l[0] && linked[0] != aid;
      assert linked[1..] == l[1..] + [aid];
      RemoveFirstOfSnoc(l[1..], aid);
      assert l == [l[0]] + l[1..];
    }
  }

  /** Unlinking an id that the link appended restores the list. */
  lemma UnlinkUndoesLink(l: seq<string>, aid: string)
    requires aid !in l
    ensures RemoveFirst(AppendIfAbsent(l, aid), aid) == l
  {
    RemoveFirstOfSnoc(l, aid);
  }

  /** An id linked once is no longer linked after one unlink. */
  lemma UnlinkRemovesSingleLink(l: seq<string>, aid: string)
    requires multiset(l)[aid] == 1
    ensures aid !in RemoveFirst(l, aid)
  {
    var r := RemoveFirst(l, aid);
    assert multiset(r)[aid] == 0;
  }

  // -------------------------------------------------------- linked-ad view

  /** The global ad with the outdoor's override of titulo/duracao applied. */
  function Overridden(ad: AdRec, aid: string, ov: map<string, Override>): (v: AdRec)
    ensures v.id == ad.id && v.tipo == ad.tipo && v.arquivo == ad.arquivo
    ensures aid !in ov ==> v == ad
    ensures aid in ov ==> v.titulo == ov[aid].titulo && v.duracao == ov[aid].duracao
  {
    if aid in ov then ad.(titulo := ov[aid].titulo, duracao := ov[aid].duracao) else ad
  }

  /** What app.py:183-190 builds: one entry per linked id that has an ad,
      in the order of `outdoor['anuncios']`. */
  function LinkedView(ids: seq<string>, ads: seq<AdRec>, ov: map<string, Override>): seq<AdRec>
  {
    if ids == [] then []
    else
      var aid := ids[|ids| - 1];
      LinkedView(ids[..|ids| - 1], ads, ov) + Entry(aid, ads, ov)
  }

  /** What one linked id adds to the view: nothing when no ad has that id. */
  function Entry(aid: string, ads: seq<AdRec>, ov: map<string, Override>): (e: seq<AdRec>)
    ensures |e| <= 1
    ensures DictLookup(ads, aid).None? <==> e == []
    ensures DictLookup(ads, aid).Some? ==> e == [Overridden(DictLookup(ads, aid).value, aid, ov)]
  {
    match DictLookup(ads, aid)
    case None => []
    case Some(ad) => [Overridden(ad, aid, ov)]
  }

  /** The view follows the order of the linked ids: the view of a list is
      the view of its first part followed by the view of its second. */
  lemma {:induction false} LinkedViewAppend(a: seq<string>, b: seq<string>, ads: seq<AdRec>, ov: map<string, Override>)
    ensures LinkedView(a + b, ads, ov) == LinkedView(a, ads, ov) + LinkedView(b, ads, ov)
  {
    if b == [] {
      assert a + b == a;
    } else {
      var b' := b[..|b| - 1];
      var e := Entry(b[|b| - 1], ads, ov);
      assert (a + b)[..|a + b| - 1] == a + b' && (a + b)[|a + b| - 1] == b[|b| - 1];
      LinkedViewAppend(a, b', ads, ov);
      assert LinkedView(a + b, ads, ov) == LinkedView(a + b', ads, ov) + e;
      assert LinkedView(b, ads, ov) == LinkedView(b', ads, ov) + e;
    }
  }

  /** An entry of the view is an ad that some linked id names, with that
      id's override applied; conversely every linked id that names an ad
      contributes that entry. */
  lemma {:induction false} LinkedViewMembers(ids: seq<string>, ads: seq<AdRec>, ov: map<string, Override>, v: AdRec)
    ensures v in LinkedView(ids, ads, ov) <==> exists k :: 0 <= k < |ids| && v in Entry(ids[k], ads, ov)
  {
    if ids != [] {
      var front := ids[..|ids| - 1];
      LinkedViewMembers(front, ads, ov, v);
      assert forall k :: 0 <= k < |front| ==> front[k] == ids[k];
      assert LinkedView(ids, ads, ov) == LinkedView(front, ads, ov) + Entry(ids[|ids| - 1], ads, ov);
    }
  }

  /** The view has at most one entry per linked id. */
  lemma {:induction false} LinkedViewLength(ids: seq<string>, ads: seq<AdRec>, ov: map<string, Override>)
    ensures |LinkedView(ids, ads, ov)| <= |ids|
  {
    if ids != [] {
      LinkedViewLength(ids[..|ids| - 1], ads, ov);
    }
  }

  // ---------------------------------------------------------------- re-order

  /** `[aid for aid in nova_ordem if aid in outdoor['anuncios']]`: an element
      that is not a string never equals a linked id. */
  function Reordered(ordem: seq<Json>, linked: seq<string>): (r: seq<string>)
  {
    if ordem == [] then []
    else
      (if ordem[0].JStr? && ordem[0].s in linked then [ordem[0].s] else []) +
      Reordered(ordem[1..], linked)
  }

  /** The new list holds exactly the submitted ids that were already linked;
      linked ids the client left out are dropped. */
  lemma {:induction false} ReorderMembers(ordem: seq<Json>, linked: seq<string>, aid: string)
    ensures aid in Reordered(ordem, linked) <==> JStr(aid) in ordem && aid in linked
  {
    if ordem != [] {
      ReorderMembers(ordem[1..], linked, aid);
      assert ordem == [ordem[0]] + ordem[1..];
    }
  }

  /** The ids as the client sends them: a JSON list of strings. */
  function Strs(l: seq<string>): (r: seq<Json>)
    ensures |r| == |l|
    ensures forall k :: 0 <= k < |l| ==> r[k] == JStr(l[k])
  {
    if l == [] then [] else [JStr(l[0])] + Strs(l[1..])
  }

  /** Sending ids that are all linked gives back exactly that order (with
      any repetitions the client sent): in particular re-sending the current
      list changes nothing. */
  lemma {:induction false} ReorderKeepsLinkedOrder(l: seq<string>, linked: seq<string>)
    requires forall k :: 0 <= k < |l| ==> l[k] in linked
    ensures Reordered(Strs(l), linked) == l
  {
    if l != [] {
      assert Strs(l)[1..] == Strs(l[1..]);
      ReorderKeepsLinkedOrder(l[1..], linked);
    }
  }

  // ------------------------------------------------------------ the tables

  class Registry {
    var users: seq<UserRec>
    var outdoors: seq<OutdoorRec>
    var anuncios: seq<AdRec>

    /** Ids are only ever handed out by create_outdoor as max + 1. */
    ghost predicate Valid()
      reads this
    {
      UniqueBy(outdoors, OutdoorId)
    }

    constructor ()
      ensures Valid()
      ensures users == [] && outdoors == [] && anuncios == []
    {
      users, outdoors, anuncios := [], [], [];
    }

    /** POST /api/auth/register (app.py:20-34). `data['email']` and
        `data['nome']` raise KeyError (500) when absent; email is read first
        whatever the table holds. */
    method Register(data: Body) returns (status: int)
      requires Valid()
      modifies this
      ensures Valid()
      ensures outdoors == old(outdoors) && anuncios == old(anuncios)
      ensures "email" !in data ==> status == 500
      ensures "email" in data && UserIndex(old(users), data["email"]).Some? ==> status == 400
      ensures "email" in data && UserIndex(old(users), data["email"]).None? && "nome" !in data ==> status == 500
      ensures status != 201 ==> users == old(users)
      ensures status == 201 <==> "email" in data && "nome" in data && UserIndex(old(users), data["email"]).None?
      ensures status == 201 ==>
        users == old(users) + [UserRec(data["nome"], data["email"], SubmittedSenha(data), "cliente")]
    {
      if "email" !in data {
        return 500;
      }
      if UserIndex(users, data["email"]).Some? {
        return 400;
      }
      if "nome" !in data {
        return 500;
      }
      users := users + [UserRec(data["nome"], data["email"], SubmittedSenha(data), "cliente")];
      status := 201;
    }

    /** POST /api/auth/login (app.py:37-54). With an empty table the
        generator never reads `data['email']`, so a missing email is 401
        there and 500 otherwise. Unknown email and wrong senha give the same
        401; the reply carries no senha. */
    method Login(data: Body) returns (status: int, user: Option<UserView>)
      ensures status in {200, 401, 500}
      ensures status == 500 <==> users != [] && "email" !in data
      ensures status == 200 <==>
        "email" in data && UserIndex(users, data["email"]).Some? &&
        users[UserIndex(users, data["email"]).value].senha == SubmittedSenha(data)
      ensures status == 200 ==> user == Some(View(users[UserIndex(users, data["email"]).value]))
      ensures status != 200 ==> user == None
    {
      if users == [] {
        return 401, None;
      }
      if "email" !in data {
        return 500, None;
      }
      var k := UserIndex(users, data["email"]);
      if k.None? || users[k.value].senha != SubmittedSenha(data) {
        return 401, None;
      }
      status, user := 200, Some(View(users[k.value]));
    }

    /** POST /api/outdoors (app.py:78-105). */
    method CreateOutdoor(data: Body) returns (status: int, created: Option<OutdoorRec>)
      requires Valid()
      modifies this
      ensures Valid()
      ensures users == old(users) && anuncios == old(anuncios)
      ensures CheckOutdoorInput(data).Reject? ==>
        status == CheckOutdoorInput(data).status && created == None && outdoors == old(outdoors)
      ensures CheckOutdoorInput(data).Accept? ==> (
        status == 201 && created.Some? &&
        outdoors == old(outdoors) + [created.value] &&
        created.value == OutdoorRec(NextId(old(outdoors)), data["nome"], data["localizacao"],
                                    JStr(CheckOutdoorInput(data).tipo), data["usuario"], [], map[]))
    {
      var check := CheckOutdoorInput(data);
      if check.Reject? {
        return check.status, None;
      }
      var o := OutdoorRec(NextId(outdoors), data["nome"], data["localizacao"], JStr(check.tipo),
                          data["usuario"], [], map[]);
      AppendOutdoor(o);
      status, created := 201, Some(o);
    }

    /** `outdoors.append(novo)` for a record carrying the next id. */
    method AppendOutdoor(o: OutdoorRec)
      requires Valid() && o.id == NextId(outdoors)
      modifies this
      ensures Valid()
      ensures outdoors == old(outdoors) + [o]
      ensures users == old(users) && anuncios == old(anuncios)
    {
      NextIdKeepsIdsDistinct(outdoors, o);
      outdoors := outdoors + [o];
    }

    /** GET /api/outdoors/<id> (app.py:115-120). */
    method GetOutdoor(id: int) returns (status: int, outdoor: Option<OutdoorRec>)
      ensures status in {200, 404}
      ensures status == 404 <==> forall o :: o in outdoors ==> o.id != id
      ensures status == 200 ==> outdoor.Some? && outdoor.value in outdoors && outdoor.value.id == id
      ensures status == 200 ==> (
        var k := OutdoorIndex(outdoors, id).value;
        outdoor == Some(outdoors[k]) && forall j :: 0 <= j < k ==> outdoors[j].id != id)
      ensures status == 404 ==> outdoor == None
    {
      var k := OutdoorIndex(outdoors, id);
      if k.None? {
        return 404, None;
      }
      status, outdoor := 200, Some(outdoors[k.value]);
    }

    /** PUT /api/outdoors/<id> (app.py:123-134): copies the fields of the
        allowed list that are present in the body; no value is checked. */
    method UpdateOutdoor(id: int, data: Body) returns (status: int)
      requires Valid()
      modifies this
      ensures Valid()
      ensures users == old(users) && anuncios == old(anuncios)
      ensures OutdoorIndex(old(outdoors), id).None? ==> status == 404 && outdoors == old(outdoors)
      ensures OutdoorIndex(old(outdoors), id).Some? ==> (
        var k := OutdoorIndex(old(outdoors), id).value;
        var o := old(outdoors)[k];
        status == 200 &&
        outdoors == old(outdoors)[k := o.(
          nome := if "nome" in data then data["nome"] else o.nome,
          localizacao := if "localizacao" in data then data["localizacao"] else o.localizacao,
          tipo := if "tipo" in data then data["tipo"] else o.tipo,
          usuario := if "usuario" in data then data["usuario"] else o.usuario)])
    {
      var k := OutdoorIndex(outdoors, id);
      if k.None? {
        return 404;
      }
      var orig := outdoors[k.value];
      var o := orig;
      var campos := ["nome", "localizacao", "tipo", "usuario"];
      var i := 0;
      while i < |campos|
        invariant 0 <= i <= |campos|
        invariant o.id == orig.id && o.anuncios == orig.anuncios && o.overrides == orig.overrides
        invariant o.nome == if i > 0 && "nome" in data then data["nome"] else orig.nome
        invariant o.localizacao == if i > 1 && "localizacao" in data then data["localizacao"] else orig.localizacao
        invariant o.tipo == if i > 2 && "tipo" in data then data["tipo"] else orig.tipo
        invariant o.usuario == if i > 3 && "usuario" in data then data["usuario"] else orig.usuario
      {
        var campo := campos[i];
        if campo in data {
          o := SetOutdoorField(o, campo, data[campo]);
        }
        i := i + 1;
      }
      outdoors := outdoors[k.value := o];
      status := 200;
    }

    /** DELETE /api/outdoors/<id> (app.py:137-143): keeps every outdoor with
        another id. */
    method DeleteOutdoor(id: int) returns (status: int)
      requires Valid()
      modifies this
      ensures Valid()
      ensures users == old(users) && anuncios == old(anuncios)
      ensures status == 404 <==> forall o :: o in old(outdoors) ==> o.id != id
      ensures status == 404 ==> outdoors == old(outdoors)
      ensures status == 200 ==> forall o :: o in outdoors <==> o in old(outdoors) && o.id != id
      ensures status == 200 ==> outdoors == Filter(old(outdoors), (o: OutdoorRec) => o.id != id)
      ensures status in {200, 404}
    {
      var kept := Filter(outdoors, (o: OutdoorRec) => o.id != id);
      FilterKeepsAll(outdoors, (o: OutdoorRec) => o.id != id);
      if |kept| == |outdoors| {
        return 404;
      }
      FilterKeepsUnique(outdoors, (o: OutdoorRec) => o.id != id, OutdoorId);
      outdoors := kept;
      status := 200;
    }

    /** GET /api/outdoors/meus?usuario=... (app.py:147-153). */
    method ListMine(usuario: Option<string>) returns (status: int, meus: seq<OutdoorRec>)
      ensures status in {200, 400}
      ensures status == 400 <==> usuario.None? || usuario.value == ""
      ensures status == 200 ==> forall o :: o in meus <==> o in outdoors && o.usuario == JStr(usuario.value)
      ensures status == 200 ==> meus == Filter(outdoors, (o: OutdoorRec) => o.usuario == JStr(usuario.value))
      ensures status == 400 ==> meus == []
    {
      if usuario.None? || usuario.value == "" {
        return 400, [];
      }
      meus := Filter(outdoors, (o: OutdoorRec) => o.usuario == JStr(usuario.value));
      status := 200;
    }

    /** POST /api/outdoors/<id>/anuncios/<aid> (app.py:157-169). */
    method Link(outdoorId: int, aid: string) returns (status: int)
      requires Valid()
      modifies this
      ensures Valid()
      ensures users == old(users) && anuncios == old(anuncios)
      ensures status == 404 <==> OutdoorIndex(old(outdoors), outdoorId).None? || AdIndex(anuncios, aid).None?
      ensures status == 404 ==> outdoors == old(outdoors)
      ensures status != 404 ==> (
        var k := OutdoorIndex(old(outdoors), outdoorId).value;
        status == 200 &&
        outdoors == old(outdoors)[k := old(outdoors)[k].(anuncios := AppendIfAbsent(old(outdoors)[k].anuncios, aid))])
    {
      var k := OutdoorIndex(outdoors, outdoorId);
      if k.None? || AdIndex(anuncios, aid).None? {
        return 404;
      }
      var o := outdoors[k.value];
      outdoors := outdoors[k.value := o.(anuncios := AppendIfAbsent(o.anuncios, aid))];
      status := 200;
    }

    /** GET /api/outdoors/<id>/anuncios (app.py:173-191). */
    method LinkedAds(outdoorId: int) returns (status: int, view: seq<AdRec>)
      ensures status in {200, 404}
      ensures status == 404 <==> OutdoorIndex(outdoors, outdoorId).None?
      ensures status == 404 ==> view == []
      ensures status == 200 ==>
        var o := outdoors[OutdoorIndex(outdoors, outdoorId).value];
        view == LinkedView(o.anuncios, anuncios, o.overrides)
    {
      var k := OutdoorIndex(outdoors, outdoorId);
      if k.None? {
        return 404, [];
      }
      var o := outdoors[k.value];
      view := [];
      var i := 0;
      while i < |o.anuncios|
        invariant 0 <= i <= |o.anuncios|
        invariant view == LinkedView(o.anuncios[..i], anuncios, o.overrides)
      {
        var aid := o.anuncios[i];
        ghost var next := o.anuncios[..i + 1];
        assert next[..i] == o.anuncios[..i] && next[i] == aid;
        var found := DictLookup(anuncios, aid);
        if found.Some? {
          view := view + [Overridden(found.value, aid, o.overrides)];
        }
        i := i + 1;
      }
      assert o.anuncios[..i] == o.anuncios;
      status := 200;
    }

    /** PATCH /api/outdoors/<id>/anuncios/<aid>/vinculado (app.py:194-221):
        the first override of an ad starts from the global ad's titulo and
        duracao; only those two fields are ever written. */
    method PatchLinkedAd(outdoorId: int, aid: string, data: Body) returns (status: int)
      requires Valid()
      modifies this
      ensures Valid()
      ensures users == old(users) && anuncios == old(anuncios)
      ensures status in {200, 404}
      ensures status == 404 ==> outdoors == old(outdoors)
      ensures OutdoorIndex(old(outdoors), outdoorId).None? ==> status == 404
      ensures OutdoorIndex(old(outdoors), outdoorId).Some? ==>
        var k := OutdoorIndex(old(outdoors), outdoorId).value;
        var o := old(outdoors)[k];
        if aid !in o.anuncios then status == 404
        else if aid !in o.overrides && AdIndex(anuncios, aid).None? then status == 404
        else
          var base := if aid in o.overrides then o.overrides[aid]
                      else Override(anuncios[AdIndex(anuncios, aid).value].titulo,
                                    anuncios[AdIndex(anuncios, aid).value].duracao);
          status == 200 &&
          outdoors == old(outdoors)[k := o.(overrides := o.overrides[aid := base.(
            titulo := if "titulo" in data then data["titulo"] else base.titulo,
            duracao := if "duracao" in data then data["duracao"] else base.duracao)])]
    {
      var k := OutdoorIndex(outdoors, outdoorId);
      if k.None? {
        return 404;
      }
      var o := outdoors[k.value];
      if aid !in o.anuncios {
        return 404;
      }
      var base: Override;
      if aid in o.overrides {
        base := o.overrides[aid];
      } else {
        var g := AdIndex(anuncios, aid);
        if g.None? {
          return 404;
        }
        base := Override(anuncios[g.value].titulo, anuncios[g.value].duracao);
      }
      if "titulo" in data {
        base := base.(titulo := data["titulo"]);
      }
      if "duracao" in data {
        base := base.(duracao := data["duracao"]);
      }
      outdoors := outdoors[k.value := o.(overrides := o.overrides[aid := base])];
      status := 200;
    }

    /** DELETE /api/outdoors/<id>/anuncios/<aid> (app.py:237-244). */
    method Unlink(outdoorId: int, aid: string) returns (status: int)
      requires Valid()
      modifies this
      ensures Valid()
      ensures users == old(users) && anuncios == old(anuncios)
      ensures status == 404 <==>
        OutdoorIndex(old(outdoors), outdoorId).None? ||
        aid !in old(outdoors)[OutdoorIndex(old(outdoors), outdoorId).value].anuncios
      ensures status == 404 ==> outdoors == old(outdoors)
      ensures status != 404 ==> (
        var k := OutdoorIndex(old(outdoors), outdoorId).value;
        status == 200 &&
        outdoors == old(outdoors)[k := old(outdoors)[k].(anuncios := RemoveFirst(old(outdoors)[k].anuncios, aid))])
    {
      var k := OutdoorIndex(outdoors, outdoorId);
      if k.None? || aid !in outdoors[k.value].anuncios {
        return 404;
      }
      var o := outdoors[k.value];
      outdoors := outdoors[k.value := o.(anuncios := RemoveFirst(o.anuncios, aid))];
      status := 200;
    }

    /** POST /api/anuncios (app.py:261-284), the record part: nothing is
        validated; `newId` is the generated uuid and `arquivo` the stored
        file name when a file was sent. */
    method CreateAd(form: map<string, string>, arquivo: Option<string>, newId: string)
      returns (status: int, ad: AdRec)
      requires Valid()
      modifies this
      ensures Valid()
      ensures users == old(users) && outdoors == old(outdoors)
      ensures status == 201 && anuncios == old(anuncios) + [ad]
      ensures ad.id == newId
      ensures ad.titulo == (if "titulo" in form then JStr(form["titulo"]) else JNull)
      ensures ad.tipo == (if "tipo" in form then JStr(form["tipo"]) else JNull)
      ensures ad.duracao == (if "duracao" in form then JStr(form["duracao"]) else JNull)
      ensures ad.arquivo == (if arquivo.Some? then JStr(arquivo.value) else JNull)
    {
      ad := AdRec(newId, FormGet(form, "titulo"), FormGet(form, "tipo"), FormGet(form, "duracao"),
                  if arquivo.Some? then JStr(arquivo.value) else JNull);
      anuncios := anuncios + [ad];
      status := 201;
    }

    /** PATCH /api/anuncios/<id> (app.py:296-307): copies titulo, tipo and
        duracao from the body into the first ad with that id. */
    method PatchAd(id: string, data: Body) returns (status: int)
      requires Valid()
      modifies this
      ensures Valid()
      ensures users == old(users) && outdoors == old(outdoors)
      ensures AdIndex(old(anuncios), id).None? ==> status == 404 && anuncios == old(anuncios)
      ensures AdIndex(old(anuncios), id).Some? ==> (
        var k := AdIndex(old(anuncios), id).value;
        var a := old(anuncios)[k];
        status == 200 &&
        anuncios == old(anuncios)[k := a.(
          titulo := if "titulo" in data then data["titulo"] else a.titulo,
          tipo := if "tipo" in data then data["tipo"] else a.tipo,
          duracao := if "duracao" in data then data["duracao"] else a.duracao)])
    {
      var k := AdIndex(anuncios, id);
      if k.None? {
        return 404;
      }
      var orig := anuncios[k.value];
      var a := orig;
      var campos := ["titulo", "tipo", "duracao"];
      var i := 0;
      while i < |campos|
        invariant 0 <= i <= |campos|
        invariant a.id == orig.id && a.arquivo == orig.arquivo
        invariant a.titulo == if i > 0 && "titulo" in data then data["titulo"] else orig.titulo
        invariant a.tipo == if i > 1 && "tipo" in data then data["tipo"] else orig.tipo
        invariant a.duracao == if i > 2 && "duracao" in data then data["duracao"] else orig.duracao
      {
        var campo := campos[i];
        if campo in data {
          a := SetAdField(a, campo, data[campo]);
        }
        i := i + 1;
      }
      anuncios := anuncios[k.value := a];
      status := 200;
    }

    /** DELETE /api/anuncios/<id> (app.py:310-326), the record part: every ad
        with that id goes; the outdoors keep their links to it. */
    method DeleteAd(id: string) returns (status: int)
      requires Valid()
      modifies this
      ensures Valid()
      ensures users == old(users) && outdoors == old(outdoors)
      ensures status == 404 <==> forall a :: a in old(anuncios) ==> a.id != id
      ensures status == 404 ==> anuncios == old(anuncios)
      ensures status == 200 ==> anuncios == Filter(old(anuncios), (a: AdRec) => a.id != id)
      ensures status in {200, 404}
    {
      if AdIndex(anuncios, id).None? {
        return 404;
      }
      anuncios := Filter(anuncios, (a: AdRec) => a.id != id);
      status := 200;
    }

    /** PUT /api/outdoors/<id>/anuncios/ordem (app.py:329-343). */
    method Reorder(outdoorId: int, data: Body) returns (status: int)
      requires Valid()
      modifies this
      ensures Valid()
      ensures users == old(users) && anuncios == old(anuncios)
      ensures !Get(data, "ordem").JList? ==> status == 400 && outdoors == old(outdoors)
      ensures Get(data, "ordem").JList? && OutdoorIndex(old(outdoors), outdoorId).None? ==>
        status == 404 && outdoors == old(outdoors)
      ensures Get(data, "ordem").JList? && OutdoorIndex(old(outdoors), outdoorId).Some? ==> (
        var k := OutdoorIndex(old(outdoors), outdoorId).value;
        status == 200 &&
        outdoors == old(outdoors)[k := old(outdoors)[k].(
          anuncios := Reordered(Get(data, "ordem").items, old(outdoors)[k].anuncios))])
    {
      var ordem := Get(data, "ordem");
      if !ordem.JList? {
        return 400;
      }
      var k := OutdoorIndex(outdoors, outdoorId);
      if k.None? {
        return 404;
      }
      var o := outdoors[k.value];
      outdoors := outdoors[k.value := o.(anuncios := Reordered(ordem.items, o.anuncios))];
      status := 200;
    }
  }

  /** `outdoors[idx][campo] = value` for the fields update_outdoor allows. */
  function SetOutdoorField(o: OutdoorRec, campo: string, value: Json): OutdoorRec
  {
    if campo == "nome" then o.(nome := value)
    else if campo == "localizacao" then o.(localizacao := value)
    else if campo == "tipo" then o.(tipo := value)
    else if campo == "usuario" then o.(usuario := value)
    else o
  }

  /** `anuncio[campo] = value` for the fields patch_anuncio allows. */
  function SetAdField(a: AdRec, campo: string, value: Json): AdRec
  {
    if campo == "titulo" then a.(titulo := value)
    else if campo == "tipo" then a.(tipo := value)
    else if campo == "duracao" then a.(duracao := value)
    else a
  }

  /** `request.form.get(key)`: a form field is a string or absent. */
  function FormGet(form: map<string, string>, key: string): Json
  {
    if key in form then JStr(form[key]) else JNull
  }

}
