/** The `/api/anuncios` routes of the Express back end: creation from a
    multipart upload, the link and unlink that update both the anúncio and
    the outdoor, and deletion. The upload directory is the set of stored
    file names `db.uploads`. */
module AnuncioRoutes {
  import opened Seqs
  import opened Schemas
  import opened MongoStore
  import JsText

  // --------------------------------------------------------------- upload

  /** The file multer received: the name it was stored under, its declared
      MIME type and its size in bytes. */
  datatype Upload = Upload(filename: string, mimetype: string, size: nat)

  const AllowedMimeTypes: seq<string> := ["image/jpeg", "image/png", "image/gif", "video/mp4", "video/webm"]

  /** 50 MB. */
  const MaxFileSize: nat := 50 * 1024 * 1024

  /** The multer `fileFilter` and `limits.fileSize`. */
  predicate MulterAccepts(f: Upload)
  {
    f.mimetype in AllowedMimeTypes && f.size <= MaxFileSize
  }

  /** The major type of a MIME type is what comes before its first '/'. */
  lemma BeforeSlashAt(s: string, i: nat)
    requires i < |s| && s[i] == '/' && '/' !in s[..i]
    ensures JsText.BeforeSlash(s) == s[..i]
  {
  }

  /** Every accepted file is an image or a video by its major type. */
  lemma AcceptedUploadIsImageOrVideo(f: Upload)
    requires MulterAccepts(f)
    ensures JsText.BeforeSlash(f.mimetype) in ["image", "video"]
    ensures f.size <= 52428800
  {
    var m := f.mimetype;
    assert m[5] == '/' && '/' !in m[..5];
    BeforeSlashAt(m, 5);
    assert m[..5] == "image" || m[..5] == "video";
  }

  /** The handler's decision once a file is stored: a rejection (saying
      whether the stored file is left behind) or the record to save. */
  datatype Verdict = Reject(status: int, error: string, keepsFile: bool) | Accept(record: Anuncio)

  /** The validation sequence of POST /: required fields, declared tipo
      against the file's MIME major type, the duration through `parseInt`,
      then the schema. */
  function Decide(file: Upload, titulo: Option<string>, tipo: Option<string>, duracao: Option<string>,
                  caller: Id, newId: Id, now: int): (v: Verdict)
    ensures v.Reject? ==> v.status == 400
    ensures v.Reject? && v.keepsFile <==> Missing(titulo) || Missing(tipo) || Missing(duracao)
    ensures v.Accept? ==>
      AnuncioValid(v.record) && v.record.id == newId && v.record.proprietario == caller &&
      v.record.arquivo == file.filename && v.record.tipo == tipo.value &&
      JsText.ParseInt(duracao.value) == Some(v.record.duracao) && v.record.duracao > 0 &&
      v.record.outdoors == [] && v.record.status == "ativo"
    ensures v.Accept? ==>
      JsText.BeforeSlash(file.mimetype) == (if tipo.value == "video" then "video" else "image")
  {
    if Missing(titulo) || Missing(tipo) || Missing(duracao) then
      Reject(400, "Título, tipo e duração são obrigatórios", true)
    else
      var fileType := JsText.BeforeSlash(file.mimetype);
      if tipo.value == "video" && fileType != "video" then
        Reject(400, "O arquivo enviado não é um vídeo válido", false)
      else if tipo.value == "imagem" && fileType != "image" then
        Reject(400, "O arquivo enviado não é uma imagem válida", false)
      else
        match JsText.ParseInt(duracao.value)
        case None => Reject(400, "Duração inválida", false)
        case Some(n) =>
          if n <= 0 then Reject(400, "Duração inválida", false)
          else
            var a := NewAnuncio(newId, titulo.value, tipo.value, file.filename, n, caller, now);
            if !AnuncioValid(a) then Reject(400, "Erro de validação", false)
            else Accept(a)
  }

  /** A declared video whose file is not a video (or a declared image whose
      file is not an image) is rejected and its file removed. */
  lemma MimeMismatchIsRejected(file: Upload, titulo: string, tipo: string, duracao: string,
                               caller: Id, newId: Id, now: int)
    requires titulo != "" && duracao != ""
    requires (tipo == "video" && JsText.BeforeSlash(file.mimetype) != "video") ||
             (tipo == "imagem" && JsText.BeforeSlash(file.mimetype) != "image")
    ensures Decide(file, Some(titulo), Some(tipo), Some(duracao), caller, newId, now).Reject?
    ensures !Decide(file, Some(titulo), Some(tipo), Some(duracao), caller, newId, now).keepsFile
  {
  }

  /** With every field present, a declared tipo matching the file's major
      type and a positive parsed duration, the decision is the new record
      whenever that record is valid. */
  lemma CompleteUploadIsDecided(file: Upload, titulo: Option<string>, tipo: Option<string>, duracao: Option<string>,
                                n: int, caller: Id, newId: Id, now: int)
    requires !Missing(titulo) && !Missing(tipo) && !Missing(duracao)
    requires tipo.value in AnuncioTipos
    requires JsText.BeforeSlash(file.mimetype) == (if tipo.value == "video" then "video" else "image")
    requires JsText.ParseInt(duracao.value) == Some(n) && n > 0
    requires AnuncioValid(NewAnuncio(newId, titulo.value, tipo.value, file.filename, n, caller, now))
    ensures Decide(file, titulo, tipo, duracao, caller, newId, now) ==
      Accept(NewAnuncio(newId, titulo.value, tipo.value, file.filename, n, caller, now))
  {
  }

  /** A complete upload, declared "imagem" with an image file or "video"
      with a video file, whose duration parses to a positive number is
      accepted with that tipo and duration. */
  lemma UploadWithPositiveDurationIsAccepted(file: Upload, titulo: string, tipo: string, duracao: string, n: int,
                                             caller: Id, newId: Id, now: int)
    requires !JsText.IsBlank(titulo) && file.filename != "" && duracao != ""
    requires tipo in AnuncioTipos
    requires JsText.BeforeSlash(file.mimetype) == (if tipo == "video" then "video" else "image")
    requires JsText.ParseInt(duracao) == Some(n) && n > 0
    ensures var v := Decide(file, Some(titulo), Some(tipo), Some(duracao), caller, newId, now);
      v.Accept? && v.record.tipo == tipo && v.record.duracao == n && v.record.titulo == JsText.Trim(titulo)
  {
    assert tipo != "" && (tipo[0] == 'i' || tipo[0] == 'v');
    NewAnuncioValid(newId, titulo, tipo, file.filename, n, caller, now);
    CompleteUploadIsDecided(file, Some(titulo), Some(tipo), Some(duracao), n, caller, newId, now);
  }

  /** A duration written as digits with a unit after it ("30s") is accepted
      as the number before the unit. */
  lemma DurationWithUnitIsAccepted(file: Upload, titulo: string, n: nat, unit: string,
                                   caller: Id, newId: Id, now: int)
    requires !JsText.IsBlank(titulo) && file.filename != ""
    requires JsText.BeforeSlash(file.mimetype) == "video"
    requires n > 0
    requires unit == [] || (!JsText.IsDecimalDigit(unit[0]) && unit[0] != 'x' && unit[0] != 'X')
    ensures var v := Decide(file, Some(titulo), Some("video"), Some(JsText.ShowNat(n) + unit), caller, newId, now);
      v.Accept? && v.record.duracao == n
  {
    JsText.ParseIntReadsLeadingNumber(n, unit);
    assert AnuncioTipos[1] == "video";
    UploadWithPositiveDurationIsAccepted(file, titulo, "video", JsText.ShowNat(n) + unit, n, caller, newId, now);
  }

  /** A duration with no digit in it is rejected and the file removed. */
  lemma DurationWithoutDigitsIsRejected(file: Upload, titulo: string, tipo: string, duracao: string,
                                        caller: Id, newId: Id, now: int)
    requires titulo != "" && tipo != "" && duracao != ""
    requires JsText.HasNoDecimalDigit(duracao)
    ensures Decide(file, Some(titulo), Some(tipo), Some(duracao), caller, newId, now).Reject?
    ensures !Decide(file, Some(titulo), Some(tipo), Some(duracao), caller, newId, now).keepsFile
  {
    JsText.ParseIntNeedsADigit(duracao);
  }

  /** POST /: multer first (a refused type or size goes to the global error
      handler, 500, and nothing is kept); then the handler's decision; a
      rejection removes the stored file except after the missing-field check. */
  method Create(db: Db, caller: User, file: Option<Upload>, titulo: Option<string>, tipo: Option<string>,
                duracao: Option<string>, newId: Id, now: int) returns (r: Reply<Anuncio>)
    requires db.Valid()
    requires forall k :: 0 <= k < |db.anuncios| ==> db.anuncios[k].id != newId
    requires file.Some? ==> file.value.filename !in db.uploads && file.value.filename != ""
    modifies db
    ensures db.Valid()
    ensures db.users == old(db.users) && db.outdoors == old(db.outdoors)
    ensures file.None? ==> r == Fail(400, "Nenhum arquivo enviado") && db.anuncios == old(db.anuncios) && db.uploads == old(db.uploads)
    ensures file.Some? && !MulterAccepts(file.value) ==>
      r == Fail(500, "Erro interno do servidor") && db.anuncios == old(db.anuncios) && db.uploads == old(db.uploads)
    ensures file.Some? && MulterAccepts(file.value) ==> (
      var v := Decide(file.value, titulo, tipo, duracao, caller.id, newId, now);
      if v.Accept? then r == Ok(201, v.record) && db.anuncios == old(db.anuncios) + [v.record] &&
                        db.uploads == old(db.uploads) + {file.value.filename}
      else r == Fail(v.status, v.error) && db.anuncios == old(db.anuncios) &&
           db.uploads == if v.keepsFile then old(db.uploads) + {file.value.filename} else old(db.uploads))
  {
    if file.None? {
      return Fail(400, "Nenhum arquivo enviado");
    }
    var f := file.value;
    if !MulterAccepts(f) {
      return Fail(500, "Erro interno do servidor");
    }
    db.uploads := db.uploads + {f.filename};
    var v := Decide(f, titulo, tipo, duracao, caller.id, newId, now);
    r := Settle(db, f.filename, v);
  }

  /** The end of POST / once the file is stored: a rejection answers its
      status and removes the file unless the check that failed was the
      missing-field one; an acceptance saves the record. */
  method Settle(db: Db, filename: string, v: Verdict) returns (r: Reply<Anuncio>)
    requires db.Valid() && filename in db.uploads
    requires v.Accept? ==> AnuncioValid(v.record)
    requires v.Accept? ==> forall k :: 0 <= k < |db.anuncios| ==> db.anuncios[k].id != v.record.id
    modifies db
    ensures db.Valid()
    ensures db.users == old(db.users) && db.outdoors == old(db.outdoors)
    ensures v.Accept? ==> r == Ok(201, v.record) && db.anuncios == old(db.anuncios) + [v.record] &&
                          db.uploads == old(db.uploads)
    ensures v.Reject? ==> r == Fail(v.status, v.error) && db.anuncios == old(db.anuncios) &&
                          db.uploads == if v.keepsFile then old(db.uploads) else old(db.uploads) - {filename}
  {
    if v.Reject? {
      if !v.keepsFile {
        db.uploads := db.uploads - {filename};
      }
      return Fail(v.status, v.error);
    }
    var after := db.anuncios + [v.record];
    SnocKeepsUnique(db.anuncios, v.record, AnuncioId);
    assert AllAnunciosValid(after) by {
      forall k | 0 <= k < |after| ensures AnuncioValid(after[k]) {
        if k < |db.anuncios| {
          assert after[k] == db.anuncios[k];
        }
      }
    }
    db.anuncios := after;
    r := Ok(201, v.record);
  }

  // ------------------------------------------------------ mirrored link

  /** POST /:id/outdoor/:outdoorId as written: the ownership test reads
      `outdoor.proprietario`, which an outdoor does not have, so once the
      caller owns the anúncio the handler throws and answers 500. */
  function LinkAsWritten(anuncios: seq<Anuncio>, outdoors: seq<Outdoor>, caller: User, id: Id, outdoorId: Id): (r: Reply<string>)
    ensures r.Fail?
    ensures AnuncioAt(anuncios, id).None? || OutdoorAt(outdoors, outdoorId).None? ==>
      r == Fail(404, "Anúncio ou outdoor não encontrado")
    ensures AnuncioAt(anuncios, id).Some? && OutdoorAt(outdoors, outdoorId).Some? ==>
      r.status == (if anuncios[AnuncioAt(anuncios, id).value].proprietario != caller.id then 403 else 500)
  {
    match (AnuncioAt(anuncios, id), OutdoorAt(outdoors, outdoorId))
    case (Some(i), Some(_)) =>
      if anuncios[i].proprietario != caller.id then Fail(403, "Acesso negado")
      else Fail(500, "Erro ao vincular anúncio")
    case _ => Fail(404, "Anúncio ou outdoor não encontrado")
  }

  /** POST /:id/outdoor/:outdoorId with the owner read from `usuario`: both
      records must be the caller's, the link must be new on the anúncio side,
      and then each side gains the other's id. The anúncio is saved first, so
      an outdoor that fails re-validation leaves the anúncio side linked. */
  method Link(db: Db, caller: User, id: Id, outdoorId: Id) returns (r: Reply<string>)
    requires db.Valid()
    modifies db
    ensures db.Valid()
    ensures db.users == old(db.users) && db.uploads == old(db.uploads)
    ensures AnuncioAt(old(db.anuncios), id).None? || OutdoorAt(old(db.outdoors), outdoorId).None? ==>
      r == Fail(404, "Anúncio ou outdoor não encontrado") && unchanged(db)
    ensures AnuncioAt(old(db.anuncios), id).Some? && OutdoorAt(old(db.outdoors), outdoorId).Some? ==> (
      var i := AnuncioAt(old(db.anuncios), id).value;
      var k := OutdoorAt(old(db.outdoors), outdoorId).value;
      var a := old(db.anuncios)[i];
      var o := old(db.outdoors)[k];
      if a.proprietario != caller.id || o.usuario != caller.id then
        r == Fail(403, "Acesso negado") && unchanged(db)
      else if outdoorId in a.outdoors then
        r == Fail(400, "Anúncio já vinculado a este outdoor") && unchanged(db)
      else
        db.anuncios == old(db.anuncios)[i := a.(outdoors := a.outdoors + [outdoorId])] &&
        if OutdoorValid(o) then
          r == Ok(200, "Anúncio vinculado com sucesso") &&
          db.outdoors == old(db.outdoors)[k := o.(anuncios := o.anuncios + [id])]
        else
          r == Fail(500, "Erro ao vincular anúncio") && db.outdoors == old(db.outdoors))
  {
    var fi := AnuncioAt(db.anuncios, id);
    var fk := OutdoorAt(db.outdoors, outdoorId);
    if fi.None? || fk.None? {
      return Fail(404, "Anúncio ou outdoor não encontrado");
    }
    var i, k := fi.value, fk.value;
    var a, o := db.anuncios[i], db.outdoors[k];
    if a.proprietario != caller.id || o.usuario != caller.id {
      return Fail(403, "Acesso negado");
    }
    if outdoorId in a.outdoors {
      return Fail(400, "Anúncio já vinculado a este outdoor");
    }
    var a' := a.(outdoors := a.outdoors + [outdoorId]);
    UpdateKeepsUnique(db.anuncios, i, a', AnuncioId);
    db.anuncios := db.anuncios[i := a'];
    var o' := o.(anuncios := o.anuncios + [id]);
    if !OutdoorValid(o') {
      return Fail(500, "Erro ao vincular anúncio");
    }
    UpdateKeepsUnique(db.outdoors, k, o', OutdoorId);
    UpdateKeepsUnique(db.outdoors, k, o', OutdoorCode);
    db.outdoors := db.outdoors[k := o'];
    r := Ok(200, "Anúncio vinculado com sucesso");
  }

  /** DELETE /:anuncioId/outdoor/:outdoorId: the anúncio's owner or an admin
      removes every occurrence of each id from the other record, the anúncio
      first, so an outdoor that fails re-validation leaves the anúncio side
      unlinked. */
  method Unlink(db: Db, caller: User, id: Id, outdoorId: Id) returns (r: Reply<string>)
    requires db.Valid()
    modifies db
    ensures db.Valid()
    ensures db.users == old(db.users) && db.uploads == old(db.uploads)
    ensures AnuncioAt(old(db.anuncios), id).None? || OutdoorAt(old(db.outdoors), outdoorId).None? ==>
      r == Fail(404, "Anúncio ou outdoor não encontrado") && unchanged(db)
    ensures AnuncioAt(old(db.anuncios), id).Some? && OutdoorAt(old(db.outdoors), outdoorId).Some? ==> (
      var i := AnuncioAt(old(db.anuncios), id).value;
      var k := OutdoorAt(old(db.outdoors), outdoorId).value;
      var a := old(db.anuncios)[i];
      var o := old(db.outdoors)[k];
      if a.proprietario != caller.id && caller.tipo != "admin" then
        r == Fail(403, "Acesso negado") && unchanged(db)
      else
        db.anuncios == old(db.anuncios)[i := a.(outdoors := Without(a.outdoors, outdoorId))] &&
        if OutdoorValid(o) then
          r == Ok(200, "Anúncio desvinculado com sucesso") &&
          db.outdoors == old(db.outdoors)[k := o.(anuncios := Without(o.anuncios, id))]
        else
          r == Fail(500, "Erro ao desvincular anúncio") && db.outdoors == old(db.outdoors))
  {
    var fi := AnuncioAt(db.anuncios, id);
    var fk := OutdoorAt(db.outdoors, outdoorId);
    if fi.None? || fk.None? {
      return Fail(404, "Anúncio ou outdoor não encontrado");
    }
    var i, k := fi.value, fk.value;
    var a, o := db.anuncios[i], db.outdoors[k];
    if a.proprietario != caller.id && caller.tipo != "admin" {
      return Fail(403, "Acesso negado");
    }
    var a' := a.(outdoors := Without(a.outdoors, outdoorId));
    var o' := o.(anuncios := Without(o.anuncios, id));
    UpdateKeepsUnique(db.anuncios, i, a', AnuncioId);
    db.anuncios := db.anuncios[i := a'];
    if !OutdoorValid(o') {
      return Fail(500, "Erro ao desvincular anúncio");
    }
    UpdateKeepsUnique(db.outdoors, k, o', OutdoorId);
    UpdateKeepsUnique(db.outdoors, k, o', OutdoorCode);
    db.outdoors := db.outdoors[k := o'];
    r := Ok(200, "Anúncio desvinculado com sucesso");
  }

  // --------------------------------------------------------------- delete

  /** DELETE /:id: the caller's own anúncio only; its file is removed from
      the upload directory if there, and outdoors keep their references to
      it. */
  method Delete(db: Db, caller: User, id: Id) returns (r: Reply<string>)
    requires db.Valid()
    modifies db
    ensures db.Valid()
    ensures db.users == old(db.users) && db.outdoors == old(db.outdoors)
    ensures OwnedAnuncioAt(old(db.anuncios), id, caller.id).None? ==>
      r == Fail(404, "Anúncio não encontrado") && unchanged(db)
    ensures OwnedAnuncioAt(old(db.anuncios), id, caller.id).Some? ==> (
      var a := old(db.anuncios)[OwnedAnuncioAt(old(db.anuncios), id, caller.id).value];
      r == Ok(200, "Anúncio excluído com sucesso") &&
      db.uploads == old(db.uploads) - {a.arquivo} &&
      |db.anuncios| == |old(db.anuncios)| - 1 &&
      forall b :: b in db.anuncios <==> b in old(db.anuncios) && b.id != id)
  {
    var found := OwnedAnuncioAt(db.anuncios, id, caller.id);
    if found.None? {
      return Fail(404, "Anúncio não encontrado");
    }
    var k := found.value;
    var s := db.anuncios;
    db.uploads := db.uploads - {s[k].arquivo};
    var rest := s[..k] + s[k + 1..];
    RemoveAtKeepsUnique(s, k, AnuncioId);
    RemoveAtMembership(s, k, AnuncioId);
    db.anuncios := rest;
    r := Ok(200, "Anúncio excluído com sucesso");
  }
}
