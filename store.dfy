/** The MongoDB collections behind the Express back end, held in memory:
    users, outdoors and anúncios, plus the upload directory as a set of file
    names. Each route handler runs as one atomic step over this store. */
module MongoStore {
  import opened Seqs
  import opened Schemas

  /** A reply: a success status with its JSON body, or an error status with
      the `error` message the handler sends. */
  datatype Reply<T> = Ok(status: int, body: T) | Fail(status: int, error: string)

  /** `Model.findById(id)`: position of the document with that `_id`. */
  function UserAt(users: seq<User>, id: Id): Option<nat>
  {
    FirstIndex(users, (u: User) => u.id == id)
  }

  /** `User.findOne({ email })`. */
  function UserWithEmail(users: seq<User>, email: string): Option<nat>
  {
    FirstIndex(users, (u: User) => u.email == email)
  }

  function OutdoorAt(outdoors: seq<Outdoor>, id: Id): Option<nat>
  {
    FirstIndex(outdoors, (o: Outdoor) => o.id == id)
  }

  /** `Outdoor.findOne({ _id: id, usuario: owner })`: owner-scoped lookup. */
  function OwnedOutdoorAt(outdoors: seq<Outdoor>, id: Id, owner: Id): Option<nat>
  {
    FirstIndex(outdoors, (o: Outdoor) => o.id == id && o.usuario == owner)
  }

  /** `Outdoor.findOne({ codigoPublico: code })`. */
  function OutdoorWithCode(outdoors: seq<Outdoor>, code: string): Option<nat>
  {
    FirstIndex(outdoors, (o: Outdoor) => o.codigoPublico == code)
  }

  function AnuncioAt(anuncios: seq<Anuncio>, id: Id): Option<nat>
  {
    FirstIndex(anuncios, (a: Anuncio) => a.id == id)
  }

  /** `Anuncio.findOne({ _id: id, proprietario: owner })`. */
  function OwnedAnuncioAt(anuncios: seq<Anuncio>, id: Id, owner: Id): Option<nat>
  {
    FirstIndex(anuncios, (a: Anuncio) => a.id == id && a.proprietario == owner)
  }

  ghost predicate AllUsersValid(users: seq<User>)
  {
    forall k :: 0 <= k < |users| ==> UserValid(users[k])
  }

  ghost predicate AllAnunciosValid(anuncios: seq<Anuncio>)
  {
    forall k :: 0 <= k < |anuncios| ==> AnuncioValid(anuncios[k])
  }

  class Db {
    var users: seq<User>
    var outdoors: seq<Outdoor>
    var anuncios: seq<Anuncio>
    /** Names of the files in the upload directory. */
    var uploads: set<string>

    /** What the unique indexes and `save()` validation guarantee. Outdoors
        are not required to be valid: `findOneAndUpdate` writes without
        running validators. */
    ghost predicate Valid()
      reads this
    {
      UniqueBy(users, UserId) && UniqueBy(users, UserEmail) && AllUsersValid(users) &&
      UniqueBy(outdoors, OutdoorId) && UniqueBy(outdoors, OutdoorCode) &&
      UniqueBy(anuncios, AnuncioId) && AllAnunciosValid(anuncios)
    }

    constructor ()
      ensures Valid()
      ensures users == [] && outdoors == [] && anuncios == [] && uploads == {}
    {
      users, outdoors, anuncios, uploads := [], [], [], {};
    }
  }
}
