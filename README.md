# osmarads — a Dafny model of its two back ends

osmarads manages digital outdoors (LED/LCD screens and projectors) and the
anúncios (image or video ads) shown on them. It has two back ends side by
side, with different rules, so they are modelled as separate modules.

* **The Flask registry** (`app.py`) keeps users, outdoors and anúncios in JSON
  files. Each handler loads the lists, changes them in place and saves them.
  `FlaskRegistry.Registry` is a class that holds the three lists as `seq`
  fields. It has one method per handler, which returns the HTTP status and
  states the new contents of the lists. Request bodies are the JSON values of
  `PyJson`, so a missing key, a `None` and a non-string value all stay
  visible.
* **The Express/Mongo back end** (`src/`) has Mongoose schemas for `User`,
  `Outdoor` and `Anuncio`, plus the `auth`/`isAdmin` middleware and four
  routers:
  * `Schemas` turns the schemas into datatypes and validity predicates.
  * `MongoStore.Db` is a class holding the three collections and the upload
    directory (a set of file names).
  * The route handlers are methods over a `Db`, for the routes that write,
    or functions, for the routes that only read. The authenticated user
    arrives as the `caller` parameter.
  * `jwt.verify` is a function parameter (`Tokens.Verified`), and bcrypt is
    symbolic (`Schemas.Secret`).
  * Helper modules: `JsText` models the JavaScript string operations the
    routes rely on (`trim`, `replace`, `split('/')[0]`, `parseInt`).
    `Sorting` models the sort by `createdAt`. `Seqs` provides lookup,
    filtering, append-if-absent and uniqueness.

Every handler runs as one atomic step. Where a Mongoose `save()` re-validates
a document, the model checks the same validity predicate and fails the same
way.

Where the code and its evident intent disagree, the model follows the code.
The three cases are under "## Findings". Each has an "as written" member and
a corrected member; the rest of the model uses the corrected one.

## Model

| member | source | states |
|---|---|---|
| FlaskRegistry.Registry.constructor | app.py:9-13 | With no data files, all three tables are empty. |
| FlaskRegistry.Registry.Register | app.py:20-34 | Without `email` the reply is 500 (KeyError). A known email gives 400. A known-new email without `nome` gives 500. Otherwise exactly one user with tipo `cliente` and the submitted `password or senha` is appended. Every non-201 leaves the users unchanged. |
| FlaskRegistry.Registry.Login | app.py:37-54 | 200 exactly when the first user with that email has the submitted senha. The reply view has no senha. An unknown email and a wrong senha give the same 401. A missing email gives 500 only when the table is non-empty. |
| FlaskRegistry.View | app.py:50-54 | The login reply copies nome, email and tipo and has no senha field. |
| FlaskRegistry.RegisteredUserIsFound | app.py:23-48 | A user appended by register is the one login finds by that email. |
| FlaskRegistry.CheckOutdoorInput | app.py:80-93 | 400 exactly when nome, localizacao, tipo or usuario is falsy, or tipo is a string that is neither LED/LCD (any case) nor projetor (any case). A truthy non-string tipo gives 500. An accepted tipo is `LED`, `LCD` or `projetor` and equals the input up to case. |
| FlaskRegistry.NormalizeTipo | app.py:90-93 | The stored tipo is one of `LED`, `LCD`, `projetor`, and upper-cases to the submitted tipo. |
| FlaskRegistry.TipoCheckIgnoresCase | app.py:87-93 | Acceptance and the stored tipo do not depend on the case the client used. |
| FlaskRegistry.NextId | app.py:95 | The new id is 1 for an empty table. Otherwise it is some existing id + 1, and it exceeds every existing id. |
| FlaskRegistry.MaxId | app.py:95 | The maximum is an element and bounds every id. |
| FlaskRegistry.NextIdKeepsIdsDistinct | app.py:95-103 | Appending an outdoor with the next id keeps outdoor ids unique. |
| FlaskRegistry.Registry.CreateOutdoor | app.py:78-105 | A rejected check leaves the table as it was and answers its status. Otherwise the record with id NextId, the normalised tipo and no links is appended, and 201 is answered. |
| FlaskRegistry.Registry.GetOutdoor | app.py:115-120 | 404 exactly when no outdoor has the id. Otherwise the first outdoor with it: no earlier outdoor has that id. |
| FlaskRegistry.Registry.UpdateOutdoor | app.py:123-134 | 404 and no change for an unknown id. Otherwise only nome/localizacao/tipo/usuario present in the body are copied into the first matching record. Its id, links, overrides and every other record are unchanged. |
| FlaskRegistry.Registry.DeleteOutdoor | app.py:137-143 | 404 exactly when no outdoor has the id. Otherwise the table becomes the old table filtered to the outdoors with another id: every outdoor with that id goes, and the others stay in their order. |
| FlaskRegistry.Registry.ListMine | app.py:147-153 | 400 exactly for an absent or empty `usuario`. Otherwise the table filtered to the outdoors whose usuario equals it, in table order. |
| FlaskRegistry.Registry.Link | app.py:157-169 | 404 and no change when the outdoor or the ad is missing. Otherwise the id is appended only if absent. |
| Seqs.AppendIfAbsent | src/routes/outdoors.js:164-167 | An id already present leaves the list unchanged. An absent id is appended at the end, and then occurs once. |
| Seqs.AppendIfAbsentIdempotent | app.py:166-167 | Linking twice is linking once. |
| FlaskRegistry.Registry.Unlink | app.py:237-244 | 404 and no change when the outdoor is missing or the id is not linked. Otherwise one occurrence is removed. |
| FlaskRegistry.RemoveFirst | app.py:242 | `list.remove` drops exactly one occurrence: length - 1, multiset minus that id. |
| FlaskRegistry.UnlinkUndoesLink | app.py:237-244 | Unlinking an id the link appended restores the previous list. |
| FlaskRegistry.UnlinkRemovesSingleLink | app.py:242 | An id linked once is gone after one unlink. |
| FlaskRegistry.Registry.LinkedAds | app.py:173-191 | 404 exactly for an unknown outdoor. Otherwise the loop builds LinkedView of the outdoor's ids. |
| FlaskRegistry.DictLookup | app.py:182 | The dict built from the ads maps an id to an ad with that id, and to nothing when none has it. |
| FlaskRegistry.DictLookupFindsLast | app.py:182 | A later ad with the same id overwrites an earlier one, so the ad found is the LAST with that id. |
| FlaskRegistry.Overridden | app.py:186-189 | The outdoor's override replaces titulo and duracao and nothing else. Without an override the global ad is returned. |
| FlaskRegistry.Entry | app.py:185-190 | A linked id contributes one entry when an ad has that id, none otherwise. |
| FlaskRegistry.LinkedViewAppend | app.py:184-190 | The view follows the order of the linked ids. |
| FlaskRegistry.LinkedViewMembers | app.py:184-190 | An entry is in the view exactly when some linked id contributes it. |
| FlaskRegistry.LinkedViewLength | app.py:184-190 | At most one entry per linked id. |
| FlaskRegistry.Registry.PatchLinkedAd | app.py:194-221 | 404 and no change for an unknown outdoor, an id not linked, or a first override of a missing ad. A first override starts from the global titulo/duracao. Only titulo and duracao are written. |
| FlaskRegistry.Registry.CreateAd | app.py:261-284 | Exactly one record is appended, with the new id and the form fields as given (None when absent). The stored file name is set only when a file was sent. |
| FlaskRegistry.Registry.PatchAd | app.py:296-307 | 404 and no change for an unknown id. Otherwise only titulo/tipo/duracao present in the body are copied, and id and arquivo stay. |
| FlaskRegistry.Registry.DeleteAd | app.py:310-326 | 404 exactly when no ad has the id. Otherwise every ad with that id is removed. The outdoors keep their links. |
| FlaskRegistry.Registry.Reorder | app.py:329-343 | 400 for a non-list `ordem`, 404 for an unknown outdoor, no change in either case. Otherwise the links become the submitted order filtered to ids already linked. |
| FlaskRegistry.ReorderMembers | app.py:341 | An id ends up linked exactly when it was submitted and already linked. Linked ids left out are dropped. |
| FlaskRegistry.ReorderKeepsLinkedOrder | app.py:341 | Submitting only linked ids yields exactly that order, so re-sending the current list changes nothing. |
| FlaskRegistry.Strs | app.py:331 | A client's list of ids as JSON strings, element by element. |
| PyJson.Get | app.py:80-83 | `dict.get` gives the value, or None for an absent key. |
| PyJson.Or | app.py:25 | `a or b` is a when a is truthy, else b. It is truthy exactly when one of them is. |
| PyJson.Upper | app.py:87 | `str.upper` changes each ASCII letter, and only that. |
| PyJson.Lower | app.py:87 | `str.lower` changes each ASCII letter, and only that. |
| PyJson.UpperOfLower | app.py:87 | Upper-casing forgets the case the string was written in. |
| PyJson.LowerOfUpper | app.py:87 | Lower-casing forgets the case the string was written in. |
| Schemas.NewUserValid | src/models/User.js:4-26 | A new user is valid exactly when nome, email and senha are non-empty. It is always a `cliente`. |
| Schemas.PreSave | src/models/User.js:30-34 | The hook changes only senha, and only when it was modified. Validity is kept. |
| Schemas.RegisteredPasswordMatches | src/models/User.js:30-39 | After the hook, comparePassword accepts exactly the registered password. |
| Schemas.SaveWithoutPasswordChangeKeepsLogin | src/models/User.js:31 | Saving without touching senha keeps the stored hash and which passwords match. |
| Schemas.HashingTwiceLocksOut | src/models/User.js:30-34 | Re-hashing a senha that holds the hash of the user's password makes that password stop matching. This is why the hook checks `isModified`. |
| Schemas.NewOutdoorValid | src/models/Outdoor.js:3-37 | A new outdoor is valid exactly when nome and localizacao are present and non-empty, tipo is led/lcd/projetor and the code is non-empty. It starts `ativo` with no anúncios, owned by the given user. |
| Schemas.NewAnuncioValid | src/models/Anuncio.js:3-38 | A new anúncio is valid exactly when titulo is not blank, tipo is imagem/video, arquivo is present and duracao >= 1. Its stored titulo is trimmed, status `ativo` and outdoors empty. |
| JsText.Trim | src/models/Anuncio.js:4-8 | The trim setter removes JavaScript white space at both ends. The result is empty exactly for a blank string. |
| JsText.TrimIsInnerSlice | src/models/Anuncio.js:4-8 | The trimmed titulo is a slice of the input, and what is dropped before and after it is all white space. |
| JsText.TrimIdempotent | src/models/Anuncio.js:7 | Trimming twice is trimming once. |
| JsText.TrimKeepsTrimmed | src/models/Anuncio.js:7 | A string with no white space at either end is left as it is. |
| JsText.ReplaceFirst | src/middleware/auth.js:7 | `replace` with a string pattern replaces only its first occurrence. Without an occurrence the string is unchanged. |
| JsText.IndexOf | src/middleware/auth.js:7 | The first position where the pattern occurs, or none. |
| JsText.BeforeSlash | src/routes/anuncios.js:57 | `split('/')[0]` is the longest prefix without '/'. |
| JsText.ParseIntNeedsADigit | src/routes/anuncios.js:67-68 | A string with no decimal digit parses to NaN. |
| JsText.ParseIntReadsLeadingNumber | src/routes/anuncios.js:67 | The decimal numeral of n followed by any non-digit tail (not starting with x) parses to n. |
| JsText.ParseIntReadsHex | src/routes/anuncios.js:67 | `parseInt` also reads a `0x` hexadecimal numeral: "0x" and the hex digits of any n, followed by anything that is not a hex digit, parse to n. |
| JsText.ShowNatValue | src/routes/anuncios.js:67 | The numeral of n reads back as n. |
| Sorting.SortBy | src/routes/outdoors.js:35-37 | The sort yields a permutation of its input in non-decreasing key order. |
| Sorting.InsertSorted | src/routes/outdoors.js:37 | Inserting into a sorted list keeps it sorted. |
| Sorting.InsertCounts | src/routes/outdoors.js:37 | Inserting adds exactly the new element and keeps every other one. |
| Sorting.SortBySorted | src/routes/outdoors.js:37 | An already sorted list is left in its order. |
| Sorting.SortByIdempotent | src/routes/outdoors.js:37 | Sorting twice is sorting once. |
| AuthMiddleware.BearerToken | src/middleware/auth.js:7 | An absent header gives no token. Otherwise the header loses at most the prefix's length. |
| AuthMiddleware.BearerTokenStripsPrefix | src/middleware/auth.js:7 | "Bearer t" yields exactly t. |
| AuthMiddleware.BearerTokenWithoutPrefix | src/middleware/auth.js:7 | A header without "Bearer " is taken whole as the token. |
| AuthMiddleware.SessionUserAsWritten | src/middleware/auth.js:18 | With an id claim, the user with that id. Without one, the first user in the collection. |
| AuthMiddleware.SessionUser | src/middleware/auth.js:18-22 | A user only for a token with an id claim, and then exactly the user with that id. |
| AuthMiddleware.AuthenticateAsWritten | src/middleware/auth.js:4-38 | No token or an empty token gives 401 "Token não fornecido". `next` carries a user of the collection and the extracted token. |
| AuthMiddleware.ResetTokenPassesAsFirstUser | src/middleware/auth.js:15-27 | As written, a verified reset token passes `auth` as the first user. |
| AuthMiddleware.Authenticate | src/middleware/auth.js:4-38 | `next` exactly for a non-empty token that verifies to a payload whose id some user has, and then with that user and that token. A halt is 401 (no token, invalid, expired) or 500, and 500 exactly when the token verifies but names no user. |
| AuthMiddleware.VerificationFailuresAre401 | src/middleware/auth.js:28-35 | A bad signature gives 401 "Token inválido". An expired token gives 401 "Token expirado". |
| AuthMiddleware.UnknownUserIs500 | src/middleware/auth.js:18-36 | A verified token for an id no user has ends in 500 "Erro na autenticação", not 401. |
| AuthMiddleware.AdminGate | src/middleware/auth.js:40-53 | Pass exactly for tipo `admin`. Otherwise 403 "Acesso negado". |
| OutdoorRoutes.PublicAnuncios | src/routes/outdoors.js:11-45 | 404 when no outdoor has the code, 403 when it is not `ativo`. Otherwise exactly the active anúncios linked to it, in ascending createdAt. |
| OutdoorRoutes.ActiveAnuncios | src/routes/outdoors.js:15-37 | The listing holds every linked active anúncio and nothing else, sorted by createdAt. |
| OutdoorRoutes.Populate | src/routes/outdoors.js:16-17 | Each result is an anúncio whose id is linked. There is at most one per id. |
| OutdoorRoutes.PopulateAppend | src/routes/outdoors.js:206 | Population follows link order: the links of one list followed by another give the documents of the first followed by those of the second. |
| OutdoorRoutes.PopulateOne | src/routes/outdoors.js:206 | One link gives the first document with its id, or nothing when no document has it. With PopulateAppend, a repeated link gives its document once per link. |
| OutdoorRoutes.PopulateComplete | src/routes/outdoors.js:206 | With unique ids, every linked anúncio is in the population. |
| OutdoorRoutes.PublicOutdoor | src/routes/outdoors.js:220-243 | 404 exactly when no outdoor has the code. Otherwise the first outdoor with the code decides: that outdoor when it is ativo, else 403. |
| OutdoorRoutes.PublicOutdoorUnderUniqueCodes | src/routes/outdoors.js:220-243 | With unique public codes, the outdoor holding the code is answered when ativo, and 403 is answered when it is not. |
| OutdoorRoutes.Mine | src/routes/outdoors.js:48-56 | Exactly the caller's outdoors. |
| OutdoorRoutes.Get | src/routes/outdoors.js:93-109 | An outdoor only when the caller owns one with that id. Anyone else gets 404. |
| OutdoorRoutes.ListLinked | src/routes/outdoors.js:201-217 | 404 unless the caller owns the outdoor. Otherwise the population of the first such outdoor's links, in link order: no more than it links, all linked, all present with unique ids. |
| OutdoorRoutes.Create | src/routes/outdoors.js:71-90 | The caller becomes usuario and the generated code is used. A validation failure or a duplicate code gives 500 and no change. Otherwise exactly one outdoor is appended. |
| OutdoorRoutes.Update | src/routes/outdoors.js:112-131 | 404 and no change unless the caller owns it. Only nome, localizacao, tipo and status change, each only when supplied. codigoPublico, usuario and anuncios stay. |
| OutdoorRoutes.Delete | src/routes/outdoors.js:134-150 | 404 and no change unless the caller owns it. Otherwise exactly that outdoor goes. |
| OutdoorRoutes.Link | src/routes/outdoors.js:153-174 | 404 unless owned. An already linked id changes nothing. Otherwise the id is appended once, unless re-validation fails (500). Only the outdoor changes. |
| OutdoorRoutes.Unlink | src/routes/outdoors.js:177-198 | 404 unless owned. Every occurrence is removed, and it succeeds even when the id was not linked. Re-validation failure gives 500. Only the outdoor changes. |
| Seqs.Without | src/routes/outdoors.js:188-191 | The filter removes every occurrence of the id and keeps every other element with its count. |
| Seqs.WithoutUndoesAppend | src/routes/outdoors.js:164-191 | Unlink after link equals unlink alone. |
| AnuncioRoutes.AcceptedUploadIsImageOrVideo | src/routes/anuncios.js:25-37 | Multer lets through only image/jpeg, png, gif and video/mp4, webm up to 50 MB, so the major type is image or video. |
| AnuncioRoutes.Decide | src/routes/anuncios.js:50-95 | Every rejection is 400, and it keeps the stored file exactly when a field is missing. An acceptance is a valid anúncio of the caller with the file, the declared tipo (matching the MIME major type), the parsed positive duracao, no outdoors and status ativo. |
| AnuncioRoutes.MimeMismatchIsRejected | src/routes/anuncios.js:57-64 | A declared video with a non-video file, or a declared imagem with a non-image file, is rejected and the file removed. |
| AnuncioRoutes.UploadWithPositiveDurationIsAccepted | src/routes/anuncios.js:57-83 | A complete upload declared "imagem" with an image/ file or "video" with a video/ file, whose duracao parses to n > 0, is accepted with that tipo, duracao n and the trimmed titulo. |
| AnuncioRoutes.DurationWithUnitIsAccepted | src/routes/anuncios.js:67-71 | "30s" is accepted as 30: parseInt reads the leading number. |
| AnuncioRoutes.DurationWithoutDigitsIsRejected | src/routes/anuncios.js:67-71 | A duracao with no digit is rejected and the file removed. |
| AnuncioRoutes.Create | src/routes/anuncios.js:41-97 | No file gives 400. A file multer refuses gives 500 from the global handler and nothing is stored. Otherwise the file is stored and a rejection removes it except after the missing-field check. An acceptance appends exactly the decided record. |
| AnuncioRoutes.Settle | src/routes/anuncios.js:57-96 | A rejection answers its status, saves nothing and removes the stored file unless it kept it. An acceptance saves exactly the record and keeps the file. Only the anúncios and the upload directory change. |
| AnuncioRoutes.LinkAsWritten | src/routes/anuncios.js:123-170 | As written, the link never succeeds: 404 for a missing record, 403 for a caller who does not own the anúncio, 500 for its owner. |
| AnuncioRoutes.Link | src/routes/anuncios.js:123-170 | 404 for a missing record. 403 unless the caller owns both. 400 if already linked. Otherwise each side gains the other's id, the anúncio first, so a failed outdoor save leaves only that side linked. |
| AnuncioRoutes.Unlink | src/routes/anuncios.js:173-196 | 404 for a missing record. 403 unless the caller owns the anúncio or is admin. Otherwise each side loses every occurrence of the other's id, the anúncio first. |
| AnuncioRoutes.Delete | src/routes/anuncios.js:199-222 | 404 and no change unless the caller owns the anúncio. Otherwise exactly it goes, its file leaves the upload directory, and outdoors keep their references. |
| AuthRoutes.Registered | src/routes/auth.js:35-42 | The stored user is a cliente with the given fields, and only the registered password matches its hash. |
| AuthRoutes.Register | src/routes/auth.js:9-71 | 400 for a missing field before any lookup. 400 "Email já cadastrado" and nothing saved for a known email. Otherwise exactly one cliente is appended, and the reply is id/nome/email/tipo (no senha) with a 7-day session token. |
| AuthRoutes.Login | src/routes/auth.js:74-113 | 400 for a missing email or password. An unknown email and a wrong password give the same 401 "Credenciais inválidas". Success names a user with that email whose hash matches, and returns its profile and session token. |
| AuthRoutes.LoginSucceedsExactlyOnMatch | src/routes/auth.js:83-108 | With unique emails, login as a user succeeds exactly when the password matches that user's hash. |
| AuthRoutes.RegisteredUserCanLogIn | src/routes/auth.js:35-108 | After register, login succeeds with the registered password and no other. |
| AuthRoutes.Recover | src/routes/auth.js:132-163 | 400 exactly without an email. Otherwise the same message whether or not the email is known. A 1-hour reset token for that user is returned exactly when it is known. |
| AuthRoutes.ResetTarget | src/routes/auth.js:168-180 | 400 for a missing token or password. 500 for an invalid or expired token. 400 "Token inválido ou expirado" for a token without userId or for an unknown user. Otherwise the user the userId names. |
| AuthRoutes.ResetPasswordAsWritten | src/routes/auth.js:166-191 | As written, success is reported exactly when the target exists, and nothing is stored. |
| AuthRoutes.ResetAsWrittenKeepsOldPassword | src/routes/auth.js:183-186 | After a reported success the new password is refused at login and the old one still works. |
| AuthRoutes.WithPassword | src/routes/auth.js:183-184 | Assigning senha and saving changes only senha, to a hash that exactly the new password matches. |
| AuthRoutes.ResetPassword | src/routes/auth.js:166-191 | Failures as in ResetTarget, with no change. On success only the target's password is replaced. |
| AuthRoutes.ResetThenLogin | src/routes/auth.js:183-184 | After the corrected reset, login succeeds with the new password and no other. |
| ClientesRoutes.List | src/routes/clientes.js:7-16 | 403 for non-admins. Otherwise every cliente and only clientes, without senha, newest createdAt first. |
| ClientesRoutes.ClientesAreListed | src/routes/clientes.js:9-11 | The built listing is complete, holds only clientes, is newest first, and has one entry per cliente. |
| ClientesRoutes.Clientes | src/routes/clientes.js:9-11 | The query returns exactly the clientes, sorted by descending createdAt. |
| ClientesRoutes.Views | src/routes/clientes.js:10 | `select('-senha')` keeps each document's order and fields except senha. |
| ClientesRoutes.Get | src/routes/clientes.js:19-34 | 403 unless admin or self. 404 for an unknown id. Otherwise that user without senha. |
| ClientesRoutes.Edited | src/routes/clientes.js:50-51 | Only nome and email change, each only for a non-empty value. Validity is kept. |
| ClientesRoutes.EditKeepsLogin | src/routes/clientes.js:50-53 | Editing keeps senha and which passwords log in. |
| ClientesRoutes.Update | src/routes/clientes.js:37-58 | 403 unless admin or self. 404 for an unknown id. An email another user has gives 500 (unique index). Otherwise the edited user replaces the old one and nothing else changes. |
| ClientesRoutes.Delete | src/routes/clientes.js:61-74 | 403 for non-admins. 404 for an unknown id. Otherwise exactly that user goes. |

## Left out

- The JSON-file reads and writes of `app.py`, static and upload serving, `uuid`/`secure_filename` naming, and Flask's own file save: file I/O. The tables are in memory, and the stored name and the new ad id are parameters.
- `app.py` lines 223-233 follow a `return`. They are unreachable and not modelled.
- `list_outdoors` and `get_anuncios_meus` in `app.py` return a table unchanged. They have nothing to state.
- `delete_anuncio` in `app.py` also removes the file from disk. Only the record part is modelled.
- `app.py` handlers fail with 500 when a record lacks a key they index (`o['id']`, `a['_id']`). Records are modelled as always having them.
- Concurrency: gunicorn runs several workers over the same files. Every handler is modelled as atomic.
- `src/server.js` (connection, CORS, mounting) and `src/utils/codeGenerator.js` are not part of this model. The generated code and new document ids are parameters. The global error handler's 500 appears where multer refuses a file.
- `jsonwebtoken` and `bcrypt` internals, including the expiry clock: verification is a parameter, and hashes are symbolic values that match only their plain text.
- `Schemas.RegisteredPasswordMatches`: bcrypt reads only the first 72 bytes of a password, so its "no other password" half holds only for passwords shorter than 72 bytes.
- `AuthRoutes.RegisteredUserCanLogIn`: its "no other password" half holds only for passwords shorter than 72 bytes, for the same bcrypt truncation.
- `AuthRoutes.ResetThenLogin`: its "no other password" half holds only for passwords shorter than 72 bytes, for the same bcrypt truncation.
- `Schemas.HashingTwiceLocksOut`: states only that the user's own password stops matching. Real hashes are strings, so the text of the first hash would still match the double hash.
- Mongoose cast errors (a malformed `:id` gives 500) and database failures: ids are already numbers, and the store never fails.
- Request bodies are modelled as absent or string-valued for the Express routes. Non-string JSON values are not modelled.
- The admin GET `/todos` routes of the outdoor and anúncio routers (`src/routes/outdoors.js:59-68`, `src/routes/anuncios.js:111-120`), GET `/anuncios/meus` (`src/routes/anuncios.js:100-108`, a plain `find` by owner) and auth GET `/me` (`src/routes/auth.js:116-129`, which only echoes `req.user`) are read-only listings that change nothing.
- GET `/anuncios/arquivo/:filename` (`src/routes/anuncios.js:225-236`) is file serving, left out as I/O. It needs no token, answers 404 for a missing file, and joins the parameter onto the upload directory unchecked, so a decoded `../` in it could reach files outside that directory (not executed).
- `JsText.ParseInt`: models an exact unbounded integer, whereas JavaScript's `parseInt` returns a double. Numerals above 2^53 are rounded, and a very long numeral gives Infinity, which passes the `> 0` check and would be stored as the duracao.
- `PyJson.Body`: a request body is a JSON object (a map). A body that is an array, a string or a number, on which `data.get` and `data[...]` fail with 500 in `app.py`, is not modelled.
- `PyJson.JNum`: JSON numbers are integers. A JSON float is not modelled.
- `Sorting.SortBy` places equal keys stably. The order Mongo and `Array.prototype.sort` give to equal `createdAt` values is not modelled.
- `PyJson.Upper`, `PyJson.Lower`: only ASCII letters change case, whereas Python also maps other alphabets.
- `ClientesRoutes.Delete`: models `doc.remove()` as a removal, as in the Mongoose versions that still have it. It leaves the user's outdoors and anúncios as they are.
- `OutdoorRoutes.Update`: `findOneAndUpdate` runs without validators and drops undefined keys, so an out-of-enum tipo or status is stored. `MongoStore.Db.Valid` therefore does not require outdoors to be valid, and the later saves that re-validate them can fail with 500.
- `AuthRoutes.Register`: the `ValidationError` branch of the catch is not modelled because it cannot be reached. By then the three strings are non-empty and tipo defaults to `cliente`.
- The upload filter's error message, the console logging, and `details` fields of error replies are not modelled.
- `clientes.js` is not mounted by `src/server.js`. Its handlers are modelled as they would behave once mounted.

## Findings

| source | as written | input that shows it | evidently intended | confidence | as-written member | corrected member |
|---|---|---|---|---|---|---|
| src/routes/anuncios.js:137 | The owner check reads `outdoor.proprietario`, a field outdoors do not have (the owner is `usuario`). `.toString()` on undefined throws, so the caller who owns the anúncio always gets 500. | An owner links their own anúncio to their own outdoor. | The check compares `outdoor.usuario`, and the mirrored link succeeds for the owner of both. | high (not executed) | AnuncioRoutes.LinkAsWritten | AnuncioRoutes.Link |
| src/routes/auth.js:183 | The new hash is written to `user.password`, which the schema does not have. `save()` stores nothing new, yet the reply says the password was updated. | A valid reset token and a new password: login with the new password then fails and the old one still works. | Assign `user.senha = newPassword` and let the pre-save hook hash it once. Assigning the hash to `senha` would hash twice, and the new password would not match (Schemas.HashingTwiceLocksOut). | high (not executed) | AuthRoutes.ResetAsWrittenKeepsOldPassword | AuthRoutes.ResetThenLogin |
| src/middleware/auth.js:18 | `findOne({ _id: decoded.id })` with a token that has no `id` claim. Mongoose drops the undefined key, so the query matches the first user. | The 1-hour reset token from recover-password (payload `{ userId }`) used as a bearer token. | A token without an `id` names no user, and the request is refused. | medium: depends on Mongoose dropping undefined filter keys (not executed) | AuthMiddleware.ResetTokenPassesAsFirstUser | AuthMiddleware.Authenticate |
