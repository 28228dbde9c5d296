# Community media and ownership core of a discussion platform

This project models the server-side core of a Reddit-like platform: how a community
("sub") is created, how the ownership guard in front of the media upload decides who
may change a community, the MIME allow-list applied to an uploaded file, and the
workflow that replaces a community's image or banner. It also models the field rules
of the `User` entity, its unique columns and its before-insert password hook.

The state is a communities table keyed by exact name (`Subs.Server.subs`), a media
store given as the set of file names in the image directory (`Subs.Server.files`), and a
ghost trace of the effects each request performs (`Wrote`, `Saved`, `Unlinked`), oldest first.
The trace is what lets the contracts state ordering: the guard runs before any file is
written, and the old file is unlinked only after the save. The users table is
`Users.UserTable.rows`, keyed by primary id.

Each request handler is a method. Its contract gives the response and the whole new state
for every branch of the source, with a fresh name for any file the upload writes. It also
says which invariant it keeps. `Subs.Server.Valid()`
holds when:
- every record sits under its own name;
- every non-empty image or banner reference names a stored file;
- no two references share a file;
- no two names differ only in case.

Parameters stand for what the model cannot see:
- `saveOk` says whether the database accepts a save.
- `generated` is the random file name the upload step picks.
- `hash` is bcrypt.
- `isEmail` is the library's email-format check.

Behaviour of the code worth noting:
- A file rejected by the MIME filter reaches the framework's default error handler, which answers 500 with the message "Not an image.".
- When the old file cannot be unlinked after the save, the handler answers 500 "Error Occurred." even though the new reference is already saved.
- A missing community at the guard answers 500 " Error Occurred." (with its leading space). The guard looks names up exact-case, while `createSub` refuses names equal up to case (`Subs.CaseQuirk`).
- `createSub` builds a field-keyed errors object. The name-conflict message overwrites the empty-name one. The object is thrown and then collapsed into a generic 500; nothing is saved.
- A known `type` with no file sets the reference to `''` and still unlinks the old file.
- The password hook fires on insert only. An update stores the password field as it stands, so a plaintext password changed on an existing entity would be stored unhashed. When an insert fails on a unique column, the entity's password has already been replaced by its hash.

## Model

| member | source | states |
|---|---|---|
| `Subs.FileFilter` | server/src/routes/subs.ts:120-126 | a file is accepted exactly when its MIME type is image/jpeg or image/png; every other type gets the error "Not an image." |
| `Subs.KindOf` | server/src/routes/subs.ts:132-134 | the form's `type` selects the image exactly when it is "image", the banner exactly when it is "banner", and nothing otherwise (absent included) |
| `Subs.WithUrn` | server/src/routes/subs.ts:146-154 | writing the reference of one kind sets that kind to the new value and leaves the other kind and every other field of the record untouched |
| `Subs.OrEmpty` | server/src/routes/subs.ts:148-153 | the fallback to '' of an optional value yields '' exactly when the value is absent or empty, and the value itself otherwise |
| `Subs.IsEmpty` | server/src/routes/subs.ts:43-44 | a field counts as empty exactly when the fallback to '' turns it into '', and a non-empty field is a present string of positive length |
| `Subs.Taken` | server/src/routes/subs.ts:46-49 | the conflict query finds every exact match, and any name it reports as taken clashes with a stored name of the same length |
| `Subs.Lower` | server/src/routes/subs.ts:48 | lower-casing keeps the length of a name |
| `Subs.LowerIdempotent` | server/src/routes/subs.ts:48 | lower-casing an already lower-cased name changes nothing |
| `Subs.TakenIgnoresInputCase` | server/src/routes/subs.ts:46-49 | the uniqueness query lower-cases both sides, so a name is refused exactly when its lower-cased form would be |
| `Subs.CaseQuirk` | server/src/routes/subs.ts:46-49 | for every table: a name absent from it that equals a stored name up to case is refused by createSub's case-insensitive check, yet the exact-case guard lookup (line 98) finds no community under it, so nobody owns it |
| `Subs.CaseQuirkExample` | server/src/routes/subs.ts:46-49 | the premise of the quirk is met: with only 'science' stored, 'Science' is refused at creation and owned by nobody at the guard (line 98) |
| `Subs.DropOld` | server/src/routes/subs.ts:157-161 | the old file is unlinked only when the old reference is non-empty; otherwise the store is unchanged, and nothing but the old file leaves it |
| `Subs.Commit` | server/src/routes/subs.ts:144-155 | the saved table differs from the old one only in the chosen reference of the chosen community: same names, the other communities untouched, and the chosen record keeps its name, title, description, owner and other reference while the chosen one is set to the new value |
| `Subs.ReplaceKeepsConsistent` | server/src/routes/subs.ts:144-161 | replacing a reference by '' or by a stored, unreferenced file, then unlinking the old file, keeps every live reference pointing at an existing file and no file shared |
| `Subs.DropUnreferencedKeepsConsistent` | server/src/routes/subs.ts:139-141 | unlinking an upload that no community references keeps the table and the store consistent |
| `Subs.ReplaceTwice` | server/src/routes/subs.ts:144-161 | after two successive replacements of one reference by fresh files, the record points at the second file, which is stored, while the first file and the original one are both gone |
| `Subs.Server.OwnSub` | server/src/routes/subs.ts:95-110 | the guard passes exactly when a community has that exact name and the caller is its owner, and then hands on that record; a different owner gets 403; a missing community or an absent caller gets 500 |
| `Subs.Server.ValidateSub` | server/src/routes/subs.ts:41-54 | validation passes exactly when name and title are non-empty and no existing name matches up to case; an absent name throws a TypeError; otherwise the errors object holds only `name` and `title`, with the conflict message winning over the empty-name one |
| `Subs.Server.CreateSub` | server/src/routes/subs.ts:38-75 | any validation error or failed save answers a generic 500 and saves nothing; on success the new community has the given name, title and description, the caller as owner and no media, is added under a name not present before, and the table invariant is kept |
| `Subs.Server.UploadSubImage` | server/src/routes/subs.ts:129-168 | an unknown `type` unlinks the upload (400 "Invalid type") or, with no file, answers 400 "Invalid file"; in both cases no record changes. A known type overwrites only that reference (with '' when no file came), saves, and only after the save unlinks a non-empty old reference. A missing old file answers 500 after the save. The invariant is kept, and under it a saved replacement always answers 200 |
| `Subs.Server.StoreUpload` | server/src/routes/subs.ts:112-119 | an accepted file is written to the store under the generated name and passed on; without a file nothing is written. The table does not change. From a consistent state with a fresh name the state stays consistent and the new file is unreferenced |
| `Subs.Server.UploadRoute` | server/src/routes/subs.ts:175 | a non-owner is stopped (403, or 500 for a missing community or an anonymous caller) with no file written and no state changed; a filtered-out file answers 500 and writes nothing. For an owner: no file and an unknown type answers 400 "Invalid file" with nothing changed; an accepted file and an unknown type answers 400 "Invalid type" after writing and unlinking the file, leaving table and store as they were; a known type and a refused save answers 500 and leaves the written file in the store; a known type and a successful save stores the record with the reference set to the new file (or '' without one); it then answers 200 and unlinks the old file, or answers 500 "Error Occurred." when the old file is missing from the store, and records write, save, unlink in that order. Only the generated file can appear, only for an owner's accepted upload, and it ends up referenced unless the save failed; the invariant is kept |
| `Subs.Server.UploadTwice` | server/src/routes/subs.ts:144-161 | two successive owner uploads of the same kind through the whole route both answer 200; the table changes only in that record, which ends on the second file; the store loses the first file and the one referenced before and gains the second; the invariant is kept |
| `Users.EmailErrors` | server/src/entities/User.ts:11-12 | the email gets "Wrong Format" exactly when the format check fails and "Cannot be empty" exactly when its length is outside [1, 255], and no other message |
| `Users.ValidateUser` | server/src/entities/User.ts:10-23 | the errors are keyed by field; `username` appears exactly when its length is outside [3, 32], with "Username must be more than 3."; `password` exactly when outside [6, 255], with "Password must be more than 6 digits."; `email` exactly when a rule of its own fails; no errors exactly when all rules hold |
| `Users.UserEntity.HashPassword` | server/src/entities/User.ts:31-34 | the password field is replaced by the hash of its previous value and nothing else changes |
| `Users.UserTable.Save` | server/src/entities/User.ts:10-34 | an insert hashes the password once and adds a row exactly when no row holds the same email or username; an update fires no hook and fails on a clash with another row; a failure adds or changes no row; email and username stay unique |
| `Users.UserTable.RegisterThenResave` | server/src/entities/User.ts:31-34 | registering and then saving the same entity again stores the plaintext hashed exactly once, and the registration succeeds exactly when email and username are both new |
| `Scenario.AliceAndBob` | server/src/routes/subs.ts:173-175 | alice's credentials pass the field rules and her row stores the hash of her password; her community 'science' is created; bob's banner upload to it answers 403 and writes nothing; alice's upload answers 200 and sets the banner, with nothing to unlink |

## Left out

- `getSub` and `topSubs` (server/src/routes/subs.ts:14-36, 77-93): database queries and listing, outside this core.
- The session middlewares (`userMiddleware`, `authMiddleware`) are not part of this model. The caller is an optional username handed to the guard. An anonymous request that reached the guard would get 500 there; the real route presumably answers 401 earlier.
- Disk storage, random naming and path handling of the upload library (server/src/routes/subs.ts:112-119, 159): the generated name is a parameter. Its freshness (not yet in the store) is a hypothesis of the route's contract.
- The upload library's other failures (a file under an unexpected field name, several files) and the framework's error page are not modelled. The error handler is reduced to a 500 carrying the message.
- Database failures other than a refused save (a failing lookup) are not modelled. The `saveOk` parameter stands for whether a save succeeds.
- Sub.ts and the base entity are not part of this model. The record's columns and the unique, exact-case name key are taken from their use in subs.ts; the user id is `Option<nat>`.
- `Subs.Lower`: lower-cases ASCII letters only, whereas JavaScript's `toLowerCase` and the database's `lower` follow Unicode case mapping.
- `Users.ValidateUser`: lengths count Unicode scalar values. The library's length rule counts surrogate pairs once and skips variation selectors.
- `Users.EmailErrors`: the email's length bound counts Unicode scalar values too, with the same difference from the library's rule.
- bcrypt and the email-format check are function parameters; salting, cost factor and asynchrony are not modelled.
- The register and login handlers, which call the validation and save the entity, are not part of this model.
- Request bodies whose fields are not strings (numbers, arrays) are not modelled; a field is a string or absent.
- Concurrent uploads to one community (last writer wins): concurrency is outside the model.
