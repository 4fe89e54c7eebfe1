# CloudVault core in Dafny

CloudVault is a file-storage dashboard. Its backend has three edge
functions:

- `mongodb-auth` signs users up, logs them in, verifies session tokens and
  logs them out, over the `users` and `sessions` collections.
- `cloudinary-upload` signs upload grants and destroy requests for the
  media host, without handing out the host's secret.
- `mongodb-files` lists, creates, patches and deletes file metadata, scoped
  to the owner named in each request.

In the browser, two stores keep client state and talk to these functions:

- `useAuthStore` holds the signed-in user and token, mirrored in
  `localStorage`.
- `useFileStore` holds the cached file list and the selection.

Three components read the file store: `FileGrid` (folder and search
filtering), `RenameModal` and `FilePreviewModal`.

This project models each of these pieces as a Dafny module.

| module | models |
|---|---|
| `MongoConfig` | the `MONGODB_URI` scheme rewrite shared by both database handlers |
| `Hex`, `AuthServer` | `generateToken`; the auth handler as the class `SessionAuthority` over `seq` collections |
| `StringOrder`, `Decimal`, `UploadAuthorizer` | the signer: the sorted canonical string, `Math.floor(Date.now()/1000).toString()`, and the handler as a function |
| `FilesServer` | the files handler as the class `FileTable`, with the `$set` patch and the newest-first listing as functions |
| `Endpoint` | the outcome of one call to an endpoint, and the message `callAuthFunction` / `callFilesFunction` throw |
| `AuthStore` | `useAuthStore` as the class `AuthCache` with a transition function per action |
| `FileStore` | `useFileStore` as the class `FileCache` with a transition function per action |
| `FileGrid`, `RenameModal`, `FilePreview` | the three components' logic |
| `Base`, `Seqs` | shared values: `Option`, `Result`, JavaScript truthiness, `filter`, subsequences |

Everything the code reaches outside itself is a parameter:

- the clock (`now`, `nowMs`)
- `crypto.randomUUID()` (`newId`) and `crypto.getRandomValues` (`random`)
- the SHA-256 and SHA-1 hex digests
- the media host's answers
- for each client action, the outcome of every endpoint call

Each client action returns the calls it sent, in order, together with the
message of any exception it let escape. A store's class keeps its state in
fields, and each method's `ensures` ties the new state to a pure transition
function. The lemmas are stated about those functions, so properties that
span several actions can be proved. Examples:

- a sign-in survives a reload
- trash then restore gives back the cache
- the client's cached flags agree with what the server stored

A MongoDB collection is a sequence in insertion order:

- `findOne`, `updateOne` and `deleteOne` reach the first matching document.
- An `insertOne` whose `_id` is already taken is the driver's duplicate-key
  exception, reported by the handler's catch-all as a 500. It changes
  nothing.

Some behaviour of the code is easy to misread, and the model keeps it as
written:

- Emails are compared exactly, not case-insensitively.
- Passwords are hashed with one unsalted SHA-256.
- An `update` or `delete` naming another user's file returns
  `{ success: true }` and changes nothing. It is not a 404.
- `uploadFile` does not delete the uploaded blob when the metadata `create`
  fails.
- `permanentlyDeleteFile` destroys the blob before deleting the metadata
  row, and it ignores a failed destroy.

## Model

| member | source | states |
|---|---|---|
| MongoConfig.NormaliseUri | supabase/functions/mongodb-files/index.ts:9-13 | a non-empty URI ends up with one of the two accepted schemes; a URI that already has one is untouched; the empty string stays empty (it is falsy) |
| MongoConfig.LoadUri | supabase/functions/mongodb-auth/index.ts:10-15 | the handler is configured exactly when the environment value is truthy, and a configured URI has an accepted scheme |
| MongoConfig.NormaliseIdempotent | supabase/functions/mongodb-auth/index.ts:13-15 | applying the rewrite twice is applying it once |
| MongoConfig.NormaliseKeepsText | supabase/functions/mongodb-auth/index.ts:13-15 | a value without a scheme gains exactly the prefix `mongodb+srv://`, followed by all of its own text |
| Hex.Encode | supabase/functions/mongodb-auth/index.ts:25 | the hex rendering has two lowercase hex digits per byte |
| Hex.Radix16 | supabase/functions/mongodb-auth/index.ts:25 | `toString(16)` of a byte is one hex digit below 16 and two otherwise, with no leading zero, and its digits read back as the byte |
| Hex.PadStart2 | supabase/functions/mongodb-auth/index.ts:25 | `padStart(2, "0")` leaves two or more characters alone and otherwise puts zeros in front until there are two |
| Hex.EncodeByte | supabase/functions/mongodb-auth/index.ts:25 | the padded rendering of a byte is always its high digit followed by its low digit |
| Hex.DecodeEncode | supabase/functions/mongodb-auth/index.ts:25 | decoding the hex rendering gives back the bytes |
| Hex.EncodeDecode | supabase/functions/mongodb-auth/index.ts:25 | a string that decodes is the rendering of what it decodes to |
| Hex.EncodeInjective | supabase/functions/mongodb-auth/index.ts:25 | distinct byte strings render as distinct hex strings |
| AuthServer.GenerateToken | supabase/functions/mongodb-auth/index.ts:22-26 | a token is 64 lowercase hex characters that decode to the 32 random bytes |
| AuthServer.TokensDiffer | supabase/functions/mongodb-auth/index.ts:22-26 | different random bytes never give the same token |
| AuthServer.FindEmail | supabase/functions/mongodb-auth/index.ts:52 | `findOne({ email })` finds the first user with exactly that email, or none when no user has it |
| AuthServer.FindId | supabase/functions/mongodb-auth/index.ts:125 | `findOne({ _id })` finds the first user with that id, or none |
| AuthServer.FindLive | supabase/functions/mongodb-auth/index.ts:117 | the session found has the token and expires strictly after now; none is found exactly when no session is live for the token |
| AuthServer.FindToken | supabase/functions/mongodb-auth/index.ts:142 | the session `deleteOne({ token })` reaches: the first with that token |
| AuthServer.SignedUp | supabase/functions/mongodb-auth/index.ts:51-88 | signup only appends: a user is added exactly when a token is issued, and then one session owned by the new user carries that token; a refused signup changes nothing |
| AuthServer.LoggedIn | supabase/functions/mongodb-auth/index.ts:90-114 | login only appends: one session is added exactly when a token is issued, owned by the answered user and carrying the token; otherwise the reply is the 401 and nothing changes |
| AuthServer.VerifyReply | supabase/functions/mongodb-auth/index.ts:116-139 | 401 exactly when no live session carries the token; otherwise, for the first live session, 404 exactly when no user has its owner's id, and else the public profile of the first user with that id |
| AuthServer.RemoveToken | supabase/functions/mongodb-auth/index.ts:142 | nothing changes when no session has the token; otherwise exactly one copy of the first session with the token goes, every other session stays with its multiplicity, and the order is kept |
| AuthServer.SessionAuthority.constructor | supabase/functions/mongodb-auth/index.ts:10-16 | the authority starts from the rewritten URI and the given collections |
| AuthServer.SessionAuthority.Signup | supabase/functions/mongodb-auth/index.ts:51-88 | 400 and nothing changes when the email is taken; a 500 and no change when the new id is taken; otherwise one user (password stored hashed, no avatar) and one seven-day session are appended, and the public user with the token is returned |
| AuthServer.SessionAuthority.Login | supabase/functions/mongodb-auth/index.ts:90-114 | the same 401 for an unknown email and for a wrong password, with sessions unchanged; otherwise one seven-day session for that user is appended and returned with the public user |
| AuthServer.SessionAuthority.Verify | supabase/functions/mongodb-auth/index.ts:116-139 | answers `VerifyReply` on the current collections and changes nothing |
| AuthServer.SessionAuthority.Logout | supabase/functions/mongodb-auth/index.ts:141-147 | removes the first session with the token, if any, and always answers success |
| AuthServer.SessionAuthority.Handle | supabase/functions/mongodb-auth/index.ts:28-154 | 500 when unconfigured, before anything else; dispatch on `action`; 400 and no change for an unknown action |
| AuthServer.SignupKeepsEmailsUnique | supabase/functions/mongodb-auth/index.ts:51-79 | a signup never creates a second user with an email already taken |
| AuthServer.SignupThenVerify | supabase/functions/mongodb-auth/index.ts:60-88 | the token a signup returns verifies, until it expires, as the user the signup created |
| AuthServer.LoginThenVerify | supabase/functions/mongodb-auth/index.ts:99-113 | the token a login returns verifies, until it expires, as the user who logged in |
| AuthServer.LoginFailureHidesExistence | supabase/functions/mongodb-auth/index.ts:91-97 | when no user with the email has that password hash, the reply is the one 401 message and no session is added, whether or not the email exists |
| AuthServer.LogoutThenVerify | supabase/functions/mongodb-auth/index.ts:141-147 | after logout, a token that named at most one session no longer verifies |
| AuthServer.LogoutIdempotent | supabase/functions/mongodb-auth/index.ts:141-147 | a second logout with the same token changes nothing more |
| AuthServer.VerifyIgnoresPasswords | supabase/functions/mongodb-auth/index.ts:133-138 | the verify reply depends only on the users' public fields, never on a password hash |
| StringOrder.LessIrreflexive | supabase/functions/cloudinary-upload/index.ts:14 | no string sorts before itself |
| StringOrder.LessTransitive | supabase/functions/cloudinary-upload/index.ts:14 | the default string order is transitive |
| StringOrder.LessTotal | supabase/functions/cloudinary-upload/index.ts:14 | of two different strings, one sorts before the other |
| StringOrder.LessAsymmetric | supabase/functions/cloudinary-upload/index.ts:14 | two strings never each sort before the other |
| StringOrder.Insert | supabase/functions/cloudinary-upload/index.ts:14 | inserting a key adds exactly that key |
| StringOrder.Sort | supabase/functions/cloudinary-upload/index.ts:14 | `keys.sort()` keeps the number of keys and exactly the keys |
| StringOrder.InsertSorted | supabase/functions/cloudinary-upload/index.ts:14 | inserting a new key into strictly ascending keys keeps them strictly ascending |
| StringOrder.SortSorted | supabase/functions/cloudinary-upload/index.ts:14 | distinct keys sort into strictly ascending order |
| StringOrder.SortedUnique | supabase/functions/cloudinary-upload/index.ts:14 | two strictly ascending sequences with the same elements are equal |
| StringOrder.SortPermutationInvariant | supabase/functions/cloudinary-upload/index.ts:14 | distinct keys sort to the same sequence whatever order they came in |
| Decimal.Encode | supabase/functions/cloudinary-upload/index.ts:36 | `toString()` of a number gives decimal digits with no leading zero |
| Decimal.DecodeEncode | supabase/functions/cloudinary-upload/index.ts:36 | the digits read back as the number |
| Decimal.EncodeInjective | supabase/functions/cloudinary-upload/index.ts:36 | distinct numbers render as distinct strings |
| UploadAuthorizer.Keys | supabase/functions/cloudinary-upload/index.ts:14 | `Object.keys` lists the keys in insertion order |
| UploadAuthorizer.Lookup | supabase/functions/cloudinary-upload/index.ts:15 | `params[key]` is a value stored under that key |
| UploadAuthorizer.LookupUnique | supabase/functions/cloudinary-upload/index.ts:15 | in an object the value looked up is the only one stored under the key |
| UploadAuthorizer.RenderAgrees | supabase/functions/cloudinary-upload/index.ts:15 | two objects that agree on the keys render those keys identically |
| UploadAuthorizer.StringToSignPermutationInvariant | supabase/functions/cloudinary-upload/index.ts:13-16 | the canonical string, and so the signature, does not depend on the order in which parameters were inserted |
| UploadAuthorizer.SignPermutationInvariant | supabase/functions/cloudinary-upload/index.ts:13-17 | `generateSignature` gives the same digest for two objects with the same entries, whatever their insertion order |
| UploadAuthorizer.Timestamp | supabase/functions/cloudinary-upload/index.ts:36 | the timestamp is all digits and reads back as the time in whole seconds |
| UploadAuthorizer.TwoParamString | supabase/functions/cloudinary-upload/index.ts:13-15 | two parameters whose keys are in order sign `k1=v1&k2=v2` |
| UploadAuthorizer.UploadStringToSign | supabase/functions/cloudinary-upload/index.ts:37-44 | an upload grant signs `folder=<folder>&timestamp=<timestamp>` |
| UploadAuthorizer.DestroyStringToSign | supabase/functions/cloudinary-upload/index.ts:59-66 | a destroy request signs `public_id=<id>&timestamp=<timestamp>` |
| UploadAuthorizer.Handle | supabase/functions/cloudinary-upload/index.ts:19-91 | 500 unless all three credentials are truthy; `get_signature` grants the SHA-1 of the canonical string plus the secret, with the timestamp, key, cloud and the folder `cloudvault/<user>`; `delete` posts the signed form to the cloud's `image/destroy` URL and passes the answer back, or a 500; any other action is a 400 |
| UploadAuthorizer.SecretOnlyInSignature | supabase/functions/cloudinary-upload/index.ts:46-55 | the secret reaches a reply only through its signature: two secrets give replies equal in everything else |
| UploadAuthorizer.GrantVerifies | supabase/functions/cloudinary-upload/index.ts:35-55 | the host, re-signing the folder and timestamp it receives in either order, gets the grant's signature |
| UploadAuthorizer.UploadStringInjective | supabase/functions/cloudinary-upload/index.ts:37-44 | the signed string determines the folder and the timestamp, so a grant with either changed signs a different string |
| FilesServer.NewDoc | supabase/functions/mongodb-files/index.ts:46-61 | a created document carries the request's fields, is neither starred nor in the trash, has no deletion time, and has both times set to now |
| FilesServer.ApplyPatch | supabase/functions/mongodb-files/index.ts:71-77 | the name becomes a truthy new name and is otherwise kept; the star becomes the given flag or is kept; a given trash flag is set, with the deletion time now when true and cleared when false, and with no flag both are kept; `updated_at` becomes now and no other field changes; "in trash exactly when stamped with a deletion time" is kept |
| FilesServer.TrashThenRestore | supabase/functions/mongodb-files/index.ts:74-77 | trashing then restoring a document gives it back, apart from `updated_at` |
| FilesServer.StarTwice | supabase/functions/mongodb-files/index.ts:73 | setting the negated star twice gives the document back, apart from `updated_at` |
| FilesServer.FalsyNameKept | supabase/functions/mongodb-files/index.ts:72 | an empty or absent new name leaves the name as it was |
| FilesServer.FindOwned | supabase/functions/mongodb-files/index.ts:79-87 | the filter `{ _id, user_id }` matches the first document with both, or none when none has both |
| FilesServer.InsertByDate | supabase/functions/mongodb-files/index.ts:38 | inserting a document adds exactly that document |
| FilesServer.InsertByDateSorted | supabase/functions/mongodb-files/index.ts:38 | inserting into a newest-first list keeps it newest first |
| FilesServer.SortNewestFirst | supabase/functions/mongodb-files/index.ts:38 | the sort is a permutation |
| FilesServer.SortNewestFirstSorted | supabase/functions/mongodb-files/index.ts:38 | the sort yields non-increasing `created_at` |
| FilesServer.Listing | supabase/functions/mongodb-files/index.ts:38 | the `list` reply holds exactly the owner's documents, each as many times as stored, newest first |
| FilesServer.Updated | supabase/functions/mongodb-files/index.ts:79 | `updateOne` patches only the first document matching both id and owner; no other document, id or owner changes |
| FilesServer.Deleted | supabase/functions/mongodb-files/index.ts:87 | `deleteOne` changes nothing when no document matches both id and owner; otherwise exactly one copy of the first match goes, every other document (the owner's included) stays with its multiplicity, and the order is kept |
| FilesServer.FileTable.constructor | supabase/functions/mongodb-files/index.ts:9-13 | the table starts from the rewritten URI and the given collection |
| FilesServer.FileTable.List | supabase/functions/mongodb-files/index.ts:37-43 | answers `Listing` and changes nothing |
| FilesServer.FileTable.Create | supabase/functions/mongodb-files/index.ts:45-68 | appends the new document and returns it; a 500 without change when the `_id` is already taken |
| FilesServer.FileTable.Update | supabase/functions/mongodb-files/index.ts:70-84 | the collection becomes `Updated(...)` and the reply is success, whether or not anything matched |
| FilesServer.FileTable.Delete | supabase/functions/mongodb-files/index.ts:86-92 | the collection becomes `Deleted(...)` and the reply is success, whether or not anything matched |
| FilesServer.FileTable.Handle | supabase/functions/mongodb-files/index.ts:15-98 | 500 when unconfigured; dispatch on `action`; a `create` without `file_data` is a 500 with no change; any other action is a 400 with no change; unique ids and trash consistency are kept |
| FilesServer.UpdateKeepsOtherListings | supabase/functions/mongodb-files/index.ts:79 | an update in one user's name leaves every other user's listing unchanged |
| FilesServer.DeleteKeepsOtherListings | supabase/functions/mongodb-files/index.ts:87 | a delete in one user's name leaves every other user's listing unchanged |
| FilesServer.UpdateByStrangerIsNoop | supabase/functions/mongodb-files/index.ts:79-87 | an update or delete naming a file that the requesting user does not own changes nothing |
| FilesServer.DeleteThenList | supabase/functions/mongodb-files/index.ts:86-92 | after the owner deletes a file, the owner's listing no longer shows its id |
| FilesServer.CreateThenList | supabase/functions/mongodb-files/index.ts:45-63 | a created document appears, unmodified, in its owner's listing |
| Endpoint.Thrown | src/store/fileStore.ts:55-57 | the thrown message is the endpoint's error when that is truthy, `Request failed` otherwise, and is never empty |
| AuthStore.Initial | src/store/authStore.ts:41-45 | a page load starts with no user, no token, signed out and loading, with the stored token as it is |
| AuthStore.InitializeCall | src/store/authStore.ts:47-56 | `initialize` sends a `verify` of the stored token exactly when that token is truthy |
| AuthStore.Initialized | src/store/authStore.ts:47-67 | with no truthy stored token only loading stops; an accepted token signs in as the answered user with that token; a refused token is removed from storage and the user, token and signed-in flag stay as they were; loading always stops |
| AuthStore.SignedIn | src/store/authStore.ts:69-101 | an accepted login or signup stores the token and signs in as the returned user, leaving the loading flag alone, and returns no error; a refused one changes nothing and returns the thrown message |
| AuthStore.LogoutCall | src/store/authStore.ts:103-112 | `logout` sends a `logout` call exactly when the token is truthy |
| AuthStore.LoggedOut | src/store/authStore.ts:103-120 | `logout` clears the user, the token and storage whatever the endpoint answered, and leaves the loading flag alone |
| AuthStore.AuthCache.constructor | src/store/authStore.ts:41-45 | the store starts in `Initial` over the persisted token |
| AuthStore.AuthCache.Initialize | src/store/authStore.ts:47-67 | sends `InitializeCall` and moves to `Initialized` |
| AuthStore.AuthCache.SignInWith | src/store/authStore.ts:69-84 | moves to `SignedIn` and returns its error |
| AuthStore.AuthCache.LogIn | src/store/authStore.ts:69-84 | sends `login` with the credentials and moves to `SignedIn` |
| AuthStore.AuthCache.SignUp | src/store/authStore.ts:86-101 | sends `signup` with the name and credentials and moves to `SignedIn` |
| AuthStore.AuthCache.LogOut | src/store/authStore.ts:103-120 | sends `LogoutCall` and moves to `LoggedOut` |
| AuthStore.SignInSurvivesReload | src/store/authStore.ts:73 | after a sign-in, the next page load verifies the issued token |
| AuthStore.ReloadRestoresSession | src/store/authStore.ts:47-67 | that reload, when the endpoint accepts the token, ends signed in with the token and the verified user |
| AuthStore.RefusedTokenForgotten | src/store/authStore.ts:63-66 | a token the endpoint refused is forgotten: the next page load sends nothing and stays signed out |
| AuthStore.LogoutIdempotent | src/store/authStore.ts:103-120 | logging out twice is logging out once, and the second time sends nothing |
| AuthStore.LogoutSurvivesReload | src/store/authStore.ts:114 | after a logout, the next page load sends nothing |
| FileStore.GetFileType | src/store/fileStore.ts:78-82 | `image/` types are images and `video/` types are videos, each exactly; everything else is a document, never a folder |
| FileStore.ResourceTypeMatchesFileType | src/store/fileStore.ts:145-146 | the upload URL's resource type agrees with the type the grid shows the file as, despite the reversed tests |
| FileStore.ResourceType | src/store/fileStore.ts:145-146 | the upload's resource type is `video` exactly for `video/` types, `image` exactly for `image/` types, and `raw` for everything else |
| FileStore.HostUploadUrl | src/store/fileStore.ts:148-151 | the upload goes to the host's API under the grant's cloud and the resource type, at its `/upload` endpoint, with nothing in between |
| FileStore.RequestsAreHandled | src/store/fileStore.ts:106-262 | every request the store sends to the files endpoint names an action the endpoint handles and the store's user; a `create` always carries its `file_data`; `update` and `delete` name the file |
| FileStore.FromDoc | src/store/fileStore.ts:108-121 | a listed document becomes an item with the same id, owner and name, its MIME type's kind, its star and trash flags, and its original name, byte size, creation time, thumbnail, blob id and blob URL carried over unchanged |
| FileStore.FindItem | src/store/fileStore.ts:179 | `files.find` by id finds the first item with the id, or none |
| FileStore.UpdateWhere | src/store/fileStore.ts:190 | the `map` changes every item with the id and keeps every other item |
| FileStore.Fetched | src/store/fileStore.ts:102-128 | sends one `list`; on success the cache becomes the mapped listing in order; on failure only loading ends; nothing is thrown |
| FileStore.Metadata | src/store/fileStore.ts:160-172 | the recorded name, original name, size and MIME type are the local file's; the blob's id and URL are the host's; the thumbnail is the host's thumbnail when truthy, else the secure URL |
| FileStore.Uploaded | src/store/fileStore.ts:130-176 | sends the grant request first, then the host upload with the grant's fields to the cloud's URL for the file's resource type, then the `create`, then the refresh's `list`; a refused grant throws its message after one call, a failed upload throws `Cloudinary upload failed` after two, a refused `create` throws its message after three; any failure leaves the cache unchanged |
| FileStore.UploadedFileListed | src/store/fileStore.ts:158-175 | an uploaded file, once recorded and listed again, is cached under its own name, size and kind, live and unstarred, with the host's blob id, URL and thumbnail |
| FileStore.AfterUpdate | src/store/fileStore.ts:178-266 | a missing id sends nothing; otherwise one `update` in the owner's name; on success every item with the id changes and nothing is thrown; on failure nothing changes and the endpoint's message escapes |
| FileStore.Trashed | src/store/fileStore.ts:178-192 | `deleteFile` sends `is_deleted: true` in the owner's name and, once accepted, marks every item with the id deleted and changes nothing else |
| FileStore.Restored | src/store/fileStore.ts:194-208 | `restoreFile` sends `is_deleted: false` in the owner's name and, once accepted, marks every item with the id not deleted and changes nothing else |
| FileStore.Renamed | src/store/fileStore.ts:236-250 | `renameFile` sends the new name in the owner's name and, once accepted, renames every item with the id and changes nothing else |
| FileStore.Starred | src/store/fileStore.ts:252-266 | `toggleStar` sends the negated flag in the owner's name and, once accepted, caches it on every item with the id and changes nothing else |
| FileStore.Purged | src/store/fileStore.ts:210-234 | sends the destroy request, then the `delete` in the owner's name; on success drops every item with the id and keeps every other item, with its multiplicity, in order; the selection and loading flag never change; a refused `delete` changes nothing and its message escapes; a refused destroy is ignored |
| FileStore.Toggle | src/store/fileStore.ts:282-287 | an unselected id is appended at the end; a selected id is removed with the rest kept in order; every copy of every other id is kept, and a selection without repeats stays so |
| FileStore.ToggleTwice | src/store/fileStore.ts:282-287 | selecting an unselected file twice gives the selection back |
| FileStore.TrashThenRestore | src/store/fileStore.ts:178-208 | trashing then restoring a file that was not in the trash gives the cache back |
| FileStore.StarTwice | src/store/fileStore.ts:252-266 | starring with the current flag and then with the flag it cached gives the cache back |
| FileStore.FlagsAgreeWithServer | src/store/fileStore.ts:189-191 | the cached trash or star change equals what a re-listing of the server's patched document shows |
| FileStore.RenameAgreesWithServer | src/store/fileStore.ts:247-249 | a rename to a non-empty name caches what the server stored |
| FileStore.EmptyRenameDiverges | src/store/fileStore.ts:236-250 | a rename to the empty name caches a name that the server did not store |
| FileStore.RefreshShowsOwnFiles | src/store/fileStore.ts:102-123 | a refresh from the files endpoint shows only the user's files, newest first |
| FileStore.UploadFormVerifies | src/store/fileStore.ts:137-143 | the form an upload posts, built from a signer grant, carries the user's folder, and the host's re-signing of it matches the signature |
| FileStore.FileCache.constructor | src/store/fileStore.ts:92-98 | the store starts empty and not loading |
| FileStore.FileCache.FetchFiles | src/store/fileStore.ts:102-128 | the new state and calls are `Fetched`'s |
| FileStore.FileCache.UploadFile | src/store/fileStore.ts:130-176 | the new state, calls and exception are `Uploaded`'s |
| FileStore.FileCache.Update | src/store/fileStore.ts:178-266 | the new state, calls and exception are `AfterUpdate`'s |
| FileStore.FileCache.DeleteFile | src/store/fileStore.ts:178-192 | moves the file to the trash as `AfterUpdate` with `is_deleted: true` |
| FileStore.FileCache.RestoreFile | src/store/fileStore.ts:194-208 | takes the file out of the trash as `AfterUpdate` with `is_deleted: false` |
| FileStore.FileCache.RenameFile | src/store/fileStore.ts:236-250 | sends `new_name` and caches the name as given |
| FileStore.FileCache.ToggleStar | src/store/fileStore.ts:252-266 | sends and caches the negation of the flag passed in |
| FileStore.FileCache.PermanentlyDeleteFile | src/store/fileStore.ts:210-234 | the new state, calls and exception are `Purged`'s |
| FileStore.FileCache.SelectFile | src/store/fileStore.ts:282-287 | the selection becomes `Toggle`'s; nothing else changes |
| FileStore.FileCache.ClearSelection | src/store/fileStore.ts:289 | the selection empties; nothing else changes |
| FileGrid.LowerChar | src/components/dashboard/FileGrid.tsx:40 | an upper-case letter maps to its lower-case form, every other character to itself |
| FileGrid.Lower | src/components/dashboard/FileGrid.tsx:40 | `toLowerCase` maps each character and keeps the length |
| FileGrid.LowerIdempotent | src/components/dashboard/FileGrid.tsx:40 | lower-casing twice is lower-casing once |
| FileGrid.ContainsAt | src/components/dashboard/FileGrid.tsx:40 | `includes` holds exactly when the query occurs at some position of the name |
| FileGrid.ContainsEmpty | src/components/dashboard/FileGrid.tsx:38-42 | every name contains the empty query |
| FileGrid.InFolder | src/components/dashboard/FileGrid.tsx:17-35 | `images`, `videos` and `documents` show exactly the live files of that type, `starred` exactly the live starred files, the trash exactly the deleted files, and any other folder exactly the live ones |
| FileGrid.Matches | src/components/dashboard/FileGrid.tsx:38-42 | a file matches exactly when the lower-cased query occurs somewhere in its lower-cased name |
| FileGrid.FilteredFiles | src/components/dashboard/FileGrid.tsx:13-45 | the shown files keep the cached order; each is in the folder and matches a non-empty query; every cached file in the folder that matches is shown |
| FileGrid.FilteredFilesCounts | src/components/dashboard/FileGrid.tsx:17-42 | every copy of a file the folder and the search let through is shown, and no copy of any other |
| FileGrid.FolderTitle | src/components/dashboard/FileGrid.tsx:47-62 | `images`, `videos`, `documents`, `starred` and `trash` are titled `Images`, `Videos`, `Documents`, `Starred` and `Trash`, each exactly, and every other folder `All Files` |
| FileGrid.TrashSeparate | src/components/dashboard/FileGrid.tsx:17-35 | no file is shown both in the trash and in another folder |
| FileGrid.UploadShownInItsFolder | src/components/dashboard/FileGrid.tsx:17-35 | a freshly uploaded file is shown under `all`, not in the trash or starred, and under `images`, `videos` or `documents` exactly as its MIME type says |
| FileGrid.FolderInsideAll | src/components/dashboard/FileGrid.tsx:17-35 | every folder but the trash shows part of what `all` shows, in the same order |
| FileGrid.EmptyQueryKeepsFolder | src/components/dashboard/FileGrid.tsx:38 | an empty search leaves the folder's selection as it is |
| FileGrid.SearchIgnoresCase | src/components/dashboard/FileGrid.tsx:40 | the search ignores the case of the query |
| FilePreview.CurrentIndex | src/components/dashboard/FilePreviewModal.tsx:20 | `findIndex` gives the first position with the file's id, or -1 exactly when the id is absent |
| FilePreview.PrevTarget | src/components/dashboard/FilePreviewModal.tsx:121-128 | the left arrow navigates to the file just before the first file carrying the previewed id |
| FilePreview.NextTarget | src/components/dashboard/FilePreviewModal.tsx:129-136 | the right arrow navigates to the file just after the first file carrying the previewed id, or to the first file when no file carries it |
| FilePreview.ArrowsInBounds | src/components/dashboard/FilePreviewModal.tsx:21-22 | a shown arrow always points inside the list |
| FilePreview.MissingFileNavigatesToFirst | src/components/dashboard/FilePreviewModal.tsx:20-22 | for a file missing from a non-empty list there is no left arrow, and the right arrow leads to the first file |
| FilePreview.NextThenPrev | src/components/dashboard/FilePreviewModal.tsx:121-136 | in a list without repeated ids, right then left comes back to the same file |
| FilePreview.PrevThenNext | src/components/dashboard/FilePreviewModal.tsx:121-136 | in a list without repeated ids, left then right comes back to the same file |
| FilePreview.StarArgument | src/components/dashboard/FilePreviewModal.tsx:43 | the flag passed to `toggleStar` is the stored `is_starred` of a file fetched from the files endpoint, and false when the flag is undefined |
| FilePreview.StarButtonFlips | src/components/dashboard/FilePreviewModal.tsx:42-44 | once accepted, the star button caches the opposite of what the file showed |
| RenameModal.TrimStart | src/components/dashboard/RenameModal.tsx:26 | removes exactly the leading white space |
| RenameModal.TrimEnd | src/components/dashboard/RenameModal.tsx:26 | removes exactly the trailing white space |
| RenameModal.Trim | src/components/dashboard/RenameModal.tsx:26 | the trimmed name occurs in the text, has no white space at either end, and is empty exactly when the text is all white space |
| RenameModal.TrimCutsOnlySpace | src/components/dashboard/RenameModal.tsx:26 | the trimmed name sits at some position of the text, and everything before and after it there is white space |
| RenameModal.TrimmedIsFixed | src/components/dashboard/RenameModal.tsx:26 | text with no surrounding white space is its own trim |
| RenameModal.TrimIdempotent | src/components/dashboard/RenameModal.tsx:26-27 | trimming twice is trimming once |
| RenameModal.RenameRequest | src/components/dashboard/RenameModal.tsx:25-31 | a rename is sent exactly when there is a file and the trimmed name is not blank, and it sends the file's id and the trimmed name |
| RenameModal.ButtonDisabledExactly | src/components/dashboard/RenameModal.tsx:79-82 | the Rename button (`disabled` at line 81) is disabled exactly when a submission would send nothing or the name is unchanged; an enabled button submits the file's id with the trimmed name, and the typed name differs from the file's |
| RenameModal.SubmittedRenameAgreesWithServer | src/components/dashboard/RenameModal.tsx:26-27 | a name the dialog submits is never empty, so the cached name agrees with the stored one |
| RenameModal.EnterSubmitsUnchangedName | src/components/dashboard/RenameModal.tsx:71-81 | Enter submits the unchanged name, which the disabled button would not |
| RenameModal.LeadingSpaceTrimmed | src/components/dashboard/RenameModal.tsx:26 | trimming undoes one leading space typed before a name with no surrounding white space |
| RenameModal.PaddedNameSubmitsSameName | src/components/dashboard/RenameModal.tsx:81 | for any name with no surrounding white space, the button is enabled when a leading space is typed before it, and then submits the unchanged name |
| RenameModal.RenameDialog.constructor | src/components/dashboard/RenameModal.tsx:15 | the dialog starts with no file and an empty edit box |
| RenameModal.RenameDialog.Show | src/components/dashboard/RenameModal.tsx:19-23 | a new file seeds the edit box with its name; no file leaves the box as it was |
| RenameModal.RenameDialog.Edit | src/components/dashboard/RenameModal.tsx:67 | typing replaces the edit box's text |
| RenameModal.RenameDialog.HandleRename | src/components/dashboard/RenameModal.tsx:25-31 | sends `RenameRequest`, and a submission closes the dialog |
| RenameModal.RenameDialog.KeyDown | src/components/dashboard/RenameModal.tsx:71 | Enter acts as `handleRename`; any other key does nothing |
| RenameModal.RenameDialog.ClickRename | src/components/dashboard/RenameModal.tsx:79-82 | a disabled button does nothing; an enabled one always submits |

## Left out

- Transport is not modelled: HTTP, CORS preflight, JSON parsing, status-to-exception mapping beyond `Thrown`, and connection handling. A malformed body, or a `response.json()` that fails, is not modelled either.
- Exception texts from the database driver and the network are the model's own constants (`DuplicateKey`, `MissingFileData`), because the real texts come from code outside the repository.
- SHA-256, SHA-1, `crypto.randomUUID`, `crypto.getRandomValues` and the clock are parameters; their internals are not modelled.
- UploadAuthorizer.Handle: request fields the body leaves out are modelled as empty strings. In JavaScript they are `undefined`, and the template strings then hold the text `undefined`: a `get_signature` without `user_id` grants the folder `cloudvault/undefined`, and a `delete` without `public_id` signs `public_id=undefined`. The file list's permanent delete (`src/components/dashboard/FileListItem.tsx:50`) sends no public id, so that case is reachable but not modelled.
- FilesServer.FileTable.Handle: request fields the body leaves out are modelled as empty strings or absent values, not `undefined`. A query on an undefined `user_id` or `file_id` is not modelled.
- AuthServer.SessionAuthority.Handle: request fields the body leaves out are modelled as empty strings, not `undefined`. A signup with an undefined email or password is therefore not modelled.
- FilesServer.FileTable.Handle: `is_starred` and `is_deleted` are booleans or absent. Other JSON values stored by the `$set` are not modelled.
- FilesServer.SortNewestFirst: documents with equal `created_at` keep their stored order. The database does not promise any tie order.
- StringOrder.Sort: compares by Dafny character code points. JavaScript's default sort compares UTF-16 code units, which differs only for characters outside the Basic Multilingual Plane.
- FileGrid.Lower: lower-cases ASCII letters only. The full Unicode case mapping of `toLowerCase` is not modelled.
- FileStore.FromDoc: keeps the size in bytes and the creation time as numbers. `formatFileSize` and the date-string formatting are display formatting and are not modelled.
- FileStore.Purged: the signer's answer to the destroy request is not a parameter, because the store catches and only logs its failure.
- `downloadFile`, and the preview's `handleDownload` and `handleShare`, use the browser's blob, DOM and clipboard APIs, which are not modelled.
- `setViewMode`, `setCurrentFolder`, `setSearchQuery` and `setFiles` are plain field assignments. `FileGrid.FilteredFiles` takes the folder and the query as parameters instead.
- The UI rendering, toasts and animations of the three components are not modelled. Concurrent requests and their interleavings are not modelled either.
