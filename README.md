# GamesField back end: catalog and accounts core

A Dafny model of the back end of a small catalog web application. Users register
and log in; signed-in users create listings ("games"), edit and delete their own,
and like other listings; the home routes show a listing's details, a user's
profile and the five most played listings.

The model covers:

- `src/services/data.js`, the catalog service, as the class `DataService.Catalog`
  over the listing collection (`records`, in natural order) for `create`,
  `update`, `interact` and `deleteById`, and as functions of the collection for
  the read-only queries `getAll`, `getById`, `getByIdKey` and `getTopFivePlayed`.
- `src/services/user.js`, the user service, as the class `UserService.Accounts`
  over the user collection for `register`, and as functions of the collection for
  `login` and `getUserById`. bcrypt is the module `Bcrypt`: a digest records its
  cost and salt, and `Compare(p, Hash(p, cost, salt))` holds for exactly the
  password the digest was made from.
- `src/models/Data.js` as `DataModel`: the `Listing` datatype (`likes` a sequence
  of the strings pushed onto it, although the schema declares ObjectId references
  to users; `owner` one user id; `version` the key `__v` Mongoose adds), the
  `^https?://` validator of `image` and `iframeUrl`, the required paths and the
  default `played = 0`.
- `src/models/User.js` as `UserModel`: the `User` datatype, its defaults
  (`picture`, `pictureId`, `lastPlayed`, `myGames`), its required paths, and the
  unique `email` path under the collation `{locale: 'en', strength: 2}`, modelled as
  comparison after folding letter case (`SameEmail`).
- `src/controllers/home.js` as `HomeController`: the values `GET /catalog/:id` and
  `GET /profile` compute, the 404 of `GET /id/:id` and `GET /catalog/:id`, and the
  create, edit, delete and interact handlers, which drive a `Catalog`.

The model follows the code where it differs from what one might expect:

- `interact` appends with `push`; it does not deduplicate (`DataService.LikedCounts`).
- The interact route pushes the user's email, and `hasInteracted` looks for the email.
- `/profile` looks for the user's `firstName` among the likes (see Findings).
- `create` and `update` write `model`, `engine` and `topSpeed`, which the schema
  does not declare, and `create` never writes the required `name`, `genre`, `views`
  and `iframeUrl` (`DataModel.NewListingLacksRequiredPaths`).
- `register` returns the whole saved user, digest included.
- Ownership is compared by id (`record.owner.toString() != userId`); the listing's
  interactors are a list, not a set.

ObjectIds are natural numbers; each store hands out the next unused one from a
counter (`nextId`), so every stored id is below it and ids stay unique. The random
salt of `bcrypt.hash` is an input of `Register`. The validation result of the
express-validator chains is an input of the handlers (`validationErrors`).

## Model

| member | source | states |
|---|---|---|
| `DataService.Catalog.Create` | src/services/data.js:29-45 | the new record has the body's fields, `likes == []`, `owner == authorId`, `played == 0` and an id not in the store; the store gains exactly that record at its end |
| `DataService.Catalog.Update` | src/services/data.js:47-69 | a missing id fails with "Record not found" and a non-owner with "Access denied", both leaving the store unchanged; the owner's call replaces exactly `model`, `manufacturer`, `engine`, `topSpeed`, `image`, `description` of that record and nothing else |
| `DataService.Revised` | src/services/data.js:59-64 | the six body fields are replaced; `id`, `owner`, `likes`, `played`, `name`, `genre`, `views`, `iframeUrl` and the version `__v` are kept |
| `DataService.Catalog.Interact` | src/services/data.js:71-84 | a missing id fails with nothing changed; a list name other than `likes` fails (the `TypeError` of `push`) with nothing changed; otherwise `userId` is appended to that record's likes and no other record changes |
| `DataService.LikedCounts` | src/services/data.js:79 | an interaction adds one entry, adds one occurrence of the user even when already present (no deduplication), and leaves every other entry's count unchanged |
| `DataService.Liked` | src/services/data.js:79-81 | the likes become the old likes plus the user at the end, the saved `$push` raises `__v` by one, and every other field is kept |
| `DataService.Catalog.DeleteById` | src/services/data.js:86-97 | a missing id fails; a non-owner fails with the record still present; the owner's call removes exactly that record, keeps the others in order, and the id is then absent |
| `DataService.RemoveAtDeletesOnlyId` | src/services/data.js:96 | after removal the id is not found, every other stored listing is still stored, and nothing new appears |
| `DataService.RemoveAt` | src/services/data.js:96 | the listings before the position stay, the ones after shift down by one |
| `DataService.GetTopFivePlayed` | src/services/data.js:13-18 | the result has min(5, n) stored listings (a sub-multiset of the store) in non-increasing `played` order, and no listing left out has a larger `played` than the fifth |
| `DataService.SortByPlayed` | src/services/data.js:15 | the sort returns a permutation of its input in non-increasing `played` order |
| `DataService.InsertByPlayedSorted` | src/services/data.js:15 | inserting into a list sorted by `played` keeps it sorted |
| `DataService.InsertByPlayedMultiset` | src/services/data.js:15 | insertion adds exactly the inserted listing and loses none |
| `DataService.InsertByPlayedBounded` | src/services/data.js:15 | insertion brings in no listing above a bound that the list and the new listing respect |
| `DataService.SortedPrefixTop` | src/services/data.js:16 | what the limit leaves out of a sorted list is no larger than the last listing kept |
| `DataService.IndexOf` | src/services/data.js:20-22 | the position found holds a listing with that id; nothing is found iff no listing has it |
| `DataService.GetById` | src/services/data.js:20-22 | a result is a stored listing with that id; none iff no stored listing has that id |
| `DataService.GetByIdFindsStored` | src/services/data.js:20-22 | with unique ids every stored listing is found by its own id |
| `DataService.GetByIdKey` | src/services/data.js:24-27 | none when the listing is missing or the key is not a path; otherwise the value `doc[key]` of the found listing (`PathValue`), so the owner, the likes and `__v` are read back for those keys |
| `DataService.GetAll` | src/services/data.js:5-7 | the result holds exactly the stored listings, as many as are stored |
| `DataService.GetAllAgreesWithGetById` | src/services/data.js:5-22 | in a store with unique ids each listing `getAll` returns is the one `getById` returns for its id |
| `DataModel.PathValue` | src/services/data.js:25-26 | `doc[key]` gives, for each of the fifteen paths (`_id`, the schema paths, `model`, `engine`, `topSpeed`, `__v`), that path's value, nothing for an unset path, and nothing for a name that is not a path |
| `DataModel.NewListing` | src/services/data.js:30-40 | a new document has the body's `model`, `manufacturer`, `engine`, `image`, `description` and `Number(topSpeed)`, the author as owner, empty likes, the default `played` of 0 (src/models/Data.js:22-26), version 0, and no `name`, `genre`, `views` or `iframeUrl` |
| `DataModel.HttpUrl` | src/models/Data.js:31 | the regex `^https?://` accepts a string iff it begins with `http://` or `https://` |
| `DataModel.ImageValid` | src/models/Data.js:27-34 | an unset `image` passes; a set one passes iff it begins with `http://` or `https://` |
| `DataModel.IframeUrlValid` | src/models/Data.js:35-42 | an unset `iframeUrl` passes; a set one passes iff it begins with `http://` or `https://` |
| `DataModel.RequiredPresent` | src/models/Data.js:6-46 | the document passes the `required` checks iff reading each of the eight required paths gives a set value that is not the empty string |
| `DataModel.Conforms` | src/models/Data.js:5-57 | the schema accepts a document iff its required paths are filled and its `image` and `iframeUrl` are set and begin with `http://` or `https://` |
| `DataModel.AfterLiteral` | src/models/Data.js:31 | matching a literal at the start succeeds iff the literal is a prefix, and returns the rest |
| `DataModel.NewListingLacksRequiredPaths` | src/models/Data.js:6-46 | the document `create` builds never has all required paths and never conforms to the schema |
| `UserModel.NewUser` | src/models/User.js:26-43 | a new user keeps the given names, email and digest, with `picture` the fixed icon URL, `pictureId` empty, `lastPlayed` null and `myGames` empty |
| `UserModel.RequiredPresent` | src/models/User.js:6-25 | the user passes the `required` checks iff none of `firstName`, `lastName` and `email` is empty (`password` always holds a digest) |
| `UserModel.SameEmail` | src/models/User.js:44-49 | the collation equates every email with itself and only emails of one length |
| `UserModel.EmailsUnique` | src/models/User.js:16-21 | the unique index holds iff no two distinct stored users, in either order, have emails the collation equates |
| `UserModel.Fold` | src/models/User.js:44-49 | the collation key has the string's length and folds each character's letter case |
| `UserModel.SameEmailIff` | src/models/User.js:16-21 | two emails are the same under the collation iff they have one length and differ at most in letter case |
| `UserModel.FoldCharIff` | src/models/User.js:44-49 | two characters fold alike iff they are equal or the two cases of one letter |
| `UserService.FindByIdentity` | src/services/user.js:9 | the first user whose email matches the identity under the collation; none iff no user matches |
| `UserService.Message` | src/services/user.js:5-44 | the two thrown messages are "This email is already in use" and "Incorrect email or password" |
| `UserService.Accounts.Register` | src/services/user.js:7-32 | an identity already present (under the collation) fails with "already in use" and adds no user; otherwise exactly one user is appended, with the given names, `email = identity`, `password = Hash(password, 10, salt)` (a digest, not the password string), and logging in with that identity and password then returns it; emails stay unique |
| `UserService.Registered` | src/services/user.js:15-20 | the new user has the identity as `email`, the given names, the schema defaults, and a digest of cost 10 with the drawn salt that accepts the password |
| `UserService.AppendNewIdentityUnique` | src/models/User.js:16-21 | appending a user whose identity matches no stored email keeps the unique-email invariant |
| `UserService.RegisteredRequiredIff` | src/models/User.js:6-25 | the saved user has all required paths iff the first name, last name and identity are not empty |
| `UserService.Login` | src/services/user.js:34-50 | every failure is "Incorrect email or password"; a success is a stored user whose email matches the identity and whose digest accepts the password; an unknown identity always fails; the store is not changed |
| `UserService.LoginSucceedsIff` | src/services/user.js:34-50 | with unique emails, login succeeds iff some stored user has that identity and a digest accepting the password |
| `UserService.LoginFailuresAlike` | src/services/user.js:37-45 | an unknown identity and a known identity with a wrong password give the same failure |
| `UserService.LoginAfterRegister` | src/services/user.js:15-49 | after registering a new identity, logging in with it (in any letter case) and the same password returns the new user |
| `UserService.LoginAfterRegisterRejectsOthers` | src/services/user.js:19-45 | after registering a new identity, logging in with it and any other password fails with "Incorrect email or password" |
| `UserService.GetUserById` | src/services/user.js:52-54 | a result is the stored user with that id; none iff no user has it |
| `Bcrypt.Hash` | src/services/user.js:19 | the digest records the cost it was asked for and the salt drawn |
| `Bcrypt.Compare` | src/services/user.js:41 | a digest made from a password accepts that password and no other |
| `Bcrypt.CompareAcceptsOwnHash` | src/services/user.js:19 | a digest accepts the password it was made from |
| `Bcrypt.CompareRejectsOthers` | src/services/user.js:41 | a digest accepts no other password |
| `HomeController.CatalogDetails` | src/controllers/home.js:76-100 | 404 iff `getById` finds nothing; a server error iff the owner is not a stored user; otherwise `interactionCount` is the number of likes, `interactorsNames` the likes joined with ", ", `isAuthor` holds iff a user is signed in and their id is the owner, `hasInteracted` iff the signed-in user's (non-empty) email is among the likes, and `username` is the owner's first name |
| `HomeController.IsAuthor` | src/controllers/home.js:91 | true iff a user is signed in and their id is the listing's owner |
| `HomeController.Join` | src/controllers/home.js:85 | no likes give the empty text, one like gives itself, and otherwise the text starts with the first like |
| `HomeController.HasInteracted` | src/controllers/home.js:93 | true iff a user is signed in, their email is not empty and it is among the likes |
| `HomeController.FindEqual` | src/controllers/home.js:93 | `find` returns an entry iff the key is among the likes, and that entry is the key |
| `HomeController.JoinAppend` | src/controllers/home.js:85 | joining one more name adds the separator and the name at the end |
| `HomeController.GameById` | src/controllers/home.js:60-74 | 404 iff `getById` finds nothing; otherwise the stored listing with that id |
| `HomeController.ProfileOf` | src/controllers/home.js:171-188 | `ownerToResult` is `OwnerTo` of all posts, or null iff that is empty, and `interactedWithResult` likewise `InteractedWith` the first name; each count is the length of that list (0 when null); so the lists hold exactly the owned posts and the posts whose likes contain the first name |
| `HomeController.OwnerTo` | src/controllers/home.js:174 | exactly the stored posts owned by the user, each as often as it is stored |
| `HomeController.InteractedWith` | src/controllers/home.js:179-182 | exactly the stored posts whose likes contain the first name, each as often as it is stored |
| `HomeController.Filter` | src/controllers/home.js:174 | the filtered list holds exactly the entries that pass, each as often as in the input, and is no longer than the input |
| `HomeController.FilterAppend` | src/controllers/home.js:179-182 | filtering distributes over concatenation, so the original order is kept |
| `HomeController.NullIfEmpty` | src/controllers/home.js:176 | null iff the list is empty, the list otherwise |
| `HomeController.ProfileMissesInteractedPost` | src/controllers/home.js:164-181 | a post whose likes do not contain the user's first name, once the user has interacted with it, shows `hasInteracted` but is missing from the profile's interacted list whenever the first name is not the email |
| `HomeController.InteractedWithByEmail` | src/controllers/home.js:179-182 | keyed by email, the profile's list holds exactly the posts for which `hasInteracted` holds |
| `HomeController.InteractedPostListedByEmail` | src/controllers/home.js:164 | keyed by email, a post the user interacted with is listed |
| `HomeController.CreatePost` | src/controllers/home.js:29-53 | with validation errors the form is rendered again and the store is unchanged (`create` is not called); otherwise one listing is created with the signed-in user's id as author and the client is redirected to the catalog |
| `HomeController.EditPost` | src/controllers/home.js:121-149 | validation errors render the form and change nothing; a missing listing renders 404; a non-owner gets the form with "Access denied" and no change; the owner's request replaces the six fields and redirects to the details page |
| `HomeController.DeletePost` | src/controllers/home.js:151-160 | 404 with nothing changed iff the listing is missing or the user is not its owner; otherwise that listing is removed and the client goes to the catalog |
| `HomeController.InteractPost` | src/controllers/home.js:162-169 | a missing listing renders 404 and changes nothing; otherwise the user's email is appended to its likes and the client goes back to the details page |

## Left out

- Express routing, rendering, cookies and JSON encoding: the handlers return a `Response` or `Reply` value naming the view, the redirect or the status.
- `src/controllers/user.js`, the session token module and the route guards (`isUser`, `isOwner`, `hasInteracted`, `isGuest`): the guards' source is not part of this model, so each handler is modelled as it runs once its guard has let the request through, with the signed-in user as a parameter.
- The express-validator chains: their outcome is the `validationErrors` input. `parseError` is not part of this model; a failure shown on a form is the list of validation messages or the service's error.
- Mongoose's validation on `save()` (required paths, the URL validator, the unique index's error) is not applied by the services; `DataModel.Conforms` and `UserModel.RequiredPresent` state what it would check, and `DataModel.NewListingLacksRequiredPaths` shows that every document `create` builds would be refused by it.
- Mongoose strict mode, which would drop `model`, `engine` and `topSpeed`, and the casting of `likes` entries to ObjectIds: entries are kept as the strings that are pushed. Under that casting an email pushed by the interact route is refused with a CastError (the route then renders 404) unless it happens to be a valid ObjectId text, so the Findings row holds for the model as stated, not necessarily for a running store.
- DataModel.PathValue, DataService.GetByIdKey: a key that names a member every JavaScript object inherits (`constructor`, `toString`, `__proto__`, …) gives that member in the source; the model gives nothing for it.
- CastErrors for malformed ids and store unavailability (the 500 replies caused by them); only the 500 of a missing owner in `GET /catalog/:id` is modelled.
- `Number(...)`: `topSpeed` stores `NumberOf(text)`, the conversion of that text, without computing it. Numbers (`views`, `played`) are unbounded integers, not floating point.
- bcrypt's key derivation, its 72-byte truncation and its timing behaviour: `Bcrypt.Hash` is an idealised digest that no other password matches. Its key keeps the password itself, so the model is injective but not one-way; that a stored user never holds the plaintext follows only from the type of its `password` path.
- The collation folds ASCII letter case only; the Unicode case and accent rules of the `en` locale at strength 2 are not modelled.
- Concurrency: each service call runs alone, so the read-then-save races of `update`, `interact` and `register` are not modelled.
- `DataService.GetTopFivePlayed`: MongoDB leaves the order of equal `played` values open; the function returns one admissible order, and its contract states only what every admissible order satisfies.
- `GET /catalog/:id/edit`, `GET /create`, `GET /about`, `GET /` and `GET /catalog` only render or send a value computed by the functions above (`GetTopFivePlayed`, `GetAll`, `GetById`).
- Logging (`console.log`, `console.error`).

## Findings

| source | as written | input that shows it | evidently intended | confidence | as-written member | corrected member |
|---|---|---|---|---|---|---|
| src/controllers/home.js:181 | `/profile` lists the posts whose likes contain the user's `firstName`, while the interact route (line 164) stores the user's email and `hasInteracted` (line 93) looks for the email | a user `{firstName: "Ann", email: "ann@mail.com"}` interacts with a post that had no likes: with the pushed email kept as a string (the ObjectId casting of `likes` is not modelled; with it, the push of an email is refused and the route renders 404, or an ObjectId-shaped email is stored as an ObjectId), its likes become `["ann@mail.com"]`, `hasInteracted` is true, and the profile's `interactedWithResult` is `null` | the profile looks for the same key the interact route stores, the email | medium; not executed; depends on the casting left out | `HomeController.ProfileMissesInteractedPost` | `HomeController.InteractedWithByEmail` |
