# TinyApp stores, lookups and handler decisions in Dafny

TinyApp is a tutorial URL shortener written for Express. Its state is two in-memory
JavaScript objects:
- `users` maps a user id to `{id, email, password}`;
- `urlDatabase` maps a short code to `{userId, longURL}`.

Around these stores sit a few lookup and ownership helpers, an identifier generator, and
route handlers. Each handler checks its conditions in a fixed order. It then either answers
with a status (400, 401, 403, 404) or changes one of the stores and redirects.

This project models:
- the stores, as Dafny `map`s;
- the server's handlers, as methods of the class `Server.TinyApp`. That class holds the two
  stores as fields. Its invariant `Valid()` says three things: emails are unique, every user
  is stored under its own non-empty id, and every short code is owned by a registered user;
- every helper file, as its own module. The loop helpers are methods with loop invariants.
  Each is proved against a specification: `Credentials.FirstMatchAt` for the credential
  scans, `Records.OwnedBy` for the URL filters, and `Records.EmailTaken` for the email
  existence checks (`Utilities.GetUserByEmail`, `Server.TinyApp.FindUserId`). The lemmas
  state what the source promises.

Modelling choices:
- **Requests.** A request becomes its `user_id` cookie (`Option<string>`, `None` when the
  cookie is absent) plus its form and path arguments.
- **Responses.** A response becomes an `Outcome`: an error status, a redirect that may set
  the cookie, or the page that shows one short URL.
- **Password check.** `bcrypt.compareSync(plain, hash)` becomes a function-valued
  parameter `matches`. Nothing is assumed about it, except in
  `FindUserByEmailHelper.HelpersTest`: there the test fixture assumes that the correct
  password matches its own stored hash.
- **Random ids.** `Math.floor(Math.random() * 62)` becomes a caller-supplied sequence of six
  `CharIndex` draws in `[0, 62)`.
- **Enumeration order.** The order in which `for (const k in obj)` visits keys is a
  parameter `order`. `Records.IsEnumeration` requires it to list each key exactly once.
  This matters wherever a scan returns the first match.
- **Return values.** The helpers return JavaScript values (a key, `false`, `true` or
  `null`), modelled by `Js.Value`. `Js.Truthy` gives the truthiness their callers test.

Facts about the source that the model keeps:
- The server stores and compares passwords in plain text (`express_server.js:206`,
  `:237-241`); the helpers compare bcrypt hashes.
- Handlers answer with HTTP statuses.
- Despite its name, `helpers/findUserByEmail.js` checks the password as well as the email.
- `test/helpersTest.js:30-38` expects `null` for an unknown email, but
  `helpers/findUserByEmail.js:15` returns `false`. `FindUserByEmailHelper.HelpersTest`
  shows that the code gives `false` there, which is not `null`.

`generateId` appears twice in the source, identically: `express_server.js:29-41` and
`helpers/generateId.js:2-14`. `IdGen.GenerateId` models both.

## Model

| member | source | states |
|---|---|---|
| `IdGen.GenerateId` | helpers/generateId.js:2-14 | the result has exactly 6 characters; character i is `possibleChars[draws[i]]`, so every character is alphanumeric and in the alphabet; the loop keeps `randomString` at length i after i rounds |
| `IdGen.AlphabetRanks` | helpers/generateId.js:3-4 | the alphabet has 62 characters; each is alphanumeric and sits at its own rank, so no character repeats and every index in [0,62) selects a defined character |
| `IdGen.IdFromInjective` | express_server.js:29-41 | different draw sequences give different ids, so the id space has 62^6 members |
| `Records.AtMostOneUserPerEmail` | express_server.js:231-241 | when emails are unique, at most one user record carries a given email |
| `Records.TakenEmailHasOneUser` | express_server.js:231-241 | when emails are unique, a taken email is carried by exactly one user record |
| `Records.InsertKeepsEmailsUnique` | express_server.js:231-241 | storing a user whose email nobody has keeps emails unique, even when the new id overwrites an existing user; the email is then taken |
| `Records.OwnedByPartitions` | express_server.js:55-65 | a stored code is among the URLs of id exactly when its owner is id, and always among its owner's |
| `Records.OwnedByAfterInsert` | express_server.js:259-261 | after storing a code for its owner, the owner's URLs gain exactly that entry; every other user's URLs lose the code and nothing else |
| `Records.OwnedByAfterUpdate` | express_server.js:283-284 | changing a code's longURL keeps its owner; only the owner's view changes, and only at that code |
| `Records.OwnedByAfterDelete` | express_server.js:306 | after deleting a code, everyone's URLs are as before minus that code |
| `Credentials.FirstMatchAt` | helpers/findUserId.js:5-16 | returns the position of the first record in enumeration order whose email equals the given one and whose hash the password matches; no earlier position matches; None exactly when no position matches |
| `Credentials.FirstAcceptingIsFound` | helpers/findUserId.js:11-13 | the early return: a matching position with no match before it is the one the scan stops at |
| `Credentials.NoMatchIffNoneAccepts` | helpers/findUserByEmail.js:5-15 | over an enumeration of the whole database, the scan finds nothing exactly when no record has both the email and a matching hash |
| `Credentials.WrongPasswordFindsNothing` | helpers/findUserId.js:11-16 | an existing email with a password its hash rejects finds nothing, when the email belongs to a single user |
| `Credentials.OrderIrrelevantForUniqueEmails` | helpers/utilities.js:6-17 | when emails are unique, any two enumeration orders give the same answer |
| `FindUserIdHelper.FindUserId` | helpers/findUserId.js:5-17 | returns the key of the first matching record in enumeration order, and that record has the email and a matching hash; returns `false` exactly when no record matches both; the database is not changed |
| `FindUserByEmailHelper.FindUserByEmail` | helpers/findUserByEmail.js:4-16 | returns the key of the first record with the email and a matching hash; returns `false` exactly when there is none; the database is not changed |
| `FindUserByEmailHelper.HelpersTest` | test/helpersTest.js:5-38 | on the test fixture, the correct email and password give "userRandomID"; an unknown email gives `false`, not the `null` that the test expects |
| `UrlsForUserHelper.UrlsForUser` | helpers/urlsForUser.js:2-12 | the result holds exactly the entries whose userId is id, with identical records and nothing else (empty when id owns nothing); the database is not changed |
| `ShortUrlBelongsHelper.ShortURLBelongsToUser` | helpers/shortURLbelongsToUser.js:2-8 | true iff the code is among urlsForUser's entries for the id, i.e. present and owned by it; false for an absent code or another owner |
| `BelongsHelper.BelongsToUser` | helpers/belongsToUser.js:2-8 | true iff the code is present and owned by the id; false for an absent code or another owner |
| `Utilities.GetUserId` | helpers/utilities.js:5-18 | returns the key of the first record with the email and a matching hash; returns `null` exactly when there is none |
| `Utilities.UnknownEmailGivesNull` | helpers/utilities.js:12-17 | an email no user has finds nothing, whatever the password |
| `Utilities.BelongsToUser` | helpers/utilities.js:21-27 | true iff the code is present and owned by the id; there is no truthiness test on the id |
| `Utilities.GetUserByEmail` | helpers/utilities.js:30-38 | `true` iff some user has the email, `null` (not `false`) otherwise |
| `Utilities.UrlsForUser` | helpers/utilities.js:41-51 | exactly the entries owned by id, with identical records |
| `Server.TinyApp.constructor` | express_server.js:17-26 | the two seeded users and their two URLs; the invariant holds |
| `Server.TinyApp.FindUserId` | express_server.js:44-52 | returns a key whose user has the email, or `false` exactly when nobody has it |
| `Server.TinyApp.UrlsForUser` | express_server.js:55-65 | exactly the stored entries whose userId is id, with identical records |
| `Server.TinyApp.ShortUrlBelongsToUser` | express_server.js:68-78 | true iff the id is truthy and the code is present and owned by that id |
| `Server.TinyApp.Register` | express_server.js:222-245 | 400 with users unchanged iff email or password is empty or the email is taken; otherwise stores `{id, email, password}` under the generated id, sets the cookie to it and changes nothing else; emails stay unique |
| `Server.TinyApp.Login` | express_server.js:196-213 | redirects and sets the cookie iff both fields are non-empty and some user has that email and exactly that password; the cookie then names that user; otherwise 400 with no cookie |
| `Server.TinyApp.Create` | express_server.js:248-263 | 401 with the stores unchanged when no user is logged in; otherwise stores `{longURL, userId: cookie}` under the generated code, changes no other key, and redirects to `/urls/<code>` |
| `Server.TinyApp.Update` | express_server.js:266-286 | 401 without a user; 403 with no change when the code is absent or owned by someone else; otherwise only that code's longURL changes |
| `Server.TinyApp.Delete` | express_server.js:289-308 | 401 without a user; 403 with no change when the code is absent or owned by someone else; otherwise exactly that key is removed |
| `Server.TinyApp.Show` | express_server.js:120-149 | 401 without a user, then 404 for an absent code, then 403 for another owner, otherwise the page with the record and the author's email |
| `Server.TinyApp.FollowShortUrl` | express_server.js:152-171 | 401 without a user, then 404 when the code or its longURL is missing, otherwise a redirect to the stored longURL |
| `Server.RegisteredUserSignsIn` | express_server.js:196-245 | after a successful registration, login with the same pair matches exactly the new user, no other password matches for that email, and a second registration with the email is rejected |
| `Server.AliceAndBob` | express_server.js:222-308 | on a fresh server: register, shorten, follow (reaches the destination), the code belongs to its creator and not to another user, a repeated email is rejected with 400 and leaves exactly one record with that email, the creator's URLs list the new code with its destination, and after deletion the code gives 404 |

## Left out

- Express wiring and rendering are not modelled: `app.use`, `app.set`, `app.listen`,
  templates, messages. The pages that only render or redirect are also left out:
  GET `/`, `/urls`, `/urls/new`, `/login`, `/register`. The model keeps only each
  handler's outcome and cookie value.
- POST `/logout` only clears the cookie, which is transport, so it is not modelled.
- bcrypt hashing and its salt and cost are not modelled. `compareSync` is the
  uninterpreted parameter `matches`.
- `Math.random` and `Math.floor` are replaced by caller-supplied draws in `[0, 62)`. The
  uniformity of the draws is not modelled.
- The module `databases/userDatabase` that `helpers/findUserId.js:2` imports is not part
  of this model. Its contents are passed as the parameter `userDatabase`.
- `helpers/resRedirects.js`, `helpers/redirect.js` and `helpers/errorMessages.js` are not
  modelled. They only set a message and render a page.
- Keys inherited from `Object.prototype` are not modelled. For example,
  `database["constructor"]` is truthy in JavaScript. The model's stores contain only their
  own keys.
- A missing form field (`undefined`) and an empty one are both modelled as `""`. The
  handlers treat the two alike, because both are falsy.
- An absent cookie is `None`. The source then looks up `users[undefined]`, i.e. the key
  "undefined". No stored id can be that key, since every id has 6 characters.
- Record objects are modelled as values. In the source, `urlsForUser` returns the stored
  record objects themselves, and POST `/urls/:shortURL` mutates the stored object in place.
  No handler keeps a result of `urlsForUser`, so this aliasing is never observed.
- Short-code and user-id collisions are not prevented, as in the source. A colliding
  `generateId` result overwrites the existing entry, and the contracts of `Register` and
  `Create` say so through the map update.
- Concurrency and session expiry are not modelled. The source has neither.
- Server.TinyApp.FindUserId: does not say which key is returned when several users share
  an email. The class does not track the enumeration order of `users`. Under `Valid()`
  emails are unique, so at most one key can be returned.
