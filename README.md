# devconnect-api: request-handling core in Dafny

This project models the decision logic of the route handlers of a small social-network REST
backend: registering and logging in users (`routes/users.js`), resolving a bearer token to a
user (`config/passport.js`), and creating, reading and editing developer profiles with their
experience and education lists (`routes/profile.js`). The document database becomes in-memory
collections. Two classes hold them. `Profiles.ProfileStore` keeps a map from user id to profile.
`Users.UserStore` keeps a sequence of user documents; `findOne` returns the first match in
collection order. bcrypt, jsonwebtoken and gravatar are uninterpreted values passed in as
parameters. The facts assumed of them are named predicates that the lemmas needing them take
as preconditions: `HashMatches` (`compare(p, hash(p, salt))` holds), `TokensVerify` (checking
a token with the secret it was signed with gives back the signed payload) and `SignsWords`
(a signed token is one word with no white space, as a compact JWS is).

Files:

- `common.dfy`: `Option`, request bodies as string maps, JavaScript truthiness, `{errors, isValid}`.
- `strings.dfy`: `split(',')` and `join(',')` with their round trips.
- `arrays.dfy`: `indexOf`, `unshift` and `splice(start, 1)` with JavaScript's negative-start rule.
- `externals.dfy`: the stand-ins for bcrypt, jsonwebtoken and the key configuration.
- `authheader.dfy`: how passport-jwt takes the token out of the `Authorization` header.
- `profile.dfy`: the profile handlers.
- `users.dfy`: the user handlers.
- `passport.dfy`: the JWT strategy.

Behaviour the model keeps as the code has it:

- Deleting an experience or education entry by an id that no entry has removes the LAST entry.
  `indexOf` gives -1 and `splice(-1, 1)` counts back from the end. An empty list stays empty.
- A duplicate email at registration answers status 400 with the bare message string
  `"Email already registered"`, not an errors object. Status 409 is not used.
- Validation failures at registration and login answer status 200, not 400.
- `skills` is split whenever the key is present. An empty string is stored as `[""]`.
- The `$set` of an update replaces the whole `social` sub-object, because `social` is one key of
  the assembled fields and it is always present. `user` is always rewritten too.
- `GET /profile/all` can never answer 404: the list found is an array, and arrays are truthy.
- When the lookup inside the token strategy fails, the error is only logged and `done` is never
  called, so the request gets no answer from the strategy (`Passport.NoAnswer`).

## Model

| member | source | states |
|---|---|---|
| Strings.Split | routes/profile.js:117 | `split(',')` gives at least one piece, and no piece contains a comma |
| Strings.JoinSplit | routes/profile.js:116-118 | joining the stored skills with "," gives back exactly the string sent |
| Strings.SplitJoin | routes/profile.js:116-118 | splitting the comma-join of one or more comma-free pieces gives the pieces back (split is the inverse of join) |
| Strings.SplitCommaFreePrefix | routes/profile.js:117 | a comma-free prefix only extends the first piece of the split |
| Arrays.IndexOf | routes/profile.js:219 | `indexOf` gives -1 exactly when the id is absent; otherwise an index holding the id with no earlier occurrence |
| Arrays.Unshift | routes/profile.js:170 | `unshift` puts the new entry at index 0, the old entries follow in order, the length grows by one |
| Arrays.SpliceStart | routes/profile.js:220 | a start within the list is kept; a negative start counts back from the end; a start before the beginning becomes 0 and one past the end becomes the length |
| Arrays.SpliceOne | routes/profile.js:220 | `splice(start, 1)` removes exactly the entry at the start position: earlier entries stay, later ones shift down by one, the length drops by one |
| Arrays.SpliceAtIndexOf | routes/profile.js:219-220 | `splice(indexOf(id), 1)` removes the first entry with that id; for an absent id it removes the last entry, and an empty list stays empty |
| Profiles.AssembledFields | routes/profile.js:106-125 | the assembled fields have `user` = the authenticated id; each text field and social link is present exactly when the body's value is truthy; `social` is always present; `skills` is present exactly when the key is sent, and it joins back to the string sent |
| Profiles.AssembledSkillsDetermined | routes/profile.js:116-118 | any comma-free list that joins to the string sent is the stored skills list |
| Profiles.CopyIfTruthy | routes/profile.js:108-114 | one conditional assignment sets the key exactly when the body's value is truthy |
| Profiles.AssembleSocial | routes/profile.js:120-125 | the social object built link by link equals the specified one |
| Profiles.AssembleFields | routes/profile.js:106-125 | the field-by-field construction equals the specified assembly `FieldsOf` |
| Profiles.Merge | routes/profile.js:139 | `$set` overwrites every key the assembly set and keeps every other key; `user` and `social` are always overwritten; experience and education are kept |
| Profiles.MergeIdempotent | routes/profile.js:135-145 | updating twice with the same fields equals updating once; updating a just-created profile with its own fields changes nothing |
| Profiles.ProfileStore.FindByUser | routes/profile.js:17-30 | 404 with `noprofile` = "There is no profile for this user" exactly when the user has no profile, else that profile, whose `user` is the id asked for |
| Profiles.ProfileStore.FindByHandle | routes/profile.js:38-51 | 404 with the same message exactly when no profile has the handle, else a stored profile with that handle |
| Profiles.ProfileStore.All | routes/profile.js:80-93 | always answers 200 with every stored profile |
| Profiles.ProfileStore.CreateOrUpdate | routes/profile.js:100-147 | invalid input: 400 with the validator's errors, nothing changes; otherwise the profile is merged or created, and other users' profiles are unchanged |
| Profiles.ProfileStore.AddExperience | routes/profile.js:154-178 | the new entry is at index 0, the old entries follow in order, nothing else in the store changes |
| Profiles.ProfileStore.AddEducation | routes/profile.js:185-209 | the same for the education list |
| Profiles.ProfileStore.DeleteExperience | routes/profile.js:216-228 | removes the first entry with the id, or the last entry when no entry has it; the length drops by one unless the list was empty; nothing else changes |
| Profiles.ProfileStore.DeleteEducation | routes/profile.js:235-247 | the same for the education list |
| Profiles.ProfileStore.DeleteProfile | routes/profile.js:255 | exactly the user's profile key is removed |
| Profiles.DeleteAccount | routes/profile.js:254-260 | afterwards neither the profile nor the user exists, every other document is kept, and the answer is success |
| Users.FindByEmail | routes/users.js:26 | no result exactly when no user has the email; otherwise a stored user with that email |
| Users.FindById | config/passport.js:14 | no result exactly when no user has the id; otherwise a stored user with that id |
| Users.FindByEmailFirst | routes/users.js:70 | the lookup by email returns the first user in the collection with that email |
| Users.FindByIdFirst | config/passport.js:14 | the lookup by id returns the first user in the collection with that id |
| Users.FindAppended | routes/users.js:47 | a user saved with a new email and a new id is then found by both |
| Users.RemoveFirstId | routes/profile.js:256 | deleting by id keeps only existing users and removes one user exactly when one has the id |
| Users.RemoveFirstIdEffect | routes/profile.js:256 | deleting keeps ids and emails unique, leaves no user with the id, and every other id resolves as before |
| Users.Login | routes/users.js:61-89 | invalid input answers 200 with the validator's errors; an unknown email answers 404 with `email: 'User not found'` and no token; a failed compare answers 400 with `password: 'Password incorrect'`; otherwise `{success: true}` with "Bearer " followed by the signature of `{id, name, avatar}` under `secretOrKey`, expiring in 3600 seconds |
| Users.RegisterThenLogin | routes/users.js:36-81 | after registering, logging in with the same email and password succeeds with the new user's token, assuming compare(p, hash(p)) holds |
| Users.CurrentUserHidesPassword | routes/users.js:97 | the current-user answer does not depend on the stored password |
| Users.UserStore.Register | routes/users.js:20-54 | invalid input answers 200 with the validator's errors; a taken email answers 400 with "Email already registered"; in both cases the table is unchanged; otherwise exactly one user is appended, with the request's name and email, the gravatar of the email, and the hash of the password |
| Users.UserStore.DeleteById | routes/profile.js:256 | the user with the id is removed and no longer found |
| AuthHeader.ParseAuthHeader | config/passport.js:8 | the header's scheme and value, when found, are each one word with no white space |
| AuthHeader.ParseTwoWords | config/passport.js:8 | a header of optional white space, a scheme, white space, a value and anything starting with white space parses to that scheme and value, as `/(\S+)\s+(\S+)/` matches it |
| AuthHeader.ParseOneWord | config/passport.js:8 | a blank header or a header with a single word has no scheme and value |
| AuthHeader.FromAuthHeaderWithScheme | config/passport.js:8 | a token is extracted only from a present, non-empty header whose first word lower-cases to the scheme's lower case; the token is the header's second word |
| AuthHeader.BearerHeader | config/passport.js:8 | the scheme "Bearer" is matched in any letter case, any white space may separate it from the token, and whatever follows the token is dropped |
| AuthHeader.ExtractBearerToken | routes/users.js:81 | the extractor takes back exactly the token that login put after "Bearer " |
| AuthHeader.OtherSchemeNoToken | config/passport.js:8 | a header whose first word is not "bearer" in some letter case, such as "Basic abc" or "JWT abc", yields no token |
| AuthHeader.SchemeAloneNoToken | config/passport.js:8 | a header with a scheme and no value, such as "Bearer " alone, yields no token |
| Passport.VerifyCallback | config/passport.js:13-21 | looks up the payload's id; a hit gives `done(null, user)`, a miss gives `done(null, false)`, a failed lookup never calls `done`; no error is ever passed |
| Passport.ResolvesByIdOnly | config/passport.js:14 | payloads with the same `id` resolve alike: no other claim is consulted |
| Passport.TableHit | config/passport.js:14-16 | on the users collection, the callback succeeds with the user who has the payload's id |
| Passport.TableMiss | config/passport.js:14-18 | on the users collection, the callback fails with `false` when no user has the payload's id, the empty collection included |
| Passport.Authenticate | config/passport.js:7-21 | no token in the header, or a token that does not verify under the options' secret, gives 401; a verified payload whose id the lookup finds authenticates that user, a miss gives 401, and a failed lookup gives no answer |
| Passport.LoginTokenAuthenticates | routes/users.js:78-81 | the header "Bearer <token>" from a successful login, checked with the strategy built from the same `secretOrKey` that login signs with, authenticates the user who logged in, assuming the token check gives back what was signed and signed tokens are one word |
| Passport.DeletedAccountRejected | config/passport.js:14-18 | after a user is deleted, no token authenticates as that user |

## Left out

- Database I/O: `findOne`, `save`, `findOneAndUpdate`, `findOneAndRemove` and `findOneAndDelete` are operations on in-memory collections. Rejected promises and save errors are not modelled, except the failed lookup in the token strategy. This covers the `catch` branches of the GET handlers, including the one that answers `res.sentry`, and the "something went wrong" answers.
- `populate('user', ['name', 'avatar'])` in the GET handlers is not modelled: the stored profile is returned as is.
- Profiles.ProfileStore.FindByHandle: returns some profile with the handle, not the first one in collection order, because the profiles are a map keyed by user id.
- The handle-availability check in `POST /profile` (routes/profile.js:127-133) is not modelled. It runs concurrently with the upsert and can send a second answer.
- A missing profile in the experience and education routes is not modelled: the model requires the profile to exist. In the add routes the dereference throws with no `catch`, so the request gets no answer. In the delete routes the `catch` at routes/profile.js:224-226 and 243-246 answers 400 `{error: 'something went wrong'}`.
- bcrypt salting, hashing and comparing, JWT signing and checking, and gravatar URLs are uninterpreted values. The salt of `genSalt(10)` and the id the database gives a new document or entry are parameters. Hashing and signing failures are not modelled.
- Token expiry is not modelled: there is no clock. The token check is one function that either gives back the payload or rejects. It does not say whether a rejection is a bad signature, an expired token or a malformed one.
- Request bodies are string-valued only. The JSON body parser also admits numbers, booleans, `null`, arrays and objects, and the model loses their cases. A `skills` value that is not a string passes the `typeof` check and then `split` throws, which the error handler answers with 500. The truthiness of `0`, `false` and `null` is not covered by `Truthy`.
- passport-jwt is a library. `AuthHeader` models its extractor: the `/(\S+)\s+(\S+)/` match and the lower-cased scheme comparison. `ToLower` handles only the letters A to Z. This cannot change the outcome of a comparison against "bearer".
- The validation modules are not part of this model. Each validator is a function parameter returning `{errors, isValid}`.
- Concurrency between requests is not modelled. Each handler runs as one atomic step, so `Profiles.DeleteAccount` shows the two deletes one after the other.
- `app.js` (framework, database and error-page wiring) and `routes/posts.js` (a constant test endpoint) have no decision logic and are not modelled.
