# Contact directory resolvers, modelled in Dafny

The system is a GraphQL API over a contact directory. Accounts log in, browse and edit
contacts (name, optional phone, street, city), and keep a friend list of contacts.
This project models its resolver layer and its request-context step, both in `index.js`:

- The four queries: `personCount`, `allPersons(phone: YES|NO)`, `findPerson(name)` and `me`.
- The five mutations: `addPerson`, `editNumber`, `createUser`, `login` and `addAsFriend`.
- The derived `Person.address` field.
- The `context` function. It takes a bearer token from the `Authorization` header, verifies it
  and loads the named account with its friends populated.

The two MongoDB collections are the fields `contacts` and `accounts` of the class
`Mutations.Directory`. They are sequences in insertion order. MongoDB's `findOne` returns the
first match in natural order, which is not guaranteed to be insertion order. The model
assumes that it is, so lookups take the first match in stored order. Document identifiers
are naturals taken from the counter `nextId`. A new document takes its identifier when it
is built, as a new ObjectId does, so a rejected save still uses one up. Storage-side
validation is abstract: `contactRule` and `accountRule` decide whether a save goes through.
They stand for the minimum name length and the unique username of the storage schemas.
A rejected save changes nothing.

JWT signing is a value `Auth.Codec` with a `sign` and a `verify` function. The only thing
assumed about it is `Auth.Sound`: a signed payload verifies to itself. Lemmas that need this
take it as a hypothesis.

Files:

- `wrappers.dfy`: `Option` and `Result`.
- `model.dfy`: the entities, first-match lookups, filtering, `populate`, saving by identifier,
  and the friend-list update.
- `auth.dfy`: bearer-header parsing and the request context.
- `queries.dfy`: the query resolvers and `Person.address`.
- `mutations.dfy`: `login`, the class with the mutating resolvers and its invariant, and the
  dispatch of one request.

Each mutating method requires `Valid()`, the store invariant, and keeps it. The invariant
says:

- contact identifiers are unique;
- account identifiers are unique;
- every identifier is below `nextId`;
- every friend identifier names a stored contact and appears only once in its list.

The protected mutations also require `Current(ctx)`: the context's user is a stored account
with its friends populated. The `context` function guarantees this, because it builds the
context from the store just before the resolver runs. `Mutations.Directory.Handle` does
exactly that. A request is modelled as one root field, so the context is always fresh; see
"## Left out" for requests that select several root fields.

In the following places the code's behaviour may be surprising. The model follows the code
in each of them:

- A bearer token that fails verification fails the whole request, including queries,
  because the `context` function throws before any resolver runs. It is not treated as
  anonymous on read-only operations.
- Without a current user, `addPerson` and `addAsFriend` throw `AuthenticationError`, but that
  name is not imported (index.js:1). What is actually thrown is a reference error. The
  model calls this failure `NotAuthenticated`. In both cases it happens before any state
  changes.
- `addAsFriend` with a name no contact has dereferences `null`. The first dereference that
  runs is `person._id` (index.js:188). The model fails with `NullDereference` and changes
  nothing.
- If `addAsFriend` cannot save the caller, the storage error is not caught (index.js:193).
  The model fails with `SaveRejected`. It does not wrap this as `ValidationFailed`.
- `allPersons` tests whether the phone field exists (`$exists`), not whether it is truthy.
  A contact whose phone was set to the empty string counts as having a phone. So does a
  contact created with an explicit `phone: null`: `new Person({ ...args })` stores the field
  with a null value, and `$exists: true` matches it. The model's `Model.Phone` therefore has
  three states: `Unset` when the argument was omitted, `Null`, and `Number`.

The model does not follow the code in one place: the duplicate guard of `addAsFriend`
(index.js:185-186). The code compares ObjectId instances with `includes`, so the guard never
matches and the contact is appended every time (see "## Findings").

- `Mutations.Directory.AddAsFriend` compares identifiers by value, as the code evidently
  intends.
- The store invariant's clause that a friend list has no duplicates (`Distinct` in
  `Mutations.FriendsValid`) holds only for that corrected comparison.
- The behaviour as written is `Model.FriendStepAsWritten`. `Model.AsWrittenDuplicates` shows
  the duplicate it stores.

## Model

| member | source | states |
|---|---|---|
| `Model.First` | index.js:93 | the index found is the first element that matches; with no index, no element matches |
| `Model.Filter` | index.js:65 | the result holds exactly the elements of the input that satisfy the predicate |
| `Model.FilterPartition` | index.js:63-65 | filtering by a predicate and by its negation gives two multisets that add up to the input |
| `Model.ContactById` | index.js:235-237 | the contact found carries the identifier looked up; nothing is found exactly when no stored contact has that identifier |
| `Model.AccountById` | index.js:235 | the account found is stored and carries the identifier; nothing is found exactly when no account has it |
| `Model.AccountByUsername` | index.js:172 | nothing is found exactly when no account has the username; otherwise the first stored account with that username |
| `Model.ContactByIdFinds` | index.js:235-237 | when identifiers are unique, looking a stored contact up by its identifier finds that contact |
| `Model.AccountByIdFinds` | index.js:235 | when identifiers are unique, looking a stored account up by its identifier finds that account |
| `Model.Populate` | index.js:235-237 | a populated friend list is no longer than the identifier list, and holds only stored contacts whose identifiers are in it |
| `Model.PopulateRoundTrip` | index.js:116-117 | when every friend identifier names a contact, saving a populated list stores the same identifiers it was populated from |
| `Model.PopulateAppend` | index.js:192 | populating a concatenation of identifier lists gives the concatenation of the populated lists |
| `Model.ReplaceContactAt` | index.js:140-143 | saving a contact changes only the stored record with its identifier, at its position, and keeps every identifier |
| `Model.ReplaceAccountAt` | index.js:116-117 | saving an account changes only the stored record with its identifier, at its position, and keeps every identifier |
| `Model.FriendStep` | index.js:185-193 | a list that already holds the identifier comes back unchanged; otherwise the identifier is appended at the end with the old list kept as prefix; a list without duplicates stays without duplicates |
| `Model.FriendStepIdempotent` | index.js:185-193 | adding the same friend a second time changes nothing |
| `Model.FriendStepOnce` | index.js:185-193 | starting from a list without duplicates, the added friend appears exactly once |
| `Model.FriendStepAsWritten` | index.js:185-192 | as written, the identifier is always appended at the end with the old list kept as prefix, whatever the list already holds |
| `Model.AsWrittenDuplicates` | index.js:185-192 | as written, adding the same friend twice stores it twice, so the list has a duplicate and differs from adding it once |
| `Auth.BearerToken` | index.js:229-232 | a header yields a token exactly when it is present, has at least seven characters, and its first seven lower-case to "bearer "; the token is the header after those seven characters, case kept |
| `Auth.BearerAnyCase` | index.js:230-232 | a header made of "bearer " in any letter case and then a token is accepted, and yields exactly that token |
| `Auth.BearerTokenSplits` | index.js:230-232 | an accepted header is a seven-character prefix that lower-cases to "bearer ", followed by the token with its case kept |
| `Auth.BearerCaseInsensitive` | index.js:230 | two headers that are equal after lower-casing are either both accepted or both refused |
| `Auth.BuildContext` | index.js:228-240 | no bearer header gives an anonymous context; the request fails with InvalidToken exactly when the token does not verify; any current user is a stored account with its friends populated |
| `Queries.PersonCount` | index.js:62 | the count equals the number of contacts that `allPersons` returns without a flag |
| `Queries.PersonCountSplits` | index.js:62-65 | the count equals the number of contacts whose phone field is set (even to null) plus the number where it was never set |
| `Queries.AllPersons` | index.js:63-65 | a contact is in the result exactly when it is stored and, if a flag is given, its phone field is set (even to null) for YES or was never set for NO |
| `Queries.AllPersonsPartition` | index.js:63-65 | the YES and NO results together hold every contact as often as it is stored, and share no contact |
| `Queries.FindPerson` | index.js:91-94 | finds nothing exactly when no contact has the name; otherwise returns the first stored contact with that name |
| `Queries.MeFromHeader` | index.js:105-107 | `me` returns nobody without a bearer header or when the verified token names no account, and otherwise the account named by the token's identifier, with friends populated |
| `Queries.PersonAddress` | index.js:210-216 | the address's street is the contact's street and its city is the contact's city |
| `Queries.AddressIsLocation` | index.js:210-216 | two contacts have the same address exactly when their street and city are equal; name, phone and identifier play no part |
| `Mutations.Login` | index.js:171-180 | every failure is WrongCredentials; login succeeds exactly when the password is "1234" and some account has the username |
| `Mutations.LoginTokenPayload` | index.js:176-180 | with a sound codec, a login token verifies to exactly the username and identifier of the account found |
| `Mutations.LoginThenContext` | index.js:229-238 | a login token sent after "Bearer " in any letter case makes the logged-in account the current user, with friends populated |
| `Mutations.SaveNewContact` | index.js:113-116 | storing a new contact under the fresh identifier keeps the store invariant, and a valid friend list can then take that identifier |
| `Mutations.SaveNewAccount` | index.js:163-165 | storing a new account with no friends under the fresh identifier keeps the store invariant |
| `Mutations.SaveAccount` | index.js:192-193 | saving a stored account with valid friends replaces only that account and keeps the store invariant |
| `Mutations.SaveContact` | index.js:140-143 | saving a stored contact replaces only that contact and keeps the store invariant |
| `Mutations.Directory.CallerFriends` | index.js:116 | unpopulating the context user's friends gives the stored account's friend identifiers |
| `Mutations.Directory.AddPerson` | index.js:110-125 | anonymous: fails with NotAuthenticated and nothing changes. Otherwise: the contact is built from the arguments with a fresh identifier and saved; the caller's friends become the old ones plus that contact; a rejection fails with the arguments; a rejected caller leaves the contact stored; the invariant holds |
| `Mutations.Directory.EditNumber` | index.js:137-151 | an unknown name gives null and changes nothing; otherwise the first contact with the name is returned and stored with only its phone replaced; a rejection fails with the arguments and changes nothing; accounts never change |
| `Mutations.Directory.CreateUser` | index.js:162-170 | an account with the username, no friends and a fresh identifier is appended and returned, or the rejection fails with the arguments; contacts never change |
| `Mutations.Directory.AddAsFriend` | index.js:182-196 | anonymous: fails with NotAuthenticated; an unknown name fails and nothing changes; a contact already among the friends changes nothing, comparing identifiers by value as intended rather than by reference as written (see Findings); otherwise it is appended once and the caller saved; the caller is returned as now stored |
| `Mutations.Directory.Handle` | index.js:228-240 | the context is built before any resolver runs; a token that does not verify fails every operation and changes nothing; queries and login change nothing and return their functions' results |

## Left out

- The Apollo server construction and `server.listen` are left out: they are network I/O.
  The schema text is used only for the names of types and operations.
- The database connection and the Mongoose models are not part of this model. Their
  validation is the abstract `contactRule` and `accountRule`. The text of a storage error
  message is not modelled.
- JWT cryptography and the process secret are left out: the codec is the `Auth.Codec`
  parameter. The extra `iat` claim that `jwt.sign` adds is ignored, as the code ignores it.
- `console.log` calls and all commented-out code are left out: they have no effect on behaviour.
- `async`/`await` suspension is not modelled. Each request is one atomic step, so lost
  updates between concurrent `addPerson`/`addAsFriend` calls on one account are not modelled.
- A request is modelled as exactly one root field. A GraphQL mutation request may select
  several root fields, which run one after another and share one context object.
  `addPerson` and `addAsFriend` reassign `currentUser.friends` on that shared object in place
  (index.js:116, index.js:192) before saving it, so the change stays in memory even when the
  save is rejected, and a later field of the same request saves it. For example, an
  `addPerson` whose caller save is rejected, followed in the same request by an `addAsFriend`
  that saves, stores both identifiers. The model rebuilds the context for every field, and
  `Mutations.Directory.Current` requires the context to match the store, so it stores only
  the second one. This in-place update of the shared `currentUser`, and the aliasing it
  relies on, is not modelled.
- `toLowerCase` is modelled on A–Z only. No other character lower-cases to a character of
  "bearer ", so whether a header is accepted is exact.
- A token payload whose identifier could not be cast to an ObjectId is not modelled:
  payload identifiers are typed.
- `Queries.Me` is a plain projection of the context and carries no contract of its own. What it
  returns for a request is stated by `Queries.MeFromHeader`.
- Mutations.Directory.Handle: for mutations it states only that the store invariant holds.
  Each mutation's effect is stated by the contract of its own method, which `Handle` calls.

## Findings

| source | as written | input that shows it | evidently intended | confidence | as-written member | corrected member |
|---|---|---|---|---|---|---|
| index.js:185-192 | `includes` compares the caller's populated friend `_id` ObjectIds with `person._id` by reference. These are distinct instances from separate queries, so the guard never finds a match and the contact is appended every time | call `addAsFriend(name: "Jack")` twice as the same user: Jack's identifier is stored twice | compare identifiers by value, so adding an existing friend changes nothing (the duplicate-free friend list of the data model) | high, assuming the Mongoose version in use makes `.map` on a populated array return a plain array whose `includes` compares by reference (no version is pinned in the repository); not executed | `Model.AsWrittenDuplicates` | `Model.FriendStepOnce` |
