/** The mutation resolvers over the stored directory, `login`, and the
    dispatch of one request: the context is built from the header first,
    then the named resolver runs as one atomic step. */
module Mutations {
  import opened Wrappers
  import opened Model
  import opened Auth
  import opened Queries

  /** The single password `login` accepts. */
  const Password: string := "1234"

  /** The `Token` result type. */
  datatype Token = Token(value: string)

  /** `login`: the first account with the username, if the password is the
      fixed one, yields a token signed over that account's username and
      identifier; otherwise the same failure, whichever check failed. */
  function Login(codec: Codec, accounts: seq<Account>, username: string, password: string): (r: Result<Token, Failure>)
    ensures r.Err? ==> r == Err(WrongCredentials)
    ensures r.Ok? <==> password == Password && exists a :: a in accounts && a.username == username
  {
    match AccountByUsername(accounts, username)
    case None => Err(WrongCredentials)
    case Some(a) =>
      if password != Password then Err(WrongCredentials)
      else Ok(Token(codec.sign(Payload(a.username, a.id))))
  }

  /** A token from `login` verifies to exactly the username and identifier
      of the account found by that username. */
  lemma LoginTokenPayload(codec: Codec, accounts: seq<Account>, username: string)
    requires Sound(codec)
    requires Login(codec, accounts, username, Password).Ok?
    ensures var a := AccountByUsername(accounts, username).value;
      codec.verify(Login(codec, accounts, username, Password).value.value) == Some(Payload(username, a.id))
  {
  }

  /** Logging in and then sending the token with any casing of "Bearer "
      makes the logged-in account the current user, friends populated. */
  lemma LoginThenContext(codec: Codec, accounts: seq<Account>, contacts: seq<Contact>, username: string, scheme: string)
    requires Sound(codec) && Distinct(AccountIds(accounts))
    requires |scheme| == |BearerPrefix| && Lower(scheme) == BearerPrefix
    requires Login(codec, accounts, username, Password).Ok?
    ensures var a := AccountByUsername(accounts, username).value;
      var header := Some(scheme + Login(codec, accounts, username, Password).value.value);
      && a.username == username
      && BuildContext(codec, header, accounts, contacts) == Ok(Context(Some(View(a, contacts))))
  {
    var a := AccountByUsername(accounts, username).value;
    var token := Login(codec, accounts, username, Password).value.value;
    BearerAnyCase(scheme, token);
    AccountByIdFinds(accounts, a);
  }

  /** The friend identifiers of an account all name stored contacts, once each. */
  ghost predicate FriendsValid(friends: seq<Id>, contacts: seq<Contact>) {
    Distinct(friends) && forall id :: id in friends ==> id in Ids(contacts)
  }

  /** The invariant of the stored collections: identifiers are unique and
      below the next fresh one, and every account's friends are valid. */
  ghost predicate StoreInvariant(contacts: seq<Contact>, accounts: seq<Account>, nextId: Id) {
    && Distinct(Ids(contacts)) && Distinct(AccountIds(accounts))
    && (forall id :: id in Ids(contacts) ==> id < nextId)
    && (forall id :: id in AccountIds(accounts) ==> id < nextId)
    && (forall a :: a in accounts ==> FriendsValid(a.friends, contacts))
  }

  /** Storing a new contact under the fresh identifier keeps the invariant,
      and a friend list may then take that identifier once. */
  lemma SaveNewContact(contacts: seq<Contact>, accounts: seq<Account>, nextId: Id, c: Contact, friends: seq<Id>)
    requires StoreInvariant(contacts, accounts, nextId) && c.id == nextId
    requires FriendsValid(friends, contacts)
    ensures StoreInvariant(contacts + [c], accounts, nextId + 1)
    ensures FriendsValid(friends + [c.id], contacts + [c])
  {
    IdsAppend(contacts, [c]);
    DistinctAppend(Ids(contacts), c.id);
    DistinctAppend(friends, c.id);
    forall id | id in friends + [c.id]
      ensures id in Ids(contacts + [c])
    {
      var ids := Ids(contacts + [c]);
      assert ids == Ids(contacts) + [c.id];
      if id != c.id {
        assert id in friends;
        assert id in Ids(contacts);
      }
    }
  }

  /** Storing a new account under the fresh identifier, with no friends,
      keeps the invariant. */
  lemma SaveNewAccount(contacts: seq<Contact>, accounts: seq<Account>, nextId: Id, a: Account)
    requires StoreInvariant(contacts, accounts, nextId) && a.id == nextId && a.friends == []
    ensures StoreInvariant(contacts, accounts + [a], nextId + 1)
  {
    assert AccountIds(accounts + [a]) == AccountIds(accounts) + [a.id];
    DistinctAppend(AccountIds(accounts), a.id);
  }

  /** Saving a stored account with valid friends replaces it alone and keeps
      the invariant. */
  lemma SaveAccount(contacts: seq<Contact>, accounts: seq<Account>, nextId: Id, k: nat, a: Account)
    requires StoreInvariant(contacts, accounts, nextId)
    requires k < |accounts| && accounts[k].id == a.id && FriendsValid(a.friends, contacts)
    ensures ReplaceAccount(accounts, a) == accounts[k := a]
    ensures StoreInvariant(contacts, ReplaceAccount(accounts, a), nextId)
  {
    ReplaceAccountAt(accounts, k, a);
  }

  /** Saving a stored contact replaces it alone and keeps the invariant. */
  lemma SaveContact(contacts: seq<Contact>, accounts: seq<Account>, nextId: Id, k: nat, c: Contact)
    requires StoreInvariant(contacts, accounts, nextId)
    requires k < |contacts| && contacts[k].id == c.id
    ensures ReplaceContact(contacts, c) == contacts[k := c]
    ensures StoreInvariant(ReplaceContact(contacts, c), accounts, nextId)
  {
    ReplaceContactAt(contacts, k, c);
  }

  /** One request: the operation name and its arguments. */
  datatype Operation =
    | PersonCountOp
    | AllPersonsOp(hasPhone: Option<YesNo>)
    | FindPersonOp(wanted: string)
    | MeOp
    | AddPersonOp(name: string, phone: Phone, street: string, city: string)
    | EditNumberOp(editName: string, newPhone: string)
    | CreateUserOp(username: string)
    | LoginOp(loginName: string, password: string)
    | AddAsFriendOp(friendName: string)

  /** What a resolver returns. */
  datatype Response =
    | CountResult(count: nat)
    | PersonsResult(persons: seq<Contact>)
    | PersonResult(person: Option<Contact>)
    | UserResult(user: Option<User>)
    | TokenResult(token: Token)

  /** The two stored collections, with the storage layer's validation on
      save as two rules: a candidate record is saved only when its rule
      accepts it against the collection as it stands. */
  class Directory {
    var contacts: seq<Contact>
    var accounts: seq<Account>
    /** The next fresh document identifier. */
    var nextId: Id
    const contactRule: (Contact, seq<Contact>) -> bool
    const accountRule: (Account, seq<Account>) -> bool

    /** Identifiers are unique and older than `nextId`; every friend
        identifier names a stored contact and occurs once. */
    ghost predicate Valid()
      reads this
    {
      StoreInvariant(contacts, accounts, nextId)
    }

    /** The context was built from the collections as they stand: its user,
        if any, is a stored account with its friends populated. */
    ghost predicate Current(ctx: Context)
      reads this
    {
      match ctx.currentUser
      case None => true
      case Some(u) =>
        match AccountById(accounts, u.id)
        case None => false
        case Some(a) => u == View(a, contacts)
    }

    /** The stored account of the context's user. */
    ghost function Caller(ctx: Context): (a: Account)
      reads this
      requires Current(ctx) && ctx.currentUser.Some?
      ensures a in accounts && ctx.currentUser.value == View(a, contacts)
    {
      AccountById(accounts, ctx.currentUser.value.id).value
    }

    constructor (contactRule: (Contact, seq<Contact>) -> bool, accountRule: (Account, seq<Account>) -> bool)
      ensures Valid()
      ensures contacts == [] && accounts == [] && nextId == 0
      ensures this.contactRule == contactRule && this.accountRule == accountRule
    {
      contacts, accounts, nextId := [], [], 0;
      this.contactRule, this.accountRule := contactRule, accountRule;
    }

    /** Depopulating the current user's friends gives the stored friend list. */
    lemma CallerFriends(ctx: Context)
      requires Valid() && Current(ctx) && ctx.currentUser.Some?
      ensures Ids(ctx.currentUser.value.friends) == Caller(ctx).friends
    {
      PopulateRoundTrip(Caller(ctx).friends, contacts);
    }

    /** `addPerson`: refused without a current user. Otherwise a contact is
        built from the arguments under a fresh identifier and saved; then the
        caller's friends become the old ones followed by it, and the caller is
        saved. Either rejection fails with the arguments, and a rejection of
        the caller leaves the new contact stored. */
    method AddPerson(ctx: Context, name: string, phone: Phone, street: string, city: string)
      returns (r: Result<Contact, Failure>)
      requires Valid() && Current(ctx)
      modifies this
      ensures Valid()
      ensures ctx.currentUser.None? ==> r == Err(NotAuthenticated) && unchanged(this)
      ensures ctx.currentUser.Some? ==>
        var p := Contact(name, phone, street, city, old(nextId));
        var a := old(Caller(ctx));
        var a' := a.(friends := a.friends + [p.id]);
        var failed := Err(ValidationFailed(PersonArgs(name, phone, street, city)));
        && nextId == old(nextId) + 1
        && (!contactRule(p, old(contacts)) ==>
              r == failed && contacts == old(contacts) && accounts == old(accounts))
        && (contactRule(p, old(contacts)) ==>
              contacts == old(contacts) + [p] &&
              if accountRule(a', old(accounts))
              then r == Ok(p) && accounts == ReplaceAccount(old(accounts), a')
              else r == failed && accounts == old(accounts))
    {
      if ctx.currentUser.None? {
        return Err(NotAuthenticated);
      }
      var u := ctx.currentUser.value;
      ghost var a := Caller(ctx);
      var person := Contact(name, phone, street, city, nextId);
      if !contactRule(person, contacts) {
        nextId := nextId + 1;
        return Err(ValidationFailed(PersonArgs(name, phone, street, city)));
      }
      CallerFriends(ctx);
      IdsAppend(u.friends, [person]);
      assert FriendsValid(a.friends, contacts);
      SaveNewContact(contacts, accounts, nextId, person, a.friends);
      contacts, nextId := contacts + [person], nextId + 1;
      var updated := Account(u.username, Ids(u.friends + [person]), u.id);
      assert updated == a.(friends := a.friends + [person.id]);
      if !accountRule(updated, accounts) {
        return Err(ValidationFailed(PersonArgs(name, phone, street, city)));
      }
      ghost var k :| 0 <= k < |accounts| && accounts[k] == a;
      SaveAccount(contacts, accounts, nextId, k, updated);
      accounts := ReplaceAccount(accounts, updated);
      r := Ok(person);
    }

    /** `editNumber`: an unknown name answers nothing and changes nothing.
        Otherwise the first contact with the name gets the new phone, every
        other field kept, and is saved; a rejection fails with the arguments. */
    method EditNumber(name: string, phone: string) returns (r: Result<Option<Contact>, Failure>)
      requires Valid()
      modifies this
      ensures Valid()
      ensures accounts == old(accounts) && nextId == old(nextId)
      ensures match FindPerson(old(contacts), name)
        case None => r == Ok(None) && contacts == old(contacts)
        case Some(c) =>
          var c' := c.(phone := Number(phone));
          if contactRule(c', old(contacts))
          then r == Ok(Some(c')) && contacts == ReplaceContact(old(contacts), c')
          else r == Err(ValidationFailed(EditArgs(name, phone))) && contacts == old(contacts)
    {
      var found := FindPerson(contacts, name);
      if found.None? {
        return Ok(None);
      }
      var edited := found.value.(phone := Number(phone));
      if !contactRule(edited, contacts) {
        return Err(ValidationFailed(EditArgs(name, phone)));
      }
      var k :| 0 <= k < |contacts| && contacts[k] == found.value;
      SaveContact(contacts, accounts, nextId, k, edited);
      contacts := ReplaceContact(contacts, edited);
      r := Ok(Some(edited));
    }

    /** `createUser`: an account with the username, no friends and a fresh
        identifier is saved, or the rejection fails with the arguments. */
    method CreateUser(username: string) returns (r: Result<User, Failure>)
      requires Valid()
      modifies this
      ensures Valid()
      ensures contacts == old(contacts) && nextId == old(nextId) + 1
      ensures var a := Account(username, [], old(nextId));
        if accountRule(a, old(accounts))
        then r == Ok(View(a, contacts)) && accounts == old(accounts) + [a]
        else r == Err(ValidationFailed(UserArgs(username))) && accounts == old(accounts)
    {
      var account := Account(username, [], nextId);
      nextId := nextId + 1;
      if !accountRule(account, accounts) {
        return Err(ValidationFailed(UserArgs(username)));
      }
      SaveNewAccount(contacts, accounts, nextId - 1, account);
      accounts := accounts + [account];
      r := Ok(View(account, contacts));
    }

    /** `addAsFriend`: refused without a current user; fails when no contact
        has the name. Otherwise the caller's friends take the contact unless
        its identifier is already among them, the caller is saved only when
        it changed, and the caller is returned as now stored. */
    method AddAsFriend(ctx: Context, name: string) returns (r: Result<User, Failure>)
      requires Valid() && Current(ctx)
      modifies this
      ensures Valid()
      ensures contacts == old(contacts) && nextId == old(nextId)
      ensures ctx.currentUser.None? ==> r == Err(NotAuthenticated) && accounts == old(accounts)
      ensures ctx.currentUser.Some? ==>
        match FindPerson(old(contacts), name)
        case None => r == Err(NullDereference) && accounts == old(accounts)
        case Some(p) =>
          var a := old(Caller(ctx));
          var a' := a.(friends := FriendStep(a.friends, p.id));
          if p.id in a.friends
          then r == Ok(View(a', contacts)) && a' == a && accounts == old(accounts)
          else if accountRule(a', old(accounts))
          then r == Ok(View(a', contacts)) && accounts == ReplaceAccount(old(accounts), a')
          else r == Err(SaveRejected) && accounts == old(accounts)
    {
      if ctx.currentUser.None? {
        return Err(NotAuthenticated);
      }
      var u := ctx.currentUser.value;
      ghost var a := Caller(ctx);
      var found := FindPerson(contacts, name);
      if found.None? {
        return Err(NullDereference);
      }
      var person := found.value;
      CallerFriends(ctx);
      if person.id in Ids(u.friends) {
        return Ok(u);
      }
      u := User(u.username, u.friends + [person], u.id);
      IdsAppend(ctx.currentUser.value.friends, [person]);
      var updated := Account(u.username, Ids(u.friends), u.id);
      assert updated == a.(friends := FriendStep(a.friends, person.id));
      if !accountRule(updated, accounts) {
        return Err(SaveRejected);
      }
      ContactByIdFinds(contacts, person);
      PopulateAppend(a.friends, [person.id], contacts);
      assert u == View(updated, contacts);
      ghost var k :| 0 <= k < |accounts| && accounts[k] == a;
      assert FriendsValid(a.friends, contacts);
      SaveAccount(contacts, accounts, nextId, k, updated);
      accounts := ReplaceAccount(accounts, updated);
      r := Ok(u);
    }

    /** One request: the context is built from the header first, so a token
        that does not verify fails every operation and changes nothing; the
        queries and `login` change nothing and answer their functions. */
    method Handle(codec: Codec, header: Option<string>, op: Operation) returns (r: Result<Response, Failure>)
      requires Valid()
      modifies this
      ensures Valid()
      ensures BuildContext(codec, header, old(accounts), old(contacts)).Err? ==>
        r == Err(InvalidToken) && unchanged(this)
      ensures BuildContext(codec, header, old(accounts), old(contacts)).Ok? ==>
        var ctx := BuildContext(codec, header, old(accounts), old(contacts)).value;
        match op
        case PersonCountOp => r == Ok(CountResult(PersonCount(contacts))) && unchanged(this)
        case AllPersonsOp(phone) => r == Ok(PersonsResult(AllPersons(contacts, phone))) && unchanged(this)
        case FindPersonOp(name) => r == Ok(PersonResult(FindPerson(contacts, name))) && unchanged(this)
        case MeOp => r == Ok(UserResult(Me(ctx))) && unchanged(this)
        case LoginOp(username, password) =>
          && unchanged(this)
          && r == (match Login(codec, accounts, username, password)
                   case Ok(t) => Ok(TokenResult(t))
                   case Err(e) => Err(e))
        case _ => true
    {
      var built := BuildContext(codec, header, accounts, contacts);
      if built.Err? {
        return Err(built.error);
      }
      var ctx := built.value;
      match op
      case PersonCountOp =>
        r := Ok(CountResult(PersonCount(contacts)));
      case AllPersonsOp(phone) =>
        r := Ok(PersonsResult(AllPersons(contacts, phone)));
      case FindPersonOp(name) =>
        r := Ok(PersonResult(FindPerson(contacts, name)));
      case MeOp =>
        r := Ok(UserResult(Me(ctx)));
      case LoginOp(username, password) =>
        var token := Login(codec, accounts, username, password);
        r := if token.Ok? then Ok(TokenResult(token.value)) else Err(token.error);
      case AddPersonOp(name, phone, street, city) =>
        var person := AddPerson(ctx, name, phone, street, city);
        r := if person.Ok? then Ok(PersonResult(Some(person.value))) else Err(person.error);
      case EditNumberOp(name, newPhone) =>
        var edited := EditNumber(name, newPhone);
        r := if edited.Ok? then Ok(PersonResult(edited.value)) else Err(edited.error);
      case CreateUserOp(username) =>
        var user := CreateUser(username);
        r := if user.Ok? then Ok(UserResult(Some(user.value))) else Err(user.error);
      case AddAsFriendOp(name) =>
        var user := AddAsFriend(ctx, name);
        r := if user.Ok? then Ok(UserResult(Some(user.value))) else Err(user.error);
    }
  }
}
