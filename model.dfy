/** The stored entities of the contact directory and the read side of the
    repository the resolvers use: first-match lookups (Mongoose `findOne`,
    `findById`), filtering (`find`), and the expansion of an account's
    friend identifiers into contact records (`populate("friends")`). */
module Model {
  import opened Wrappers

  /** Document identifiers are opaque; the model hands out naturals from a
      counter, as fresh ObjectIds would be. */
  type Id = nat

  /** The `phone` field of a Person document. It is `Unset` when the field was
      never set (the argument was omitted) and `Null` when it was set to null. */
  datatype Phone = Unset | Null | Number(digits: string)

  /** A stored Person document. */
  datatype Contact = Contact(name: string, phone: Phone, street: string, city: string, id: Id)

  /** A stored User document: `friends` holds contact identifiers. */
  datatype Account = Account(username: string, friends: seq<Id>, id: Id)

  /** A User document as the request context holds it, with `friends`
      populated to full contact records. */
  datatype User = User(username: string, friends: seq<Contact>, id: Id)

  /** The derived `Person.address` field. */
  datatype Address = Address(street: string, city: string)

  /** The arguments a failed save reports back as `invalidArgs`. */
  datatype Args =
    | PersonArgs(name: string, phone: Phone, street: string, city: string)
    | EditArgs(editName: string, newPhone: string)
    | UserArgs(username: string)

  /** What a request can fail with. */
  datatype Failure =
    | NotAuthenticated            // protected mutation without a current user
    | InvalidToken                // the bearer token does not verify
    | ValidationFailed(invalidArgs: Args)  // a save rejected, reported with the arguments
    | WrongCredentials            // login: unknown user or wrong password, alike
    | NullDereference             // addAsFriend on a name no contact has
    | SaveRejected                // addAsFriend: saving the caller was rejected, uncaught

  predicate Distinct<T(==)>(s: seq<T>) {
    forall i, j :: 0 <= i < j < |s| ==> s[i] != s[j]
  }

  /** Index of the first element satisfying `p`, if any. */
  function First<T>(s: seq<T>, p: T -> bool): (r: Option<nat>)
    ensures r.Some? ==> r.value < |s| && p(s[r.value])
    ensures r.Some? ==> forall j :: 0 <= j < r.value ==> !p(s[j])
    ensures r.None? ==> forall j :: 0 <= j < |s| ==> !p(s[j])
  {
    if s == [] then None
    else if p(s[0]) then Some(0)
    else match First(s[1..], p)
      case None => None
      case Some(k) => Some(k + 1)
  }

  /** The elements satisfying `p`, in their stored order. */
  function Filter<T(!new)>(s: seq<T>, p: T -> bool): (r: seq<T>)
    ensures forall x :: x in r <==> x in s && p(x)
    ensures |r| <= |s|
  {
    if s == [] then []
    else (if p(s[0]) then [s[0]] else []) + Filter(s[1..], p)
  }

  /** Filtering by a predicate and by its negation splits the sequence:
      every element lands in exactly one of the two results. */
  lemma {:induction false} FilterPartition<T(!new)>(s: seq<T>, p: T -> bool, q: T -> bool)
    requires forall x :: q(x) == !p(x)
    ensures multiset(Filter(s, p)) + multiset(Filter(s, q)) == multiset(s)
  {
    if s != [] {
      FilterPartition(s[1..], p, q);
      var head := multiset{s[0]};
      assert multiset(s) == head + multiset(s[1..]) by {
        assert s == [s[0]] + s[1..];
      }
      if p(s[0]) {
        assert multiset(Filter(s, p)) == head + multiset(Filter(s[1..], p));
        assert Filter(s, q) == Filter(s[1..], q);
      } else {
        assert Filter(s, p) == Filter(s[1..], p);
        assert multiset(Filter(s, q)) == head + multiset(Filter(s[1..], q));
      }
    }
  }

  function Ids(contacts: seq<Contact>): seq<Id> {
    seq(|contacts|, i requires 0 <= i < |contacts| => contacts[i].id)
  }

  function AccountIds(accounts: seq<Account>): seq<Id> {
    seq(|accounts|, i requires 0 <= i < |accounts| => accounts[i].id)
  }

  /** `Person.findById(id)`: the contact stored under `id`, if any. */
  function ContactById(contacts: seq<Contact>, id: Id): (r: Option<Contact>)
    ensures r.Some? ==> r.value in contacts && r.value.id == id
    ensures r.None? <==> id !in Ids(contacts)
  {
    match First(contacts, (c: Contact) => c.id == id)
    case None => None
    case Some(k) => assert Ids(contacts)[k] == contacts[k].id; Some(contacts[k])
  }

  /** `User.findById(id)`: the account stored under `id`, if any. */
  function AccountById(accounts: seq<Account>, id: Id): (r: Option<Account>)
    ensures r.Some? ==> r.value in accounts && r.value.id == id
    ensures r.None? <==> id !in AccountIds(accounts)
  {
    match First(accounts, (a: Account) => a.id == id)
    case None => None
    case Some(k) => assert AccountIds(accounts)[k] == accounts[k].id; Some(accounts[k])
  }

  /** `User.findOne({ username })`: the first account with that username. */
  function AccountByUsername(accounts: seq<Account>, username: string): (r: Option<Account>)
    ensures r.Some? ==> r.value in accounts && r.value.username == username
    ensures r.None? <==> forall a :: a in accounts ==> a.username != username
    ensures r.Some? ==> exists k :: 0 <= k < |accounts| && accounts[k] == r.value &&
                                    (forall j :: 0 <= j < k ==> accounts[j].username != username)
  {
    match First(accounts, (a: Account) => a.username == username)
    case None => None
    case Some(k) => Some(accounts[k])
  }

  /** Where identifiers are unique, looking a stored contact up by its own
      identifier finds that very contact. */
  lemma ContactByIdFinds(contacts: seq<Contact>, c: Contact)
    requires Distinct(Ids(contacts)) && c in contacts
    ensures ContactById(contacts, c.id) == Some(c)
  {
    var k :| 0 <= k < |contacts| && contacts[k] == c;
    var f := ContactById(contacts, c.id).value;
    var j :| 0 <= j < |contacts| && contacts[j] == f;
    assert Ids(contacts)[j] == Ids(contacts)[k];
  }

  /** Where identifiers are unique, looking a stored account up by its own
      identifier finds that very account. */
  lemma AccountByIdFinds(accounts: seq<Account>, a: Account)
    requires Distinct(AccountIds(accounts)) && a in accounts
    ensures AccountById(accounts, a.id) == Some(a)
  {
    var k :| 0 <= k < |accounts| && accounts[k] == a;
    var f := AccountById(accounts, a.id).value;
    var j :| 0 <= j < |accounts| && accounts[j] == f;
    assert AccountIds(accounts)[j] == AccountIds(accounts)[k];
  }

  /** `populate("friends")`: each identifier replaced by the contact it
      names, in order; identifiers that name no contact are dropped. */
  function Populate(ids: seq<Id>, contacts: seq<Contact>): (r: seq<Contact>)
    ensures |r| <= |ids|
    ensures forall c :: c in r ==> c in contacts && c.id in ids
  {
    if ids == [] then []
    else
      var rest := Populate(ids[1..], contacts);
      match ContactById(contacts, ids[0])
      case None => rest
      case Some(c) => [c] + rest
  }

  /** The user record an account is served as. */
  function View(a: Account, contacts: seq<Contact>): User {
    User(a.username, Populate(a.friends, contacts), a.id)
  }

  /** Saving a populated friend list stores the identifiers it was
      populated from: when every friend exists, depopulating undoes populating. */
  lemma {:induction false} PopulateRoundTrip(ids: seq<Id>, contacts: seq<Contact>)
    requires forall id :: id in ids ==> id in Ids(contacts)
    ensures Ids(Populate(ids, contacts)) == ids
  {
    if ids != [] {
      PopulateRoundTrip(ids[1..], contacts);
      var c := ContactById(contacts, ids[0]).value;
      assert Populate(ids, contacts) == [c] + Populate(ids[1..], contacts);
      IdsAppend([c], Populate(ids[1..], contacts));
      assert ids == [ids[0]] + ids[1..];
    }
  }

  lemma {:induction false} PopulateAppend(xs: seq<Id>, ys: seq<Id>, contacts: seq<Contact>)
    ensures Populate(xs + ys, contacts) == Populate(xs, contacts) + Populate(ys, contacts)
  {
    if xs != [] {
      assert (xs + ys)[1..] == xs[1..] + ys;
      PopulateAppend(xs[1..], ys, contacts);
    } else {
      assert xs + ys == ys;
    }
  }

  lemma DistinctAppend<T>(s: seq<T>, x: T)
    requires Distinct(s) && x !in s
    ensures Distinct(s + [x])
  {
  }

  lemma IdsAppend(xs: seq<Contact>, ys: seq<Contact>)
    ensures Ids(xs + ys) == Ids(xs) + Ids(ys)
  {
  }

  /** Saving an existing contact: the stored record with the same identifier
      is replaced. */
  function ReplaceContact(contacts: seq<Contact>, c: Contact): seq<Contact> {
    seq(|contacts|, i requires 0 <= i < |contacts| => if contacts[i].id == c.id then c else contacts[i])
  }

  /** Saving an existing account: the stored record with the same identifier
      is replaced. */
  function ReplaceAccount(accounts: seq<Account>, a: Account): seq<Account> {
    seq(|accounts|, i requires 0 <= i < |accounts| => if accounts[i].id == a.id then a else accounts[i])
  }

  /** Saving a contact changes exactly the one stored record that shares its
      identifier, and keeps every identifier where it was. */
  lemma ReplaceContactAt(contacts: seq<Contact>, k: nat, c: Contact)
    requires Distinct(Ids(contacts)) && k < |contacts| && contacts[k].id == c.id
    ensures ReplaceContact(contacts, c) == contacts[k := c]
    ensures Ids(ReplaceContact(contacts, c)) == Ids(contacts)
  {
    forall i | 0 <= i < |contacts| && i != k
      ensures contacts[i].id != c.id
    {
      assert Ids(contacts)[i] != Ids(contacts)[k];
    }
  }

  /** Saving an account changes exactly the one stored record that shares
      its identifier, and keeps every identifier where it was. */
  lemma ReplaceAccountAt(accounts: seq<Account>, k: nat, a: Account)
    requires Distinct(AccountIds(accounts)) && k < |accounts| && accounts[k].id == a.id
    ensures ReplaceAccount(accounts, a) == accounts[k := a]
    ensures AccountIds(ReplaceAccount(accounts, a)) == AccountIds(accounts)
  {
    forall i | 0 <= i < |accounts| && i != k
      ensures accounts[i].id != a.id
    {
      assert AccountIds(accounts)[i] != AccountIds(accounts)[k];
    }
  }

  /** addAsFriend's intended update of a friend list: append the contact
      unless its identifier is already there. */
  function FriendStep(friends: seq<Id>, id: Id): (r: seq<Id>)
    ensures id in r
    ensures forall f :: f in friends ==> f in r
    ensures forall f :: f in r ==> f in friends || f == id
    ensures Distinct(friends) ==> Distinct(r)
    ensures id in friends ==> r == friends
    ensures id !in friends ==> |r| == |friends| + 1 && r[..|friends|] == friends && r[|friends|] == id
  {
    if id in friends then friends else friends + [id]
  }

  /** Adding the same friend again changes nothing. */
  lemma FriendStepIdempotent(friends: seq<Id>, id: Id)
    ensures FriendStep(FriendStep(friends, id), id) == FriendStep(friends, id)
  {
  }

  /** From a duplicate-free list, the added friend occurs exactly once. */
  lemma FriendStepOnce(friends: seq<Id>, id: Id)
    requires Distinct(friends)
    ensures multiset(FriendStep(friends, id))[id] == 1
  {
    DistinctOnce(FriendStep(friends, id), id);
  }

  lemma {:induction false} DistinctOnce<T>(s: seq<T>, x: T)
    requires Distinct(s) && x in s
    ensures multiset(s)[x] == 1
  {
    assert s == [s[0]] + s[1..];
    if s[0] == x {
      assert x !in s[1..];
    } else {
      DistinctOnce(s[1..], x);
    }
  }

  /** addAsFriend's update as written: `includes` compares ObjectId
      instances by reference, and the caller's populated friends never share
      an instance with the contact just fetched, so the guard never sees a
      match and the contact is always appended. */
  function FriendStepAsWritten(friends: seq<Id>, id: Id): (r: seq<Id>)
    ensures |r| == |friends| + 1 && r[..|friends|] == friends && r[|friends|] == id
  {
    friends + [id]
  }

  /** As written, adding the same friend twice stores it twice. */
  lemma AsWrittenDuplicates(friends: seq<Id>, id: Id)
    ensures !Distinct(FriendStepAsWritten(FriendStepAsWritten(friends, id), id))
    ensures FriendStepAsWritten(FriendStepAsWritten(friends, id), id) != FriendStepAsWritten(friends, id)
  {
    var twice := FriendStepAsWritten(FriendStepAsWritten(friends, id), id);
    assert twice[|friends|] == twice[|friends| + 1];
  }
}
