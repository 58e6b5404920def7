/** The query resolvers (`personCount`, `allPersons`, `findPerson`, `me`)
    and the derived `Person.address` field. None of them changes state: each
    is a function of the stored contacts or of the request context. */
module Queries {
  import opened Wrappers
  import opened Model
  import opened Auth

  /** The `YesNo` enum of `allPersons(phone:)`. */
  datatype YesNo = YES | NO

  /** `personCount`: the number of stored contacts. */
  function PersonCount(contacts: seq<Contact>): (n: nat)
    ensures n == |AllPersons(contacts, None)|
  {
    |contacts|
  }

  /** The count is the number of contacts whose phone field is set plus the
      number where it is not. */
  lemma PersonCountSplits(contacts: seq<Contact>)
    ensures PersonCount(contacts) == |AllPersons(contacts, Some(YES))| + |AllPersons(contacts, Some(NO))|
  {
    AllPersonsPartition(contacts);
    var yes, no := AllPersons(contacts, Some(YES)), AllPersons(contacts, Some(NO));
    assert |multiset(yes) + multiset(no)| == |multiset(contacts)|;
  }

  /** The `$exists` test of `allPersons`: YES accepts contacts whose phone
      field is set, even to null; NO those where it was never set. */
  function PhoneTest(flag: YesNo): Contact -> bool {
    (c: Contact) => !c.phone.Unset? == (flag == YES)
  }

  function FilterBy(contacts: seq<Contact>, flag: YesNo): seq<Contact> {
    Filter(contacts, PhoneTest(flag))
  }

  /** `allPersons(phone)`: every contact when the flag is absent, otherwise
      the contacts whose phone presence matches the flag. */
  function AllPersons(contacts: seq<Contact>, phone: Option<YesNo>): (r: seq<Contact>)
    ensures forall c :: c in r <==>
      c in contacts && (phone == Some(YES) ==> !c.phone.Unset?) && (phone == Some(NO) ==> c.phone.Unset?)
  {
    match phone
    case None => contacts
    case Some(flag) => FilterBy(contacts, flag)
  }

  /** YES and NO split all contacts: together they hold every contact as
      often as it is stored, and no contact is in both. */
  lemma AllPersonsPartition(contacts: seq<Contact>)
    ensures multiset(AllPersons(contacts, Some(YES))) + multiset(AllPersons(contacts, Some(NO)))
         == multiset(AllPersons(contacts, None))
    ensures forall c :: c in AllPersons(contacts, Some(YES)) ==> c !in AllPersons(contacts, Some(NO))
  {
    FilterPartition(contacts, PhoneTest(YES), PhoneTest(NO));
  }

  /** `findPerson(name)`: the first contact with exactly that name, or none. */
  function FindPerson(contacts: seq<Contact>, name: string): (r: Option<Contact>)
    ensures r.None? <==> forall c :: c in contacts ==> c.name != name
    ensures r.Some? ==> exists k :: 0 <= k < |contacts| && contacts[k] == r.value && r.value.name == name &&
                                    (forall j :: 0 <= j < k ==> contacts[j].name != name)
  {
    match First(contacts, (c: Contact) => c.name == name)
    case None => None
    case Some(k) => Some(contacts[k])
  }

  /** `me`: the context's current user. */
  function Me(ctx: Context): Option<User> {
    ctx.currentUser
  }

  /** What `me` answers for a request with the given header: nobody without
      a bearer header or when the verified token names no account, and
      otherwise the named account with its friends populated. */
  lemma MeFromHeader(codec: Codec, header: Option<string>, accounts: seq<Account>, contacts: seq<Contact>)
    requires BuildContext(codec, header, accounts, contacts).Ok?
    ensures var me := Me(BuildContext(codec, header, accounts, contacts).value);
      && (BearerToken(header).None? ==> me.None?)
      && (BearerToken(header).Some? ==>
            var p := codec.verify(BearerToken(header).value).value;
            && (p.id !in AccountIds(accounts) ==> me.None?)
            && (p.id in AccountIds(accounts) ==>
                  me.Some? && me.value.id == p.id && me.value == View(AccountById(accounts, p.id).value, contacts)))
  {
  }

  /** `Person.address`: street and city of the contact. */
  function PersonAddress(c: Contact): (a: Address)
    ensures a.street == c.street && a.city == c.city
  {
    Address(c.street, c.city)
  }

  /** The address is determined by, and determines, exactly the stored street
      and city: name, phone and identifier play no part. */
  lemma AddressIsLocation(c1: Contact, c2: Contact)
    ensures PersonAddress(c1) == PersonAddress(c2) <==> c1.street == c2.street && c1.city == c2.city
  {
  }
}
