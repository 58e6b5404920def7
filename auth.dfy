/** The request-context step: the `Authorization` header is parsed for a
    bearer token, the token is verified, and the account it names is loaded
    with its friends populated. The token codec (JWT signing with the
    process secret) is a collaborator the model receives as a value. */
module Auth {
  import opened Wrappers
  import opened Model

  /** What a token carries: the account's username and identifier. */
  datatype Payload = Payload(username: string, id: Id)

  /** The token codec configured with the process secret: `sign` produces
      the token text, `verify` recovers the payload or rejects the text. */
  datatype Codec = Codec(sign: Payload -> string, verify: string -> Option<Payload>)

  /** The one property the model relies on: a signed payload verifies to itself. */
  ghost predicate Sound(codec: Codec) {
    forall p :: codec.verify(codec.sign(p)) == Some(p)
  }

  /** The per-request context: the current user, if any. */
  datatype Context = Context(currentUser: Option<User>)

  /** The scheme prefix, compared after lower-casing the header. */
  const BearerPrefix: string := "bearer "

  /** `toLowerCase` on one character. Only A-Z is mapped: no other
      character lowers to a letter of the prefix "bearer ". */
  function LowerChar(ch: char): char {
    if 'A' <= ch <= 'Z' then (ch as int + 32) as char else ch
  }

  function Lower(s: string): string {
    seq(|s|, i requires 0 <= i < |s| => LowerChar(s[i]))
  }

  /** The token in an `Authorization` header: present when the header's
      lower-cased form starts with "bearer ", and then the header after its
      first seven characters, with its case kept. */
  function BearerToken(header: Option<string>): (t: Option<string>)
    ensures t.Some? <==> header.Some? && |BearerPrefix| <= |header.value| &&
                         Lower(header.value[..|BearerPrefix|]) == BearerPrefix
    ensures t.Some? ==> t.value == header.value[|BearerPrefix|..]
  {
    match header
    case None => None
    case Some(h) =>
      if |BearerPrefix| <= |h| && Lower(h)[..|BearerPrefix|] == BearerPrefix
      then Some(h[|BearerPrefix|..])
      else None
  }

  /** Any casing of the scheme is accepted, and the token is what follows it. */
  lemma BearerAnyCase(scheme: string, token: string)
    requires |scheme| == |BearerPrefix| && Lower(scheme) == BearerPrefix
    ensures BearerToken(Some(scheme + token)) == Some(token)
  {
  }

  /** Conversely, an accepted header is a scheme spelled "bearer " in some
      casing followed by the token, unchanged. */
  lemma BearerTokenSplits(h: string, token: string)
    requires BearerToken(Some(h)) == Some(token)
    ensures |BearerPrefix| <= |h| && h == h[..|BearerPrefix|] + token
    ensures Lower(h[..|BearerPrefix|]) == BearerPrefix
  {
  }

  /** Headers that differ only in letter case are accepted or refused
      together. */
  lemma BearerCaseInsensitive(h1: string, h2: string)
    requires Lower(h1) == Lower(h2)
    ensures BearerToken(Some(h1)).Some? <==> BearerToken(Some(h2)).Some?
  {
  }

  /** `context`: no header or a non-bearer header gives an anonymous
      context; a token that does not verify fails the whole request; a
      verified token names an account by identifier, which is loaded with
      its friends populated, or the context is anonymous when none has it. */
  function BuildContext(codec: Codec, header: Option<string>, accounts: seq<Account>, contacts: seq<Contact>): (r: Result<Context, Failure>)
    ensures r.Err? ==> r.error == InvalidToken
    ensures r.Err? <==> BearerToken(header).Some? && codec.verify(BearerToken(header).value).None?
    ensures BearerToken(header).None? ==> r == Ok(Context(None))
    ensures r.Ok? && r.value.currentUser.Some? ==>
      exists a :: a in accounts && r.value.currentUser.value == View(a, contacts)
  {
    match BearerToken(header)
    case None => Ok(Context(None))
    case Some(token) =>
      match codec.verify(token)
      case None => Err(InvalidToken)
      case Some(payload) =>
        match AccountById(accounts, payload.id)
        case None => Ok(Context(None))
        case Some(a) => Ok(Context(Some(View(a, contacts))))
  }
}
