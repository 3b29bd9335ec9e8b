/** The `Account` entity: one link between a local user and an identity at one
    provider. The provider is stored as its string id and decoded on read. */
module Accounts {
  import opened JavaLang
  import opened AccountTypes

  /** Entity identifiers (the source's generated UUIDs). */
  type Uuid = nat

  /** `setType`: the string written to the `TYPE_` column for `t`. */
  function EncodeType(t: Option<AccountType>): (stored: Option<string>)
    ensures stored.None? <==> t.None?
  {
    match t
    case None => None
    case Some(at) => Some(Id(at))
  }

  /** `getType`: the provider decoded from the stored string; null when the column
      is null or holds an id no provider has. */
  function DecodeType(stored: Option<string>): Option<AccountType> {
    match stored
    case None => None
    case Some(s) => FromId(s)
  }

  /** Writing a provider and reading it back gives the same provider, null included. */
  lemma DecodeEncode(t: Option<AccountType>)
    ensures DecodeType(EncodeType(t)) == t
  {
    if t.Some? {
      FromIdRoundTrip(t.value);
    }
  }

  /** A stored string decodes to a provider exactly when it is one of the two ids,
      and then it is that provider's encoding. */
  lemma DecodeKnown(stored: Option<string>)
    ensures DecodeType(stored).Some? <==> stored == Some("google") || stored == Some("github")
    ensures DecodeType(stored).Some? ==> EncodeType(DecodeType(stored)) == stored
  {
    if stored.Some? {
      FromIdRecognises(stored.value);
    }
  }

  /** The persisted state of one account: the row the store holds. */
  datatype AccountRow = AccountRow(id: Option<Uuid>, storedType: Option<string>,
                                   ident: Option<string>, owner: Option<Uuid>)
  {
    /** `getType` on an account loaded with this row. */
    function GetType(): Option<AccountType> {
      DecodeType(storedType)
    }
  }

  /** An account entity in memory. The owning user is referred to by its id. */
  class Account {
    var id: Option<Uuid>
    var storedType: Option<string>
    var ident: Option<string>
    var user: Option<Uuid>

    /** A new instance with every field null. */
    constructor ()
      ensures id.None? && storedType.None? && ident.None? && user.None?
    {
      id, storedType, ident, user := None, None, None, None;
    }

    /** The row that saving this entity writes. */
    function Row(): AccountRow
      reads this
    {
      AccountRow(id, storedType, ident, user)
    }

    /** `getType`: the provider whose id is stored, or null. */
    function GetType(): (t: Option<AccountType>)
      reads this
      ensures t.Some? <==> storedType == Some("google") || storedType == Some("github")
      ensures t.Some? ==> storedType == Some(Id(t.value))
    {
      DecodeKnown(storedType);
      DecodeType(storedType)
    }

    method SetType(t: Option<AccountType>)
      modifies this
      ensures storedType == EncodeType(t)
      ensures GetType() == t
      ensures id == old(id) && ident == old(ident) && user == old(user)
    {
      storedType := EncodeType(t);
      DecodeEncode(t);
    }

    function GetUser(): Option<Uuid>
      reads this
    {
      user
    }

    method SetUser(u: Option<Uuid>)
      modifies this
      ensures GetUser() == u
      ensures id == old(id) && storedType == old(storedType) && ident == old(ident)
    {
      user := u;
    }

    function GetIdent(): Option<string>
      reads this
    {
      ident
    }

    method SetIdent(s: Option<string>)
      modifies this
      ensures GetIdent() == s
      ensures id == old(id) && storedType == old(storedType) && user == old(user)
    {
      ident := s;
    }

    function GetId(): Option<Uuid>
      reads this
    {
      id
    }

    method SetId(u: Option<Uuid>)
      modifies this
      ensures GetId() == u
      ensures storedType == old(storedType) && ident == old(ident) && user == old(user)
    {
      id := u;
    }
  }
}
