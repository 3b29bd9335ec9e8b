/** The user store that login resolution reads and writes: users, each holding
    the rows of the accounts linked to it, and the generator of entity ids. */
module Store {
  import opened JavaLang
  import opened Accounts

  /** A granted authority. The resolver only ever issues the full-access role
      grant; any other grant a user already holds is kept as it is. */
  datatype Authority = FullAccessRoleGrant | RoleGrant(code: string)

  /** A user as loaded, changed in memory, and saved. */
  datatype User = User(id: Uuid, username: Option<string>, email: Option<string>,
                       firstName: Option<string>, lastName: Option<string>,
                       authorities: seq<Authority>, accounts: seq<AccountRow>)

  /** `create(User.class)`: a new instance with a generated id and nothing else set. */
  function NewUser(id: Uuid): User {
    User(id, None, None, None, None, [], [])
  }

  /** The stored users in the order the store returns them, and the next id the
      store will hand out. */
  datatype StoreState = StoreState(users: seq<User>, nextId: nat)

  /** Ids are primary keys: distinct, and all issued before `nextId`. */
  predicate StoreValid(s: StoreState) {
    && (forall i :: 0 <= i < |s.users| ==> s.users[i].id < s.nextId)
    && (forall i, j :: 0 <= i < j < |s.users| ==> s.users[i].id != s.users[j].id)
  }

  /** The position of the user with id `id`. */
  function IndexOfId(users: seq<User>, id: Uuid): (r: Option<nat>)
    ensures r.Some? ==> r.value < |users| && users[r.value].id == id
                        && forall j :: 0 <= j < r.value ==> users[j].id != id
    ensures r.None? <==> forall j :: 0 <= j < |users| ==> users[j].id != id
  {
    if users == [] then None
    else if users[0].id == id then Some(0)
    else
      match IndexOfId(users[1..], id)
      case None => None
      case Some(i) => Some(i + 1)
  }

  /** `save(user)`: the stored record with the user's id is replaced, or the user
      is inserted when it has not been saved before. */
  function Upsert(users: seq<User>, u: User): seq<User> {
    match IndexOfId(users, u.id)
    case Some(i) => users[i := u]
    case None => users + [u]
  }

  /** `save(account)`: the row joins the accounts of the user it names as owner. */
  function AttachAccount(users: seq<User>, row: AccountRow): seq<User> {
    if row.owner.None? then users
    else
      match IndexOfId(users, row.owner.value)
      case None => users
      case Some(i) => users[i := users[i].(accounts := users[i].accounts + [row])]
  }

  /** Saving a user whose id was issued keeps the store valid. */
  lemma UpsertValid(s: StoreState, u: User)
    requires StoreValid(s) && u.id < s.nextId
    ensures StoreValid(s.(users := Upsert(s.users, u)))
  {
    match IndexOfId(s.users, u.id)
    case Some(i) =>
      var t := s.users[i := u];
      assert forall j :: 0 <= j < |t| ==> t[j].id == s.users[j].id;
    case None =>
  }

  /** Attaching an account changes no user id, so it keeps the store valid. */
  lemma AttachAccountValid(s: StoreState, row: AccountRow)
    requires StoreValid(s)
    ensures StoreValid(s.(users := AttachAccount(s.users, row)))
  {
    if row.owner.Some? && IndexOfId(s.users, row.owner.value).Some? {
      var i := IndexOfId(s.users, row.owner.value).value;
      var t := s.users[i := s.users[i].(accounts := s.users[i].accounts + [row])];
      assert forall j :: 0 <= j < |t| ==> t[j].id == s.users[j].id;
    }
  }

  /** The store behind the data manager. */
  class DataManager {
    var users: seq<User>
    var nextId: nat

    function State(): StoreState
      reads this
    {
      StoreState(users, nextId)
    }

    ghost predicate Valid()
      reads this
    {
      StoreValid(State())
    }

    /** An empty store. */
    constructor ()
      ensures Valid() && users == [] && nextId == 0
    {
      users, nextId := [], 0;
    }

    /** `create(User.class)`: a fresh user, not yet saved. */
    method CreateUser() returns (u: User)
      requires Valid()
      modifies this
      ensures Valid()
      ensures u == NewUser(old(nextId)) && nextId == old(nextId) + 1 && users == old(users)
    {
      u := NewUser(nextId);
      nextId := nextId + 1;
    }

    /** `create(Account.class)`: a fresh account entity carrying only its generated id. */
    method CreateAccount() returns (a: Account)
      requires Valid()
      modifies this
      ensures Valid() && fresh(a)
      ensures a.id == Some(old(nextId)) && a.storedType.None? && a.ident.None? && a.user.None?
      ensures nextId == old(nextId) + 1 && users == old(users)
    {
      a := new Account();
      a.SetId(Some(nextId));
      nextId := nextId + 1;
    }

    /** `save(user)`: the returned instance is the saved state of `u`. */
    method SaveUser(u: User) returns (saved: User)
      requires Valid() && u.id < nextId
      modifies this
      ensures Valid()
      ensures saved == u && users == Upsert(old(users), u) && nextId == old(nextId)
    {
      UpsertValid(State(), u);
      users := Upsert(users, u);
      saved := u;
    }

    /** `save(account)`: the row is stored with its owner; the returned instance
        is the saved row. */
    method SaveAccount(a: Account) returns (saved: AccountRow)
      requires Valid()
      modifies this
      ensures Valid()
      ensures saved == a.Row() && users == AttachAccount(old(users), a.Row()) && nextId == old(nextId)
    {
      saved := a.Row();
      AttachAccountValid(State(), saved);
      users := AttachAccount(users, saved);
    }
  }
}
