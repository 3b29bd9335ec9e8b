/** Lookup-or-create, stated as a function of the store: what one call of
    `getOrCreateUser` leaves in the store and returns, and the properties that
    follow for one call and for repeated calls. */
module Resolution {
  import opened JavaLang
  import opened Errors
  import opened AccountTypes
  import opened Accounts
  import opened Store

  /** `getDefaultGrantedAuthorities`: the single full-access role grant. */
  const DefaultGrantedAuthorities: seq<Authority> := [FullAccessRoleGrant]

  /** The lookup query for one stored user. The inner join produces a row per
      linked account, so a user without accounts never matches. A null email
      compares unknown under standard JPQL and SQL semantics and so never
      matches either; this is an assumption about the persistence provider.
      The account type parameter is compared by its stored string id. */
  predicate MatchesQuery(u: User, ident: string, t: AccountType, email: Option<string>) {
    exists k :: 0 <= k < |u.accounts| &&
      ((u.accounts[k].ident == Some(ident) && u.accounts[k].storedType == Some(Id(t)))
       || (email.Some? && u.email == email))
  }

  /** The position of the user the query returns: the first match in store order. */
  function FindUser(users: seq<User>, ident: string, t: AccountType, email: Option<string>): (r: Option<nat>)
    ensures r.Some? ==> r.value < |users| && MatchesQuery(users[r.value], ident, t, email)
                        && forall j :: 0 <= j < r.value ==> !MatchesQuery(users[j], ident, t, email)
    ensures r.None? <==> forall j :: 0 <= j < |users| ==> !MatchesQuery(users[j], ident, t, email)
  {
    if users == [] then None
    else if MatchesQuery(users[0], ident, t, email) then Some(0)
    else
      match FindUser(users[1..], ident, t, email)
      case None => None
      case Some(i) => Some(i + 1)
  }

  /** `getAccounts().stream().anyMatch(a -> a.getType().equals(t))`, scanning in
      order: whether some account has type `t`, or null when the call throws
      because an account met first has no decodable type. */
  function AnyAccountOfType(accounts: seq<AccountRow>, t: AccountType): Option<bool> {
    if accounts == [] then Some(false)
    else
      match accounts[0].GetType()
      case None => None
      case Some(t0) => if t0 == t then Some(true) else AnyAccountOfType(accounts[1..], t)
  }

  /** Account `k` has type `t` and every account before it decodes. */
  predicate ReachedOfType(accounts: seq<AccountRow>, t: AccountType, k: int) {
    0 <= k < |accounts| && accounts[k].GetType() == Some(t)
    && forall j :: 0 <= j < k ==> accounts[j].GetType().Some?
  }

  lemma ReachedOfTypeShift(accounts: seq<AccountRow>, t: AccountType, k: int)
    requires accounts != [] && accounts[0].GetType().Some? && accounts[0].GetType() != Some(t)
    ensures ReachedOfType(accounts[1..], t, k) <==> ReachedOfType(accounts, t, k + 1)
  {
    var rest := accounts[1..];
    if ReachedOfType(rest, t, k) {
      assert forall j :: 1 <= j < k + 1 ==> accounts[j] == rest[j - 1];
    }
    if ReachedOfType(accounts, t, k + 1) {
      assert forall j :: 0 <= j < k ==> rest[j] == accounts[j + 1];
    }
  }

  /** The scan answers true exactly when an account of type `t` comes before any
      account whose type does not decode. */
  lemma {:induction false} AnyAccountOfTypeTrue(accounts: seq<AccountRow>, t: AccountType)
    ensures AnyAccountOfType(accounts, t) == Some(true) <==> exists k :: ReachedOfType(accounts, t, k)
  {
    if accounts != [] && accounts[0].GetType().Some? && accounts[0].GetType() != Some(t) {
      var rest := accounts[1..];
      AnyAccountOfTypeTrue(rest, t);
      if AnyAccountOfType(accounts, t) == Some(true) {
        var k :| ReachedOfType(rest, t, k);
        ReachedOfTypeShift(accounts, t, k);
      }
      if exists k :: ReachedOfType(accounts, t, k) {
        var k :| ReachedOfType(accounts, t, k);
        assert k >= 1;
        ReachedOfTypeShift(accounts, t, k - 1);
      }
    } else if accounts != [] && accounts[0].GetType().Some? {
      assert ReachedOfType(accounts, t, 0);
    }
  }

  /** The scan answers false exactly when every account decodes to another type. */
  lemma {:induction false} AnyAccountOfTypeFalse(accounts: seq<AccountRow>, t: AccountType)
    ensures AnyAccountOfType(accounts, t) == Some(false) <==>
              forall k :: 0 <= k < |accounts| ==> accounts[k].GetType().Some? && accounts[k].GetType() != Some(t)
  {
    if accounts != [] && accounts[0].GetType().Some? && accounts[0].GetType() != Some(t) {
      AnyAccountOfTypeFalse(accounts[1..], t);
      assert forall k :: 1 <= k < |accounts| ==> accounts[k] == accounts[1..][k - 1];
    }
  }

  /** Steps 2 and 3: the user the query finds, or a new user holding `email`; only
      the id counter moves, nothing is saved yet. */
  function LoadOrCreate(s: StoreState, ident: string, t: AccountType, email: Option<string>): (StoreState, User) {
    match FindUser(s.users, ident, t, email)
    case Some(i) => (s, s.users[i])
    case None => (s.(nextId := s.nextId + 1), NewUser(s.nextId).(email := email))
  }

  /** Steps 4 and 5: the username, and the names when there are at least two. */
  function ApplyProfile(u: User, ident: string, email: Option<string>, names: seq<Option<string>>): User {
    var named := u.(username := if email.Some? then email else Some(ident));
    if |names| > 1 then named.(firstName := names[0], lastName := names[1]) else named
  }

  /** The account the resolver links: generated id, provider, identity and owner. */
  function NewAccountRow(id: Uuid, t: AccountType, ident: string, owner: Uuid): AccountRow {
    AccountRow(Some(id), Some(Id(t)), Some(ident), Some(owner))
  }

  /** Step 8, done in memory after the save: empty authorities become the default grant. */
  function GrantDefault(u: User): User {
    if u.authorities == [] then u.(authorities := DefaultGrantedAuthorities) else u
  }

  /** Steps 6 to 8, after the user `u` was saved into `s2`: the account scan, the
      new account when none has the type, and the in-memory default grant. */
  function LinkAndGrant(s2: StoreState, u: User, t: AccountType, ident: string): (StoreState, Result<User, LoginError>) {
    match AnyAccountOfType(u.accounts, t)
    case None => (s2, Failure(NullPointer))
    case Some(true) => (s2, Success(GrantDefault(u)))
    case Some(false) =>
      var row := NewAccountRow(s2.nextId, t, ident, u.id);
      (StoreState(AttachAccount(s2.users, row), s2.nextId + 1),
       Success(GrantDefault(u.(accounts := u.accounts + [row]))))
  }

  /** `getOrCreateUser` once the provider is known. */
  function ResolveKnown(s: StoreState, ident: string, t: AccountType, email: Option<string>,
                        names: seq<Option<string>>): (StoreState, Result<User, LoginError>)
  {
    var (s1, loaded) := LoadOrCreate(s, ident, t, email);
    var u := ApplyProfile(loaded, ident, email, names);
    LinkAndGrant(s1.(users := Upsert(s1.users, u)), u, t, ident)
  }

  /** One call of `getOrCreateUser(ident, providerId, email, names)` against the
      store `s`: the store afterwards and the returned user or the exception. An
      unknown provider is rejected before the store is touched. */
  function Resolve(s: StoreState, ident: string, providerId: string, email: Option<string>,
                   names: seq<Option<string>>): (out: (StoreState, Result<User, LoginError>))
    ensures FromId(providerId).None? <==> out.1 == Failure(UnknownAuthProvider(providerId))
    ensures FromId(providerId).None? ==> out.0 == s
  {
    match FromId(providerId)
    case None => (s, Failure(UnknownAuthProvider(providerId)))
    case Some(t) => ResolveKnown(s, ident, t, email, names)
  }

  /** The query's condition, spelled out: the user has at least one linked account,
      and either one of its accounts has this identity at this provider, or its
      email equals the non-null email given. */
  lemma MatchesQueryIff(u: User, ident: string, t: AccountType, email: Option<string>)
    ensures MatchesQuery(u, ident, t, email) <==>
      && |u.accounts| > 0
      && ((exists k :: 0 <= k < |u.accounts| && u.accounts[k].ident == Some(ident)
                                              && u.accounts[k].storedType == Some(Id(t)))
          || (email.Some? && u.email == email))
  {
    if |u.accounts| > 0 && email.Some? && u.email == email {
      assert (u.accounts[0].ident == Some(ident) && u.accounts[0].storedType == Some(Id(t)))
             || (email.Some? && u.email == email);
    }
  }

  /** Every successful call returns a user whose username is the email, or the
      account identity when there is no email; whose names are the first two
      names when at least two were given; and whose authorities are the default
      grant if they were empty and unchanged otherwise. */
  lemma ResolveProfile(s: StoreState, ident: string, providerId: string, email: Option<string>,
                       names: seq<Option<string>>)
    requires FromId(providerId).Some?
    ensures var loaded := LoadOrCreate(s, ident, FromId(providerId).value, email).1;
            var r := Resolve(s, ident, providerId, email, names).1;
            r.Success? ==>
              && r.value.id == loaded.id && r.value.email == loaded.email
              && r.value.username == (if email.Some? then email else Some(ident))
              && (|names| > 1 ==> r.value.firstName == names[0] && r.value.lastName == names[1])
              && (|names| <= 1 ==> r.value.firstName == loaded.firstName && r.value.lastName == loaded.lastName)
              && r.value.authorities == (if loaded.authorities == [] then DefaultGrantedAuthorities else loaded.authorities)
  {
  }

  /** Linking, once the provider is known: a successful call returns a user with an account of the resolved
      type. A new account (the next id, the type, the identity, the user as owner)
      is added exactly when the user had none of that type; an existing account of
      that type is enough even when its identity differs. The call throws instead
      when an account met before one of that type does not decode. */
  lemma ResolveLinksAccount(s: StoreState, ident: string, t: AccountType, email: Option<string>,
                            names: seq<Option<string>>)
    ensures var prior := LoadOrCreate(s, ident, t, email).1.accounts;
            var (s', r) := ResolveKnown(s, ident, t, email, names);
            && (r.Failure? <==> AnyAccountOfType(prior, t).None?)
            && (r.Failure? ==> r.error == NullPointer)
            && (r.Success? ==>
                  && (exists k :: 0 <= k < |r.value.accounts| && r.value.accounts[k].GetType() == Some(t))
                  && (r.value.accounts == prior <==> exists k :: 0 <= k < |prior| && prior[k].GetType() == Some(t))
                  && (r.value.accounts != prior ==>
                        r.value.accounts == prior + [NewAccountRow(s'.nextId - 1, t, ident, r.value.id)]))
  {
    var (s1, loaded) := LoadOrCreate(s, ident, t, email);
    var u := ApplyProfile(loaded, ident, email, names);
    assert u.accounts == loaded.accounts;
    var s2 := s1.(users := Upsert(s1.users, u));
    var (s', r) := ResolveKnown(s, ident, t, email, names);
    AnyAccountOfTypeTrue(u.accounts, t);
    AnyAccountOfTypeFalse(u.accounts, t);
    match AnyAccountOfType(u.accounts, t)
    case None =>
      assert r == Failure(NullPointer);
    case Some(true) =>
      assert r == Success(GrantDefault(u));
    case Some(false) =>
      var row := NewAccountRow(s2.nextId, t, ident, u.id);
      assert s'.nextId - 1 == s2.nextId;
      assert r == Success(GrantDefault(u.(accounts := u.accounts + [row])));
      FromIdRoundTrip(t);
      assert r.value.accounts[|u.accounts|] == row;
  }

  // ---------------------------------------------------------------------------
  // The store after a call
  // ---------------------------------------------------------------------------

  /** In a valid store the id of the user at `i` is found at `i`. */
  lemma IndexOfStored(s: StoreState, i: nat)
    requires StoreValid(s) && i < |s.users|
    ensures IndexOfId(s.users, s.users[i].id) == Some(i)
  {
    assert IndexOfId(s.users, s.users[i].id).Some?;
  }

  /** The first match is determined by which users match. */
  lemma FindUserIs(users: seq<User>, ident: string, t: AccountType, email: Option<string>, i: nat)
    requires i < |users| && MatchesQuery(users[i], ident, t, email)
    requires forall j :: 0 <= j < i ==> !MatchesQuery(users[j], ident, t, email)
    ensures FindUser(users, ident, t, email) == Some(i)
  {
    assert FindUser(users, ident, t, email).Some?;
  }

  /** Matching depends only on the accounts and the email, and adding an account
      never makes a matching user stop matching. */
  lemma MatchesQueryKept(u: User, v: User, ident: string, t: AccountType, email: Option<string>)
    requires MatchesQuery(u, ident, t, email)
    requires v.email == u.email && |u.accounts| <= |v.accounts| && u.accounts == v.accounts[..|u.accounts|]
    ensures MatchesQuery(v, ident, t, email)
  {
    var k :| 0 <= k < |u.accounts| &&
      ((u.accounts[k].ident == Some(ident) && u.accounts[k].storedType == Some(Id(t)))
       || (email.Some? && u.email == email));
    assert v.accounts[k] == u.accounts[k];
  }

  /** An existing user: the first match is the user returned; every other stored
      user is left as it was, no user is added, and the email is not changed.
      The store keeps the saved state, whose authorities are the loaded ones: the
      default grant is given only to the returned instance. */
  lemma ResolveExistingUser(s: StoreState, ident: string, providerId: string, email: Option<string>,
                            names: seq<Option<string>>, i: nat)
    requires StoreValid(s) && FromId(providerId).Some?
    requires FindUser(s.users, ident, FromId(providerId).value, email) == Some(i)
    ensures var (s', r) := Resolve(s, ident, providerId, email, names);
            && |s'.users| == |s.users|
            && (forall j :: 0 <= j < |s.users| && j != i ==> s'.users[j] == s.users[j])
            && s'.users[i].id == s.users[i].id && s'.users[i].email == s.users[i].email
            && s'.users[i].authorities == s.users[i].authorities
            && (r.Success? ==> r.value.id == s.users[i].id
                               && s'.users[i] == r.value.(authorities := s.users[i].authorities))
            && (s'.nextId == s.nextId || s'.nextId == s.nextId + 1)
  {
    var t := FromId(providerId).value;
    ResolveKnownFound(s, ident, t, email, names, i);
    var u := ApplyProfile(s.users[i], ident, email, names);
    UpsertValid(s, u);
    LinkAndGrantAt(s.(users := s.users[i := u]), u, t, ident, i);
  }

  /** Steps 6 to 8 for a user saved at position `i`: only that record changes, and
      only by gaining an account; the returned instance is that record with the
      in-memory grant. */
  lemma LinkAndGrantAt(s2: StoreState, u: User, t: AccountType, ident: string, i: nat)
    requires StoreValid(s2) && i < |s2.users| && s2.users[i] == u
    ensures var (s', r) := LinkAndGrant(s2, u, t, ident);
            && |s'.users| == |s2.users|
            && (forall j :: 0 <= j < |s2.users| && j != i ==> s'.users[j] == s2.users[j])
            && s'.users[i] == u.(accounts := s'.users[i].accounts)
            && (r.Success? ==> s'.users[i] == r.value.(authorities := u.authorities))
            && (s'.nextId == s2.nextId || s'.nextId == s2.nextId + 1)
  {
    IndexOfStored(s2, i);
  }

  /** No user matches: a new user is created with the next id and the given email,
      saved at the end of the store, linked to a new account of the resolved type,
      and returned with exactly the default grant. */
  lemma ResolveNewUser(s: StoreState, ident: string, providerId: string, email: Option<string>,
                       names: seq<Option<string>>)
    requires StoreValid(s) && FromId(providerId).Some?
    requires FindUser(s.users, ident, FromId(providerId).value, email).None?
    ensures var t := FromId(providerId).value;
            var (s', r) := Resolve(s, ident, providerId, email, names);
            && r.Success?
            && r.value.id == s.nextId && r.value.email == email
            && r.value.authorities == DefaultGrantedAuthorities
            && r.value.accounts == [NewAccountRow(s.nextId + 1, t, ident, s.nextId)]
            && s'.users == s.users + [r.value.(authorities := [])]
            && s'.nextId == s.nextId + 2
  {
    ResolveKnownNew(s, ident, FromId(providerId).value, email, names);
  }

  /** A call keeps the store valid, whatever its outcome. */
  lemma ResolvePreservesValid(s: StoreState, ident: string, providerId: string, email: Option<string>,
                              names: seq<Option<string>>)
    requires StoreValid(s)
    ensures StoreValid(Resolve(s, ident, providerId, email, names).0)
  {
    if FromId(providerId).Some? {
      var t := FromId(providerId).value;
      var (s1, loaded) := LoadOrCreate(s, ident, t, email);
      assert StoreValid(s1) && loaded.id < s1.nextId;
      var u := ApplyProfile(loaded, ident, email, names);
      UpsertValid(s1, u);
      var s2 := s1.(users := Upsert(s1.users, u));
      AttachAccountValid(s2, NewAccountRow(s2.nextId, t, ident, u.id));
    }
  }

  // ---------------------------------------------------------------------------
  // Repeated logins
  // ---------------------------------------------------------------------------

  /** Adding an account of type `t` behind accounts that all decode to other types
      makes the scan find one. */
  lemma {:induction false} AnyAccountOfTypeAppend(accounts: seq<AccountRow>, row: AccountRow, t: AccountType)
    requires AnyAccountOfType(accounts, t) == Some(false) && row.GetType() == Some(t)
    ensures AnyAccountOfType(accounts + [row], t) == Some(true)
  {
    if accounts != [] {
      AnyAccountOfTypeAppend(accounts[1..], row, t);
      assert (accounts + [row])[1..] == accounts[1..] + [row];
    }
  }

  /** A store in which the first match already has the profile and an account of
      the type: the call changes nothing and returns that user. */
  lemma ResolveFixedPoint(s: StoreState, ident: string, t: AccountType, email: Option<string>,
                          names: seq<Option<string>>, i: nat)
    requires StoreValid(s) && FindUser(s.users, ident, t, email) == Some(i)
    requires ApplyProfile(s.users[i], ident, email, names) == s.users[i]
    requires AnyAccountOfType(s.users[i].accounts, t) == Some(true)
    ensures ResolveKnown(s, ident, t, email, names) == (s, Success(GrantDefault(s.users[i])))
  {
    IndexOfStored(s, i);
    assert s.users[i := s.users[i]] == s.users;
  }

  /** The first login of an existing user, in full: the profile is saved in place
      and, when the user had no account of the type, one is attached. */
  lemma ResolveKnownFound(s: StoreState, ident: string, t: AccountType, email: Option<string>,
                          names: seq<Option<string>>, i: nat)
    requires StoreValid(s) && FindUser(s.users, ident, t, email) == Some(i)
    ensures var u := ApplyProfile(s.users[i], ident, email, names);
            ResolveKnown(s, ident, t, email, names) == LinkAndGrant(s.(users := s.users[i := u]), u, t, ident)
  {
    IndexOfStored(s, i);
  }

  /** The second login of an existing user finds it again, now carrying the
      profile and an account of the type. */
  lemma ResolveKnownIdempotentFound(s: StoreState, ident: string, t: AccountType, email: Option<string>,
                                    names: seq<Option<string>>, i: nat)
    requires StoreValid(s) && FindUser(s.users, ident, t, email) == Some(i)
    requires ResolveKnown(s, ident, t, email, names).1.Success?
    ensures var (s1, r1) := ResolveKnown(s, ident, t, email, names);
            ResolveKnown(s1, ident, t, email, names) == (s1, r1)
  {
    ResolveKnownFound(s, ident, t, email, names, i);
    var u := ApplyProfile(s.users[i], ident, email, names);
    var s2 := s.(users := s.users[i := u]);
    UpsertValid(s, u);
    IndexOfStored(s, i);
    MatchesQueryKept(s.users[i], u, ident, t, email);
    if AnyAccountOfType(u.accounts, t) == Some(true) {
      FoundAgainKept(s, ident, t, email, names, i, s2, u);
    } else {
      FoundAgainLinked(s, ident, t, email, names, i, s2, u);
    }
  }

  lemma FoundAgainKept(s: StoreState, ident: string, t: AccountType, email: Option<string>,
                       names: seq<Option<string>>, i: nat, s2: StoreState, u: User)
    requires StoreValid(s2) && i < |s.users| && s2 == s.(users := s.users[i := u])
    requires forall j :: 0 <= j < i ==> !MatchesQuery(s.users[j], ident, t, email)
    requires u == ApplyProfile(s.users[i], ident, email, names) && MatchesQuery(u, ident, t, email)
    requires AnyAccountOfType(u.accounts, t) == Some(true)
    ensures ResolveKnown(s2, ident, t, email, names) == LinkAndGrant(s2, u, t, ident)
  {
    FindUserIs(s2.users, ident, t, email, i);
    ResolveFixedPoint(s2, ident, t, email, names, i);
  }

  lemma FoundAgainLinked(s: StoreState, ident: string, t: AccountType, email: Option<string>,
                         names: seq<Option<string>>, i: nat, s2: StoreState, u: User)
    requires StoreValid(s2) && i < |s.users| && s2 == s.(users := s.users[i := u])
    requires forall j :: 0 <= j < i ==> !MatchesQuery(s.users[j], ident, t, email)
    requires u == ApplyProfile(s.users[i], ident, email, names) && MatchesQuery(u, ident, t, email)
    requires AnyAccountOfType(u.accounts, t) == Some(false)
    ensures var (s1, r1) := LinkAndGrant(s2, u, t, ident);
            ResolveKnown(s1, ident, t, email, names) == (s1, r1)
  {
    var row := NewAccountRow(s2.nextId, t, ident, u.id);
    var linked := u.(accounts := u.accounts + [row]);
    var s1 := StoreState(s2.users[i := linked], s2.nextId + 1);
    LinkAt(s2, u, t, ident, i);
    AttachAccountValid(s2, row);
    MatchesQueryKept(u, linked, ident, t, email);
    assert forall j :: 0 <= j < i ==> s1.users[j] == s.users[j];
    FindUserIs(s1.users, ident, t, email, i);
    FromIdRoundTrip(t);
    AnyAccountOfTypeAppend(u.accounts, row, t);
    ResolveFixedPoint(s1, ident, t, email, names, i);
  }

  /** Steps 6 to 8 for a saved user without an account of the type: the new
      account is attached to that user's record. */
  lemma LinkAt(s2: StoreState, u: User, t: AccountType, ident: string, i: nat)
    requires StoreValid(s2) && i < |s2.users| && s2.users[i] == u
    requires AnyAccountOfType(u.accounts, t) == Some(false)
    ensures var row := NewAccountRow(s2.nextId, t, ident, u.id);
            var linked := u.(accounts := u.accounts + [row]);
            && AttachAccount(s2.users, row) == s2.users[i := linked]
            && LinkAndGrant(s2, u, t, ident) == (StoreState(s2.users[i := linked], s2.nextId + 1), Success(GrantDefault(linked)))
  {
    IndexOfStored(s2, i);
  }

  /** What a call that finds no user does, in full. */
  lemma ResolveKnownNew(s: StoreState, ident: string, t: AccountType, email: Option<string>,
                        names: seq<Option<string>>)
    requires StoreValid(s) && FindUser(s.users, ident, t, email).None?
    ensures var linked := ApplyProfile(NewUser(s.nextId).(email := email), ident, email, names)
                            .(accounts := [NewAccountRow(s.nextId + 1, t, ident, s.nextId)]);
            ResolveKnown(s, ident, t, email, names)
              == (StoreState(s.users + [linked], s.nextId + 2), Success(GrantDefault(linked)))
  {
    var u := ApplyProfile(NewUser(s.nextId).(email := email), ident, email, names);
    assert IndexOfId(s.users, s.nextId).None?;
    var s2 := StoreState(s.users + [u], s.nextId + 1);
    assert ResolveKnown(s, ident, t, email, names) == LinkAndGrant(s2, u, t, ident);
    LinkNewUser(s, u, t, ident);
  }

  /** Steps 6 to 8 for a user without accounts just appended to the store. */
  lemma LinkNewUser(s: StoreState, u: User, t: AccountType, ident: string)
    requires StoreValid(s) && u.id == s.nextId && u.accounts == []
    ensures var linked := u.(accounts := [NewAccountRow(s.nextId + 1, t, ident, s.nextId)]);
            LinkAndGrant(StoreState(s.users + [u], s.nextId + 1), u, t, ident)
              == (StoreState(s.users + [linked], s.nextId + 2), Success(GrantDefault(linked)))
  {
    var s2 := StoreState(s.users + [u], s.nextId + 1);
    assert StoreValid(s2);
    IndexOfStored(s2, |s.users|);
    var row := NewAccountRow(s.nextId + 1, t, ident, s.nextId);
    assert [] + [row] == [row];
    assert s2.users[|s.users| := u.(accounts := [row])] == s.users + [u.(accounts := [row])];
  }

  /** The second login after a first one created the user finds the new user
      through the account created with it. */
  lemma ResolveKnownIdempotentNew(s: StoreState, ident: string, t: AccountType, email: Option<string>,
                                  names: seq<Option<string>>)
    requires StoreValid(s) && FindUser(s.users, ident, t, email).None?
    ensures var (s1, r1) := ResolveKnown(s, ident, t, email, names);
            ResolveKnown(s1, ident, t, email, names) == (s1, r1)
  {
    ResolveKnownNew(s, ident, t, email, names);
    var row := NewAccountRow(s.nextId + 1, t, ident, s.nextId);
    var linked := ApplyProfile(NewUser(s.nextId).(email := email), ident, email, names).(accounts := [row]);
    var s1 := StoreState(s.users + [linked], s.nextId + 2);
    var i := |s.users|;
    assert StoreValid(s1);
    assert s1.users[i] == linked;
    assert linked.accounts[0].ident == Some(ident) && linked.accounts[0].storedType == Some(Id(t));
    assert MatchesQuery(linked, ident, t, email);
    FindUserIs(s1.users, ident, t, email, i);
    FromIdRoundTrip(t);
    AnyAccountOfTypeAppend([], row, t);
    assert [] + [row] == linked.accounts;
    ResolveFixedPoint(s1, ident, t, email, names, i);
  }

  /** Logging in again with the same claims changes nothing: the store stays as the
      first login left it and the same user, with the same single link to the
      provider, is returned. */
  lemma ResolveIdempotent(s: StoreState, ident: string, providerId: string, email: Option<string>,
                          names: seq<Option<string>>)
    requires StoreValid(s)
    requires Resolve(s, ident, providerId, email, names).1.Success?
    ensures var (s1, r1) := Resolve(s, ident, providerId, email, names);
            Resolve(s1, ident, providerId, email, names) == (s1, r1)
  {
    var t := FromId(providerId).value;
    match FindUser(s.users, ident, t, email)
    case Some(i) => ResolveKnownIdempotentFound(s, ident, t, email, names, i);
    case None => ResolveKnownIdempotentNew(s, ident, t, email, names);
  }
}
