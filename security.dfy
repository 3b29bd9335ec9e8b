/** The security configuration's login logic: the two user services and the
    lookup-or-create step they share, run against the data manager. */
module Security {
  import opened JavaLang
  import opened Errors
  import opened AccountTypes
  import opened Accounts
  import opened Store
  import opened Claims
  import opened Resolution

  class OAuth2SecurityConfiguration {
    const dataManager: DataManager

    constructor (dataManager: DataManager)
      ensures this.dataManager == dataManager
    {
      this.dataManager := dataManager;
    }

    /** `getOrCreateUser`: the store and the result are exactly those `Resolve`
        describes. */
    method GetOrCreateUser(accountIdent: string, providerId: string, email: Option<string>,
                           names: seq<Option<string>>) returns (r: Result<User, LoginError>)
      requires dataManager.Valid()
      modifies dataManager
      ensures dataManager.Valid()
      ensures (dataManager.State(), r) == Resolve(old(dataManager.State()), accountIdent, providerId, email, names)
      ensures FromId(providerId).None? ==> r == Failure(UnknownAuthProvider(providerId)) && unchanged(dataManager)
    {
      ghost var s0 := dataManager.State();
      var accountType := FromId(providerId);
      if accountType.None? {
        return Failure(UnknownAuthProvider(providerId));
      }
      var t := accountType.value;
      var jmixUser: User;
      var found := FindUser(dataManager.users, accountIdent, t, email);
      if found.Some? {
        jmixUser := dataManager.users[found.value];
      } else {
        jmixUser := dataManager.CreateUser();
        jmixUser := jmixUser.(email := email);
      }
      ghost var s1, loaded := dataManager.State(), jmixUser;
      assert (s1, loaded) == LoadOrCreate(s0, accountIdent, t, email);
      jmixUser := jmixUser.(username := if email.Some? then email else Some(accountIdent));
      if |names| > 1 {
        jmixUser := jmixUser.(firstName := names[0], lastName := names[1]);
      }
      assert jmixUser == ApplyProfile(loaded, accountIdent, email, names);
      jmixUser := dataManager.SaveUser(jmixUser);
      ghost var s2 := dataManager.State();
      assert Resolve(s0, accountIdent, providerId, email, names) == LinkAndGrant(s2, jmixUser, t, accountIdent);
      r := LinkAndGrantAccount(jmixUser, t, accountIdent);
    }

    /** Steps 6 to 8 of `getOrCreateUser`, for the user just saved. */
    method LinkAndGrantAccount(jmixUser: User, t: AccountType, accountIdent: string)
      returns (r: Result<User, LoginError>)
      requires dataManager.Valid()
      modifies dataManager
      ensures dataManager.Valid()
      ensures (dataManager.State(), r) == LinkAndGrant(old(dataManager.State()), jmixUser, t, accountIdent)
    {
      var u := jmixUser;
      var hasAccount := AnyAccountOfType(u.accounts, t);
      if hasAccount.None? {
        return Failure(NullPointer);
      }
      if !hasAccount.value {
        var account := dataManager.CreateAccount();
        account.SetType(Some(t));
        account.SetIdent(Some(accountIdent));
        account.SetUser(Some(u.id));
        var saved := dataManager.SaveAccount(account);
        u := u.(accounts := u.accounts + [saved]);
      }
      if u.authorities == [] {
        u := u.(authorities := DefaultGrantedAuthorities);
      }
      return Success(u);
    }

    /** The generic OAuth2 user service: extraction, then lookup-or-create. An
        extraction failure leaves the store untouched. */
    method LoadOAuth2User(registrationId: string, attributes: Attributes) returns (r: Result<User, LoginError>)
      requires dataManager.Valid()
      modifies dataManager
      ensures dataManager.Valid()
      ensures match FromOAuth2User(registrationId, attributes)
              case Failure(e) => r == Failure(e) && unchanged(dataManager)
              case Success(c) =>
                (dataManager.State(), r) == Resolve(old(dataManager.State()), c.accountIdent, c.providerId, c.email, c.names)
    {
      var claims := FromOAuth2User(registrationId, attributes);
      if claims.Failure? {
        return Failure(claims.error);
      }
      var c := claims.value;
      r := GetOrCreateUser(c.accountIdent, c.providerId, c.email, c.names);
    }

    /** The OIDC user service: extraction, then lookup-or-create. */
    method LoadOidcUser(registrationId: string, claims: Attributes) returns (r: Result<User, LoginError>)
      requires "sub" in claims
      requires dataManager.Valid()
      modifies dataManager
      ensures dataManager.Valid()
      ensures match FromOidcUser(registrationId, claims)
              case Failure(e) => r == Failure(e) && unchanged(dataManager)
              case Success(c) =>
                (dataManager.State(), r) == Resolve(old(dataManager.State()), c.accountIdent, c.providerId, c.email, c.names)
    {
      var extracted := FromOidcUser(registrationId, claims);
      if extracted.Failure? {
        return Failure(extracted.error);
      }
      var c := extracted.value;
      r := GetOrCreateUser(c.accountIdent, c.providerId, c.email, c.names);
    }
  }
}
