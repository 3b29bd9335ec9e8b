/** Claim extraction: the two user services turn the attributes a provider
    returned into the arguments of the lookup-or-create step. */
module Claims {
  import opened JavaLang
  import opened Errors

  /** An attribute value of the kinds the extraction reads. A JSON null is an
      absent key. */
  datatype AttrValue = StringValue(s: string) | IntegerValue(n: Int32)

  type Attributes = map<string, AttrValue>

  /** What the lookup-or-create step is called with. */
  datatype LoginClaims = LoginClaims(accountIdent: string, providerId: string,
                                     email: Option<string>, names: seq<Option<string>>)

  /** `getAttribute(key)` assigned to a `String`: null when absent, a
      ClassCastException when the value is not a string. */
  function StringAttribute(attrs: Attributes, key: string): (r: Result<Option<string>, LoginError>)
    ensures r.Failure? <==> key in attrs && attrs[key].IntegerValue?
    ensures r.Failure? ==> r.error == ClassCast(key)
    ensures r.Success? ==> (r.value.Some? <==> key in attrs)
    ensures r.Success? && r.value.Some? ==> attrs[key] == StringValue(r.value.value)
  {
    if key !in attrs then Success(None)
    else
      match attrs[key]
      case StringValue(s) => Success(Some(s))
      case IntegerValue(_) => Failure(ClassCast(key))
  }

  /** `getAttribute(key)` assigned to an `Integer`: null when absent, a
      ClassCastException when the value is not an integer. */
  function IntegerAttribute(attrs: Attributes, key: string): (r: Result<Option<Int32>, LoginError>)
    ensures r.Failure? <==> key in attrs && attrs[key].StringValue?
    ensures r.Failure? ==> r.error == ClassCast(key)
    ensures r.Success? ==> (r.value.Some? <==> key in attrs)
    ensures r.Success? && r.value.Some? ==> attrs[key] == IntegerValue(r.value.value)
  {
    if key !in attrs then Success(None)
    else
      match attrs[key]
      case IntegerValue(n) => Success(Some(n))
      case StringValue(_) => Failure(ClassCast(key))
  }

  /** `getClaimAsString(key)`: the claim converted to its string form, null when absent. */
  function ClaimAsString(attrs: Attributes, key: string): (r: Option<string>)
    ensures r.Some? <==> key in attrs
    ensures key in attrs && attrs[key].StringValue? ==> r == Some(attrs[key].s)
    ensures key in attrs && attrs[key].IntegerValue? ==> r == Some(DecimalString(attrs[key].n))
    ensures key in attrs && attrs[key].IntegerValue? ==> ParseDecimal(r.value) == Some(attrs[key].n as int)
  {
    if key !in attrs then None
    else
      match attrs[key]
      case StringValue(s) => Some(s)
      case IntegerValue(n) => DecimalRoundTrip(n); Some(DecimalString(n))
  }

  /** The generic OAuth2 user service: the account identity is the decimal
      rendering of the integer `id` ("null" when it is missing), and the names are
      the `name` attribute split at every space. A missing `name` throws when it
      is split. */
  function FromOAuth2User(registrationId: string, attrs: Attributes): (r: Result<LoginClaims, LoginError>)
    ensures r.Success? <==> && ("id" in attrs ==> attrs["id"].IntegerValue?)
                            && ("email" in attrs ==> attrs["email"].StringValue?)
                            && "name" in attrs && attrs["name"].StringValue?
    ensures r.Success? ==>
      && r.value.providerId == registrationId
      && r.value.accountIdent == ValueOf(if "id" in attrs then Some(attrs["id"].n) else None)
      && (r.value.email.Some? <==> "email" in attrs)
      && (r.value.email.Some? ==> attrs["email"] == StringValue(r.value.email.value))
      && |r.value.names| == |Split(attrs["name"].s, ' ')|
      && forall k :: 0 <= k < |r.value.names| ==> r.value.names[k] == Some(Split(attrs["name"].s, ' ')[k])
    ensures r.Failure? && ("id" in attrs ==> attrs["id"].IntegerValue?)
            && ("email" in attrs ==> attrs["email"].StringValue?) && "name" !in attrs
            ==> r.error == NullPointer
  {
    match IntegerAttribute(attrs, "id")
    case Failure(e) => Failure(e)
    case Success(id) =>
      var accountIdent := ValueOf(id);
      match StringAttribute(attrs, "email")
      case Failure(e) => Failure(e)
      case Success(email) =>
        match StringAttribute(attrs, "name")
        case Failure(e) => Failure(e)
        case Success(name) =>
          match name
          case None => Failure(NullPointer)
          case Some(n) =>
            var pieces := Split(n, ' ');
            Success(LoginClaims(accountIdent, registrationId, email,
                                seq(|pieces|, k requires 0 <= k < |pieces| => Some(pieces[k]))))
  }

  /** The OIDC user service: the account identity is the subject, and the names
      are always the pair of `given_name` and `family_name`, either of which may
      be null. The subject is present in every verified ID token (OpenID Connect
      Core 1.0, section 2). */
  function FromOidcUser(registrationId: string, claims: Attributes): (r: Result<LoginClaims, LoginError>)
    requires "sub" in claims
    ensures r.Success? <==> && ("given_name" in claims ==> claims["given_name"].StringValue?)
                            && ("family_name" in claims ==> claims["family_name"].StringValue?)
    ensures r.Success? ==>
      && r.value.providerId == registrationId
      && Some(r.value.accountIdent) == ClaimAsString(claims, "sub")
      && r.value.email == ClaimAsString(claims, "email")
      && |r.value.names| == 2
      && (r.value.names[0].Some? <==> "given_name" in claims)
      && (r.value.names[1].Some? <==> "family_name" in claims)
      && (r.value.names[0].Some? ==> claims["given_name"] == StringValue(r.value.names[0].value))
      && (r.value.names[1].Some? ==> claims["family_name"] == StringValue(r.value.names[1].value))
  {
    var accountIdent := ClaimAsString(claims, "sub").value;
    var email := ClaimAsString(claims, "email");
    match StringAttribute(claims, "given_name")
    case Failure(e) => Failure(e)
    case Success(given) =>
      match StringAttribute(claims, "family_name")
      case Failure(e) => Failure(e)
      case Success(family) => Success(LoginClaims(accountIdent, registrationId, email, [given, family]))
  }

  /** On the OAuth2 path the names are overwritten exactly when the `name`
      attribute has a non-space character after a space: "Ada Lovelace" does,
      "Prince" and "Prince " do not. */
  lemma OAuth2NamesOverwrite(registrationId: string, attrs: Attributes)
    requires FromOAuth2User(registrationId, attrs).Success?
    ensures |FromOAuth2User(registrationId, attrs).value.names| > 1
            <==> HasWordAfter(attrs["name"].s, ' ')
  {
    SplitHasSeveral(attrs["name"].s, ' ');
  }

  /** Two OAuth2 logins with different `id` attributes, or one with and one
      without, yield different account identities. */
  lemma OAuth2IdentDistinguishesIds(registrationId: string, a: Attributes, b: Attributes)
    requires FromOAuth2User(registrationId, a).Success? && FromOAuth2User(registrationId, b).Success?
    ensures FromOAuth2User(registrationId, a).value.accountIdent == FromOAuth2User(registrationId, b).value.accountIdent
            <==> ("id" in a <==> "id" in b) && ("id" in a ==> a["id"] == b["id"])
  {
    var ia: Option<Int32> := if "id" in a then Some(a["id"].n) else None;
    var ib: Option<Int32> := if "id" in b then Some(b["id"].n) else None;
    ValueOfInjective(ia, ib);
  }
}
