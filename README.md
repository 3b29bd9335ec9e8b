# Social-login identity resolution, modelled in Dafny

This project models the part of the Jmix social-login sample that runs after a
user has authenticated at Google or GitHub.

- **Claim extraction.** Two user services read the provider's attributes and
  produce four values: the account identity, the provider id, the email and the
  names.
  - The generic OAuth2 service uses the integer `id` and splits `name` at spaces.
  - The OIDC service uses the subject, the email and the given and family names.
- **Lookup-or-create (`getOrCreateUser`).** The steps run in this order:
  1. map the provider id to an account type;
  2. find a user by linked account or by email;
  3. or create a new user;
  4. set the username and the names;
  5. save the user;
  6. link an account of the provider's type if the user has none;
  7. give the default full-access grant to a user without authorities.
- **Entities.** The provider enums `AccountType` and `AuthenticationType` and
  their string ids; the `Account` entity, which stores its provider as that id;
  and the icon names derived in `AppIcons`.

The modules follow the source:

- `JavaLang`: the Java behaviour the code relies on. This covers null as
  `Option`, `String.valueOf` of a possibly-null `Integer`, and `String.split`
  with a one-character separator that is not a regular-expression
  metacharacter (the code splits on a space).
- `AccountTypes`, `AuthenticationTypes`: the enums, as pure functions.
- `Accounts`: the `Account` class with its setters, and the persisted row.
- `AppIcons`: the icon-name transform.
- `Claims`: the two extraction lambdas.
- `Store`: the data manager. A class holds the users in store order and an id
  counter.
- `Resolution`: lookup-or-create as a function `Resolve` of the store, plus
  the properties of one call and of two calls in a row.
- `Security`: `OAuth2SecurityConfiguration`. Its imperative `GetOrCreateUser`
  is proved to leave exactly the store and result that `Resolve` gives.

## Model

| member | source | states |
|---|---|---|
| JavaLang.DecimalRoundTrip | src/main/java/com/company/sociallogin/security/OAuth2SecurityConfiguration.java:113 | The decimal rendering of an integer parses back to that integer. |
| JavaLang.ValueOfInjective | src/main/java/com/company/sociallogin/security/OAuth2SecurityConfiguration.java:112-113 | `String.valueOf` of a nullable Integer is injective. A null id renders as "null", which differs from every number's rendering. |
| JavaLang.Split | src/main/java/com/company/sociallogin/security/OAuth2SecurityConfiguration.java:117 | No piece that `split(" ")` returns contains the separator. |
| JavaLang.SplitRoundTrip | src/main/java/com/company/sociallogin/security/OAuth2SecurityConfiguration.java:117 | A string without a space splits to itself alone. Otherwise split drops exactly the trailing empty pieces: the kept pieces are a prefix of all pieces, the last kept piece is non-empty, and the dropped ones are empty. All pieces join back to the input. |
| JavaLang.SplitHasSeveral | src/main/java/com/company/sociallogin/security/OAuth2SecurityConfiguration.java:117 | Split returns more than one element iff some non-space character follows a space. |
| AccountTypes.Search | src/main/java/com/company/sociallogin/entity/AccountType.java:24-31 | The search returns the first constant, in declaration order, whose id equals the input. It returns null iff no constant has that id. |
| AccountTypes.FromId | src/main/java/com/company/sociallogin/entity/AccountType.java:24-31 | A result constant has exactly the given id. Null means no declared constant has that id. |
| AccountTypes.FromIdRoundTrip | src/main/java/com/company/sociallogin/entity/AccountType.java:10-31 | `fromId(getId(t)) == t` for every constant. |
| AccountTypes.FromIdRecognises | src/main/java/com/company/sociallogin/entity/AccountType.java:10-31 | `fromId` is non-null exactly for "google" and "github", and maps them to GOOGLE and GITHUB. The match is case-sensitive. |
| AccountTypes.IdInjective | src/main/java/com/company/sociallogin/entity/AccountType.java:10-11 | The two ids differ, so `getId` is injective. |
| AuthenticationTypes.Search | src/main/java/com/company/sociallogin/entity/AuthenticationType.java:25-32 | First constant in declaration order with the given id; null iff none has it. |
| AuthenticationTypes.FromId | src/main/java/com/company/sociallogin/entity/AuthenticationType.java:25-32 | A result constant has exactly the given id. Null means no declared constant has it. |
| AuthenticationTypes.FromIdRoundTrip | src/main/java/com/company/sociallogin/entity/AuthenticationType.java:10-32 | `fromId(getId(t)) == t` for APP, GOOGLE and GITHUB. |
| AuthenticationTypes.FromIdRecognises | src/main/java/com/company/sociallogin/entity/AuthenticationType.java:10-32 | Non-null exactly for "APP", "GOOGLE" and "GITHUB", each mapped to its constant. The lowercase "google" and "github" are not recognised. |
| AuthenticationTypes.IdInjective | src/main/java/com/company/sociallogin/entity/AuthenticationType.java:10-12 | The three ids are pairwise distinct, so `getId` is injective. |
| Accounts.EncodeType | src/main/java/com/company/sociallogin/entity/Account.java:37-39 | The stored type is null exactly when the type set is null. |
| Accounts.DecodeEncode | src/main/java/com/company/sociallogin/entity/Account.java:37-43 | `getType()` after `setType(t)` returns `t`, null included. |
| Accounts.DecodeKnown | src/main/java/com/company/sociallogin/entity/Account.java:41-43 | A stored string decodes to a provider iff it is "google" or "github". Re-encoding a decoded value gives the stored string back. |
| Accounts.Account.GetType | src/main/java/com/company/sociallogin/entity/Account.java:41-43 | `getType()` is non-null iff the stored type is "google" or "github". A non-null result is the provider whose id is stored. |
| Accounts.Account.SetType | src/main/java/com/company/sociallogin/entity/Account.java:37-43 | The stored field becomes the provider's id, or null. `getType()` then returns the argument. The other fields keep their values. |
| Accounts.Account.SetUser | src/main/java/com/company/sociallogin/entity/Account.java:45-51 | `getUser()` returns the argument. The other fields keep their values. |
| Accounts.Account.SetIdent | src/main/java/com/company/sociallogin/entity/Account.java:53-59 | `getIdent()` returns the argument. The other fields keep their values. |
| Accounts.Account.SetId | src/main/java/com/company/sociallogin/entity/Account.java:61-67 | `getId()` returns the argument. The other fields keep their values. |
| AppIcons.IconName | src/main/java/com/company/sociallogin/icon/AppIcons.java:20 | The icon name has no `_` and no upper-case letter. It is as long as the constant name, or one shorter exactly when the name starts with `_` or `-`. Each character is the lower-cased source character, with `_` turned into `-`. |
| AppIcons.Create | src/main/java/com/company/sociallogin/icon/AppIcons.java:19-22 | The collection is always "app-icons". The icon name is as long as the constant's name. |
| AppIcons.DeclaredIcons | src/main/java/com/company/sociallogin/icon/AppIcons.java:11-22 | The six constants create "google", "github", "yandex", "facebook", "vk" and "discord". |
| Claims.StringAttribute | src/main/java/com/company/sociallogin/security/OAuth2SecurityConfiguration.java:115-116 | A `String` attribute is null iff absent. It throws ClassCastException iff the value is an integer. Otherwise it is the stored string. |
| Claims.IntegerAttribute | src/main/java/com/company/sociallogin/security/OAuth2SecurityConfiguration.java:112 | An `Integer` attribute is null iff absent. It throws ClassCastException iff the value is a string. Otherwise it is the stored integer. |
| Claims.ClaimAsString | src/main/java/com/company/sociallogin/security/OAuth2SecurityConfiguration.java:131-133 | A claim read as a string is null iff absent. A string claim is returned as it is. An integer claim is converted to its `Integer.toString` decimal form, which parses back to the integer. |
| Claims.FromOAuth2User | src/main/java/com/company/sociallogin/security/OAuth2SecurityConfiguration.java:109-120 | Extraction succeeds iff `id`, `email` and `name` have the right types and `name` is present; a missing `name` throws NullPointerException. On success the identity is `String.valueOf(id)`, the provider is the registration id, the email is the attribute, and the names are exactly the pieces of `name.split(" ")`. |
| Claims.FromOidcUser | src/main/java/com/company/sociallogin/security/OAuth2SecurityConfiguration.java:128-137 | Extraction succeeds iff the two name claims, when present, are strings. On success the identity is the subject and the email is the email claim. There are always two names: the given name and the family name, each null iff its claim is absent. |
| Claims.OAuth2NamesOverwrite | src/main/java/com/company/sociallogin/security/OAuth2SecurityConfiguration.java:85-117 | On the OAuth2 path the names are overwritten iff `name` has a non-space character after a space. |
| Claims.OAuth2IdentDistinguishesIds | src/main/java/com/company/sociallogin/security/OAuth2SecurityConfiguration.java:112-113 | Two OAuth2 logins get the same identity iff their `id` attributes are equal, or both absent. |
| Store.UpsertValid | src/main/java/com/company/sociallogin/security/OAuth2SecurityConfiguration.java:89 | Saving a user whose id was issued keeps ids distinct and issued. |
| Store.AttachAccountValid | src/main/java/com/company/sociallogin/security/OAuth2SecurityConfiguration.java:95 | Saving an account keeps the user ids distinct and issued. |
| Store.DataManager.CreateUser | src/main/java/com/company/sociallogin/security/OAuth2SecurityConfiguration.java:80 | A new user with a fresh id and nothing else set; no record changes. |
| Store.DataManager.CreateAccount | src/main/java/com/company/sociallogin/security/OAuth2SecurityConfiguration.java:91 | A fresh account entity with a new id and all other fields null; no record changes. |
| Store.DataManager.SaveUser | src/main/java/com/company/sociallogin/security/OAuth2SecurityConfiguration.java:89 | The user record is replaced, or appended if new. The saved instance is returned. |
| Store.DataManager.SaveAccount | src/main/java/com/company/sociallogin/security/OAuth2SecurityConfiguration.java:95 | The account's row joins its owner's accounts. The saved row is returned. |
| Resolution.FindUser | src/main/java/com/company/sociallogin/security/OAuth2SecurityConfiguration.java:73-78 | The query returns the first user in store order that satisfies it. It returns null iff no stored user does. |
| Resolution.MatchesQueryIff | src/main/java/com/company/sociallogin/security/OAuth2SecurityConfiguration.java:74 | A user matches iff it has at least one account (the inner join), and either some account has this identity and type or its email equals the non-null email. |
| Resolution.AnyAccountOfTypeTrue | src/main/java/com/company/sociallogin/security/OAuth2SecurityConfiguration.java:90 | The scan answers true iff an account of the type comes before any account whose type is null. |
| Resolution.AnyAccountOfTypeFalse | src/main/java/com/company/sociallogin/security/OAuth2SecurityConfiguration.java:90 | The scan answers false iff every account has a non-null type other than this one. In every other case `getType().equals` throws. |
| Resolution.Resolve | src/main/java/com/company/sociallogin/security/OAuth2SecurityConfiguration.java:68-72 | An unknown provider id fails with UnknownAuthProvider, and only it does. The store is then left as it was. |
| Resolution.ResolveProfile | src/main/java/com/company/sociallogin/security/OAuth2SecurityConfiguration.java:84-100 | The returned user keeps the loaded id and email. The username is the email if non-null, else the identity. The names are replaced iff there are at least two. Empty authorities become exactly the default grant; others are kept. |
| Resolution.ResolveLinksAccount | src/main/java/com/company/sociallogin/security/OAuth2SecurityConfiguration.java:90-97 | A successful call returns a user with an account of the type. A new account (next id, type, identity, the user as owner) is appended iff none of that type existed. The call throws NullPointerException iff an account with a null type comes first. |
| Resolution.ResolveExistingUser | src/main/java/com/company/sociallogin/security/OAuth2SecurityConfiguration.java:73-97 | With a match, the returned user is the matched one. Only its record changes, and it keeps its id, email and stored authorities. No user is added. |
| Resolution.ResolveNewUser | src/main/java/com/company/sociallogin/security/OAuth2SecurityConfiguration.java:79-100 | Without a match, one user is appended with a fresh id and the given email. It is linked to one new account of the type and returned with exactly the default grant. The stored record has no authorities. |
| Resolution.ResolvePreservesValid | src/main/java/com/company/sociallogin/security/OAuth2SecurityConfiguration.java:68-102 | Every call, whatever its outcome, keeps user ids distinct and issued. |
| Resolution.ResolveFixedPoint | src/main/java/com/company/sociallogin/security/OAuth2SecurityConfiguration.java:73-101 | If the first match already carries the profile and an account of the type, the store is unchanged and that user is returned. |
| Resolution.ResolveIdempotent | src/main/java/com/company/sociallogin/security/OAuth2SecurityConfiguration.java:68-102 | After a successful login, a second login with the same claims leaves the store unchanged and returns the same user; no second account is added. |
| Security.OAuth2SecurityConfiguration.GetOrCreateUser | src/main/java/com/company/sociallogin/security/OAuth2SecurityConfiguration.java:68-102 | The imperative method leaves exactly the store and returns exactly the result that `Resolve` gives. An unknown provider changes nothing. |
| Security.OAuth2SecurityConfiguration.LinkAndGrantAccount | src/main/java/com/company/sociallogin/security/OAuth2SecurityConfiguration.java:90-101 | The account scan, the account creation and save, and the in-memory grant leave exactly the store and result that `LinkAndGrant` gives. |
| Security.OAuth2SecurityConfiguration.LoadOAuth2User | src/main/java/com/company/sociallogin/security/OAuth2SecurityConfiguration.java:107-121 | An extraction failure is returned with the store untouched. Otherwise the outcome is `Resolve` on the extracted claims. |
| Security.OAuth2SecurityConfiguration.LoadOidcUser | src/main/java/com/company/sociallogin/security/OAuth2SecurityConfiguration.java:126-138 | An extraction failure is returned with the store untouched. Otherwise the outcome is `Resolve` on the extracted claims. |

## Left out

- Spring Security wiring (`configure`, the success handler and its redirect) is
  framework and HTTP plumbing. It is not modelled.
- `delegate.loadUser` fetches and verifies the user over the network. The
  attribute map it returns is an input to the extraction functions instead.
- The data manager and JPQL are modelled as follows:
  - The query is a predicate over a sequence of users, each with a sequence of
    account rows.
  - The database's result order is the order of that sequence.
  - The model assumes standard JPQL and SQL null semantics: `u.email = :email`
    with a null email never matches. A persistence provider may instead
    rewrite a comparison with a null parameter as `IS NULL`. Under that
    reading, a login without an email would match the first stored user that
    has a null email and at least one account, possibly another person's
    user. That variant is not modelled.
  - `optional()` is given the first match. The store's behaviour when several
    users match is not modelled.
- Entity ids are drawn from a counter in the store instead of random UUIDs.
  Uniqueness is kept as a store invariant.
- `Account.user` holds the owner's id, not an object reference. The in-memory
  list of accounts is a value copied into the returned user, so aliasing
  between entity instances is not modelled.
- User.java is not part of this model. A user is a record holding the fields
  the resolution reads or writes.
- `getDefaultGrantedAuthorities` and the role-grant utilities are one opaque
  grant, `FullAccessRoleGrant`.
- Transactions and concurrent logins are not modelled. The code enforces no
  uniqueness between two simultaneous first logins.
- Attribute values are strings or 32-bit integers. Other JSON types are not
  modelled, and a JSON null is an absent key.
- Claims.FromOidcUser: requires the `sub` claim to be present. OpenID Connect
  Core 1.0, section 2 makes it mandatory in every ID token.
- AppIcons.IconName: lower-cases ASCII letters only. The constants' names are
  ASCII.
- The text of exception messages is not modelled. Each exception is a
  `LoginError` variant.
- OidcUserEntity and UserListView hold no logic the resolution depends on.
- The code has none of the following, and neither has the model:
  - a rule that a single-word name becomes the family name;
  - a malformed-profile error;
  - an inconsistent-state error;
  - any update of an existing account;
  - a check for an empty email (only null is checked, at line 84 of
    OAuth2SecurityConfiguration.java).
