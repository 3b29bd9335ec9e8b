/** The ways a user may have authenticated: with the application's own login
    form or through one of the external providers. */
module AuthenticationTypes {
  import opened JavaLang

  datatype AuthenticationType = APP | GOOGLE | GITHUB

  /** The constants in declaration order, as `AuthenticationType.values()` lists them. */
  const Values: seq<AuthenticationType> := [APP, GOOGLE, GITHUB]

  /** `getId`: the constant's string id. */
  function Id(t: AuthenticationType): string {
    match t
    case APP => "APP"
    case GOOGLE => "GOOGLE"
    case GITHUB => "GITHUB"
  }

  /** The search loop of `fromId` over the constants `ts`: the first one whose id
      equals `id`, or null when none does. */
  function Search(ts: seq<AuthenticationType>, id: string): (r: Option<AuthenticationType>)
    ensures r.Some? ==> exists k :: 0 <= k < |ts| && ts[k] == r.value && Id(ts[k]) == id
                                 && forall j :: 0 <= j < k ==> Id(ts[j]) != id
    ensures r.None? <==> forall k :: 0 <= k < |ts| ==> Id(ts[k]) != id
  {
    if ts == [] then None
    else if Id(ts[0]) == id then Some(ts[0])
    else
      var r := Search(ts[1..], id);
      assert forall k :: 1 <= k < |ts| ==> ts[k] == ts[1..][k - 1];
      r
  }

  /** `fromId`: the constant whose id is `id`, or null for an unknown id. */
  function FromId(id: string): (r: Option<AuthenticationType>)
    ensures r.Some? ==> Id(r.value) == id
    ensures r.None? <==> forall t :: t in Values ==> Id(t) != id
  {
    Search(Values, id)
  }

  /** The ids of distinct constants differ. */
  lemma IdInjective(a: AuthenticationType, b: AuthenticationType)
    ensures Id(a) == Id(b) <==> a == b
  {
  }

  /** Looking up the id of a constant gives that constant back. */
  lemma FromIdRoundTrip(t: AuthenticationType)
    ensures FromId(Id(t)) == Some(t)
  {
    var r := FromId(Id(t));
    assert t in Values;
    IdInjective(r.value, t);
  }

  /** Exactly "APP", "GOOGLE" and "GITHUB" are recognised. The comparison is
      case-sensitive: the lower-case "google" stored for an account type is not
      an authentication type id. */
  lemma FromIdRecognises(s: string)
    ensures FromId(s).Some? <==> s == "APP" || s == "GOOGLE" || s == "GITHUB"
    ensures FromId("google").None? && FromId("github").None?
  {
    FromIdRoundTrip(APP);
    FromIdRoundTrip(GOOGLE);
    FromIdRoundTrip(GITHUB);
    if FromId(s).Some? {
      assert Id(FromId(s).value) == s;
    }
    assert Id(APP) != "google" && Id(GOOGLE) != "google" && Id(GITHUB) != "google";
    assert Id(APP) != "github" && Id(GOOGLE) != "github" && Id(GITHUB) != "github";
  }
}
