/** The providers a linked account can belong to, and the string id each one is
    stored under. */
module AccountTypes {
  import opened JavaLang

  datatype AccountType = GOOGLE | GITHUB

  /** The constants in declaration order, as `AccountType.values()` lists them. */
  const Values: seq<AccountType> := [GOOGLE, GITHUB]

  /** `getId`: the provider's string id. */
  function Id(t: AccountType): string {
    match t
    case GOOGLE => "google"
    case GITHUB => "github"
  }

  /** The search loop of `fromId` over the constants `ts`: the first one whose id
      equals `id`, or null when none does. */
  function Search(ts: seq<AccountType>, id: string): (r: Option<AccountType>)
    ensures r.Some? ==> exists k :: 0 <= k < |ts| && ts[k] == r.value && Id(ts[k]) == id
                                 && forall j :: 0 <= j < k ==> Id(ts[j]) != id
    ensures r.None? <==> forall k :: 0 <= k < |ts| ==> Id(ts[k]) != id
  {
    if ts == [] then None
    else if Id(ts[0]) == id then Some(ts[0])
    else
      var r := Search(ts[1..], id);
      assert forall k :: 1 <= k < |ts| ==> ts[k] == ts[1..][k - 1];
      r
  }

  /** `fromId`: the constant whose id is `id`, or null for an unknown id. */
  function FromId(id: string): (r: Option<AccountType>)
    ensures r.Some? ==> Id(r.value) == id
    ensures r.None? <==> forall t :: t in Values ==> Id(t) != id
  {
    Search(Values, id)
  }

  /** The ids of distinct constants differ, so `getId` is injective. */
  lemma IdInjective(a: AccountType, b: AccountType)
    ensures Id(a) == Id(b) <==> a == b
  {
  }

  /** Looking up the id of a constant gives that constant back. */
  lemma FromIdRoundTrip(t: AccountType)
    ensures FromId(Id(t)) == Some(t)
  {
    var r := FromId(Id(t));
    assert t in Values;
    IdInjective(r.value, t);
  }

  /** Exactly the two ids "google" and "github" are recognised, case-sensitively;
      every other string, "Google" included, maps to null. */
  lemma FromIdRecognises(s: string)
    ensures FromId(s).Some? <==> s == "google" || s == "github"
    ensures s == "google" ==> FromId(s) == Some(GOOGLE)
    ensures s == "github" ==> FromId(s) == Some(GITHUB)
  {
    FromIdRoundTrip(GOOGLE);
    FromIdRoundTrip(GITHUB);
    if FromId(s).Some? {
      assert Id(FromId(s).value) == s;
    }
  }
}
