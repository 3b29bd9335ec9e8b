/** The application's own icon set: one icon per provider logo, named after the
    enum constant. */
module AppIcons {

  datatype AppIcon = GOOGLE | GITHUB | YANDEX | FACEBOOK | VK | DISCORD

  /** `name()`: the constant's declared name. */
  function Name(c: AppIcon): string {
    match c
    case GOOGLE => "GOOGLE"
    case GITHUB => "GITHUB"
    case YANDEX => "YANDEX"
    case FACEBOOK => "FACEBOOK"
    case VK => "VK"
    case DISCORD => "DISCORD"
  }

  /** A rendered icon: the icon collection and the icon's name in it. */
  datatype Icon = Icon(collection: string, icon: string)

  const Collection: string := "app-icons"

  /** `Character.toLowerCase` on the ASCII letters. */
  function LowerChar(ch: char): char {
    if 'A' <= ch <= 'Z' then (ch as int - 'A' as int + 'a' as int) as char else ch
  }

  /** `toLowerCase(Locale.ENGLISH)` on ASCII text. */
  function ToLowerCase(s: string): (r: string)
    ensures |r| == |s|
    ensures forall k :: 0 <= k < |s| ==> r[k] == LowerChar(s[k])
  {
    seq(|s|, k requires 0 <= k < |s| => LowerChar(s[k]))
  }

  /** `replace(from, to)`: every occurrence of one character replaced by another. */
  function Replace(s: string, from: char, to: char): (r: string)
    ensures |r| == |s|
    ensures forall k :: 0 <= k < |s| ==> r[k] == if s[k] == from then to else s[k]
  {
    seq(|s|, k requires 0 <= k < |s| => if s[k] == from then to else s[k])
  }

  /** `replaceAll("^-", "")`: the anchored pattern matches at most once, at the start. */
  function StripLeadingDash(s: string): string {
    if |s| > 0 && s[0] == '-' then s[1..] else s
  }

  /** What one character of the constant's name becomes in the icon name. */
  function IconChar(ch: char): char {
    if ch == '_' then '-' else LowerChar(ch)
  }

  /** The icon name of a constant named `name`: lower-cased, `_` replaced by `-`,
      and one leading `-` removed. */
  function IconName(name: string): (r: string)
    ensures '_' !in r
    ensures forall k :: 0 <= k < |r| ==> !('A' <= r[k] <= 'Z')
    ensures |r| == |name| || |r| == |name| - 1
    ensures |r| == |name| - 1 <==> |name| > 0 && (name[0] == '_' || name[0] == '-')
    ensures forall k :: 0 <= k < |r| ==> r[k] == IconChar(name[k + |name| - |r|])
  {
    StripLeadingDash(Replace(ToLowerCase(name), '_', '-'))
  }

  /** `create()`: the icon named after the constant, always in the application's
      own collection. */
  function Create(c: AppIcon): (icon: Icon)
    ensures icon.collection == "app-icons"
    ensures |icon.icon| == |Name(c)|
  {
    Icon(Collection, IconName(Name(c)))
  }

  lemma IconNameIs(name: string, expected: string)
    requires |name| == |expected| && (|name| == 0 || (name[0] != '_' && name[0] != '-'))
    requires forall k :: 0 <= k < |name| ==> expected[k] == IconChar(name[k])
    ensures IconName(name) == expected
  {
  }

  /** The icon name each declared constant creates. */
  function DeclaredIconName(c: AppIcon): string {
    match c
    case GOOGLE => "google"
    case GITHUB => "github"
    case YANDEX => "yandex"
    case FACEBOOK => "facebook"
    case VK => "vk"
    case DISCORD => "discord"
  }

  /** The declared constants create the icons "google", "github", "yandex",
      "facebook", "vk" and "discord". */
  lemma DeclaredIcons(c: AppIcon)
    ensures Create(c) == Icon("app-icons", DeclaredIconName(c))
  {
    var name, expected := Name(c), DeclaredIconName(c);
    assert |name| == |expected| && name[0] != '_' && name[0] != '-';
    assert forall k :: 0 <= k < |name| ==> expected[k] == IconChar(name[k]);
    IconNameIs(name, expected);
  }
}
