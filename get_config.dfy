/** The configuration accessor `getLatestConfig` (four-field version): read
    the stored configuration afresh and normalise it to a flat record of four
    strings. Each field takes its plain key when that is non-empty, else its
    legacy `VITE_` key, else "" (JavaScript `a || b || ""` on strings, where a
    missing key and "" are both falsy). */
module GetConfig {
  import opened JsValues
  import PiniaHelper
  import Config

  /** What reading the configuration store produced: a map, a null or
      undefined value (replaced by `{}`), or a thrown error. */
  datatype ConfigRead = Present(info: map<string, string>) | Absent | Threw

  /** The four logical fields of the configuration. */
  datatype Field = GithubUsername | GithubToken | NpmUsername | RenderApiToken

  function PlainKey(f: Field): string
  {
    match f
    case GithubUsername => "githubUsername"
    case GithubToken => "githubToken"
    case NpmUsername => "npmUsername"
    case RenderApiToken => "renderApiToken"
  }

  function LegacyKey(f: Field): string
  {
    match f
    case GithubUsername => "VITE_GITHUB_USERNAME"
    case GithubToken => "VITE_GITHUB_TOKEN"
    case NpmUsername => "VITE_NPM_USERNAME"
    case RenderApiToken => "VITE_RENDER_API_TOKEN"
  }

  /** `config[key]` is truthy: present and not the empty string. */
  predicate Truthy(m: map<string, string>, key: string)
  {
    key in m && m[key] != ""
  }

  /** `config[plain] || config[legacy] || ""`. */
  function Resolve(m: map<string, string>, plain: string, legacy: string): (r: string)
    ensures Truthy(m, plain) ==> r == m[plain]
    ensures !Truthy(m, plain) && Truthy(m, legacy) ==> r == m[legacy]
    ensures r == "" <==> !Truthy(m, plain) && !Truthy(m, legacy)
  {
    if Truthy(m, plain) then m[plain]
    else if Truthy(m, legacy) then m[legacy]
    else ""
  }

  /** The record `getLatestConfig` returns. */
  datatype LatestConfig = LatestConfig(githubUsername: string, githubToken: string,
                                       npmUsername: string, renderApiToken: string)
  {
    function Get(f: Field): string
    {
      match f
      case GithubUsername => githubUsername
      case GithubToken => githubToken
      case NpmUsername => npmUsername
      case RenderApiToken => renderApiToken
    }
  }

  const AllEmpty: LatestConfig := LatestConfig("", "", "", "")

  function Normalize(m: map<string, string>): LatestConfig
  {
    LatestConfig(
      Resolve(m, "githubUsername", "VITE_GITHUB_USERNAME"),
      Resolve(m, "githubToken", "VITE_GITHUB_TOKEN"),
      Resolve(m, "npmUsername", "VITE_NPM_USERNAME"),
      Resolve(m, "renderApiToken", "VITE_RENDER_API_TOKEN"))
  }

  /** A failed read gives the all-empty record; a null read counts as an empty
      map; otherwise every field follows the plain-then-legacy rule. */
  function GetLatestConfig(read: ConfigRead): (c: LatestConfig)
    ensures read.Threw? || read.Absent? ==> c == AllEmpty
    ensures read.Present? ==> forall f :: c.Get(f) == Resolve(read.info, PlainKey(f), LegacyKey(f))
  {
    match read
    case Threw => AllEmpty
    case Absent => Normalize(map[])
    case Present(m) => Normalize(m)
  }

  /** The configuration written under the plain keys only. */
  function PlainInfo(c: LatestConfig): map<string, string>
  {
    map["githubUsername" := c.githubUsername, "githubToken" := c.githubToken,
        "npmUsername" := c.npmUsername, "renderApiToken" := c.renderApiToken]
  }

  /** The configuration written under the legacy keys only. */
  function LegacyInfo(c: LatestConfig): map<string, string>
  {
    map["VITE_GITHUB_USERNAME" := c.githubUsername, "VITE_GITHUB_TOKEN" := c.githubToken,
        "VITE_NPM_USERNAME" := c.npmUsername, "VITE_RENDER_API_TOKEN" := c.renderApiToken]
  }

  /** A non-empty plain key wins over the legacy key. */
  lemma PlainKeyWins(m: map<string, string>, f: Field)
    requires Truthy(m, PlainKey(f))
    ensures GetLatestConfig(Present(m)).Get(f) == m[PlainKey(f)]
  {
  }

  /** The legacy key is used only when the plain key is missing or empty. */
  lemma LegacyKeyIsFallback(m: map<string, string>, f: Field)
    requires !Truthy(m, PlainKey(f)) && Truthy(m, LegacyKey(f))
    ensures GetLatestConfig(Present(m)).Get(f) == m[LegacyKey(f)]
  {
  }

  /** A field is "" exactly when neither of its keys is truthy. */
  lemma FieldEmptyOnlyWhenBothKeysFalsy(m: map<string, string>, f: Field)
    ensures GetLatestConfig(Present(m)).Get(f) == "" <==> !Truthy(m, PlainKey(f)) && !Truthy(m, LegacyKey(f))
  {
  }

  /** A configuration written under the plain keys reads back as itself. */
  lemma PlainInfoRoundTrip(c: LatestConfig)
    ensures GetLatestConfig(Present(PlainInfo(c))) == c
  {
  }

  /** A configuration carrying only the legacy names resolves to the same
      values as the same configuration under the plain names. */
  lemma LegacyInfoResolvesLikePlain(c: LatestConfig)
    ensures GetLatestConfig(Present(LegacyInfo(c))) == GetLatestConfig(Present(PlainInfo(c))) == c
  {
  }

  /** When both spellings are present, each field takes the plain value if it
      is non-empty and the legacy value otherwise. */
  lemma PlainOverridesLegacy(plain: LatestConfig, legacy: LatestConfig, f: Field)
    ensures GetLatestConfig(Present(LegacyInfo(legacy) + PlainInfo(plain))).Get(f)
            == if plain.Get(f) != "" then plain.Get(f) else legacy.Get(f)
  {
  }

  /** The read inside `getLatestConfig`: the `getConfigInfo` getter through
      the config helper; an error from the helper becomes `Threw`. */
  method ReadConfigInfo(helper: PiniaHelper.StoreHelper, loaded: PiniaHelper.Export) returns (read: ConfigRead)
    requires helper.Valid() && helper.kind == PiniaHelper.ConfigKind
    modifies helper, helper.pinia
    ensures helper.Valid()
    ensures helper.pinia.projects == old(helper.pinia.projects)
            || (old(helper.pinia.projects) == null && fresh(helper.pinia.projects))
    ensures helper.pinia.config == old(helper.pinia.config)
            || (old(helper.pinia.config) == null && fresh(helper.pinia.config))
    ensures old(helper.Initialized()) ==>
      helper.projectsInstance == old(helper.projectsInstance) && helper.configInstance == old(helper.configInstance)
    ensures helper.pinia.ConfigState() == old(helper.pinia.ConfigState())
    ensures !old(helper.Initialized()) && loaded == PiniaHelper.NotAFunction ==>
      read == Threw && !helper.Initialized()
    ensures old(helper.Initialized()) || loaded == PiniaHelper.StoreFactory ==> helper.Initialized()
    ensures old(helper.Initialized()) || loaded == PiniaHelper.StoreFactory ==>
      read == Present(old(helper.pinia.ConfigState()))
  {
    var got := helper.Get(Config.GetterKey, loaded);
    match got
    case Returns(v) =>
      read := if v.ConfigInfo? then Present(v.info) else Absent;
    case Throws(_) =>
      read := Threw;
  }

  /** Once the config helper has read through its recorded instance, later
      reads reuse it without loading the store again: a write through another
      helper is seen even when the loader would now fail. */
  method ReadSeesLaterWrite(m: map<string, string>) returns (read: ConfigRead)
    ensures read == Present(m)
  {
    var pinia := new PiniaHelper.Pinia();
    var madeReader := PiniaHelper.UsePiniaHelper(pinia, "config");
    var madeWriter := PiniaHelper.UsePiniaHelper(pinia, "config");
    assert madeReader.Returns? && madeWriter.Returns?;
    var reader, writer := madeReader.value, madeWriter.value;
    var _ := ReadConfigInfo(reader, PiniaHelper.StoreFactory);
    var _ := writer.Set(Config.ActionKey, PiniaHelper.ConfigInfo(m), PiniaHelper.StoreFactory);
    read := ReadConfigInfo(reader, PiniaHelper.NotAFunction);
  }
}
