/** The policy: a table from license strings to actions, with a default. */
module Configuration {
  import opened Wrappers
  import opened Models

  /** What the policy says to do with a license; spelled in lower case in
      the configuration file. */
  datatype PolicyAction = Pass | Warn | Error

  datatype PolicyConfig = PolicyConfig(default: PolicyAction, licenses: map<string, PolicyAction>)

  datatype Config = Config(policy: PolicyConfig)

  /** The name that selects an action in the configuration file. */
  function ActionName(a: PolicyAction): string {
    match a
    case Pass => "pass"
    case Warn => "warn"
    case Error => "error"
  }

  /** Reading an action name from the configuration file; any other string
      is a deserialisation error. */
  function ParseAction(s: string): (a: Option<PolicyAction>)
    ensures a.Some? ==> ActionName(a.value) == s
  {
    if s == "pass" then Some(PolicyAction.Pass)
    else if s == "warn" then Some(PolicyAction.Warn)
    else if s == "error" then Some(PolicyAction.Error)
    else None
  }

  lemma ParseActionName(a: PolicyAction)
    ensures ParseAction(ActionName(a)) == Some(a)
  {
  }

  /** `to_verdict`: every action maps to the verdict of the same name. */
  function ToVerdict(a: PolicyAction): (v: PolicyVerdict)
    ensures VerdictDisplay(v) == ActionName(a)
  {
    match a
    case Pass => PolicyVerdict.Pass
    case Warn => PolicyVerdict.Warn
    case Error => PolicyVerdict.Error
  }

  /** Distinct actions give distinct verdicts, and every verdict is reached:
      its display string names the action that gives it. */
  lemma ToVerdictIsBijective()
    ensures forall a, b :: ToVerdict(a) == ToVerdict(b) ==> a == b
    ensures forall v :: ParseAction(VerdictDisplay(v)).Some? && ToVerdict(ParseAction(VerdictDisplay(v)).value) == v
  {
    DisplaysAreInjective();
  }

  /** `default_policy_action`. */
  function DefaultPolicyAction(): (a: PolicyAction)
    ensures ToVerdict(a) == PolicyVerdict.Warn
  {
    PolicyAction.Warn
  }

  /** A `[policy]` table as read from the file, before serde fills in the
      fields that are absent. */
  datatype RawPolicy = RawPolicy(default: Option<PolicyAction>, licenses: Option<map<string, PolicyAction>>)

  /** Deserialising a `[policy]` table: a missing `default` is Warn and a
      missing `licenses` table is empty. */
  function FromRaw(raw: RawPolicy): (p: PolicyConfig)
    ensures raw.default.Some? ==> p.default == raw.default.value
    ensures raw.default.None? ==> ToVerdict(p.default) == PolicyVerdict.Warn
    ensures raw.licenses.Some? ==> p.licenses == raw.licenses.value
    ensures raw.licenses.None? ==> p.licenses == map[]
  {
    PolicyConfig(raw.default.GetOr(DefaultPolicyAction()), raw.licenses.GetOr(map[]))
  }

  /** The rule table of `Config::default`. */
  const DefaultLicenses: map<string, PolicyAction> := map[
    "MIT" := PolicyAction.Pass,
    "Apache-2.0" := PolicyAction.Pass,
    "BSD-2-Clause" := PolicyAction.Pass,
    "BSD-3-Clause" := PolicyAction.Pass,
    "ISC" := PolicyAction.Pass,
    "LGPL-2.1" := PolicyAction.Warn,
    "GPL-2.0" := PolicyAction.Error,
    "GPL-3.0" := PolicyAction.Error,
    "AGPL-3.0" := PolicyAction.Error,
    "unknown" := PolicyAction.Warn]

  /** The configuration used when no configuration file is found. */
  function DefaultConfig(): Config {
    Config(PolicyConfig(PolicyAction.Warn, DefaultLicenses))
  }

  /** `HashMap::get`. */
  function Lookup(m: map<string, PolicyAction>, k: string): (r: Option<PolicyAction>)
    ensures r.Some? <==> k in m
    ensures r.Some? ==> r.value == m[k]
  {
    if k in m then Some(m[k]) else None
  }

  /** `apply_policy`: an exact, case-sensitive lookup of the whole license
      string (`unknown` when there is none), falling back to the default.
      The second lookup of `unknown` in the source can never succeed where
      the first failed, so the verdict is always "rule, else default". */
  function ApplyPolicy(config: Config, license: Option<string>): (v: PolicyVerdict)
    ensures var key := license.GetOr("unknown");
            key in config.policy.licenses ==> v == ToVerdict(config.policy.licenses[key])
    ensures var key := license.GetOr("unknown");
            key !in config.policy.licenses ==> v == ToVerdict(config.policy.default)
  {
    var key := license.GetOr("unknown");
    match Lookup(config.policy.licenses, key)
    case Some(action) => ToVerdict(action)
    case None =>
      if key == "unknown" then
        match Lookup(config.policy.licenses, "unknown")
        case Some(action) => ToVerdict(action)
        case None => ToVerdict(config.policy.default)
      else ToVerdict(config.policy.default)
  }

  /** A dependency without a license is judged exactly as one whose license
      is the literal string `unknown`. */
  lemma MissingLicenseIsUnknown(config: Config)
    ensures ApplyPolicy(config, None) == ApplyPolicy(config, Some("unknown"))
  {
  }

  /** The verdicts of the built-in table. */
  lemma DefaultTableVerdicts()
    ensures ApplyPolicy(DefaultConfig(), Some("MIT")) == PolicyVerdict.Pass
    ensures ApplyPolicy(DefaultConfig(), Some("Apache-2.0")) == PolicyVerdict.Pass
    ensures ApplyPolicy(DefaultConfig(), Some("BSD-2-Clause")) == PolicyVerdict.Pass
    ensures ApplyPolicy(DefaultConfig(), Some("BSD-3-Clause")) == PolicyVerdict.Pass
    ensures ApplyPolicy(DefaultConfig(), Some("ISC")) == PolicyVerdict.Pass
    ensures ApplyPolicy(DefaultConfig(), Some("LGPL-2.1")) == PolicyVerdict.Warn
    ensures ApplyPolicy(DefaultConfig(), Some("GPL-2.0")) == PolicyVerdict.Error
    ensures ApplyPolicy(DefaultConfig(), Some("GPL-3.0")) == PolicyVerdict.Error
    ensures ApplyPolicy(DefaultConfig(), Some("AGPL-3.0")) == PolicyVerdict.Error
    ensures ApplyPolicy(DefaultConfig(), Some("unknown")) == PolicyVerdict.Warn
    ensures ApplyPolicy(DefaultConfig(), None) == PolicyVerdict.Warn
  {
  }

  /** No key of the built-in table contains a space. */
  lemma DefaultKeysHaveNoSpace(k: string)
    requires k in DefaultLicenses
    ensures forall i :: 0 <= i < |k| ==> k[i] != ' '
  {
  }

  /** Under the built-in table, a license string containing a space (every
      compound expression such as `MIT OR GPL-3.0`) is not a key and so gets
      the default verdict Warn. */
  lemma SpacedLicenseGetsDefault(s: string, i: nat)
    requires i < |s| && s[i] == ' '
    ensures ApplyPolicy(DefaultConfig(), Some(s)) == PolicyVerdict.Warn
  {
    if s in DefaultLicenses {
      DefaultKeysHaveNoSpace(s);
      assert false;
    }
  }

  /** Lookup is case-sensitive: `mit` is not the rule for `MIT`. */
  lemma LookupIsCaseSensitive()
    ensures ApplyPolicy(DefaultConfig(), Some("mit")) == PolicyVerdict.Warn
    ensures ApplyPolicy(DefaultConfig(), Some("MIT")) == PolicyVerdict.Pass
  {
  }
}
