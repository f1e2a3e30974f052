/** The configuration manager (`src/config_manager.py`): the YAML document
    as a tree of values, the dotted-key lookup, the required-key check,
    the environment overrides and the path resolution of the section
    getters. Reading the YAML and `.env` files is outside the model; the
    manager starts from the loaded top-level mapping. */
module Config {
  import opened Wrappers
  import opened Text
  import opened Lists

  // ---------------------------------------------------------------------
  // Values

  /** A YAML value as `yaml.safe_load` returns it (floats left out). */
  datatype Value =
    | Null
    | Bool(b: bool)
    | Num(n: int)
    | Str(s: string)
    | List(items: seq<Value>)
    | Dict(entries: map<string, Value>)

  /** Python truthiness: `None`, `False`, `0`, and empty strings, lists
      and dicts are false. */
  predicate Truthy(v: Value) {
    match v
    case Null => false
    case Bool(b) => b
    case Num(n) => n != 0
    case Str(s) => s != ""
    case List(items) => items != []
    case Dict(entries) => |entries| != 0
  }

  // ---------------------------------------------------------------------
  // get

  /** The value reached from `v` by following `keys` through nested dicts,
      or None as soon as a key is missing or the value in hand is not a
      dict. */
  function Walk(v: Value, keys: seq<string>): Option<Value>
    decreases |keys|
  {
    if keys == [] then Some(v)
    else if v.Dict? && keys[0] in v.entries then Walk(v.entries[keys[0]], keys[1..])
    else None
  }

  /** `get(key, default)`: the key split on '.' and walked from the top. */
  function Lookup(config: map<string, Value>, key: string, default: Value): Value {
    match Walk(Dict(config), SplitOn(key, {'.'}))
    case Some(w) => w
    case None => default
  }

  /** Walking a path in two parts is walking the first and then, from
      where it ends, the second. */
  lemma {:induction false} WalkConcat(v: Value, a: seq<string>, b: seq<string>)
    ensures Walk(v, a + b) == (match Walk(v, a) case Some(w) => Walk(w, b) case None => None)
    decreases |a|
  {
    if a == [] {
      assert a + b == b;
    } else {
      assert (a + b)[0] == a[0];
      assert (a + b)[1..] == a[1..] + b;
      if v.Dict? && a[0] in v.entries {
        WalkConcat(v.entries[a[0]], a[1..], b);
      }
    }
  }

  /** Key `i` of the path stops the walk: the walk reaches a value through
      the keys before it, and that value is not a dict holding key `i`. */
  predicate BlockedAt(v: Value, keys: seq<string>, i: nat)
    requires i < |keys|
  {
    var w := Walk(v, keys[..i]);
    w.Some? && !(w.value.Dict? && keys[i] in w.value.entries)
  }

  /** The walk fails exactly when some key stops it. */
  lemma {:induction false} WalkFails(v: Value, keys: seq<string>)
    ensures Walk(v, keys).None? <==> exists i :: 0 <= i < |keys| && BlockedAt(v, keys, i)
    decreases |keys|
  {
    if keys != [] {
      assert keys[..0] == [];
      if v.Dict? && keys[0] in v.entries {
        var child := v.entries[keys[0]];
        WalkFails(child, keys[1..]);
        forall i | 0 < i < |keys|
          ensures BlockedAt(v, keys, i) == BlockedAt(child, keys[1..], i - 1)
        {
          assert keys[..i] == [keys[0]] + keys[1..][..i - 1];
          WalkConcat(v, [keys[0]], keys[1..][..i - 1]);
          assert Walk(v, [keys[0]]) == Walk(child, []);
        }
        if Walk(v, keys).None? {
          var j :| 0 <= j < |keys[1..]| && BlockedAt(child, keys[1..], j);
          assert BlockedAt(v, keys, j + 1);
        }
      } else {
        assert BlockedAt(v, keys, 0);
      }
    }
  }

  // ---------------------------------------------------------------------
  // validate_config

  const RequiredKeys: seq<string> := ["google_gemini.api_key", "linkedin.email", "linkedin.password"]

  const MissingPrefix: string := "Missing required configuration keys: "

  /** A key is missing when `get(key)` gives a false value. */
  predicate Missing(config: map<string, Value>, key: string) {
    !Truthy(Lookup(config, key, Null))
  }

  function MissingIn(config: map<string, Value>): string -> bool {
    key => Missing(config, key)
  }

  /** The required keys that are missing, in the fixed order. */
  function MissingKeys(config: map<string, Value>): seq<string> {
    Keep(RequiredKeys, MissingIn(config))
  }

  /** `validate_config`: True, or the error listing the missing keys. */
  function Validate(config: map<string, Value>): Result<bool, string> {
    var missing := MissingKeys(config);
    if missing == [] then Ok(true) else Err(MissingPrefix + Join(missing, ", "))
  }

  /** The check passes exactly when every required key has a true value;
      otherwise the error names exactly the missing keys, in order. */
  lemma ValidateSpec(config: map<string, Value>, key: string)
    ensures Validate(config).Ok? <==> forall k :: k in RequiredKeys ==> !Missing(config, k)
    ensures Validate(config).Ok? ==> Validate(config).value
    ensures Validate(config).Err? ==> Validate(config).error == MissingPrefix + Join(MissingKeys(config), ", ")
    ensures key in MissingKeys(config) <==> key in RequiredKeys && Missing(config, key)
  {
    MissingKeysMember(config, key);
    MissingKeysEmpty(config);
  }

  lemma MissingKeysMember(config: map<string, Value>, key: string)
    ensures key in MissingKeys(config) <==> key in RequiredKeys && Missing(config, key)
  {
    KeepMember(RequiredKeys, MissingIn(config), key);
  }

  lemma MissingKeysEmpty(config: map<string, Value>)
    ensures MissingKeys(config) == [] <==> forall k :: k in RequiredKeys ==> !Missing(config, k)
  {
    if MissingKeys(config) == [] {
      forall k | k in RequiredKeys
        ensures !Missing(config, k)
      {
        MissingKeysMember(config, k);
      }
    } else {
      MissingKeysMember(config, MissingKeys(config)[0]);
    }
  }

  // ---------------------------------------------------------------------
  // Environment overrides

  /** `config[section][key] = os.getenv(variable)` when the variable is set. */
  datatype EnvOverride = EnvOverride(variable: string, section: string, key: string)

  const Overrides: seq<EnvOverride> := [
    EnvOverride("GOOGLE_GEMINI_API_KEY", "google_gemini", "api_key"),
    EnvOverride("LINKEDIN_EMAIL", "linkedin", "email"),
    EnvOverride("LINKEDIN_PASSWORD", "linkedin", "password")
  ]

  /** `if os.getenv(name):` — set and non-empty. */
  predicate EnvSet(env: map<string, string>, name: string) {
    name in env && env[name] != ""
  }

  predicate SectionIsDict(config: map<string, Value>, section: string) {
    section in config && config[section].Dict?
  }

  /** `config[section][key] = x`: a missing section raises `KeyError`, a
      section that is not a dict raises `TypeError`. */
  function SetIn(config: map<string, Value>, section: string, key: string, x: string): (r: Option<map<string, Value>>)
    ensures r.Some? <==> SectionIsDict(config, section)
  {
    if SectionIsDict(config, section)
    then Some(config[section := Dict(config[section].entries[key := Str(x)])])
    else None
  }

  /** The overrides applied in order; None when one of them raises. */
  function ApplyOverrides(config: map<string, Value>, env: map<string, string>, os: seq<EnvOverride>)
    : Option<map<string, Value>>
    decreases |os|
  {
    if os == [] then Some(config)
    else if !EnvSet(env, os[0].variable) then ApplyOverrides(config, env, os[1..])
    else match SetIn(config, os[0].section, os[0].key, env[os[0].variable])
      case None => None
      case Some(next) => ApplyOverrides(next, env, os[1..])
  }

  /** Setting a key leaves every other path where it was. */
  lemma SetInKeeps(config: map<string, Value>, section: string, key: string, x: string, p: seq<string>)
    requires SectionIsDict(config, section)
    requires |p| >= 1 && (p[0] == section ==> |p| >= 2 && p[1] != key)
    ensures Walk(Dict(SetIn(config, section, key, x).value), p) == Walk(Dict(config), p)
  {
    var next := SetIn(config, section, key, x).value;
    if p[0] == section {
      var sv := config[section].entries;
      assert Walk(Dict(next), p) == Walk(next[section], p[1..]);
      assert p[1..][0] == p[1];
      assert Walk(next[section], p[1..]) == Walk(Dict(sv), p[1..]);
    }
  }

  /** An override may change the path `p` only if `p` is its section or
      runs through its key. */
  predicate Touches(o: EnvOverride, p: seq<string>) {
    |p| >= 1 && p[0] == o.section && (|p| == 1 || p[1] == o.key)
  }

  /** Paths no applied override touches keep their values. */
  lemma {:induction false} OverridesKeep(config: map<string, Value>, env: map<string, string>,
                                         os: seq<EnvOverride>, p: seq<string>)
    requires ApplyOverrides(config, env, os).Some?
    requires |p| >= 1
    requires forall i :: 0 <= i < |os| && EnvSet(env, os[i].variable) ==> !Touches(os[i], p)
    ensures Walk(Dict(ApplyOverrides(config, env, os).value), p) == Walk(Dict(config), p)
    decreases |os|
  {
    if os != [] {
      if !EnvSet(env, os[0].variable) {
        OverridesKeep(config, env, os[1..], p);
      } else {
        var next := SetIn(config, os[0].section, os[0].key, env[os[0].variable]).value;
        OverridesKeep(next, env, os[1..], p);
        SetInKeeps(config, os[0].section, os[0].key, env[os[0].variable], p);
      }
    }
  }

  /** An applied override whose path no later override rewrites leaves the
      variable's value there. */
  lemma {:induction false} OverridesSet(config: map<string, Value>, env: map<string, string>,
                                        os: seq<EnvOverride>, i: nat)
    requires ApplyOverrides(config, env, os).Some?
    requires i < |os| && EnvSet(env, os[i].variable)
    requires forall j :: i < j < |os| ==> os[j].section != os[i].section || os[j].key != os[i].key
    ensures Walk(Dict(ApplyOverrides(config, env, os).value), [os[i].section, os[i].key])
            == Some(Str(env[os[i].variable]))
    decreases |os|
  {
    var o := os[0];
    if i > 0 {
      if !EnvSet(env, o.variable) {
        OverridesSet(config, env, os[1..], i - 1);
      } else {
        var next := SetIn(config, o.section, o.key, env[o.variable]).value;
        OverridesSet(next, env, os[1..], i - 1);
      }
    } else {
      var next := SetIn(config, o.section, o.key, env[o.variable]).value;
      var path := [o.section, o.key];
      forall j | 0 <= j < |os[1..]| && EnvSet(env, os[1..][j].variable)
        ensures !Touches(os[1..][j], path)
      {
        assert os[1..][j] == os[j + 1];
      }
      OverridesKeep(next, env, os[1..], path);
      assert Walk(Dict(next), path) == Walk(next[o.section], path[1..]);
    }
  }

  /** Setting a key keeps which sections are dicts. */
  lemma SetInSections(config: map<string, Value>, section: string, key: string, x: string, t: string)
    requires SectionIsDict(config, section)
    ensures SectionIsDict(SetIn(config, section, key, x).value, t) == SectionIsDict(config, t)
  {
  }

  /** The overrides raise exactly when a set variable names a section that
      is missing or not a dict. */
  lemma {:induction false} OverridesFail(config: map<string, Value>, env: map<string, string>, os: seq<EnvOverride>)
    ensures ApplyOverrides(config, env, os).None? <==>
              exists i :: 0 <= i < |os| && EnvSet(env, os[i].variable) && !SectionIsDict(config, os[i].section)
    decreases |os|
  {
    if os != [] {
      var o := os[0];
      var rest := os[1..];
      assert forall i :: 1 <= i < |os| ==> os[i] == rest[i - 1];
      if !EnvSet(env, o.variable) {
        OverridesFail(config, env, rest);
        if ApplyOverrides(config, env, os).None? {
          var j :| 0 <= j < |rest| && EnvSet(env, rest[j].variable) && !SectionIsDict(config, rest[j].section);
          assert os[j + 1] == rest[j];
        }
      } else if SectionIsDict(config, o.section) {
        var next := SetIn(config, o.section, o.key, env[o.variable]).value;
        OverridesFail(next, env, rest);
        forall t {
          SetInSections(config, o.section, o.key, env[o.variable], t);
        }
        if ApplyOverrides(config, env, os).None? {
          var j :| 0 <= j < |rest| && EnvSet(env, rest[j].variable) && !SectionIsDict(next, rest[j].section);
          assert os[j + 1] == rest[j];
        }
      }
    }
  }

  /** What the three overrides do, spelled out: each key is the variable's
      value when it is set, and the others paths are unchanged. */
  lemma EnvOverrideSpec(config: map<string, Value>, env: map<string, string>, p: seq<string>)
    requires ApplyOverrides(config, env, Overrides).Some?
    requires |p| >= 1 && p[0] != "google_gemini" && p[0] != "linkedin"
    ensures EnvSet(env, "LINKEDIN_PASSWORD") ==>
              Walk(Dict(ApplyOverrides(config, env, Overrides).value), ["linkedin", "password"])
              == Some(Str(env["LINKEDIN_PASSWORD"]))
    ensures EnvSet(env, "LINKEDIN_EMAIL") ==>
              Walk(Dict(ApplyOverrides(config, env, Overrides).value), ["linkedin", "email"])
              == Some(Str(env["LINKEDIN_EMAIL"]))
    ensures EnvSet(env, "GOOGLE_GEMINI_API_KEY") ==>
              Walk(Dict(ApplyOverrides(config, env, Overrides).value), ["google_gemini", "api_key"])
              == Some(Str(env["GOOGLE_GEMINI_API_KEY"]))
    ensures Walk(Dict(ApplyOverrides(config, env, Overrides).value), p) == Walk(Dict(config), p)
  {
    if EnvSet(env, "LINKEDIN_PASSWORD") {
      OverridesSet(config, env, Overrides, 2);
    }
    if EnvSet(env, "LINKEDIN_EMAIL") {
      OverridesSet(config, env, Overrides, 1);
    }
    if EnvSet(env, "GOOGLE_GEMINI_API_KEY") {
      OverridesSet(config, env, Overrides, 0);
    }
    OverridesKeep(config, env, Overrides, p);
  }

  // ---------------------------------------------------------------------
  // Path resolution in the section getters

  /** `Path(p).is_absolute()` on POSIX. */
  predicate IsAbsolute(p: string) {
    |p| > 0 && p[0] == '/'
  }

  /** `str(root / p)` for a relative `p`. */
  function JoinPath(root: string, p: string): (r: string)
    ensures IsAbsolute(root) ==> IsAbsolute(r)
  {
    if p == "" then root
    else if |root| > 0 && root[|root| - 1] == '/' then root + p
    else root + "/" + p
  }

  /** `key in v`: dict membership, substring test on a string, element
      test on a list; any other value raises `TypeError` (None). */
  function InTest(v: Value, key: string): Option<bool> {
    match v
    case Dict(entries) => Some(key in entries)
    case Str(s) => Some(Contains(s, key))
    case List(items) => Some(Str(key) in items)
    case _ => None
  }

  /** A getter with path resolution (`get_resume_config` and its kin): the
      new top-level config and the returned section, or None where Python
      raises. The section, when present, is the stored object, so the
      resolved path is written back into the config. */
  function Resolved(config: map<string, Value>, section: string, key: string, root: string)
    : Option<(map<string, Value>, Value)>
  {
    if section !in config then Some((config, Dict(map[])))
    else
      var sv := config[section];
      match InTest(sv, key)
      case None => None
      case Some(found) =>
        if !found then Some((config, sv))
        else if !sv.Dict? then None
        else
          var p := sv.entries[key];
          if !p.Str? then None
          else if IsAbsolute(p.s) then Some((config, sv))
          else
            var resolved := Dict(sv.entries[key := Str(JoinPath(root, p.s))]);
            Some((config[section := resolved], resolved))
  }

  /** The getter returns the stored section (or `{}`), changes nothing but
      that section's `key`, which it makes absolute, and a second call
      changes nothing more. */
  lemma ResolvedSpec(config: map<string, Value>, section: string, key: string, root: string, t: string)
    requires IsAbsolute(root)
    requires Resolved(config, section, key, root).Some?
    ensures var (c, v) := Resolved(config, section, key, root).value;
            v == (if section in c then c[section] else Dict(map[]))
            && c.Keys == config.Keys
            && (t != section && t in config ==> c[t] == config[t])
            && (v.Dict? && key in v.entries && v.entries[key].Str? ==> IsAbsolute(v.entries[key].s))
            && (section in config && config[section].Dict? ==>
                  v.entries.Keys == config[section].entries.Keys
                  && (t != key && t in v.entries ==> v.entries[t] == config[section].entries[t]))
            && Resolved(c, section, key, root) == Some((c, v))
  {
  }

  // ---------------------------------------------------------------------
  // The manager

  class ConfigManager {
    var config: map<string, Value>
    const projectRoot: string

    /** `__init__` after the YAML file has been loaded into `loaded`. */
    constructor (loaded: map<string, Value>, root: string)
      ensures config == loaded && projectRoot == root
    {
      config := loaded;
      projectRoot := root;
    }

    /** `get(key, default)`, walking the split key one part at a time. */
    method Get(key: string, default: Value) returns (r: Value)
      ensures r == Lookup(config, key, default)
    {
      var keys := SplitOn(key, {'.'});
      var value := Dict(config);
      var i := 0;
      while i < |keys|
        invariant 0 <= i <= |keys|
        invariant Walk(Dict(config), keys) == Walk(value, keys[i..])
      {
        assert keys[i..][0] == keys[i] && keys[i..][1..] == keys[i + 1..];
        if value.Dict? && keys[i] in value.entries {
          value := value.entries[keys[i]];
        } else {
          return default;
        }
        i := i + 1;
      }
      return value;
    }

    /** `validate_config` */
    method ValidateConfig() returns (r: Result<bool, string>)
      ensures r == Validate(config)
    {
      var missing := CollectMissing(RequiredKeys);
      if missing != [] {
        return Err(MissingPrefix + Join(missing, ", "));
      }
      return Ok(true);
    }

    /** The loop of `validate_config`: the keys whose `get` is false. */
    method CollectMissing(keys: seq<string>) returns (missing: seq<string>)
      ensures missing == Keep(keys, MissingIn(config))
    {
      missing := [];
      var i := 0;
      while i < |keys|
        invariant 0 <= i <= |keys|
        invariant missing == Keep(keys[..i], MissingIn(config))
      {
        var v := Get(keys[i], Null);
        assert keys[..i + 1] == keys[..i] + [keys[i]];
        KeepAppend(keys[..i], [keys[i]], MissingIn(config));
        if !Truthy(v) {
          missing := missing + [keys[i]];
        }
        i := i + 1;
      }
      assert keys[..i] == keys;
    }

    /** One `if os.getenv(variable): config[section][key] = ...` line. */
    method Override(env: map<string, string>, o: EnvOverride) returns (ok: bool)
      modifies this
      ensures EnvSet(env, o.variable) ==> ok == SectionIsDict(old(config), o.section)
      ensures ok ==> config == (if EnvSet(env, o.variable)
                                then SetIn(old(config), o.section, o.key, env[o.variable]).value
                                else old(config))
      ensures !EnvSet(env, o.variable) ==> ok
    {
      if !EnvSet(env, o.variable) {
        return true;
      }
      if !SectionIsDict(config, o.section) {
        return false;
      }
      config := config[o.section := Dict(config[o.section].entries[o.key := Str(env[o.variable])])];
      return true;
    }

    /** `_override_with_env_vars`. When it raises (`ok` false) the
        constructor raises and the manager is never used, so the state it
        leaves is not specified. */
    method OverrideWithEnvVars(env: map<string, string>) returns (ok: bool)
      modifies this
      ensures ok == ApplyOverrides(old(config), env, Overrides).Some?
      ensures ok ==> config == ApplyOverrides(old(config), env, Overrides).value
    {
      ghost var c0 := config;
      ok := Override(env, Overrides[0]);
      if !ok {
        return;
      }
      assert ApplyOverrides(c0, env, Overrides) == ApplyOverrides(config, env, Overrides[1..]);
      ghost var c1 := config;
      ok := Override(env, Overrides[1]);
      if !ok {
        return;
      }
      assert ApplyOverrides(c1, env, Overrides[1..]) == ApplyOverrides(config, env, Overrides[2..]);
      ghost var c2 := config;
      ok := Override(env, Overrides[2]);
      if !ok {
        return;
      }
      assert ApplyOverrides(c2, env, Overrides[2..]) == ApplyOverrides(config, env, Overrides[3..]);
    }

    /** `config.get(name, {})` — `get_gemini_config`, `get_linkedin_config`,
        `get_job_search_config`, `get_browser_config`. */
    function Section(name: string): (r: Value)
      reads this
      ensures name in config ==> r == config[name]
      ensures name !in config ==> r == Dict(map[])
    {
      if name in config then config[name] else Dict(map[])
    }

    /** The getters that resolve a relative path against the project root;
        None where Python raises. */
    method GetResolved(section: string, key: string) returns (r: Option<Value>)
      modifies this
      ensures r.None? <==> Resolved(old(config), section, key, projectRoot).None?
      ensures r.Some? ==> (config, r.value) == Resolved(old(config), section, key, projectRoot).value
    {
      var res := Resolved(config, section, key, projectRoot);
      if res.None? {
        return None;
      }
      config := res.value.0;
      return Some(res.value.1);
    }

    /** `get_resume_config` */
    method GetResumeConfig() returns (r: Option<Value>)
      modifies this
      ensures r.None? <==> Resolved(old(config), "resume", "file_path", projectRoot).None?
      ensures r.Some? ==> (config, r.value) == Resolved(old(config), "resume", "file_path", projectRoot).value
    {
      r := GetResolved("resume", "file_path");
    }

    /** `get_application_config` */
    method GetApplicationConfig() returns (r: Option<Value>)
      modifies this
      ensures r.None? <==> Resolved(old(config), "application", "cover_letter_template", projectRoot).None?
      ensures r.Some? ==>
                (config, r.value) == Resolved(old(config), "application", "cover_letter_template", projectRoot).value
    {
      r := GetResolved("application", "cover_letter_template");
    }

    /** `get_logging_config`; creating the log directory is left out. */
    method GetLoggingConfig() returns (r: Option<Value>)
      modifies this
      ensures r.None? <==> Resolved(old(config), "logging", "file", projectRoot).None?
      ensures r.Some? ==> (config, r.value) == Resolved(old(config), "logging", "file", projectRoot).value
    {
      r := GetResolved("logging", "file");
    }
  }
}
