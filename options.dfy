/**
 * Reading the webtrees configuration and resolving the options of one
 * filesystem factory (the algorithm of `getProviderOptions` once the
 * factory's required option names are known, and the look-up behind
 * `getConfigValue`).
 */
module Options {
  import opened Wrappers
  import opened Strings
  import opened OrderedMaps

  /** The `key = value` settings of the configuration file, in file order; a key may repeat. */
  type IniLines = seq<(string, string)>

  /** The array `parse_ini_file` returns: keys in order of first appearance, each once. */
  type Config = Entries

  /** A flash message: the factory whose configuration lacks `option`. */
  datatype Warning = Warning(factory: string, option: string)

  /** The value of the last line that sets `key`, if any. */
  function Lookup(lines: IniLines, key: string): (r: Option<string>)
    ensures r.None? <==> forall i | 0 <= i < |lines| :: lines[i].0 != key
    ensures r.Some? ==> exists i | 0 <= i < |lines| ::
      lines[i] == (key, r.value) && forall j | i < j < |lines| :: lines[j].0 != key
  {
    if lines == [] then None
    else if lines[|lines| - 1].0 == key then Some(lines[|lines| - 1].1)
    else
      var init := lines[..|lines| - 1];
      assert forall i | 0 <= i < |init| :: init[i] == lines[i];
      Lookup(init, key)
  }

  /**
   * `parse_ini_file`: every line assigns `$ini[$key] = $value`, so a repeated
   * key keeps the place of its first line and takes the value of its last.
   */
  function ParseIni(lines: IniLines): (config: Config)
    ensures DistinctKeys(config)
  {
    if lines == [] then []
    else
      var (key, value) := lines[|lines| - 1];
      Put(ParseIni(lines[..|lines| - 1]), key, value)
  }

  /** Reading a key of the parsed file gives the value of the last line setting it. */
  lemma {:induction false} ParsedValue(lines: IniLines, key: string)
    ensures Get(ParseIni(lines), key) == Lookup(lines, key)
  {
    if lines != [] {
      var init := lines[..|lines| - 1];
      ParsedValue(init, key);
      PutGet(ParseIni(init), lines[|lines| - 1].0, lines[|lines| - 1].1, key);
    }
  }

  /** `getConfigValue`: the value stored under `key`, or the empty string. */
  function ConfigValue(config: Config, key: string): string {
    match Get(config, key)
    case Some(v) => v
    case None => ""
  }

  /**
   * For a parsed file, `getConfigValue` gives the value of the last line
   * setting the key, and `''` when no line sets it.
   */
  lemma ConfigValueMeaning(lines: IniLines, key: string)
    ensures (forall i | 0 <= i < |lines| :: lines[i].0 != key) ==> ConfigValue(ParseIni(lines), key) == ""
    ensures forall i | 0 <= i < |lines| && lines[i].0 == key && (forall j | i < j < |lines| :: lines[j].0 != key) ::
      ConfigValue(ParseIni(lines), key) == lines[i].1
  {
    ParsedValue(lines, key);
  }

  /** The entry's key starts with `prefix` and becomes `key` once every copy of `prefix` is removed. */
  predicate Contributes(entry: (string, string), prefix: string, key: string)
    requires prefix != []
  {
    StartsWith(entry.0, prefix) && RemoveAll(entry.0, prefix) == key
  }

  /** The first loop of `getProviderOptions`: prefixed entries, stripped, later ones overwriting earlier ones. */
  function CollectOptions(config: Config, prefix: string): map<string, string>
    requires prefix != []
  {
    if config == [] then map[]
    else
      var rest := CollectOptions(config[..|config| - 1], prefix);
      var (key, value) := config[|config| - 1];
      if StartsWith(key, prefix) then rest[RemoveAll(key, prefix) := value] else rest
  }

  /** An option is collected exactly when some prefixed entry strips to it. */
  lemma {:induction false} CollectedKeys(config: Config, prefix: string, key: string)
    requires prefix != []
    ensures key in CollectOptions(config, prefix) <==> exists i | 0 <= i < |config| :: Contributes(config[i], prefix, key)
  {
    if config != [] {
      var init := config[..|config| - 1];
      CollectedKeys(init, prefix, key);
      assert forall i | 0 <= i < |init| :: init[i] == config[i];
      if Contributes(config[|config| - 1], prefix, key) {
        assert key in CollectOptions(config, prefix);
      }
    }
  }

  /** The collected value of an option comes from the last entry that strips to it. */
  lemma {:induction false} CollectedValue(config: Config, prefix: string, i: int)
    requires prefix != [] && 0 <= i < |config| && StartsWith(config[i].0, prefix)
    requires forall j | i < j < |config| :: !Contributes(config[j], prefix, RemoveAll(config[i].0, prefix))
    ensures RemoveAll(config[i].0, prefix) in CollectOptions(config, prefix)
    ensures CollectOptions(config, prefix)[RemoveAll(config[i].0, prefix)] == config[i].1
  {
    if i < |config| - 1 {
      var init := config[..|config| - 1];
      assert init[i] == config[i];
      CollectedValue(init, prefix, i);
    }
  }

  /** Nothing is collected exactly when no key carries the prefix. */
  lemma CollectedNothing(config: Config, prefix: string)
    requires prefix != []
    ensures CollectOptions(config, prefix) == map[] <==> forall i | 0 <= i < |config| :: !StartsWith(config[i].0, prefix)
  {
    var collected := CollectOptions(config, prefix);
    if collected != map[] {
      var key :| key in collected;
      CollectedKeys(config, prefix, key);
    } else if exists i | 0 <= i < |config| :: StartsWith(config[i].0, prefix) {
      var i :| 0 <= i < |config| && StartsWith(config[i].0, prefix);
      CollectedKeys(config, prefix, RemoveAll(config[i].0, prefix));
    }
  }

  /** `o` is the first of `required`, in order, that `options` lacks. */
  predicate FirstMissingIs(required: seq<string>, options: map<string, string>, o: string) {
    exists j | 0 <= j < |required| ::
      required[j] == o && o !in options && forall l | 0 <= l < j :: required[l] in options
  }

  /** The position of the first required option missing from `options`. */
  function FirstMissing(required: seq<string>, options: map<string, string>): (r: Option<nat>)
    ensures r.None? <==> forall j | 0 <= j < |required| :: required[j] in options
    ensures r.Some? ==>
      && r.value < |required|
      && required[r.value] !in options
      && forall j | 0 <= j < r.value :: required[j] in options
  {
    if required == [] then None
    else if required[0] !in options then Some(0)
    else
      match FirstMissing(required[1..], options)
      case None => None
      case Some(j) => Some(j + 1)
  }

  /** What `getProviderOptions` returns and the flash message it adds, if any. */
  datatype Resolution = Resolution(options: map<string, string>, warning: Option<Warning>)

  /** The prefix that marks the settings of the factory `name`. */
  function OptionPrefix(name: string): (p: string)
    ensures p != []
  {
    name + "_"
  }

  /**
   * Options of the factory `name`, whose `getRequiredOptions()` is `required`:
   * empty and silent when no key has the prefix, empty with one warning naming
   * the first missing option when the set is incomplete, and otherwise every
   * stripped prefixed setting, extra ones included.
   */
  function Resolve(config: Config, name: string, required: seq<string>): (r: Resolution)
    ensures var collected := CollectOptions(config, OptionPrefix(name));
      && (collected == map[] ==> r == Resolution(map[], None))
      && (r.options != map[] <==> collected != map[] && forall j | 0 <= j < |required| :: required[j] in collected)
      && (r.options != map[] ==> r.options == collected)
      && (r.warning.Some? <==> collected != map[] && exists j | 0 <= j < |required| :: required[j] !in collected)
      && (r.warning.Some? ==> r.options == map[] && r.warning.value.factory == name
                              && FirstMissingIs(required, collected, r.warning.value.option))
  {
    var collected := CollectOptions(config, OptionPrefix(name));
    if |collected| == 0 then Resolution(map[], None)
    else
      match FirstMissing(required, collected)
      case Some(j) => Resolution(map[], Some(Warning(name, required[j])))
      case None => Resolution(collected, None)
  }

  /** The two loops of `getProviderOptions` after the required option names have been read. */
  method ResolveOptions(config: Config, name: string, required: seq<string>)
    returns (options: map<string, string>, warning: Option<Warning>)
    ensures Resolution(options, warning) == Resolve(config, name, required)
  {
    var prefix := name + "_";
    options := map[];
    for i := 0 to |config|
      invariant options == CollectOptions(config[..i], prefix)
    {
      var (key, value) := config[i];
      if StartsWith(key, prefix) {
        options := options[RemoveAll(key, prefix) := value];
      }
      assert config[..i + 1][..i] == config[..i];
    }
    assert config[..|config|] == config;
    warning := None;
    if |options| == 0 {
      return;
    }
    for i := 0 to |required|
      invariant forall j | 0 <= j < i :: required[j] in options
    {
      if required[i] !in options {
        warning := Some(Warning(name, required[i]));
        options := map[];
        return;
      }
    }
  }

  /**
   * A setting `name_K = V` reaches the resolved options as `K -> V` when the
   * resolution succeeds and no later setting strips to the same `K`.
   */
  lemma ResolvedSetting(config: Config, name: string, required: seq<string>, i: int)
    requires 0 <= i < |config| && StartsWith(config[i].0, OptionPrefix(name))
    requires forall j | i < j < |config| :: !Contributes(config[j], OptionPrefix(name), RemoveAll(config[i].0, OptionPrefix(name)))
    requires forall j | 0 <= j < |required| :: required[j] in CollectOptions(config, OptionPrefix(name))
    ensures var r := Resolve(config, name, required);
      RemoveAll(config[i].0, OptionPrefix(name)) in r.options
      && r.options[RemoveAll(config[i].0, OptionPrefix(name))] == config[i].1
  {
    CollectedValue(config, OptionPrefix(name), i);
  }
}
