/**
 * The webtrees module itself: the choice between the default filesystem and
 * a custom factory (`getFilesystemFactory`, `boot`), and the module's
 * process-wide state: the cached configuration, the flash messages it adds
 * and the filesystem factory it registers.
 */
module CustomFilesystemModule {
  import opened Wrappers
  import opened OrderedMaps
  import opened Discovery
  import opened Options

  /** `new $class_name($options)`: the class instantiated and the options passed to it. */
  datatype FactoryInstance = FactoryInstance(className: string, options: map<string, string>)

  /** What `boot` hands to `Registry::filesystem`. */
  datatype RegisteredFilesystem = DefaultFilesystem | Custom(factory: FactoryInstance)

  /** The outcome of `getFilesystemFactory` (`None` for `null`) and the flash messages it adds. */
  datatype Selection = Selection(factory: Option<FactoryInstance>, warnings: seq<Warning>)

  function WarningsOf(r: Resolution): seq<Warning> {
    if r.warning.Some? then [r.warning.value] else []
  }

  /**
   * `getFilesystemFactory`: only a single discovered factory is ever used,
   * and only when its options resolve; it is then instantiated from its key
   * with the namespace put back, with exactly the resolved options.
   */
  function Select(declared: seq<DeclaredClass>, config: Config): (s: Selection)
    requires |Discover(declared)| == 1 ==> Reflectable(declared)
    ensures |Discover(declared)| != 1 ==> s == Selection(None, [])
    ensures |Discover(declared)| == 1 ==>
      var name := Discover(declared)[0].1;
      var r := Resolve(config, name, RequiredOptionsOf(declared, name));
      && s.warnings == WarningsOf(r)
      && (s.factory.Some? <==> r.options != map[])
      && (s.factory.Some? ==> s.factory.value == FactoryInstance(FactoriesNamespace + Discover(declared)[0].0, r.options))
    ensures s.factory.Some? ==> s.warnings == []
  {
    var names := Discover(declared);
    if |names| != 1 then Selection(None, [])
    else
      var name := names[0].1;
      var r := Resolve(config, name, RequiredOptionsOf(declared, name));
      if |r.options| == 0 then Selection(None, WarningsOf(r))
      else
        match FirstKeyWithValue(names, name)
        case Some(short) => Selection(Some(FactoryInstance(FactoriesNamespace + short, r.options)), [])
        case None => Selection(None, [])
  }

  /** What `boot` registers for a selection. */
  function Registration(s: Selection): RegisteredFilesystem {
    match s.factory
    case Some(f) => Custom(f)
    case None => DefaultFilesystem
  }

  /** With no factory class declared, the default filesystem is used and nothing is reported. */
  lemma NoFactoryMeansDefault(declared: seq<DeclaredClass>, config: Config)
    requires forall i | 0 <= i < |declared| :: !IsFactory(declared[i])
    ensures Discover(declared) == []
    ensures Select(declared, config) == Selection(None, [])
  {
    DiscoverEmpty(declared);
  }

  /**
   * Two factories filed under different class names make the choice
   * ambiguous: the default filesystem is used whatever the configuration says.
   */
  lemma TwoFactoriesMeanDefault(declared: seq<DeclaredClass>, config: Config, i: int, j: int)
    requires 0 <= i < |declared| && 0 <= j < |declared|
    requires IsFactory(declared[i]) && IsFactory(declared[j])
    requires ShortName(declared[i].fqName) != ShortName(declared[j].fqName)
    ensures |Discover(declared)| >= 2
    ensures Select(declared, config) == Selection(None, [])
  {
    TwoFactories(declared, i, j);
  }

  /** A single factory whose name prefixes no configuration key leaves the default filesystem in place, silently. */
  lemma UnconfiguredMeansDefault(declared: seq<DeclaredClass>, config: Config)
    requires Reflectable(declared) && |Discover(declared)| == 1
    requires forall i | 0 <= i < |config| :: !Strings.StartsWith(config[i].0, OptionPrefix(Discover(declared)[0].1))
    ensures Select(declared, config) == Selection(None, [])
  {
    CollectedNothing(config, OptionPrefix(Discover(declared)[0].1));
  }

  /**
   * When factory classes sit in their namespace, the class instantiated is
   * a declared factory class.
   */
  lemma SelectedClassIsDeclared(declared: seq<DeclaredClass>, config: Config)
    requires CanonicalLayout(declared) && UniqueClassNames(declared)
    ensures Reflectable(declared)
    ensures Select(declared, config).factory.Some? ==>
      exists i | 0 <= i < |declared| :: IsFactory(declared[i]) && declared[i].fqName == Select(declared, config).factory.value.className
  {
    CanonicalIsReflectable(declared);
    var names := Discover(declared);
    if Select(declared, config).factory.Some? {
      assert HasKey(names, names[0].0);
      DiscoverKeys(declared, names[0].0);
      var i :| 0 <= i < |declared| && Registers(declared[i], names[0].0);
      assert declared[i].fqName == FactoriesNamespace + names[0].0;
    }
  }

  /** The module's static state and its static methods. */
  class CustomFilesystem {
    /** `get_declared_classes()` with the metadata reflection reads. */
    const declaredClasses: seq<DeclaredClass>
    /** `file_exists(Webtrees::CONFIG_FILE)`. */
    const configFileExists: bool
    /** The settings of `Webtrees::CONFIG_FILE`, as `parse_ini_file` reads them. */
    const configFile: IniLines

    /** `self::$webtrees_config`. */
    var webtreesConfig: Config
    /** The flash messages added so far. */
    var flashMessages: seq<Warning>
    /** The factory registered with `Registry::filesystem`, once `boot` has run. */
    var registered: Option<RegisteredFilesystem>
    /** How often the configuration file has been parsed. */
    ghost var configReads: nat

    ghost predicate Valid()
      reads this
    {
      && (|Discover(declaredClasses)| == 1 ==> Reflectable(declaredClasses))
      && (webtreesConfig == [] || (configFileExists && webtreesConfig == ParseIni(configFile)))
    }

    /** The configuration as loaded: the file's settings, or none when there is no file. */
    function LoadedConfig(): Config
      reads this
    {
      if configFileExists then ParseIni(configFile) else []
    }

    constructor (declared: seq<DeclaredClass>, fileExists: bool, file: IniLines)
      requires |Discover(declared)| == 1 ==> Reflectable(declared)
      ensures Valid()
      ensures declaredClasses == declared && configFileExists == fileExists && configFile == file
      ensures webtreesConfig == [] && flashMessages == [] && registered == None && configReads == 0
    {
      declaredClasses, configFileExists, configFile := declared, fileExists, file;
      webtreesConfig, flashMessages, registered := [], [], None;
      configReads := 0;
    }

    /**
     * `getWebtreesConfig`: parses the file only while the cache is empty and
     * the file exists; every call returns the loaded configuration.
     */
    method GetWebtreesConfig() returns (config: Config)
      requires Valid()
      modifies this`webtreesConfig, this`configReads
      ensures Valid()
      ensures config == LoadedConfig() && webtreesConfig == LoadedConfig()
      ensures configReads == if old(webtreesConfig) == [] && configFileExists then old(configReads) + 1 else old(configReads)
    {
      if webtreesConfig == [] && configFileExists {
        webtreesConfig := ParseIni(configFile);
        configReads := configReads + 1;
      }
      config := webtreesConfig;
    }

    /** `getConfigValue`. */
    method GetConfigValue(key: string) returns (value: string)
      requires Valid()
      modifies this`webtreesConfig, this`configReads
      ensures Valid() && webtreesConfig == LoadedConfig()
      ensures configReads == if old(webtreesConfig) == [] && configFileExists then old(configReads) + 1 else old(configReads)
      ensures value == ConfigValue(LoadedConfig(), key)
    {
      var config := GetWebtreesConfig();
      if Get(config, key).Some? {
        config := GetWebtreesConfig();
        value := Get(config, key).value;
      } else {
        value := "";
      }
    }

    /**
     * `getProviderOptions`: reads the required option names of the first
     * factory called `name`, then resolves its options against the loaded
     * configuration, adding the resolver's warning, if any, as a flash message.
     */
    method GetProviderOptions(name: string) returns (options: map<string, string>)
      requires Valid() && Reflectable(declaredClasses) && IsRegistered(declaredClasses, name)
      modifies this`webtreesConfig, this`configReads, this`flashMessages
      ensures Valid() && webtreesConfig == LoadedConfig()
      ensures configReads == if old(webtreesConfig) == [] && configFileExists then old(configReads) + 1 else old(configReads)
      ensures var r := Resolve(LoadedConfig(), name, RequiredOptionsOf(declaredClasses, name));
        options == r.options && flashMessages == old(flashMessages) + WarningsOf(r)
    {
      var names := DiscoverFactories(declaredClasses);
      var short := FindKeyWithValue(names, name);
      var required := ClassByName(declaredClasses, FactoriesNamespace + short.value).value.requiredOptions;
      var config := GetWebtreesConfig();
      var warning;
      options, warning := ResolveOptions(config, name, required);
      if warning.Some? {
        flashMessages := flashMessages + [warning.value];
      }
    }

    /** `getFilesystemFactory`. */
    method GetFilesystemFactory() returns (factory: Option<FactoryInstance>)
      requires Valid()
      modifies this`webtreesConfig, this`configReads, this`flashMessages
      ensures Valid()
      ensures webtreesConfig == if |Discover(declaredClasses)| == 1 then LoadedConfig() else old(webtreesConfig)
      ensures configReads ==
        if |Discover(declaredClasses)| == 1 && old(webtreesConfig) == [] && configFileExists then old(configReads) + 1
        else old(configReads)
      ensures var s := Select(declaredClasses, LoadedConfig());
        factory == s.factory && flashMessages == old(flashMessages) + s.warnings
    {
      var names := DiscoverFactories(declaredClasses);
      if |names| != 1 {
        return None;
      }
      var name := names[0].1;
      var options := GetProviderOptions(name);
      if |options| == 0 {
        return None;
      }
      var short := FindKeyWithValue(names, name);
      factory := if short.Some? then Some(FactoryInstance(FactoriesNamespace + short.value, options)) else None;
    }

    /** `boot`: registers the custom factory when there is one, the default filesystem otherwise. */
    method Boot()
      requires Valid()
      modifies this`webtreesConfig, this`configReads, this`flashMessages, this`registered
      ensures Valid()
      ensures webtreesConfig == if |Discover(declaredClasses)| == 1 then LoadedConfig() else old(webtreesConfig)
      ensures configReads ==
        if |Discover(declaredClasses)| == 1 && old(webtreesConfig) == [] && configFileExists then old(configReads) + 1
        else old(configReads)
      ensures var s := Select(declaredClasses, LoadedConfig());
        registered == Some(Registration(s)) && flashMessages == old(flashMessages) + s.warnings
    {
      var factory := GetFilesystemFactory();
      if factory.Some? {
        registered := Some(Custom(factory.value));
        return;
      }
      registered := Some(DefaultFilesystem);
    }
  }
}
