/**
 * The Nextcloud factory inside the selection pipeline: the options the
 * resolver accepts always configure it, and the selection outcomes for a
 * registry holding it.
 */
module Scenarios {
  import opened Wrappers
  import opened Strings
  import opened OrderedMaps
  import opened Discovery
  import opened Options
  import opened FilesystemFactories
  import opened CustomFilesystemModule

  /** The declared `Nextcloud` class as reflection sees it. */
  const NextcloudClass: DeclaredClass :=
    DeclaredClass(FactoriesNamespace + "Nextcloud", true, FilesystemFactories.Name, FilesystemFactories.RequiredOptions)

  /** The Nextcloud class is a factory filed under `Nextcloud`, directly in the factories namespace. */
  lemma NextcloudClassIsFactory()
    ensures IsFactory(NextcloudClass)
    ensures ShortName(NextcloudClass.fqName) == "Nextcloud"
  {
    ShorterAbsent("Nextcloud", FactoriesNamespace);
    RemoveAllOfPrefixed(FactoriesNamespace, "Nextcloud");
  }

  /**
   * In a well-formed registry holding the Nextcloud class, options that the
   * resolver returns non-empty carry every option the Nextcloud constructor
   * checks, so the instance built from them is configured.
   */
  lemma AcceptedOptionsConfigureNextcloud(declared: seq<DeclaredClass>, config: Config, i: int)
    requires CanonicalLayout(declared) && UniqueClassNames(declared) && UniqueFactoryNames(declared)
    requires 0 <= i < |declared| && declared[i] == NextcloudClass
    ensures Reflectable(declared) && IsRegistered(declared, FilesystemFactories.Name)
    ensures var r := Resolve(config, FilesystemFactories.Name, RequiredOptionsOf(declared, FilesystemFactories.Name));
      r.options != map[] ==> HasRequiredOptions(r.options)
  {
    NextcloudClassIsFactory();
    RequiredOptionsOfFactory(declared, i);
  }

  /**
   * When the selection instantiates the Nextcloud class, the options it
   * passes configure the instance.
   */
  lemma SelectedNextcloudIsConfigured(declared: seq<DeclaredClass>, config: Config, i: int)
    requires CanonicalLayout(declared) && UniqueClassNames(declared) && UniqueFactoryNames(declared)
    requires 0 <= i < |declared| && declared[i] == NextcloudClass
    ensures Reflectable(declared)
    ensures var s := Select(declared, config);
      s.factory.Some? && s.factory.value.className == NextcloudClass.fqName ==> HasRequiredOptions(s.factory.value.options)
  {
    NextcloudClassIsFactory();
    CanonicalIsReflectable(declared);
    var s := Select(declared, config);
    if s.factory.Some? && s.factory.value.className == NextcloudClass.fqName {
      var names := Discover(declared);
      assert FactoriesNamespace + names[0].0 == FactoriesNamespace + "Nextcloud";
      assert names[0].0 == (FactoriesNamespace + names[0].0)[|FactoriesNamespace|..];
      assert names[0].0 == "Nextcloud";
      // The single discovered entry is the one the Nextcloud class writes.
      assert forall j | i < j < |declared| :: !Registers(declared[j], "Nextcloud");
      DiscoverValue(declared, i);
      GetEntry(names, 0);
      assert names[0].1 == FilesystemFactories.Name;
      AcceptedOptionsConfigureNextcloud(declared, config, i);
    }
  }

  /** A registry holding only the Nextcloud class discovers it under its own name and checks its own options. */
  lemma NextcloudOnlyRegistry()
    ensures Reflectable([NextcloudClass])
    ensures Discover([NextcloudClass]) == [("Nextcloud", "Nextcloud")]
    ensures IsRegistered([NextcloudClass], "Nextcloud")
    ensures RequiredOptionsOf([NextcloudClass], "Nextcloud") == FilesystemFactories.RequiredOptions
  {
    NextcloudClassIsFactory();
    var d := [NextcloudClass];
    assert d[..0] == [];
    RequiredOptionsOfFactory(d, 0);
  }

  /** `Nextcloud_<option>` strips to `<option>` when the option name has no underscore. */
  lemma SettingKey(option: string)
    requires '_' !in option
    ensures StartsWith(OptionPrefix("Nextcloud") + option, OptionPrefix("Nextcloud"))
    ensures RemoveAll(OptionPrefix("Nextcloud") + option, OptionPrefix("Nextcloud")) == option
  {
    var p := OptionPrefix("Nextcloud");
    assert p[|p| - 1] == '_';
    AbsentWithoutChar(option, p, '_');
    RemoveAllOfPrefixed(p, option);
    assert (p + option)[..|p|] == p;
  }

  /** The four settings of a complete Nextcloud configuration. */
  const CompleteConfig: Config := [
    ("Nextcloud_userName", "u"),
    ("Nextcloud_password", "p"),
    ("Nextcloud_nextcloudUrl", "https://x"),
    ("Nextcloud_folderName", "wt")
  ]

  /** The options collected from the complete configuration. */
  lemma CollectCompleteConfig()
    ensures CollectOptions(CompleteConfig[..3], OptionPrefix("Nextcloud"))
      == map["userName" := "u", "password" := "p", "nextcloudUrl" := "https://x"]
    ensures CollectOptions(CompleteConfig, OptionPrefix("Nextcloud"))
      == map["userName" := "u", "password" := "p", "nextcloudUrl" := "https://x", "folderName" := "wt"]
  {
    var p := OptionPrefix("Nextcloud");
    var c := CompleteConfig;
    assert c[0].0 == p + "userName";
    assert c[1].0 == p + "password";
    assert c[2].0 == p + "nextcloudUrl";
    assert c[3].0 == p + "folderName";
    SettingKey("userName");
    SettingKey("password");
    SettingKey("nextcloudUrl");
    SettingKey("folderName");
    assert c[..1][..0] == [];
    assert CollectOptions(c[..1], p) == map["userName" := "u"];
    assert c[..2][..1] == c[..1];
    assert CollectOptions(c[..2], p) == map["userName" := "u", "password" := "p"];
    assert c[..3][..2] == c[..2];
    assert CollectOptions(c[..3], p) == map["userName" := "u", "password" := "p", "nextcloudUrl" := "https://x"];
    assert c[..3] == c[..|c| - 1];
  }

  /** With the Nextcloud class alone and a complete configuration, Nextcloud is instantiated with the four settings. */
  lemma CompleteConfigurationSelectsNextcloud()
    ensures Reflectable([NextcloudClass])
    ensures Select([NextcloudClass], CompleteConfig) == Selection(
      Some(FactoryInstance(FactoriesNamespace + "Nextcloud",
        map["userName" := "u", "password" := "p", "nextcloudUrl" := "https://x", "folderName" := "wt"])),
      [])
  {
    NextcloudOnlyRegistry();
    CollectCompleteConfig();
    var m := map["userName" := "u", "password" := "p", "nextcloudUrl" := "https://x", "folderName" := "wt"];
    assert FirstMissing(FilesystemFactories.RequiredOptions, m) == None;
  }

  /** Without `Nextcloud_folderName` the default filesystem is kept and one warning names `folderName`. */
  lemma MissingFolderWarns()
    ensures Reflectable([NextcloudClass])
    ensures Select([NextcloudClass], CompleteConfig[..3]) == Selection(None, [Warning("Nextcloud", "folderName")])
  {
    NextcloudOnlyRegistry();
    CollectCompleteConfig();
    var m := map["userName" := "u", "password" := "p", "nextcloudUrl" := "https://x"];
    assert FilesystemFactories.RequiredOptions[3] !in m;
    assert FirstMissing(FilesystemFactories.RequiredOptions, m) == Some(3);
  }

  /** With no settings at all the default filesystem is kept and nothing is reported. */
  lemma EmptyConfigKeepsDefault()
    ensures Reflectable([NextcloudClass])
    ensures Select([NextcloudClass], []) == Selection(None, [])
  {
    NextcloudOnlyRegistry();
  }

  /** A second factory class in the namespace. */
  const OtherClass: DeclaredClass := DeclaredClass(FactoriesNamespace + "WebDav", true, "WebDav", ["url"])

  /** Two factory classes: the default filesystem is kept whatever the configuration holds. */
  lemma TwoBackendsKeepDefault(config: Config)
    ensures Reflectable([NextcloudClass, OtherClass])
    ensures Select([NextcloudClass, OtherClass], config) == Selection(None, [])
  {
    var d := [NextcloudClass, OtherClass];
    NextcloudClassIsFactory();
    ShorterAbsent("WebDav", FactoriesNamespace);
    RemoveAllOfPrefixed(FactoriesNamespace, "WebDav");
    assert d[1] == OtherClass;
    CanonicalIsReflectable(d);
    TwoFactoriesMeanDefault(d, config, 0, 1);
  }

  /**
   * Every copy of `Nextcloud_` is removed from a key, so
   * `Nextcloud_Nextcloud_<option>` also sets `<option>`, and being later it wins.
   */
  lemma RepeatedPrefixOverwrites(option: string, u: string, v: string)
    requires '_' !in option
    ensures var p := OptionPrefix("Nextcloud");
      CollectOptions([(p + option, u), (p + p + option, v)], p) == map[option := v]
  {
    var p := OptionPrefix("Nextcloud");
    var c := [(p + option, u), (p + p + option, v)];
    SettingKey(option);
    assert p[|p| - 1] == '_';
    AbsentWithoutChar(option, p, '_');
    RemoveAllRepeatedPrefix(p, option);
    assert StartsWith(p + p + option, p) by {
      assert (p + p + option)[..|p|] == p;
    }
    assert c[..1][..0] == [];
    assert CollectOptions(c[..1], p) == map[option := u];
  }

  /** A factory class declared one namespace too deep. */
  const NestedClass: DeclaredClass := DeclaredClass(FactoriesNamespace + FactoriesNamespace + "X", true, "X", [])

  /** The nested class is a factory, and both copies of the namespace are removed from its key. */
  lemma NestedClassIsFactory()
    ensures IsFactory(NestedClass)
    ensures ShortName(NestedClass.fqName) == "X"
  {
    ShorterAbsent("X", FactoriesNamespace);
    RemoveAllRepeatedPrefix(FactoriesNamespace, "X");
    assert NestedClass.fqName[..|FactoriesNamespace|] == FactoriesNamespace;
    assert OccursAt(NestedClass.fqName, FactoriesNamespace, 0);
  }

  /**
   * The nested class is filed under the key `X`, although no class
   * `...\FilesystemFactories\X` exists. With the Nextcloud class beside it
   * there are two keys, so the default filesystem is kept before any
   * reflection is attempted.
   */
  lemma NestedFactoryKeepsDefault(config: Config)
    ensures Discover([NextcloudClass, NestedClass]) == [("Nextcloud", "Nextcloud"), ("X", "X")]
    ensures !Reflectable([NextcloudClass, NestedClass])
    ensures Select([NextcloudClass, NestedClass], config) == Selection(None, [])
  {
    var d := [NextcloudClass, NestedClass];
    NextcloudOnlyRegistry();
    NestedClassIsFactory();
    assert d[..1] == [NextcloudClass];
    assert IndexOf([("Nextcloud", "Nextcloud")], "X") == None;
    assert Discover(d) == Put([("Nextcloud", "Nextcloud")], "X", "X");
    var missing := FactoriesNamespace + "X";
    assert |NextcloudClass.fqName| != |missing| && |NestedClass.fqName| != |missing|;
    assert ClassByName(d, missing) == None;
  }

  /**
   * `parse_ini_file` keeps a repeated key at its first place with its last
   * value, so `Nextcloud_Nextcloud_<option>`, which sits between the two
   * lines, is collected last and sets `<option>`.
   */
  lemma RepeatedKeyKeepsItsPlace(option: string, a: string, b: string, c: string)
    requires '_' !in option
    ensures var p := OptionPrefix("Nextcloud");
      var lines := [(p + option, a), (p + p + option, b), (p + option, c)];
      && ParseIni(lines) == [(p + option, c), (p + p + option, b)]
      && CollectOptions(ParseIni(lines), p) == map[option := b]
  {
    var p := OptionPrefix("Nextcloud");
    var lines := [(p + option, a), (p + p + option, b), (p + option, c)];
    assert p + option != p + p + option by {
      assert |p + option| < |p + p + option|;
    }
    assert lines[..1][..0] == [];
    assert ParseIni(lines[..1]) == [(p + option, a)];
    assert lines[..2][..1] == lines[..1];
    assert ParseIni(lines[..2]) == [(p + option, a), (p + p + option, b)];
    assert lines[..|lines| - 1] == lines[..2];
    assert IndexOf([(p + option, a), (p + p + option, b)], p + option) == Some(0);
    RepeatedPrefixOverwrites(option, c, b);
  }
}
