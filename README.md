# CustomFilesystem: backend discovery, option resolution and selection

This project models the core of the webtrees custom module *CustomFilesystem*.
When it boots, the module decides which filesystem factory webtrees should use:

- the default local `FilesystemFactory`, or
- a custom factory such as the Nextcloud (WebDAV) one.

The decision has three steps:

1. **Discovery** (`getFilesystemFactoryNames`) scans the declared classes. It keeps those whose name
   contains the `...\CustomFilesystem\FilesystemFactories\` namespace and that implement
   `CustomFilesystemFactoryInterface`. The result is an ordered PHP array from short class name
   (the namespace removed) to the class's `getName()`.
2. **Option resolution** (`getProviderOptions`) collects the configuration keys that start with
   `<name>_`, with the prefix removed. It then checks them against the factory's
   `getRequiredOptions()`. A factory the configuration does not mention gets no options and no
   message. An incomplete configuration gets no options and exactly one flash message naming the
   first missing option.
3. **Selection** (`getFilesystemFactory`, `boot`) uses a custom factory only when exactly one is
   discovered and its options resolve. Otherwise `boot` registers the default filesystem.

The Nextcloud factory checks its own options in its constructor. It then derives the WebDAV address
(`dataName`) and the adapter settings (`data`) from them.

Modules:

- `Strings`: `strpos` tests and `str_replace` with an empty replacement (`RemoveAll`).
- `OrderedMaps`: PHP arrays as ordered entry lists. `$a[$k] = $v` is `Put`. The first-match
  `foreach` is `FirstKeyWithValue` / `FindKeyWithValue`.
- `Discovery`: discovery, and the reflection look-ups made on what it finds.
- `Options`: the configuration file as `parse_ini_file` reads it (`ParseIni`), the value read
  (`ConfigValue`), and the resolver (`Resolve`, proved against the loop method `ResolveOptions`).
- `FilesystemFactories`: the `Nextcloud` class.
- `CustomFilesystemModule`: the selection function `Select`, and the class `CustomFilesystem`. The
  class holds the module's static state: the configuration cache, the flash messages and the
  registered factory.
- `Scenarios`: how the Nextcloud factory behaves inside the pipeline, with concrete configurations.

Behaviours of the PHP code that the model keeps:

- Reflection happens only when exactly one factory is discovered (src/CustomFilesystem.php:242).
  If that class cannot be reflected, PHP throws an exception. The model therefore requires
  `Reflectable` in that case only. With any other number of factories, PHP returns `null` before
  any reflection.
- `str_replace` removes the option prefix wherever it occurs in a key, not only at its start.
  `Nextcloud_Nextcloud_userName` therefore also sets `userName`.
- The class instantiated is rebuilt as namespace + array key.
- The configuration cache stays empty while the file is missing or holds no settings.
  So every call checks `file_exists` again, and parses the file again when it exists but is empty.
- `parse_ini_file` gives an array: a repeated key keeps the place of its first line and the value
  of its last.

## Model

| member | source | states |
|---|---|---|
| `Strings.StartsWith` | src/CustomFilesystem.php:251 | `strpos($key, $prefix) === 0`: the key begins with the prefix (definition) |
| `Strings.Contains` | src/CustomFilesystem.php:213 | `strpos(...) !== false`: the pattern occurs at some position (definition) |
| `Strings.RemoveAll` | src/CustomFilesystem.php:252 | `str_replace($p, '', $s)`: left-to-right removal of every non-overlapping copy; the result is never longer than the input |
| `Strings.RemoveAllRepeatedPrefix` | src/CustomFilesystem.php:252 | `str_replace` deletes every copy of the prefix, so `p + p + s` strips to `s` |
| `Strings.RemoveAllOfPrefixed` | src/CustomFilesystem.php:216 | a name made of the namespace followed by a string that does not contain it contains the namespace and strips back to that string |
| `OrderedMaps.Put` | src/CustomFilesystem.php:217 | array assignment: keys become old keys plus `k`; the length grows only for a new key; existing keys keep their positions; distinct keys stay distinct |
| `OrderedMaps.PutGet` | src/CustomFilesystem.php:217 | after `$a[$k] = $v`, reading `k` gives `v` and every other key reads as before |
| `OrderedMaps.FirstKeyWithValue` | src/CustomFilesystem.php:240-246 | `None` iff no entry has the value; otherwise the key of the first entry holding it |
| `OrderedMaps.FindKeyWithValue` | src/CustomFilesystem.php:188-193 | the stop-at-first-match loop returns exactly `FirstKeyWithValue` |
| `Discovery.IsFactory` | src/CustomFilesystem.php:213-214 | a class takes part when its name contains the factories namespace and it implements the interface (definition) |
| `Discovery.ShortName` | src/CustomFilesystem.php:216 | the array key: every copy of the namespace removed from the class name (definition) |
| `Discovery.DiscoverStep` | src/CustomFilesystem.php:213-217 | one turn of the discovery loop: a factory writes `key => getName()`, any other class leaves the array as it is (definition) |
| `Discovery.Discover` | src/CustomFilesystem.php:205-223 | the discovered array never holds a key twice |
| `Discovery.DiscoverFactories` | src/CustomFilesystem.php:205-223 | the loop over declared classes builds exactly `Discover(declared)` |
| `Discovery.DiscoverKeys` | src/CustomFilesystem.php:212-219 | a key is discovered iff some declared class contains the namespace, implements the interface and strips to that key |
| `Discovery.DiscoverValue` | src/CustomFilesystem.php:215-217 | the value under a key is `getName()` of the last factory class filed under it |
| `Discovery.DiscoverEmpty` | src/CustomFilesystem.php:207-222 | nothing is discovered iff no declared class is a factory |
| `Discovery.TwoFactories` | src/CustomFilesystem.php:212-222 | two factories with different short names give at least two entries |
| `Discovery.ClassByName` | src/CustomFilesystem.php:242 | the class table finds a class with exactly the requested name, or reports that none is declared |
| `Discovery.RequiredOptionsOf` | src/CustomFilesystem.php:240-246 | `getRequiredOptions()` of the class named by the first discovered key whose value is `name` (definition; requires the reflection to succeed) |
| `Discovery.CanonicalIsReflectable` | src/CustomFilesystem.php:242-243 | when factory classes sit directly in the namespace, reflection on every discovered key finds a class that implements the interface |
| `Discovery.RequiredOptionsOfFactory` | src/CustomFilesystem.php:240-246 | in a well-formed registry, the options checked for a factory's name are that class's own `getRequiredOptions()` |
| `Options.Lookup` | src/CustomFilesystem.php:285 | over the file's lines: `None` iff no line sets the key, else the value of the last line that sets it |
| `Options.ParseIni` | src/CustomFilesystem.php:285 | `parse_ini_file` as one array assignment per line: the result never holds a key twice |
| `Options.ParsedValue` | src/CustomFilesystem.php:285 | reading a key of the parsed file gives the value of the last line setting it |
| `Options.ConfigValue` | src/CustomFilesystem.php:299-306 | the value stored under the key, or `''` when it is not set (definition) |
| `Options.ConfigValueMeaning` | src/CustomFilesystem.php:299-306 | for a parsed file, `getConfigValue` gives the value of the last line setting the key, or `''` when no line sets it |
| `Options.CollectOptions` | src/CustomFilesystem.php:250-255 | the collect loop as a fold over the configuration in order: a prefixed key, stripped, is assigned its value (definition) |
| `Options.CollectedKeys` | src/CustomFilesystem.php:250-255 | an option is collected iff some key starts with `<name>_` and strips to it |
| `Options.CollectedValue` | src/CustomFilesystem.php:250-255 | a collected option's value comes from the last entry that strips to it |
| `Options.CollectedNothing` | src/CustomFilesystem.php:250-260 | nothing is collected iff no key starts with `<name>_` |
| `Options.FirstMissing` | src/CustomFilesystem.php:263-268 | `None` iff every required option is present; otherwise the first absent one, in declared order |
| `Options.Resolve` | src/CustomFilesystem.php:250-270 | unmentioned factory: empty, no warning. Incomplete: empty, one warning with the factory's name and the first missing option. Complete: every stripped setting, extra keys included, with all required options present |
| `Options.ResolveOptions` | src/CustomFilesystem.php:249-270 | the collect loop and the check loop (early return) compute exactly `Resolve` |
| `Options.ResolvedSetting` | src/CustomFilesystem.php:250-270 | on success, a setting `name_K = V` that no later setting overrides appears as `K -> V` |
| `FilesystemFactories.Nextcloud.constructor` | src/FilesystemFactories/Nextcloud.php:58-72 | configured iff all four required keys are present; when configured the four fields hold those values |
| `FilesystemFactories.Nextcloud.IsConfigured` | src/FilesystemFactories/Nextcloud.php:137-140 | `isConfigured()` reads the flag the constructor set (definition) |
| `FilesystemFactories.Nextcloud.DataName` | src/FilesystemFactories/Nextcloud.php:112-115 | the address lies under the base URL, in `/remote.php/dav/files/<user>/`, and ends with the folder as a directory |
| `FilesystemFactories.Nextcloud.Data` | src/FilesystemFactories/Nextcloud.php:81-95 | adapter `baseUri` is `DataName()` with the configured credentials; a path-prefix wrapper is applied iff the prefix is not `''` |
| `FilesystemFactories.DataNameIdentifiesTarget` | src/FilesystemFactories/Nextcloud.php:112-115 | for one server, equal addresses mean equal user and folder (user names without `/`) |
| `CustomFilesystemModule.Select` | src/CustomFilesystem.php:170-197 | not exactly one factory: `null`, no message, with no reflection required. Otherwise: `null` plus the resolver's warning when options are empty, else an instance of namespace + the sole key with exactly the resolved options. So the "no provider found" return at :195-196 is never reached |
| `CustomFilesystemModule.Registration` | src/CustomFilesystem.php:78-85 | `boot` registers the selected factory, or a default `FilesystemFactory` for `null` (definition) |
| `CustomFilesystemModule.NoFactoryMeansDefault` | src/CustomFilesystem.php:172-176 | with no factory class, nothing is discovered, and selection gives `null` and no message |
| `CustomFilesystemModule.TwoFactoriesMeanDefault` | src/CustomFilesystem.php:172-176 | two factories under different names give at least two keys and `null`, whatever the configuration and whether or not they can be reflected |
| `CustomFilesystemModule.UnconfiguredMeansDefault` | src/CustomFilesystem.php:181-186 | a single factory whose prefix starts no key gives `null` and no message |
| `CustomFilesystemModule.SelectedClassIsDeclared` | src/CustomFilesystem.php:188-192 | with canonically placed classes, reflection succeeds and the class instantiated is a declared factory class |
| `CustomFilesystemModule.CustomFilesystem.constructor` | src/CustomFilesystem.php:59 | the module starts with an empty configuration cache, no messages and nothing registered |
| `CustomFilesystemModule.CustomFilesystem.GetWebtreesConfig` | src/CustomFilesystem.php:281-289 | returns the loaded configuration; parses the file only while the cache is empty and the file exists |
| `CustomFilesystemModule.CustomFilesystem.GetConfigValue` | src/CustomFilesystem.php:299-306 | returns `ConfigValue` of the loaded configuration; the file is parsed at most once, and only when the cache was empty |
| `CustomFilesystemModule.CustomFilesystem.GetProviderOptions` | src/CustomFilesystem.php:233-271 | returns the resolved options, appends the resolver's warning, if any, to the flash messages, and loads the cache as `getWebtreesConfig` does |
| `CustomFilesystemModule.CustomFilesystem.GetFilesystemFactory` | src/CustomFilesystem.php:170-197 | returns `Select`'s outcome for the loaded configuration and adds exactly its warnings; the cache is loaded only when exactly one factory is discovered, and is left untouched otherwise |
| `CustomFilesystemModule.CustomFilesystem.Boot` | src/CustomFilesystem.php:73-86 | registers the selected custom factory, or the default filesystem when selection gives `null`; messages and cache change as in `GetFilesystemFactory` |
| `Scenarios.NextcloudClassIsFactory` | src/FilesystemFactories/Nextcloud.php:34-44 | the Nextcloud class is a factory, filed under `Nextcloud` |
| `Scenarios.NextcloudOnlyRegistry` | src/FilesystemFactories/Nextcloud.php:102-130 | with only that class declared, discovery gives `Nextcloud => Nextcloud` (the constant `Name`) and the options checked are its four required options (the constant `RequiredOptions`) |
| `Scenarios.AcceptedOptionsConfigureNextcloud` | src/CustomFilesystem.php:262-270 | a non-empty option map resolved for `Nextcloud` holds every key the Nextcloud constructor checks, so the instance is configured |
| `Scenarios.SelectedNextcloudIsConfigured` | src/CustomFilesystem.php:188-192 | when selection instantiates the Nextcloud class, the options it passes configure it |
| `Scenarios.CompleteConfigurationSelectsNextcloud` | src/CustomFilesystem.php:170-192 | four complete `Nextcloud_*` settings select Nextcloud with exactly those four options and no message |
| `Scenarios.MissingFolderWarns` | src/CustomFilesystem.php:263-267 | without `Nextcloud_folderName` the result is `null` with the single warning `(Nextcloud, folderName)` |
| `Scenarios.EmptyConfigKeepsDefault` | src/CustomFilesystem.php:257-260 | an empty configuration gives `null` and no message |
| `Scenarios.TwoBackendsKeepDefault` | src/CustomFilesystem.php:174-176 | two factory classes give `null` for every configuration |
| `Scenarios.NestedClassIsFactory` | src/CustomFilesystem.php:213-216 | a factory class declared under the namespace twice is discovered, and its key loses both copies |
| `Scenarios.NestedFactoryKeepsDefault` | src/CustomFilesystem.php:172-176 | with the Nextcloud class and that nested class, two keys are found and reflection on `X` would fail, yet selection gives `null` and no message |
| `Scenarios.RepeatedPrefixOverwrites` | src/CustomFilesystem.php:252-253 | `Nextcloud_Nextcloud_<opt>` also sets `<opt>` and, coming later, overwrites `Nextcloud_<opt>` |
| `Scenarios.RepeatedKeyKeepsItsPlace` | src/CustomFilesystem.php:250-255 | the lines `Nextcloud_<opt>=a`, `Nextcloud_Nextcloud_<opt>=b`, `Nextcloud_<opt>=c` parse to two entries, with the first key in first place holding `c`; collecting then yields `<opt> => b` |

## Left out

- autoload.php: class-loader registration and the `require_once` loop are bootstrap I/O.
- src/CustomFilesystemFactory.php: a placeholder wrapper that the selection never uses.
- The interface file has signatures only. It is reflected in the fields of `DeclaredClass`.
- `get_declared_classes`, `class_implements` and `ReflectionMethod` become the `DeclaredClass` list.
  Class names are compared exactly; PHP's case-insensitive class lookup is not modelled.
- A reflection call on a missing class raises an exception. That only happens when exactly one
  factory is discovered. The model excludes this case with the precondition
  `|Discover(declared)| == 1 ==> Reflectable(declared)` instead of modelling the exception.
- CustomFilesystemModule.CustomFilesystem.GetProviderOptions requires `Reflectable` and
  `IsRegistered`. Its only caller meets both, because it runs only when exactly one factory is
  discovered. A direct call with a name no factory has (`$option_names` undefined) is not modelled.
- `file_exists` becomes the constant `configFileExists`. The file's `key = value` settings become the
  constant `configFile`, and `ParseIni` folds them into an array.
- Not modelled from `parse_ini_file`: sections, comments and quoting; the conversion of `true`/`on`/`yes`
  to `"1"` and of `false`/`off`/`no`/`none` to `""`; numeric keys turned into integers; and a parse failure
  (`false`, a type error under strict types).
- The order of keys inside the resolved option array is not kept. Options are a `map`; only
  membership and values matter to the callers.
- Flysystem, `NextCloudAdapter` and `PathPrefixedAdapter` are foreign objects. Only the settings
  passed to them are modelled (`Adapter`, `Filesystem`).
- `new $class_name($options)` is represented by the value `FactoryInstance(className, options)`.
  Only the Nextcloud constructor is modelled. `Scenarios.SelectedNextcloudIsConfigured` links the two.
- `FlashMessages`/`I18N` text: only the `(factory, option)` pair of each message is kept.
- `Registry::filesystem` is the field `registered`.
- Module metadata (`title`, `description`, `customModule*`, `resourcesFolder`, `activeModuleName`,
  `viewsNamespace`) is presentation only.
- The `str_replace('\\\\', '\\', __NAMESPACE__)` step leaves the namespace unchanged.
  The resulting constant is `FactoriesNamespace`.
- FilesystemFactories.Nextcloud.constructor: on the unconfigured path PHP leaves the four typed
  properties uninitialised. Here they keep default values and nothing is stated about them.
  `DataName` and `Data` require `IsConfigured()`, as PHP would fail on reading them.
