/**
 * Discovery of the custom filesystem factories (`getFilesystemFactoryNames`)
 * and the reflection look-ups made on what it finds.
 *
 * `get_declared_classes()`, `class_implements()` and `ReflectionMethod` are
 * replaced by a list of class records carrying the static metadata that
 * reflection would read.
 */
module Discovery {
  import opened Wrappers
  import opened Strings
  import opened OrderedMaps

  /** The module namespace followed by `\FilesystemFactories\`. */
  const FactoriesNamespace: string := "Jefferson49\\Webtrees\\Module\\CustomFilesystem\\FilesystemFactories\\"

  /**
   * One declared class: its fully qualified name, whether it implements
   * `CustomFilesystemFactoryInterface`, and the results of its static
   * `getName()` and `getRequiredOptions()`.
   */
  datatype DeclaredClass = DeclaredClass(
    fqName: string,
    implementsInterface: bool,
    name: string,
    requiredOptions: seq<string>)

  /** The class takes part in discovery: its name contains the factories namespace and it implements the interface. */
  predicate IsFactory(c: DeclaredClass) {
    Contains(c.fqName, FactoriesNamespace) && c.implementsInterface
  }

  /** The array key for a discovered class: every occurrence of the namespace removed. */
  function ShortName(fqName: string): string {
    RemoveAll(fqName, FactoriesNamespace)
  }

  /** `c` is a factory filed under the key `short`. */
  predicate Registers(c: DeclaredClass, short: string) {
    IsFactory(c) && ShortName(c.fqName) == short
  }

  /** One turn of the discovery loop. */
  function DiscoverStep(names: Entries, c: DeclaredClass): Entries {
    if IsFactory(c) then Put(names, ShortName(c.fqName), c.name) else names
  }

  /** The array `short class name => getName()` built over the declared classes in order. */
  function Discover(declared: seq<DeclaredClass>): (names: Entries)
    ensures DistinctKeys(names)
  {
    if declared == [] then []
    else DiscoverStep(Discover(declared[..|declared| - 1]), declared[|declared| - 1])
  }

  /** `getFilesystemFactoryNames`. */
  method DiscoverFactories(declared: seq<DeclaredClass>) returns (names: Entries)
    ensures names == Discover(declared)
  {
    names := [];
    for i := 0 to |declared|
      invariant names == Discover(declared[..i])
    {
      var c := declared[i];
      if Contains(c.fqName, FactoriesNamespace) {
        if c.implementsInterface {
          names := Put(names, ShortName(c.fqName), c.name);
        }
      }
      assert declared[..i + 1][..i] == declared[..i];
    }
    assert declared[..|declared|] == declared;
  }

  /** A key is discovered exactly when some factory class is filed under it. */
  lemma {:induction false} DiscoverKeys(declared: seq<DeclaredClass>, k: string)
    ensures HasKey(Discover(declared), k) <==> exists i | 0 <= i < |declared| :: Registers(declared[i], k)
  {
    if declared != [] {
      var init := declared[..|declared| - 1];
      DiscoverKeys(init, k);
      assert forall i | 0 <= i < |init| :: init[i] == declared[i];
      if Registers(declared[|declared| - 1], k) {
        assert HasKey(Discover(declared), k);
      }
    }
  }

  /**
   * The value stored under a key is `getName()` of the last factory filed
   * under that key: a later class overwrites an earlier one.
   */
  lemma {:induction false} DiscoverValue(declared: seq<DeclaredClass>, i: int)
    requires 0 <= i < |declared| && IsFactory(declared[i])
    requires forall j | i < j < |declared| :: !Registers(declared[j], ShortName(declared[i].fqName))
    ensures Get(Discover(declared), ShortName(declared[i].fqName)) == Some(declared[i].name)
  {
    var init := declared[..|declared| - 1];
    var k := ShortName(declared[i].fqName);
    if i == |declared| - 1 {
      PutGet(Discover(init), k, declared[i].name, k);
    } else {
      assert init[i] == declared[i];
      DiscoverValue(init, i);
      var last := declared[|declared| - 1];
      if IsFactory(last) {
        PutGet(Discover(init), ShortName(last.fqName), last.name, k);
      }
    }
  }

  /** Nothing is discovered exactly when no declared class is a factory. */
  lemma DiscoverEmpty(declared: seq<DeclaredClass>)
    ensures Discover(declared) == [] <==> forall i | 0 <= i < |declared| :: !IsFactory(declared[i])
  {
    var names := Discover(declared);
    if names != [] {
      DiscoverKeys(declared, names[0].0);
      assert HasKey(names, names[0].0);
    } else if exists i | 0 <= i < |declared| :: IsFactory(declared[i]) {
      var i :| 0 <= i < |declared| && IsFactory(declared[i]);
      DiscoverKeys(declared, ShortName(declared[i].fqName));
    }
  }

  /** Two factories filed under different keys give at least two discovered entries. */
  lemma TwoFactories(declared: seq<DeclaredClass>, i: int, j: int)
    requires 0 <= i < |declared| && 0 <= j < |declared|
    requires IsFactory(declared[i]) && IsFactory(declared[j])
    requires ShortName(declared[i].fqName) != ShortName(declared[j].fqName)
    ensures |Discover(declared)| >= 2
  {
    var names := Discover(declared);
    DiscoverKeys(declared, ShortName(declared[i].fqName));
    DiscoverKeys(declared, ShortName(declared[j].fqName));
    var a :| 0 <= a < |names| && names[a].0 == ShortName(declared[i].fqName);
    var b :| 0 <= b < |names| && names[b].0 == ShortName(declared[j].fqName);
    assert a != b;
  }

  /** The class table: the declared class with a given fully qualified name. */
  function ClassByName(declared: seq<DeclaredClass>, fqName: string): (r: Option<DeclaredClass>)
    ensures r.None? <==> forall i | 0 <= i < |declared| :: declared[i].fqName != fqName
    ensures r.Some? ==> exists i | 0 <= i < |declared| :: declared[i] == r.value && r.value.fqName == fqName
  {
    if declared == [] then None
    else if declared[0].fqName == fqName then Some(declared[0])
    else
      var r := ClassByName(declared[1..], fqName);
      assert forall i | 0 <= i < |declared[1..]| :: declared[1..][i] == declared[i + 1];
      r
  }

  /**
   * Every discovered key names, once the namespace is put back in front of
   * it, a declared class implementing the interface, so the reflection
   * calls made on it succeed.
   */
  predicate Reflectable(declared: seq<DeclaredClass>) {
    forall i | 0 <= i < |Discover(declared)| ::
      var c := ClassByName(declared, FactoriesNamespace + Discover(declared)[i].0);
      c.Some? && c.value.implementsInterface
  }

  /** Some discovered factory has the display name `name`. */
  predicate IsRegistered(declared: seq<DeclaredClass>, name: string) {
    FirstKeyWithValue(Discover(declared), name).Some?
  }

  /**
   * `getRequiredOptions()` of the class found by the first discovered entry
   * whose display name is `name`.
   */
  function RequiredOptionsOf(declared: seq<DeclaredClass>, name: string): seq<string>
    requires Reflectable(declared) && IsRegistered(declared, name)
  {
    var names := Discover(declared);
    var short := FirstKeyWithValue(names, name).value;
    ClassByName(declared, FactoriesNamespace + short).value.requiredOptions
  }

  /** Every factory class sits directly in the factories namespace. */
  predicate CanonicalLayout(declared: seq<DeclaredClass>) {
    forall i | 0 <= i < |declared| && IsFactory(declared[i]) ::
      declared[i].fqName == FactoriesNamespace + ShortName(declared[i].fqName)
  }

  /** No class is declared twice, as PHP guarantees. */
  predicate UniqueClassNames(declared: seq<DeclaredClass>) {
    forall i, j | 0 <= i < j < |declared| :: declared[i].fqName != declared[j].fqName
  }

  /** Display names are unique among the factories. */
  predicate UniqueFactoryNames(declared: seq<DeclaredClass>) {
    forall i, j | 0 <= i < j < |declared| && IsFactory(declared[i]) && IsFactory(declared[j]) ::
      declared[i].name != declared[j].name
  }

  /** With factories laid out in their namespace, reflection on every discovered key succeeds. */
  lemma CanonicalIsReflectable(declared: seq<DeclaredClass>)
    requires CanonicalLayout(declared) && UniqueClassNames(declared)
    ensures Reflectable(declared)
  {
    var names := Discover(declared);
    forall x | 0 <= x < |names|
      ensures var c := ClassByName(declared, FactoriesNamespace + names[x].0);
              c.Some? && c.value.implementsInterface
    {
      assert HasKey(names, names[x].0);
      DiscoverKeys(declared, names[x].0);
      var i :| 0 <= i < |declared| && Registers(declared[i], names[x].0);
      var c := ClassByName(declared, FactoriesNamespace + names[x].0);
      var j :| 0 <= j < |declared| && declared[j] == c.value && c.value.fqName == declared[i].fqName;
      assert i == j;
    }
  }

  /**
   * In a well-formed registry the options checked for the factory `declared[i]`
   * are exactly what its own `getRequiredOptions()` returns.
   */
  lemma RequiredOptionsOfFactory(declared: seq<DeclaredClass>, i: int)
    requires CanonicalLayout(declared) && UniqueClassNames(declared) && UniqueFactoryNames(declared)
    requires 0 <= i < |declared| && IsFactory(declared[i])
    ensures Reflectable(declared) && IsRegistered(declared, declared[i].name)
    ensures RequiredOptionsOf(declared, declared[i].name) == declared[i].requiredOptions
  {
    CanonicalIsReflectable(declared);
    var names := Discover(declared);
    var name := declared[i].name;
    var short := ShortName(declared[i].fqName);
    // declared[i] is the only class filed under its key.
    assert forall j | i < j < |declared| :: !Registers(declared[j], short);
    DiscoverValue(declared, i);
    var x :| 0 <= x < |names| && names[x] == (short, name);
    assert IsRegistered(declared, name);
    var found := FirstKeyWithValue(names, name).value;
    var y :| 0 <= y < |names| && names[y] == (found, name);
    GetEntry(names, y);
    assert HasKey(names, found);
    DiscoverKeys(declared, found);
    // The key found is that of a factory whose display name is `name`: declared[i] itself.
    var j :| 0 <= j < |declared| && Registers(declared[j], found)
      && forall l | j < l < |declared| :: !Registers(declared[l], found);
    DiscoverValue(declared, j);
    assert declared[j].name == name;
    assert j == i;
    var c := ClassByName(declared, FactoriesNamespace + found);
    var m :| 0 <= m < |declared| && declared[m] == c.value && c.value.fqName == FactoriesNamespace + found;
    assert m == i;
  }
}
