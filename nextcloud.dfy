/**
 * The Nextcloud filesystem factory: its static metadata, its constructor's
 * self-validation, and the WebDAV address and adapter settings it derives.
 */
module FilesystemFactories {
  import opened Strings

  /** `Nextcloud::getName()`. */
  const Name: string := "Nextcloud"

  /** `Nextcloud::getRequiredOptions()`, in declared order. */
  const RequiredOptions: seq<string> := ["userName", "password", "nextcloudUrl", "folderName"]

  /** The WebDAV files endpoint below the server's base URL. */
  const DavFilesRoot: string := "/remote.php/dav/files/"

  /** Every required option is a key of `options`. */
  predicate HasRequiredOptions(options: map<string, string>) {
    forall j | 0 <= j < |RequiredOptions| :: RequiredOptions[j] in options
  }

  /** The settings handed to the WebDAV adapter, optionally wrapped in a path-prefixing adapter. */
  datatype Adapter =
    | NextCloudAdapter(baseUri: string, userName: string, password: string)
    | PathPrefixedAdapter(inner: Adapter, prefix: string)

  /** The filesystem `data()` returns, over its adapter. */
  datatype Filesystem = Filesystem(adapter: Adapter)

  class Nextcloud {
    var userName: string
    var password: string
    var nextcloudBaseUrl: string
    var folderName: string
    var configured: bool

    /**
     * Checks the required options in order and stops at the first one
     * missing, leaving the instance unconfigured; otherwise copies the four
     * settings and marks the instance configured. Other keys are ignored.
     */
    constructor (options: map<string, string>)
      ensures configured <==> HasRequiredOptions(options)
      ensures configured ==>
        && "nextcloudUrl" in options && "folderName" in options && "userName" in options && "password" in options
        && nextcloudBaseUrl == options["nextcloudUrl"]
        && folderName == options["folderName"]
        && userName == options["userName"]
        && password == options["password"]
    {
      new;
      var i := 0;
      while i < |RequiredOptions|
        invariant 0 <= i <= |RequiredOptions|
        invariant forall j | 0 <= j < i :: RequiredOptions[j] in options
      {
        if RequiredOptions[i] !in options {
          configured := false;
          return;
        }
        i := i + 1;
      }
      assert RequiredOptions[0] in options && RequiredOptions[1] in options;
      assert RequiredOptions[2] in options && RequiredOptions[3] in options;
      nextcloudBaseUrl := options["nextcloudUrl"];
      folderName := options["folderName"];
      userName := options["userName"];
      password := options["password"];
      configured := true;
    }

    /** `isConfigured()`. */
    predicate IsConfigured()
      reads this
    {
      configured
    }

    /**
     * `dataName()`: the WebDAV address of the configured folder. It lies
     * under the server's base URL, in the files root of the configured user,
     * and names the folder as a directory.
     */
    function DataName(): (r: string)
      reads this
      requires IsConfigured()
      ensures StartsWith(r, nextcloudBaseUrl + DavFilesRoot + userName + "/")
      ensures |r| == |nextcloudBaseUrl + DavFilesRoot + userName + "/"| + |folderName| + 1
      ensures r[|r| - |folderName| - 1..] == folderName + "/"
    {
      nextcloudBaseUrl + DavFilesRoot + userName + "/" + folderName + "/"
    }

    /**
     * `data($path_prefix)`: an adapter for `DataName()` with the configured
     * credentials, wrapped in a path-prefixing adapter exactly when the prefix
     * is not empty.
     */
    method Data(pathPrefix: string) returns (fs: Filesystem)
      requires IsConfigured()
      ensures var dav := NextCloudAdapter(DataName(), userName, password);
        fs.adapter == if pathPrefix == "" then dav else PathPrefixedAdapter(dav, pathPrefix)
    {
      var adapter := NextCloudAdapter(nextcloudBaseUrl + DavFilesRoot + userName + "/" + folderName + "/", userName, password);
      if pathPrefix != "" {
        adapter := PathPrefixedAdapter(adapter, pathPrefix);
      }
      fs := Filesystem(adapter);
    }
  }

  /**
   * For a fixed server, the address `dataName()` returns tells the user and
   * the folder apart, provided user names contain no `/`.
   */
  lemma DataNameIdentifiesTarget(a: Nextcloud, b: Nextcloud)
    requires a.IsConfigured() && b.IsConfigured()
    requires a.nextcloudBaseUrl == b.nextcloudBaseUrl
    requires '/' !in a.userName && '/' !in b.userName
    requires a.DataName() == b.DataName()
    ensures a.userName == b.userName && a.folderName == b.folderName
  {
    var root := a.nextcloudBaseUrl + DavFilesRoot;
    var ta := a.userName + "/" + a.folderName + "/";
    var tb := b.userName + "/" + b.folderName + "/";
    assert a.DataName() == root + ta;
    assert b.DataName() == root + tb;
    assert ta == (root + ta)[|root|..] == (root + tb)[|root|..] == tb;
    IndexOfSeparator(a.userName, '/', a.folderName + "/");
    IndexOfSeparator(b.userName, '/', b.folderName + "/");
    assert a.userName + "/" + a.folderName + "/" == a.userName + ['/'] + (a.folderName + "/");
    assert b.userName + "/" + b.folderName + "/" == b.userName + ['/'] + (b.folderName + "/");
    assert a.userName == ta[..|a.userName|] == tb[..|b.userName|] == b.userName;
    assert a.folderName + "/" == ta[|a.userName| + 1..] == tb[|b.userName| + 1..] == b.folderName + "/";
    assert a.folderName == (a.folderName + "/")[..|a.folderName|];

  }
}
