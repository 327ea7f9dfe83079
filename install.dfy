/** The decisions DesiInstall makes before it fetches and builds anything:
    which product and version were asked for, where the source lives, which
    build steps apply, where the product is installed and where its module
    file goes. The environment, the configuration file and the filesystem
    are explicit parameters; nothing here runs a command or reads a disk. */
module Install {
  import opened Results
  import opened Strings
  import opened Paths

  // ---------------------------------------------------------------------
  // Options, environment, configuration

  /** Placeholders the command line leaves when no product or version is
      given. */
  const NoPackage := "NO PACKAGE"
  const NoVersion := "NO VERSION"

  /** Environment variables consulted. */
  const ModulesHomeVariable := "MODULESHOME"
  const ProductRootVariable := "LVM_PRODUCT_ROOT"
  const UserVariable := "USER"
  const NerscHostVariable := "NERSC_HOST"
  const DesicondaVariable := "DESICONDA"

  /** The parsed command line, as the installer uses it. */
  datatype Options = Options(
    product: string,
    productVersion: string,
    anaconda: string,
    bootstrap: bool,
    force: bool,
    forceBuildType: bool,
    keep: bool,
    knl: bool,
    root: Option<string>,
    moduleshome: Option<string>,
    username: string)

  /** What was written on the command line; `None` means the option was not
      given and its default applies. */
  datatype CommandLine = CommandLine(
    product: Option<string>,
    productVersion: Option<string>,
    anaconda: Option<string>,
    bootstrap: bool,
    force: bool,
    forceBuildType: bool,
    keep: bool,
    knl: bool,
    root: Option<string>,
    moduleshome: Option<string>,
    username: Option<string>)

  /** The command line with nothing on it. */
  const EmptyCommandLine := CommandLine(None, None, None, false, false, false, false, false, None, None, None)

  /** The value of an environment variable, if it is set. */
  function Getenv(env: map<string, string>, name: string): (r: Option<string>)
    ensures r.Some? <==> name in env
    ensures r.Some? ==> r.value == env[name]
  {
    if name in env then Some(env[name]) else None
  }

  /** Options with the defaults filled in: the product root and the Modules
      home come from the environment, the user name from USER, and the
      desiconda version from DESICONDA. */
  function OptionsOf(cl: CommandLine, env: map<string, string>): (r: Options)
    requires UserVariable in env
    ensures cl.product.Some? ==> r.product == cl.product.value
    ensures cl.product.None? ==> r.product == NoPackage
    ensures cl.productVersion.Some? ==> r.productVersion == cl.productVersion.value
    ensures cl.productVersion.None? ==> r.productVersion == NoVersion
    ensures cl.anaconda.Some? ==> r.anaconda == cl.anaconda.value
    ensures cl.anaconda.None? ==> r.anaconda == AnacondaVersion(env)
    ensures r.bootstrap == cl.bootstrap && r.force == cl.force && r.forceBuildType == cl.forceBuildType
    ensures r.keep == cl.keep && r.knl == cl.knl
    ensures cl.root.Some? ==> r.root == cl.root
    ensures cl.root.None? ==> r.root == Getenv(env, ProductRootVariable)
    ensures cl.moduleshome.Some? ==> r.moduleshome == cl.moduleshome
    ensures cl.moduleshome.None? ==> r.moduleshome == Getenv(env, ModulesHomeVariable)
    ensures cl.username.Some? ==> r.username == cl.username.value
    ensures cl.username.None? ==> r.username == env[UserVariable]
  {
    Options(
      product := OrElse(cl.product, NoPackage),
      productVersion := OrElse(cl.productVersion, NoVersion),
      anaconda := OrElse(cl.anaconda, AnacondaVersion(env)),
      bootstrap := cl.bootstrap,
      force := cl.force,
      forceBuildType := cl.forceBuildType,
      keep := cl.keep,
      knl := cl.knl,
      root := if cl.root.Some? then cl.root else Getenv(env, ProductRootVariable),
      moduleshome := if cl.moduleshome.Some? then cl.moduleshome else Getenv(env, ModulesHomeVariable),
      username := OrElse(cl.username, env[UserVariable]))
  }

  /** The value given, or the default when none was. */
  function OrElse(given: Option<string>, default: string): (r: string)
    ensures given.Some? ==> r == given.value
    ensures given.None? ==> r == default
  {
    if given.Some? then given.value else default
  }

  /** With nothing on the command line every option has its default: no
      product or version, no flags, and the root, Modules home, user and
      desiconda version read from the environment. */
  lemma DefaultOptions(env: map<string, string>)
    requires UserVariable in env
    ensures OptionsOf(EmptyCommandLine, env) == Options(
      NoPackage, NoVersion, AnacondaVersion(env), false, false, false, false, false,
      Getenv(env, ProductRootVariable), Getenv(env, ModulesHomeVariable), env[UserVariable])
  {
  }

  /** The two positional arguments set the product and version and
      nothing else. */
  lemma PositionalOptions(cl: CommandLine, env: map<string, string>, product: string, version: string)
    requires UserVariable in env
    ensures OptionsOf(cl.(product := Some(product), productVersion := Some(version)), env)
      == OptionsOf(cl, env).(product := product, productVersion := version)
  {
  }

  /** Without --root the root comes from LVM_PRODUCT_ROOT, and is missing
      when that is not set. */
  lemma RootFromEnvironment(cl: CommandLine, env: map<string, string>)
    requires UserVariable in env && cl.root.None?
    ensures ProductRootVariable !in env ==> OptionsOf(cl, env).root.None?
    ensures ProductRootVariable in env ==> OptionsOf(cl, env).root == Some(env[ProductRootVariable])
  {
  }

  /** The two sections of the configuration file: product URLs that
      override the built-in ones, and Modules directories per NERSC host.
      No configuration file is the same as one with both sections empty. */
  datatype Config = Config(knownProducts: map<string, string>, moduleDirectories: map<string, string>)

  const NoConfig := Config(map[], map[])

  // ---------------------------------------------------------------------
  // Errors

  /** Every failure the planner reports; each one carries the text of the
      single exception type the installer raises. */
  datatype InstallError =
    | MissingProductVersion
    | ModulesNotSetUp
    | HttpStatus(code: nat, url: string)
    | UnreachableUrl(url: string)
    | InvalidSvnUrl(url: string)
    | NoInstallRoot
    | UnknownNerscHost(host: string)
    | InstallDirExists(path: string)

  /** The text of the exception raised for an error; every message that is
      about a URL, a host or a directory names it, at a fixed place. */
  function Message(e: InstallError): (r: string)
    ensures |r| > 0
    ensures e.HttpStatus? || e.UnreachableUrl? ==> r[|r| - 1] == '.' && OccursAt(r, e.url, |r| - |e.url| - 1)
    ensures e.InvalidSvnUrl? ==> OccursAt(r, e.url, 0)
    ensures e.UnknownNerscHost? ==> r[|r| - 1] == '.' && OccursAt(r, e.host, |r| - |e.host| - 1)
    ensures e.InstallDirExists? ==> OccursAt(r, e.path, 19)
  {
    match e
    case MissingProductVersion => "You must specify a product and a version!"
    case ModulesNotSetUp => "You do not appear to have Modules set up."
    case HttpStatus(code, url) => "Error " + NatToString(code) + " querying GitHub URL: " + url + "."
    case UnreachableUrl(url) => "Could not reach GitHub URL: " + url + "."
    case InvalidSvnUrl(url) => url + " does not appear to be a valid svn product/version!"
    case NoInstallRoot => "Root install directory is missing or not set."
    case UnknownNerscHost(host) => "Unknown NERSC host: " + host + "."
    case InstallDirExists(path) => "Install directory, " + path + ", already exists!"
  }

  // ---------------------------------------------------------------------
  // Sanity check

  /** The product the installer installs when it bootstraps itself. */
  const SelfProduct := "lvmutil"

  /** A missing product or version is an error unless the installer is
      bootstrapping itself, in which case it installs its own product at
      its own version; after that, Modules must be set up (its home given
      and an existing directory). */
  function SanityCheck(o: Options, dirs: set<string>, ownVersion: string): (r: Result<Options, InstallError>)
    ensures (o.product == NoPackage || o.productVersion == NoVersion) && !o.bootstrap
      <==> r == Err(MissingProductVersion)
    ensures r.Ok? <==>
      ((o.product != NoPackage && o.productVersion != NoVersion) || o.bootstrap) &&
      o.moduleshome.Some? && o.moduleshome.value in dirs
    ensures r.Ok? && (o.product == NoPackage || o.productVersion == NoVersion) ==>
      r.value == o.(product := SelfProduct, productVersion := ownVersion)
    ensures r.Ok? && o.product != NoPackage && o.productVersion != NoVersion ==> r.value == o
    ensures r.Err? && r.error != MissingProductVersion ==> r.error == ModulesNotSetUp
  {
    var o' :=
      if o.product == NoPackage || o.productVersion == NoVersion then
        if o.bootstrap then Ok(o.(product := SelfProduct, productVersion := ownVersion))
        else Err(MissingProductVersion)
      else Ok(o);
    if o'.Err? then o'
    else if o.moduleshome.None? || o.moduleshome.value !in dirs then Err(ModulesNotSetUp)
    else o'
  }

  /** Without a product or a version, and not bootstrapping, the sanity check
      fails with the "must specify" message. */
  lemma MustSpecifyMessage(o: Options, dirs: set<string>, ownVersion: string)
    requires (o.product == NoPackage || o.productVersion == NoVersion) && !o.bootstrap
    ensures SanityCheck(o, dirs, ownVersion).Err?
    ensures Message(SanityCheck(o, dirs, ownVersion).error) == "You must specify a product and a version!"
  {
  }

  /** Bootstrapping without MODULESHOME fails with the Modules message. */
  lemma ModulesMessage(o: Options, dirs: set<string>, ownVersion: string)
    requires o.bootstrap && o.moduleshome.None?
    ensures SanityCheck(o, dirs, ownVersion).Err?
    ensures Message(SanityCheck(o, dirs, ownVersion).error) == "You do not appear to have Modules set up."
  {
  }

  // ---------------------------------------------------------------------
  // Product and version resolution

  /** Products that do not live on GitHub, with their repository URLs. */
  const DefaultKnownProducts: map<string, string> := map["desiAdmin" := AdminUrl]

  const AdminUrl := "https://desi.lbl.gov/svn/code/tools/desiAdmin"

  const GitHubPrefix := "https://github.com/"
  const DefaultOwner := "desihub"

  /** The registry after the configuration file's products are merged in;
      an entry of the configuration file replaces a built-in one. */
  function KnownProducts(known: map<string, string>, config: Config): (r: map<string, string>)
    ensures r.Keys == known.Keys + config.knownProducts.Keys
    ensures forall p :: p in config.knownProducts ==> r[p] == config.knownProducts[p]
    ensures forall p :: p in known && p !in config.knownProducts ==> r[p] == known[p]
  {
    known + config.knownProducts
  }

  /** The outcome of resolving a product and a version: the repository
      URL, the product's plain name and the last component of the version. */
  datatype Resolution = Resolution(fullproduct: string, baseproduct: string, baseversion: string)

  /** A registered product uses its registered URL; anything else is on
      GitHub, under the owner it names or under the default owner. */
  function ResolveProduct(product: string, version: string, known: map<string, string>): (r: Resolution)
    ensures r.baseproduct == Basename(product) && r.baseversion == Basename(version)
    ensures Basename(product) in known ==> r.fullproduct == known[Basename(product)]
    ensures Basename(product) !in known ==> StartsWith(r.fullproduct, GitHubPrefix)
  {
    var base := Basename(product);
    if base in known then Resolution(known[base], base, Basename(version))
    else if '/' in product then Resolution(GitHubPrefix + product, base, Basename(version))
    else Resolution(GitHubPrefix + DefaultOwner + "/" + product, base, Basename(version))
  }

  /** Whether the product is fetched from GitHub (as a git repository) or
      from a subversion server: unregistered products are on GitHub, and a
      registered one is when its URL mentions github.com. */
  predicate OnGitHub(product: string, known: map<string, string>)
    ensures forall v :: OnGitHub(product, known) <==>
      Contains(ResolveProduct(product, v, known).fullproduct, "github.com")
  {
    GitHubUrlsMentionGitHub();
    Basename(product) !in known || Contains(known[Basename(product)], "github.com")
  }

  /** Every URL under https://github.com/ contains "github.com". */
  lemma GitHubUrlsMentionGitHub()
    ensures forall s :: StartsWith(s, GitHubPrefix) ==> Contains(s, "github.com")
  {
    forall s | StartsWith(s, GitHubPrefix) ensures Contains(s, "github.com") {
      assert s[8..18] == GitHubPrefix[8..18];
      assert GitHubPrefix[8..18] == "github.com";
      assert OccursAt(s, "github.com", 8);
      ContainsIff(s, "github.com");
    }
  }

  /** A bare name is a GitHub product of the default owner, and is its own
      base name. */
  lemma ResolveBareName(product: string, version: string, known: map<string, string>)
    requires '/' !in product && product !in known
    ensures ResolveProduct(product, version, known) ==
      Resolution("https://github.com/desihub/" + product, product, Basename(version))
  {
    AfterLastWithout(product, '/');
  }

  /** `owner/name` is the GitHub repository of that owner; its base name is
      `name`. */
  lemma ResolveOwnerName(owner: string, name: string, version: string, known: map<string, string>)
    requires '/' !in name && name !in known
    ensures ResolveProduct(owner + "/" + name, version, known) ==
      Resolution("https://github.com/" + owner + "/" + name, name, Basename(version))
  {
    AfterLastOfJoin(owner, '/', name);
  }

  /** A product named in the configuration file takes its URL from there,
      whatever the built-in registry says about it. */
  lemma ConfigurationWins(product: string, version: string, known: map<string, string>, config: Config)
    requires Basename(product) in config.knownProducts
    ensures ResolveProduct(product, version, KnownProducts(known, config)).fullproduct ==
      config.knownProducts[Basename(product)]
  {
  }

  /** The configuration file of the installer tests. */
  const TestConfig := Config(
    map["my_new_product" := "https://github.com/me/my_new_product"],
    map["edison" := "/project/projectdirs/desi/test/modules",
        "cori" := "/global/common/cori/contrib/desi/test/modules"])

  /** The four resolutions the tests ask for: two bare names, an
      `owner/name` and a product of the configuration file. */
  lemma ResolveFoo()
    ensures ResolveProduct("foo", "bar", DefaultKnownProducts) ==
      Resolution("https://github.com/desihub/foo", "foo", "bar")
  {
    ResolveBareName("foo", "bar", DefaultKnownProducts);
    BasenameOfName("bar");
    FooUrl();
  }

  lemma ResolveLvmutil()
    ensures ResolveProduct("lvmutil", "1.0.0", DefaultKnownProducts) ==
      Resolution("https://github.com/desihub/lvmutil", "lvmutil", "1.0.0")
  {
    ResolveBareName("lvmutil", "1.0.0", DefaultKnownProducts);
    BasenameOfName("1.0.0");
    LvmutilUrl();
  }

  lemma ResolveDesispec()
    ensures ResolveProduct("desihub/desispec", "2.0.0", DefaultKnownProducts) ==
      Resolution("https://github.com/desihub/desispec", "desispec", "2.0.0")
  {
    DesispecArgument();
    DesispecResolution();
    DesispecUrl();
  }

  lemma ResolveConfigured()
    ensures ResolveProduct("my_new_product", "1.2.3", KnownProducts(DefaultKnownProducts, TestConfig)) ==
      Resolution("https://github.com/me/my_new_product", "my_new_product", "1.2.3")
  {
    assert '/' !in "my_new_product" && "my_new_product" in TestConfig.knownProducts;
    ResolveConfiguredName("my_new_product", "1.2.3", DefaultKnownProducts, TestConfig);
    BasenameOfName("1.2.3");
  }

  /** A plain name listed in the configuration file resolves to the URL
      written there. */
  lemma ResolveConfiguredName(name: string, version: string, known: map<string, string>, config: Config)
    requires '/' !in name && name in config.knownProducts
    ensures ResolveProduct(name, version, KnownProducts(known, config)) ==
      Resolution(config.knownProducts[name], name, Basename(version))
  {
    AfterLastWithout(name, '/');
  }

  lemma DesispecArgument()
    ensures ResolveProduct("desihub/desispec", "2.0.0", DefaultKnownProducts) ==
      ResolveProduct("desihub" + "/" + "desispec", "2.0.0", DefaultKnownProducts)
  {
    DesispecName();
  }

  lemma DesispecResolution()
    ensures ResolveProduct("desihub" + "/" + "desispec", "2.0.0", DefaultKnownProducts) ==
      Resolution("https://github.com/" + "desihub" + "/" + "desispec", "desispec", "2.0.0")
  {
    ResolveOwnerName("desihub", "desispec", "2.0.0", DefaultKnownProducts);
    BasenameOfName("2.0.0");
  }

  // ---------------------------------------------------------------------
  // The desiconda version

  /** The markers around the version in a DESICONDA path, matched with
      their case as written. */
  const StartMarker := "desiconda/"
  const EndMarker := "/code"

  /** The version used when none can be read from the environment. */
  const CurrentAnaconda := "current"

  /** The text between the first StartMarker and the first EndMarker of a
      path, empty when the latter comes first (a Python slice), and
      CurrentAnaconda when either marker is missing. */
  function DesicondaSegment(path: string): (r: string)
    ensures IndexOf(path, StartMarker).None? || IndexOf(path, EndMarker).None? ==> r == CurrentAnaconda
    ensures IndexOf(path, StartMarker).Some? && IndexOf(path, EndMarker).Some? ==>
      var i := IndexOf(path, StartMarker).value + |StartMarker|;
      var j := IndexOf(path, EndMarker).value;
      (i <= j ==> r == path[i..j]) && (j < i ==> r == "")
  {
    match IndexOf(path, StartMarker)
    case None => CurrentAnaconda
    case Some(s) =>
      match IndexOf(path, EndMarker)
      case None => CurrentAnaconda
      case Some(e) => if s + |StartMarker| <= e then path[s + |StartMarker|..e] else ""
  }

  /** The desiconda version named by DESICONDA, or CurrentAnaconda. */
  function AnacondaVersion(env: map<string, string>): (r: string)
    ensures DesicondaVariable !in env ==> r == CurrentAnaconda
    ensures DesicondaVariable in env ==> r == DesicondaSegment(env[DesicondaVariable])
  {
    if DesicondaVariable in env then DesicondaSegment(env[DesicondaVariable]) else CurrentAnaconda
  }

  /** Reading the version back out of a path built around it: whatever
      stands between the markers is returned, provided neither marker
      occurs earlier in the path. */
  lemma DesicondaSegmentOf(pre: string, v: string, post: string)
    requires NoneBefore(pre + StartMarker + v + EndMarker + post, StartMarker, |pre|)
    requires NoneBefore(pre + StartMarker + v + EndMarker + post, EndMarker, |pre| + |StartMarker| + |v|)
    ensures DesicondaSegment(pre + StartMarker + v + EndMarker + post) == v
  {
    var s := pre + StartMarker + v + EndMarker + post;
    var i := |pre|;
    var j := |pre| + |StartMarker| + |v|;
    assert s[i..i + |StartMarker|] == StartMarker;
    assert s[j..j + |EndMarker|] == EndMarker;
    FirstOccurrence(s, StartMarker, i);
    FirstOccurrence(s, EndMarker, j);
    assert s[i + |StartMarker|..j] == v;
  }

  // ---------------------------------------------------------------------
  // Branch and tag URLs

  const GitHead := "master"
  const SvnTrunk := "trunk"
  const SvnBranchPrefix := "branches/"

  /** The URL of the requested version. For a GitHub product: the clone
      URL of the repository for `master`, the tag's archive otherwise. For
      a subversion product: the trunk or the branch as written, and any
      other version under `tags`. */
  function BranchUrl(github: bool, fullproduct: string, version: string): (r: string)
    ensures github && version == GitHead ==> r == fullproduct + ".git"
    ensures github && version != GitHead ==> r == fullproduct + "/archive/" + version + ".tar.gz"
    ensures !github && fullproduct != "" && !EndsWith(fullproduct, "/") && !StartsWith(version, "/") ==>
      r == fullproduct + "/" + (if version == SvnTrunk || StartsWith(version, SvnBranchPrefix) then version else "tags/" + version)
  {
    if github then
      if version == GitHead then fullproduct + ".git"
      else fullproduct + "/archive/" + version + ".tar.gz"
    else if version == SvnTrunk || StartsWith(version, SvnBranchPrefix) then PathJoin(fullproduct, version)
    else
      var tags := PathJoin(fullproduct, "tags");
      assert tags == fullproduct + "/" + "tags" || fullproduct == "" || EndsWith(fullproduct, "/");
      PathJoin(tags, version)
  }

  /** The version a branch URL names, read back from the URL. */
  function VersionFromUrl(github: bool, fullproduct: string, url: string): (r: Option<string>)
  {
    if github then
      if url == fullproduct + ".git" then Some(GitHead)
      else if StartsWith(url, fullproduct + "/archive/") && EndsWith(url, ".tar.gz") && |fullproduct| + 16 <= |url| then
        Some(url[|fullproduct| + 9..|url| - 7])
      else None
    else if StartsWith(url, fullproduct + "/tags/") then Some(url[|fullproduct| + 6..])
    else if StartsWith(url, fullproduct + "/") then Some(url[|fullproduct| + 1..])
    else None
  }

  /** The version can always be read back from its URL: the URLs of two
      versions of one product differ. For subversion this needs a product
      URL that does not end in '/' and a version that is not an absolute
      path, which posixpath's join would otherwise swallow. */
  lemma BranchUrlRoundTrip(github: bool, fullproduct: string, version: string)
    requires !github ==> fullproduct != "" && !EndsWith(fullproduct, "/") && !StartsWith(version, "/")
    ensures VersionFromUrl(github, fullproduct, BranchUrl(github, fullproduct, version)) == Some(version)
  {
    if github {
      if version != GitHead {
        ArchiveRoundTrip(fullproduct, version);
      }
    } else if version == SvnTrunk || StartsWith(version, SvnBranchPrefix) {
      SvnBranchRoundTrip(fullproduct, version);
    } else {
      SvnTagRoundTrip(fullproduct, version);
    }
  }

  lemma ArchiveRoundTrip(fullproduct: string, version: string)
    requires version != GitHead
    ensures VersionFromUrl(true, fullproduct, BranchUrl(true, fullproduct, version)) == Some(version)
  {
    var url := BranchUrl(true, fullproduct, version);
    var n := |fullproduct|;
    assert url[n] == '/';
    assert url != fullproduct + ".git" by {
      assert (fullproduct + ".git")[n] == '.';
    }
    assert url[..n + 9] == fullproduct + "/archive/";
    assert url[|url| - 7..] == ".tar.gz";
    assert url[n + 9..|url| - 7] == version;
  }

  lemma SvnBranchRoundTrip(fullproduct: string, version: string)
    requires fullproduct != "" && !EndsWith(fullproduct, "/") && !StartsWith(version, "/")
    requires version == SvnTrunk || StartsWith(version, SvnBranchPrefix)
    ensures VersionFromUrl(false, fullproduct, BranchUrl(false, fullproduct, version)) == Some(version)
  {
    var url := BranchUrl(false, fullproduct, version);
    var n := |fullproduct|;
    assert url == fullproduct + "/" + version;
    assert !StartsWith(url, fullproduct + "/tags/") by {
      if version == SvnTrunk {
        assert url[n + 5] == 'k';
        Differs(url, fullproduct + "/tags/", n + 5);
      } else {
        assert url[n + 1] == 'b';
        Differs(url, fullproduct + "/tags/", n + 1);
      }
    }
    assert url[..n + 1] == fullproduct + "/";
    assert url[n + 1..] == version;
  }

  lemma SvnTagRoundTrip(fullproduct: string, version: string)
    requires fullproduct != "" && !EndsWith(fullproduct, "/") && !StartsWith(version, "/")
    requires version != SvnTrunk && !StartsWith(version, SvnBranchPrefix)
    ensures VersionFromUrl(false, fullproduct, BranchUrl(false, fullproduct, version)) == Some(version)
  {
    var url := BranchUrl(false, fullproduct, version);
    var n := |fullproduct|;
    assert url == fullproduct + "/" + ("tags/" + version);
    assert url[..n + 6] == fullproduct + "/tags/";
    assert url[n + 6..] == version;
  }

  /** Distinct versions of one product get distinct URLs. */
  lemma BranchUrlInjective(github: bool, fullproduct: string, v1: string, v2: string)
    requires !github ==> fullproduct != "" && !EndsWith(fullproduct, "/")
    requires !github ==> !StartsWith(v1, "/") && !StartsWith(v2, "/")
    requires BranchUrl(github, fullproduct, v1) == BranchUrl(github, fullproduct, v2)
    ensures v1 == v2
  {
    BranchUrlRoundTrip(github, fullproduct, v1);
    BranchUrlRoundTrip(github, fullproduct, v2);
  }

  /** The URL identify_branch gives after get_product_version resolved the
      product against the registry. */
  function ProductUrl(product: string, version: string, known: map<string, string>): (r: string)
    ensures var f := ResolveProduct(product, version, known).fullproduct;
      (OnGitHub(product, known) || (f != "" && !EndsWith(f, "/") && !StartsWith(version, "/"))) ==>
        StartsWith(r, f) && VersionFromUrl(OnGitHub(product, known), f, r) == Some(version)
  {
    var github := OnGitHub(product, known);
    var f := ResolveProduct(product, version, known).fullproduct;
    var url := BranchUrl(github, f, version);
    if github || (f != "" && !EndsWith(f, "/") && !StartsWith(version, "/")) then
      BranchUrlRoundTrip(github, f, version);
      assert url[..|f|] == f;
      url
    else url
  }

  /** The five URLs of the tests: a GitHub tag and head, and a subversion
      tag, trunk and branch. */
  lemma LvmutilTagUrl()
    ensures ProductUrl("lvmutil", "1.0.0", DefaultKnownProducts) ==
      "https://github.com/desihub/lvmutil/archive/" + "1.0.0.tar.gz"
  {
    ResolveLvmutil();
    LvmutilOnGitHub("1.0.0");
    LvmutilArchiveSpelling();
  }

  lemma LvmutilHeadUrl()
    ensures ProductUrl("lvmutil", "master", DefaultKnownProducts) == "https://github.com/desihub/lvmutil.git"
  {
    LvmutilMaster();
    LvmutilOnGitHub("master");
    LvmutilGitSpelling();
  }

  lemma AdminTagUrl()
    ensures ProductUrl("desiAdmin", "1.0.0", DefaultKnownProducts) ==
      "https://desi.lbl.gov/svn/code/tools/desiAdmin/" + "tags/1.0.0"
  {
    TagVersion();
    AdminSvnUrl("1.0.0");
    AdminTagSpelling();
  }

  /** On subversion, desiAdmin's URLs are built from its registered URL. */
  lemma AdminSvnUrl(version: string)
    requires !StartsWith(version, "/")
    ensures ProductUrl("desiAdmin", version, DefaultKnownProducts) ==
      AdminUrl + "/" + (if version == SvnTrunk || StartsWith(version, SvnBranchPrefix) then version else "tags/" + version)
  {
    AdminResolution(version);
    AdminUrlShape();
  }

  lemma TagVersion()
    ensures !StartsWith("1.0.0", "/") && "1.0.0" != SvnTrunk && !StartsWith("1.0.0", SvnBranchPrefix)
  {
    Differs("1.0.0", "/", 0);
    Differs("1.0.0", SvnBranchPrefix, 0);
    assert SvnTrunk[0] == 't';
  }

  lemma AdminTrunkUrl()
    ensures ProductUrl("desiAdmin", "trunk", DefaultKnownProducts) ==
      "https://desi.lbl.gov/svn/code/tools/desiAdmin/trunk"
  {
    AdminResolution("trunk");
    AdminUrlShape();
    AdminTrunkSpelling();
  }

  lemma AdminBranchUrl()
    ensures ProductUrl("desiAdmin", "branches/testing", DefaultKnownProducts) ==
      "https://desi.lbl.gov/svn/code/tools/desiAdmin/" + "branches/testing"
  {
    AdminResolution("branches/testing");
    AdminUrlShape();
    BranchToken();
  }

  lemma LvmutilOnGitHub(version: string)
    ensures OnGitHub("lvmutil", DefaultKnownProducts)
    ensures ResolveProduct("lvmutil", version, DefaultKnownProducts).fullproduct == "https://github.com/desihub/lvmutil"
  {
    ResolveBareName("lvmutil", version, DefaultKnownProducts);
    LvmutilUrl();
  }

  lemma LvmutilMaster()
    ensures ResolveProduct("lvmutil", "master", DefaultKnownProducts).fullproduct == "https://github.com/desihub/lvmutil"
  {
    LvmutilOnGitHub("master");
  }

  /** desiAdmin is registered with a subversion URL. */
  lemma AdminResolution(version: string)
    ensures !OnGitHub("desiAdmin", DefaultKnownProducts)
    ensures ResolveProduct("desiAdmin", version, DefaultKnownProducts).fullproduct == AdminUrl
  {
    AdminBasename();
    AdminNotOnGitHub();
  }

  lemma AdminBasename()
    ensures Basename("desiAdmin") == "desiAdmin"
  {
    BasenameOfName("desiAdmin");
  }

  lemma AdminNotOnGitHub()
    ensures !Contains(AdminUrl, "github.com")
  {
    AdminUrlWithoutU();
    assert "github.com"[4] == 'u';
    IndexOfAbsentChar(AdminUrl, "github.com", 4);
  }

  lemma AdminUrlWithoutU()
    ensures 'u' !in AdminUrl
  {
    AdminUrlPieces();
    assert 'u' !in "https://desi.lbl.gov/";
    assert 'u' !in "svn/code/tools/desiAdmin";
  }

  lemma AdminUrlShape()
    ensures AdminUrl != "" && !EndsWith(AdminUrl, "/")
  {
    assert AdminUrl[|AdminUrl| - 1] == 'n';
  }

  lemma BranchToken()
    ensures StartsWith("branches/testing", SvnBranchPrefix)
    ensures AdminUrl + "/" + "branches/testing" == "https://desi.lbl.gov/svn/code/tools/desiAdmin/" + "branches/testing"
  {
  }

  lemma MarkerShape()
    ensures StartMarker == "desiconda" + "/" && '/' !in "desiconda"
    ensures EndMarker == "/" + "code" && '/' !in "code"
  {
  }

  /** The version read from a path is the run of components between the
      first component ending with "desiconda" and the first one starting
      with "code", joined with '/'. */
  lemma DesicondaOfPath(pre: seq<string>, x: string, v: seq<string>, y: string, post: seq<string>)
    requires NoSlash(pre + [x] + v + [y] + post)
    requires forall k :: 0 <= k < |pre| ==> !EndsWith(pre[k], "desiconda")
    requires EndsWith(x, "desiconda")
    requires forall k :: 0 <= k < |pre + [x] + v| ==> !StartsWith((pre + [x] + v)[k], "code")
    requires StartsWith(y, "code")
    ensures DesicondaSegment(PathOf(pre + [x] + v + [y] + post)) == JoinWith(v, '/')
  {
    var head := pre + [x] + v;
    var tail := PathOf([y] + post);
    var s := PathOf(head) + tail;
    SplitPath(pre, x, v, y, post);
    MarkerShape();
    TrailingMarkerInPath(pre, x, PathOf(v) + tail, "desiconda");
    LeadingMarkerInPath(head, y, post, "code");
    var i := |PathOf(pre)| + |x| - 8;
    var j := |PathOf(head)|;
    assert j == |PathOf(pre)| + 1 + |x| + |PathOf(v)|;
    if |v| > 0 {
      PathOfJoin(v);
      MiddleSlice(PathOf(pre), x, PathOf(v), tail);
    }
  }

  /** In `p/x<m><tail>`, with `m` starting with '/', the text after that
      '/' and before the tail is the rest of `m`. */
  lemma MiddleSlice(p: string, x: string, m: string, tail: string)
    requires m != "" && m[0] == '/'
    ensures var a := |p| + 1 + |x|;
      (p + ("/" + x + (m + tail)))[a + 1..a + |m|] == m[1..]
  {
    var a := |p| + 1 + |x|;
    var s := p + ("/" + x + (m + tail));
    assert s[a..a + |m|] == m;
  }

  /** Without a component starting with "code" there is no version. */
  lemma DesicondaWithoutCode(cs: seq<string>)
    requires NoSlash(cs)
    requires forall k :: 0 <= k < |cs| ==> !StartsWith(cs[k], "code")
    ensures DesicondaSegment(PathOf(cs)) == CurrentAnaconda
  {
    MarkerShape();
    LeadingMarkerMissesPath(cs, "code");
  }

  // The three DESICONDA values of the tests. The two long paths are
  // written as their components ("/" + c0 + "/" + c1 ...; see PathOf).

  const CoriDesiconda := ["global", "common", "software", "desi", "cori", "desiconda",
    "20170613-1.1.4-spectro", "code", "desiconda", "20170613-1.1.4-spectro_conda"]

  /** The same path with its "code" component in capitals. */
  const UpperCaseDesiconda := ["global", "common", "software", "desi", "cori", "desiconda",
    "20170613-1.1.4-spectro", "CODE", "desiconda", "20170613-1.1.4-spectro_conda"]

  lemma AnacondaWithoutMarkers()
    ensures AnacondaVersion(map[DesicondaVariable := "FOO"]) == CurrentAnaconda
  {
    MarkerShape();
    IndexOfAbsentChar("FOO", EndMarker, 0);
  }

  lemma AnacondaOfCoriPath()
    ensures AnacondaVersion(map[DesicondaVariable := PathOf(CoriDesiconda)]) == "20170613-1.1.4-spectro"
  {
    var pre := ["global", "common", "software", "desi", "cori"];
    var v := ["20170613-1.1.4-spectro"];
    var post := ["desiconda", "20170613-1.1.4-spectro_conda"];
    var head := pre + ["desiconda"] + v;
    assert CoriDesiconda == head + ["code"] + post;
    CoriHeadWithoutCode();
    assert forall k :: 0 <= k < |head| ==> head[k] == CoriDesiconda[k];
    DesicondaOfPath(pre, "desiconda", v, "code", post);
  }

  lemma AnacondaMarkersAreCaseSensitive()
    ensures AnacondaVersion(map[DesicondaVariable := PathOf(UpperCaseDesiconda)]) == CurrentAnaconda
  {
    UpperCaseWithoutCode();
    DesicondaWithoutCode(UpperCaseDesiconda);
  }

  /** No component before the "code" one of CoriDesiconda starts with
      "code". */
  lemma CoriHeadWithoutCode()
    ensures forall k :: 0 <= k < 7 ==> !StartsWith(CoriDesiconda[k], "code")
  {
    forall k | 0 <= k < 7 ensures !StartsWith(CoriDesiconda[k], "code") {
      if k == 1 || k == 4 {
        Differs(CoriDesiconda[k], "code", 2);
      } else {
        Differs(CoriDesiconda[k], "code", 0);
      }
    }
  }

  lemma UpperCaseWithoutCode()
    ensures forall k :: 0 <= k < |UpperCaseDesiconda| ==> !StartsWith(UpperCaseDesiconda[k], "code")
  {
    forall k | 0 <= k < |UpperCaseDesiconda| ensures !StartsWith(UpperCaseDesiconda[k], "code") {
      if k == 1 || k == 4 {
        Differs(UpperCaseDesiconda[k], "code", 2);
      } else {
        Differs(UpperCaseDesiconda[k], "code", 0);
      }
    }
  }

  // ---------------------------------------------------------------------
  // NERSC install roots

  /** A piece of a directory template: literal text, or a slot that
      `str.format` fills with the KNL marker or the desiconda version. */
  datatype Piece = Text(text: string) | KnlSlot | VersionSlot

  type Template = seq<Piece>

  /** `template.format(knl=knl, desiconda_version=version)`. */
  function Format(t: Template, knl: string, version: string): string
    decreases |t|
  {
    if |t| == 0 then ""
    else
      var head := match t[0]
        case Text(s) => s
        case KnlSlot => knl
        case VersionSlot => version;
      head + Format(t[1..], knl, version)
  }

  /** A template without a version slot does not depend on the version. */
  lemma {:induction false} FormatWithoutVersion(t: Template, knl: string, v1: string, v2: string)
    requires VersionSlot !in t
    ensures Format(t, knl, v1) == Format(t, knl, v2)
    decreases |t|
  {
    if |t| > 0 {
      FormatWithoutVersion(t[1..], knl, v1, v2);
    }
  }

  const SoftwarePrefix := "/global/common/software/desi/"
  const DesicondaDirectory := "/desiconda/"

  /** `/global/common/software/desi/<host>/desiconda/{desiconda_version}`. */
  function HostTemplate(host: string): Template {
    [Text(SoftwarePrefix + host + DesicondaDirectory), VersionSlot]
  }

  /** The per-host templates; none of the built-in ones uses the KNL slot. */
  const DefaultTemplates: map<string, Template> := map[
    "edison" := HostTemplate("edison"),
    "cori" := HostTemplate("cori"),
    "datatran" := HostTemplate("datatran"),
    "scigate" := HostTemplate("scigate")]

  /** The `knl` property: "knl" when --knl was given, otherwise empty. */
  function KnlMarker(knl: bool): (r: string)
    ensures r == "" || r == "knl"
    ensures r == "knl" <==> knl
  {
    if knl then "knl" else ""
  }

  /** The install root for a NERSC host: its template filled with the KNL
      marker and the desiconda version; a host without a template is an
      error. */
  function DefaultNerscDir(templates: map<string, Template>, host: string, knl: bool, anaconda: string): (r: Result<string, InstallError>)
    ensures r.Err? <==> host !in templates
    ensures r.Err? ==> r.error == UnknownNerscHost(host)
  {
    if host in templates then Ok(Format(templates[host], KnlMarker(knl), anaconda))
    else Err(UnknownNerscHost(host))
  }

  /** With the built-in templates the root is the host's desiconda
      directory for the requested version, with or without --knl. */
  lemma DefaultNerscDirOfHost(host: string, knl: bool, anaconda: string)
    requires host in DefaultTemplates
    ensures DefaultNerscDir(DefaultTemplates, host, knl, anaconda)
      == Ok(SoftwarePrefix + host + DesicondaDirectory + anaconda)
  {
    var t := DefaultTemplates[host];
    var a := SoftwarePrefix + host + DesicondaDirectory;
    assert t == HostTemplate(host) == [Text(a), VersionSlot];
    assert t[1..] == [VersionSlot] && t[1..][1..] == [];
    assert Format(t[1..], KnlMarker(knl), anaconda) == anaconda + "";
    assert Format(t, KnlMarker(knl), anaconda) == a + (anaconda + "");
    assert anaconda + "" == anaconda;
  }

  lemma EdisonNerscDir()
    ensures DefaultNerscDir(DefaultTemplates, "edison", false, CurrentAnaconda)
      == Ok("/global/common/software/desi/edison/desiconda/current")
  {
    DefaultNerscDirOfHost("edison", false, CurrentAnaconda);
    EdisonSpelling();
  }

  lemma DatatranNerscDir()
    ensures DefaultNerscDir(DefaultTemplates, "datatran", false, "frobulate")
      == Ok("/global/common/software/desi/datatran/desiconda/frobulate")
  {
    DefaultNerscDirOfHost("datatran", false, "frobulate");
    DatatranSpelling();
  }

  // ---------------------------------------------------------------------
  // Modules directory

  /** The product whose module files live with the host's startup files. */
  const ModulesProduct := "desimodules"
  const ModuleFiles := "modulefiles"
  const StartupVersion := "startup"

  /** The `nersc_module_dir` property: none off NERSC; the configuration
      file's directory for the host when it names one; for desimodules the
      host template filled with the "startup" version; otherwise the NERSC
      root. Each of the last two is followed by "modulefiles". */
  function NerscModuleDir(nersc: Option<string>, config: Config, templates: map<string, Template>,
                          baseproduct: string, knl: bool, anaconda: string): (r: Result<Option<string>, InstallError>)
    ensures nersc.None? ==> r == Ok(None)
    ensures nersc.Some? && nersc.value in config.moduleDirectories ==>
      r == Ok(Some(config.moduleDirectories[nersc.value]))
    ensures nersc.Some? && nersc.value !in config.moduleDirectories && nersc.value !in templates ==>
      r == Err(UnknownNerscHost(nersc.value))
    ensures (nersc.Some? && nersc.value !in config.moduleDirectories && nersc.value in templates &&
             baseproduct != ModulesProduct) ==>
      r == Ok(Some(PathJoin(DefaultNerscDir(templates, nersc.value, knl, anaconda).value, ModuleFiles)))
    ensures (nersc.Some? && nersc.value !in config.moduleDirectories && nersc.value in templates &&
             baseproduct == ModulesProduct) ==>
      r == Ok(Some(PathJoin(Format(templates[nersc.value], KnlMarker(knl), StartupVersion), ModuleFiles)))
  {
    match nersc
    case None => Ok(None)
    case Some(host) =>
      if host in config.moduleDirectories then Ok(Some(config.moduleDirectories[host]))
      else if host !in templates then Err(UnknownNerscHost(host))
      else if baseproduct == ModulesProduct then
        Ok(Some(PathJoin(Format(templates[host], KnlMarker(knl), StartupVersion), ModuleFiles)))
      else
        Ok(Some(PathJoin(DefaultNerscDir(templates, host, knl, anaconda).value, ModuleFiles)))
  }

  /** With the built-in templates, module files go to the host's desiconda
      directory: the requested version's one for ordinary products, the
      "startup" one for desimodules. */
  lemma ModuleDirOfHost(host: string, config: Config, baseproduct: string, knl: bool, anaconda: string)
    requires host in DefaultTemplates && host !in config.moduleDirectories
    requires baseproduct != ModulesProduct ==> anaconda != "" && '/' !in anaconda
    ensures NerscModuleDir(Some(host), config, DefaultTemplates, baseproduct, knl, anaconda)
      == Ok(Some(SoftwarePrefix + host + DesicondaDirectory
                 + (if baseproduct == ModulesProduct then StartupVersion else anaconda) + "/" + ModuleFiles))
  {
    var v := if baseproduct == ModulesProduct then StartupVersion else anaconda;
    DefaultNerscDirOfHost(host, knl, v);
    var root := SoftwarePrefix + host + DesicondaDirectory + v;
    assert StartupVersion != "" && '/' !in StartupVersion;
    assert root[|root| - 1] == v[|v| - 1];
    assert ModuleFiles[0] == 'm';
    NonEmptyRootJoin(root, ModuleFiles);
  }

  /** Joining onto a root that ends with a non-'/' component. */
  lemma NonEmptyRootJoin(root: string, name: string)
    requires root != "" && root[|root| - 1] != '/' && name != "" && name[0] != '/'
    ensures PathJoin(root, name) == root + "/" + name
  {
  }

  lemma EdisonModuleDirFromConfiguration()
    ensures NerscModuleDir(Some("edison"), TestConfig, DefaultTemplates, "my_new_product", false, CurrentAnaconda)
      == Ok(Some("/project/projectdirs/desi/test/modules"))
  {
  }

  lemma CoriModuleDirFromConfiguration()
    ensures NerscModuleDir(Some("cori"), TestConfig, DefaultTemplates, "my_new_product", true, CurrentAnaconda)
      == Ok(Some("/global/common/cori/contrib/desi/test/modules"))
  {
  }

  // ---------------------------------------------------------------------
  // The disk as the installer sees it

  /** The paths that exist, split into plain files and directories. */
  datatype Disk = Disk(files: set<string>, dirs: set<string>)

  /** `os.path.exists`. */
  predicate Exists(d: Disk, p: string) {
    p in d.files || p in d.dirs
  }

  /** `q` is `p` or lies inside the directory `p`. */
  predicate Under(q: string, p: string) {
    q == p || StartsWith(q, p + "/")
  }

  /** `shutil.rmtree(p)`: `p` and everything inside it disappear, nothing
      else changes. */
  function RemoveTree(d: Disk, p: string): (r: Disk)
    ensures !Exists(r, p)
    ensures forall q :: Exists(r, q) ==> !Under(q, p)
    ensures forall q :: !Under(q, p) ==> (q in r.files <==> q in d.files) && (q in r.dirs <==> q in d.dirs)
  {
    Disk(set q | q in d.files && !Under(q, p), set q | q in d.dirs && !Under(q, p))
  }

  // ---------------------------------------------------------------------
  // Build type

  /** The build steps a checkout calls for. */
  datatype BuildStep = Plain | Make | Py | Src

  const Makefile := "Makefile"
  const SetupScript := "setup.py"
  const SourceDirectory := "src"

  /** The `build_type` property: always plain; make when -C was given or
      the working directory holds a Makefile; py for a setup.py; src for a
      src directory. The marker tests are independent of each other. */
  function BuildType(forceBuildType: bool, workingDir: string, d: Disk): (r: set<BuildStep>)
    ensures Plain in r
    ensures Make in r <==> forceBuildType || Exists(d, PathJoin(workingDir, Makefile))
    ensures Py in r <==> Exists(d, PathJoin(workingDir, SetupScript))
    ensures Src in r <==> PathJoin(workingDir, SourceDirectory) in d.dirs
  {
    {Plain}
    + (if forceBuildType || Exists(d, PathJoin(workingDir, Makefile)) then {Make} else {})
    + (if Exists(d, PathJoin(workingDir, SetupScript)) then {Py} else {})
    + (if PathJoin(workingDir, SourceDirectory) in d.dirs then {Src} else {})
  }

  /** Adding files or directories never removes a build step. */
  lemma BuildTypeMonotonic(forceBuildType: bool, workingDir: string, d1: Disk, d2: Disk)
    requires d1.files <= d2.files && d1.dirs <= d2.dirs
    ensures BuildType(forceBuildType, workingDir, d1) <= BuildType(forceBuildType, workingDir, d2)
  {
  }

  /** A build type is pinned by the non-plain steps it holds. */
  lemma BuildTypeIs(forceBuildType: bool, workingDir: string, d: Disk, steps: set<BuildStep>)
    requires Plain in steps
    requires Make in steps <==> forceBuildType || Exists(d, PathJoin(workingDir, Makefile))
    requires Py in steps <==> Exists(d, PathJoin(workingDir, SetupScript))
    requires Src in steps <==> PathJoin(workingDir, SourceDirectory) in d.dirs
    ensures BuildType(forceBuildType, workingDir, d) == steps
  {
    var r := BuildType(forceBuildType, workingDir, d);
    forall s ensures s in r <==> s in steps {
      match s
      case Plain =>
      case Make =>
      case Py =>
      case Src =>
    }
  }

  /** No markers and no -C: plain only. */
  lemma BuildTypePlainOnly(workingDir: string, d: Disk)
    requires !Exists(d, PathJoin(workingDir, Makefile)) && !Exists(d, PathJoin(workingDir, SetupScript))
    requires PathJoin(workingDir, SourceDirectory) !in d.dirs
    ensures BuildType(false, workingDir, d) == {Plain}
  {
    BuildTypeIs(false, workingDir, d, {Plain});
  }

  /** The marker paths of a working directory differ from each other and
      from the directory itself. */
  lemma MarkerPaths(w: string)
    ensures PathJoin(w, Makefile) != w && PathJoin(w, SetupScript) != w && PathJoin(w, SourceDirectory) != w
    ensures PathJoin(w, Makefile) != PathJoin(w, SetupScript)
    ensures PathJoin(w, SourceDirectory) != PathJoin(w, Makefile)
    ensures PathJoin(w, SourceDirectory) != PathJoin(w, SetupScript)
  {
    assert Makefile[0] == 'M' && SetupScript[0] == 's' && SourceDirectory[1] == 'r';
    assert !StartsWith(Makefile, "/") && !StartsWith(SetupScript, "/") && !StartsWith(SourceDirectory, "/");
    PathJoinLonger(w, Makefile);
    PathJoinLonger(w, SetupScript);
    PathJoinLonger(w, SourceDirectory);
    if PathJoin(w, Makefile) == PathJoin(w, SetupScript) {
      PathJoinInjective(w, Makefile, SetupScript);
    }
    if PathJoin(w, SourceDirectory) == PathJoin(w, Makefile) {
      PathJoinInjective(w, SourceDirectory, Makefile);
    }
    if PathJoin(w, SourceDirectory) == PathJoin(w, SetupScript) {
      PathJoinInjective(w, SourceDirectory, SetupScript);
    }
  }

  /** An empty checkout: plain only, plus make when -C is given. */
  lemma BuildTypeOfEmptyCheckout(w: string)
    ensures BuildType(false, w, Disk({}, {w})) == {Plain}
    ensures BuildType(true, w, Disk({}, {w})) == {Plain, Make}
  {
    MarkerPaths(w);
    BuildTypePlainOnly(w, Disk({}, {w}));
    BuildTypeIs(true, w, Disk({}, {w}), {Plain, Make});
  }

  /** A checkout holding a Makefile builds with make. */
  lemma BuildTypeOfMakefile(w: string)
    ensures BuildType(false, w, Disk({PathJoin(w, Makefile)}, {w})) == {Plain, Make}
  {
    var m, py, src := PathJoin(w, Makefile), PathJoin(w, SetupScript), PathJoin(w, SourceDirectory);
    var d := Disk({m}, {w});
    assert Exists(d, m) by { MarkerPaths(w); }
    assert !Exists(d, py) by { MarkerPaths(w); }
    assert src !in d.dirs by { MarkerPaths(w); }
    BuildTypeIs(false, w, d, {Plain, Make});
  }

  /** A checkout holding a setup.py builds with Python. */
  lemma BuildTypeOfSetupScript(w: string)
    ensures BuildType(false, w, Disk({PathJoin(w, SetupScript)}, {w})) == {Plain, Py}
  {
    var m, py, src := PathJoin(w, Makefile), PathJoin(w, SetupScript), PathJoin(w, SourceDirectory);
    var d := Disk({py}, {w});
    assert !Exists(d, m) by { MarkerPaths(w); }
    assert Exists(d, py) by { MarkerPaths(w); }
    assert src !in d.dirs by { MarkerPaths(w); }
    BuildTypeIs(false, w, d, {Plain, Py});
  }

  /** A checkout holding a src directory compiles its sources. */
  lemma BuildTypeOfSourceDirectory(w: string)
    ensures BuildType(false, w, Disk({}, {w, PathJoin(w, SourceDirectory)})) == {Plain, Src}
  {
    var m, py, src := PathJoin(w, Makefile), PathJoin(w, SetupScript), PathJoin(w, SourceDirectory);
    var d := Disk({}, {w, src});
    assert !Exists(d, m) by { MarkerPaths(w); }
    assert !Exists(d, py) by { MarkerPaths(w); }
    assert src in d.dirs by { MarkerPaths(w); }
    BuildTypeIs(false, w, d, {Plain, Src});
  }

  // ---------------------------------------------------------------------
  // Checking that the product URL exists

  /** A GitHub URL exists when the HTTP request for it answers 200; any
      other status is an error naming the status and the URL, and no answer
      at all (`None`) is an error naming the URL. */
  function VerifyGitUrl(url: string, status: Option<nat>): (r: Result<bool, InstallError>)
    ensures r.Ok? <==> status == Some(200)
    ensures r.Ok? ==> r.value
    ensures r.Err? && status.Some? ==> r.error == HttpStatus(status.value, url)
    ensures status.None? ==> r.error == UnreachableUrl(url)
  {
    match status
    case None => Err(UnreachableUrl(url))
    case Some(code) => if code == 200 then Ok(true) else Err(HttpStatus(code, url))
  }

  /** The subversion client used unless another is given. */
  const SvnClient := "svn"

  /** `svn --non-interactive --username <user> ls <url>`. */
  function SvnLsCommand(svn: string, username: string, url: string): (r: seq<string>)
    ensures |r| == 6 && r[0] == svn && r[|r| - 1] == url
    ensures r[1..5] == ["--non-interactive", "--username", username, "ls"]
  {
    [svn, "--non-interactive", "--username", username, "ls", url]
  }

  /** A subversion URL exists when `svn ls` on it exits with status 0; a
      non-zero status, or no client to run (`None`), is an error naming the
      URL. */
  function VerifySvnUrl(url: string, exitStatus: Option<nat>): (r: Result<bool, InstallError>)
    ensures r.Ok? <==> exitStatus == Some(0)
    ensures r.Ok? ==> r.value
    ensures r.Err? ==> r.error == InvalidSvnUrl(url)
  {
    if exitStatus == Some(0) then Ok(true) else Err(InvalidSvnUrl(url))
  }

  /** `verify_url`: the check that fits where the product lives. */
  function VerifyUrl(github: bool, url: string, status: Option<nat>, exitStatus: Option<nat>): (r: Result<bool, InstallError>)
    ensures github ==> r == VerifyGitUrl(url, status)
    ensures !github ==> r == VerifySvnUrl(url, exitStatus)
    ensures r.Ok? ==> r.value
  {
    if github then VerifyGitUrl(url, status) else VerifySvnUrl(url, exitStatus)
  }

  /** What `echo` prints: its arguments separated by blanks, then a
      newline. */
  function EchoOutput(args: seq<string>): (r: string)
    ensures |r| > 0 && r[|r| - 1] == '\n'
  {
    JoinWith(args, ' ') + "\n"
  }

  /** With `echo` standing in for the client, the output logged is the
      svn arguments after the client's name. */
  lemma EchoedSvnCommand(username: string, url: string)
    ensures EchoOutput(SvnLsCommand("echo", username, url)[1..])
      == JoinWith(["--non-interactive", "--username", username, "ls", url], ' ') + "\n"
  {
    assert SvnLsCommand("echo", username, url)[1..] == ["--non-interactive", "--username", username, "ls", url];
  }

  /** A GitHub URL that answers 404 is reported with the status and the
      URL. */
  lemma NotFoundMessage(url: string)
    ensures VerifyGitUrl(url, Some(404)).Err?
    ensures Message(VerifyGitUrl(url, Some(404)).error) == "Error 404 querying GitHub URL: " + url + "."
  {
    NotFoundStatus();
    NotFoundSpelling();
    assert Message(HttpStatus(404, url)) == "Error " + NatToString(404) + " querying GitHub URL: " + url + ".";
  }

  // ---------------------------------------------------------------------
  // Install directory

  const CodeDirectory := "code"

  /** The root itself when it is an existing directory; otherwise, on a
      NERSC host, the host's default directory; otherwise an error. */
  function InstallRoot(root: Option<string>, d: Disk, nersc: Option<string>,
                       templates: map<string, Template>, knl: bool, anaconda: string): (r: Result<string, InstallError>)
    ensures r.Ok? <==> (root.Some? && root.value in d.dirs) || (nersc.Some? && nersc.value in templates)
    ensures root.Some? && root.value in d.dirs ==> r == Ok(root.value)
    ensures !(root.Some? && root.value in d.dirs) && nersc.Some? ==>
      r == DefaultNerscDir(templates, nersc.value, knl, anaconda)
    ensures r.Err? && nersc.None? ==> r.error == NoInstallRoot
  {
    if root.Some? && root.value in d.dirs then Ok(root.value)
    else if nersc.Some? then DefaultNerscDir(templates, nersc.value, knl, anaconda)
    else Err(NoInstallRoot)
  }

  /** posixpath's join of the root, `code`, the product and the version:
      for a root without a trailing '/' and plain product and version names,
      `<root>/code/<product>/<version>`. */
  function InstallDir(root: string, baseproduct: string, baseversion: string): (r: string)
    ensures root != "" && root[|root| - 1] != '/' && Component(baseproduct) && Component(baseversion) ==>
      r == root + "/" + CodeDirectory + "/" + baseproduct + "/" + baseversion
  {
    var c := PathJoin(root, CodeDirectory);
    var p := PathJoin(c, baseproduct);
    var dir := PathJoin(p, baseversion);
    if root != "" && root[|root| - 1] != '/' && Component(baseproduct) && Component(baseversion) then
      assert CodeDirectory[0] == 'c' && CodeDirectory[3] == 'e';
      NonEmptyRootJoin(root, CodeDirectory);
      assert c[|c| - 1] == 'e';
      assert baseproduct[0] != '/' && baseproduct[|baseproduct| - 1] != '/' && baseversion[0] != '/';
      NonEmptyRootJoin(c, baseproduct);
      assert p[|p| - 1] == baseproduct[|baseproduct| - 1];
      NonEmptyRootJoin(p, baseversion);
      dir
    else dir
  }

  /** The install directory ends with the version. */
  lemma InstallDirEndsWithVersion(root: string, baseproduct: string, baseversion: string)
    ensures EndsWith(InstallDir(root, baseproduct, baseversion), baseversion)
  {
    PathJoinSuffix(PathJoin(PathJoin(root, CodeDirectory), baseproduct), baseversion);
  }

  /** A plain component: not empty and free of '/'. */
  predicate Component(s: string) {
    s != "" && '/' !in s
  }

  /** The install directory lies strictly inside the root, so removing it
      never removes the root. */
  lemma InstallDirUnderRoot(root: string, baseproduct: string, baseversion: string, q: string)
    requires root != "" && root[|root| - 1] != '/'
    requires Component(baseproduct) && Component(baseversion)
    requires Under(q, InstallDir(root, baseproduct, baseversion))
    ensures Under(q, root) && q != root
  {
    var c := PathJoin(root, CodeDirectory);
    var p := PathJoin(c, baseproduct);
    assert CodeDirectory[0] == 'c' && CodeDirectory[3] == 'e';
    NonEmptyRootJoin(root, CodeDirectory);
    assert c[|c| - 1] == 'e';
    NonEmptyRootJoin(c, baseproduct);
    assert p[|p| - 1] == baseproduct[|baseproduct| - 1];
    NonEmptyRootJoin(p, baseversion);
    UnderChild(q, p, baseversion);
    UnderChild(q, c, baseproduct);
    UnderChild(q, root, CodeDirectory);
  }

  /** Whatever lies under `root/rest` lies strictly under `root`. */
  lemma UnderChild(q: string, root: string, rest: string)
    requires Under(q, root + "/" + rest)
    ensures Under(q, root) && q != root
  {
    var i := root + "/" + rest;
    PrefixOfConcat(root + "/", rest);
    if q != i {
      PrefixOfConcat(i, "/");
      PrefixTransitive(q, i + "/", i);
      PrefixTransitive(q, i, root + "/");
    }
  }

  /** An install directory that is already there is an error unless
      --force was given, in which case it is removed with everything in
      it; nothing outside it changes. */
  function PlanInstallDir(dir: string, force: bool, d: Disk): (r: Result<Disk, InstallError>)
    ensures r.Err? <==> dir in d.dirs && !force
    ensures r.Err? ==> r.error == InstallDirExists(dir)
    ensures r.Ok? ==> dir !in r.value.dirs
    ensures r.Ok? ==> forall q :: !Under(q, dir) ==>
      (q in r.value.files <==> q in d.files) && (q in r.value.dirs <==> q in d.dirs)
    ensures r.Ok? && dir !in d.dirs ==> r.value == d
  {
    if dir !in d.dirs then Ok(d)
    else if force then Ok(RemoveTree(d, dir))
    else Err(InstallDirExists(dir))
  }

  /** An existing install directory, without --force, is reported by
      name. */
  lemma InstallDirExistsMessage(dir: string, d: Disk)
    requires dir in d.dirs
    ensures PlanInstallDir(dir, false, d).Err?
    ensures Message(PlanInstallDir(dir, false, d).error) == "Install directory, " + dir + ", already exists!"
  {
  }

  /** A --root that is not a directory, off NERSC, is an error. */
  lemma MissingRootOffNersc(root: string, d: Disk, templates: map<string, Template>, knl: bool, anaconda: string)
    requires root !in d.dirs
    ensures InstallRoot(Some(root), d, None, templates, knl, anaconda) == Err(NoInstallRoot)
  {
  }

  /** An existing root: the product goes to <root>/code/lvmutil/master,
      which, once it exists, is refused without --force and removed with
      it. */
  lemma LvmutilMasterInstallDir(root: string, d: Disk)
    requires root != "" && root[|root| - 1] != '/' && root in d.dirs
    ensures InstallRoot(Some(root), d, None, DefaultTemplates, false, CurrentAnaconda) == Ok(root)
    ensures InstallDir(root, "lvmutil", "master") == root + "/code/lvmutil/master"
    ensures var i := root + "/code/lvmutil/master";
      PlanInstallDir(i, false, d.(dirs := d.dirs + {i})) == Err(InstallDirExists(i)) &&
      i !in PlanInstallDir(i, true, d.(dirs := d.dirs + {i})).value.dirs
  {
    assert Component("lvmutil") && Component("master");
    LvmutilMasterSpelling(root);
  }

  /** On edison without a root the product goes under the host's default
      desiconda directory. */
  lemma EdisonInstallDir(d: Disk)
    ensures InstallRoot(None, d, Some("edison"), DefaultTemplates, false, CurrentAnaconda)
      == Ok("/global/common/software/desi/edison/desiconda/current")
    ensures InstallDir("/global/common/software/desi/edison/desiconda/current", "lvmutil", "test-blat-foo")
      == "/global/common/software/desi/edison/desiconda/current/code/lvmutil/test-blat-foo"
  {
    EdisonNerscDir();
    var e := "/global/common/software/desi/edison/desiconda/current";
    assert e[|e| - 1] == 't';
    assert Component("lvmutil") && Component("test-blat-foo");
    EdisonInstallSpelling();
  }

  // ---------------------------------------------------------------------
  // Literal spellings
  //
  // What a concatenation of literals spells, each in a lemma of its own:
  // proved apart from the lemmas that use them, they keep those proofs
  // small.

  lemma FooUrl() ensures "https://github.com/desihub/" + "foo" == "https://github.com/desihub/foo" {}

  lemma LvmutilUrl() ensures "https://github.com/desihub/" + "lvmutil" == "https://github.com/desihub/lvmutil" {}

  lemma DesispecName() ensures "desihub" + "/" + "desispec" == "desihub/desispec" {}

  lemma DesispecUrl() ensures "https://github.com/" + "desihub" + "/" + "desispec" == "https://github.com/desihub/desispec" {}

  lemma LvmutilArchiveSpelling()
    ensures "https://github.com/desihub/lvmutil" + "/archive/" + "1.0.0" + ".tar.gz" ==
      "https://github.com/desihub/lvmutil/archive/" + "1.0.0.tar.gz"
  {
  }

  lemma LvmutilGitSpelling()
    ensures "https://github.com/desihub/lvmutil" + ".git" == "https://github.com/desihub/lvmutil.git"
  {
  }

  lemma AdminTagSpelling()
    ensures AdminUrl + "/" + ("tags/" + "1.0.0") == "https://desi.lbl.gov/svn/code/tools/desiAdmin/" + "tags/1.0.0"
  {
  }

  lemma AdminTrunkSpelling()
    ensures AdminUrl + "/" + "trunk" == "https://desi.lbl.gov/svn/code/tools/desiAdmin/trunk"
  {
  }

  lemma AdminUrlPieces()
    ensures AdminUrl == "https://desi.lbl.gov/" + "svn/code/tools/desiAdmin"
  {
  }

  lemma EdisonSpelling()
    ensures SoftwarePrefix + "edison" + DesicondaDirectory + CurrentAnaconda
      == "/global/common/software/desi/edison/desiconda/current"
  {
  }

  lemma DatatranSpelling()
    ensures SoftwarePrefix + "datatran" + DesicondaDirectory + "frobulate"
      == "/global/common/software/desi/datatran/desiconda/frobulate"
  {
  }

  lemma NotFoundStatus() ensures NatToString(404) == "404" {
    assert NatToString(4) == "4";
    assert NatToString(40) == "40";
  }

  lemma NotFoundSpelling()
    ensures "Error " + "404" + " querying GitHub URL: " == "Error 404 querying GitHub URL: "
  {
  }

  lemma LvmutilMasterSpelling(root: string)
    ensures root + "/" + CodeDirectory + "/" + "lvmutil" + "/" + "master" == root + "/code/lvmutil/master"
  {
  }

  lemma EdisonInstallSpelling()
    ensures "/global/common/software/desi/edison/desiconda/current" + "/" + CodeDirectory + "/" + "lvmutil" + "/" + "test-blat-foo"
      == "/global/common/software/desi/edison/desiconda/current/code/lvmutil/test-blat-foo"
  {
  }
}
