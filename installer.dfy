/** The DesiInstall object: each stage of an install reads what the earlier
    stages stored in its fields and stores its own outcome there. The disk
    and the current directory are a FileSystem object the stages that touch
    them are given; HTTP answers and exit statuses of commands are
    parameters. */
module Installer {
  import opened Results
  import opened Strings
  import opened Install

  /** The part of the operating system the installer changes: what is on
      disk and the current directory. */
  class FileSystem {
    var disk: Disk
    var cwd: string

    constructor (disk: Disk, cwd: string)
      ensures this.disk == disk && this.cwd == cwd
    {
      this.disk := disk;
      this.cwd := cwd;
    }

    /** `os.chdir`. */
    method ChangeDirectory(path: string)
      modifies this`cwd
      ensures cwd == path
    {
      cwd := path;
    }

    /** `shutil.rmtree`: the tree is gone, everything outside it stays. */
    method RemoveTree(path: string)
      modifies this`disk
      ensures disk == Install.RemoveTree(old(disk), path)
      ensures !Exists(disk, path)
      ensures forall q :: !Under(q, path) ==> (Exists(disk, q) <==> Exists(old(disk), q))
    {
      disk := Install.RemoveTree(disk, path);
    }
  }

  /** The options before any command line has been read. */
  const UnsetOptions := Options(NoPackage, NoVersion, "", false, false, false, false, false, None, None, "")

  class DesiInstall {
    var options: Options
    var nersc: Option<string>
    var config: Config
    var knownProducts: map<string, string>
    var fullproduct: string
    var baseproduct: string
    var baseversion: string
    var github: bool
    var productUrl: string
    var workingDir: string
    var originalDir: string
    var installDir: string

    /** A fresh installer knows only the built-in products. */
    constructor ()
      ensures options == UnsetOptions && nersc.None? && config == NoConfig
      ensures knownProducts == DefaultKnownProducts
      ensures fullproduct == "" && baseproduct == "" && baseversion == "" && !github
      ensures productUrl == "" && workingDir == "" && originalDir == "" && installDir == ""
    {
      options := UnsetOptions;
      nersc := None;
      config := NoConfig;
      knownProducts := DefaultKnownProducts;
      fullproduct, baseproduct, baseversion := "", "", "";
      github := false;
      productUrl, workingDir, originalDir, installDir := "", "", "", "";
    }

    /** `get_options`: the options with their defaults, the NERSC host
        from NERSC_HOST, and the configuration file's contents. */
    method GetOptions(cl: CommandLine, env: map<string, string>, config: Config) returns (o: Options)
      requires UserVariable in env
      modifies this`options, this`nersc, this`config
      ensures o == options == OptionsOf(cl, env)
      ensures nersc == Getenv(env, NerscHostVariable) && this.config == config
    {
      options := OptionsOf(cl, env);
      nersc := Getenv(env, NerscHostVariable);
      this.config := config;
      o := options;
    }

    /** `sanity_check`: on success the options are replaced by the checked
        ones (the installer's own product and version when bootstrapping);
        on failure nothing changes. */
    method SanityCheck(fs: FileSystem, ownVersion: string) returns (r: Result<bool, InstallError>)
      modifies this`options
      ensures r.Ok? <==> Install.SanityCheck(old(options), fs.disk.dirs, ownVersion).Ok?
      ensures r.Ok? ==> r.value && options == Install.SanityCheck(old(options), fs.disk.dirs, ownVersion).value
      ensures r.Err? ==>
        r.error == Install.SanityCheck(old(options), fs.disk.dirs, ownVersion).error && options == old(options)
    {
      var checked := Install.SanityCheck(options, fs.disk.dirs, ownVersion);
      if checked.Ok? {
        options := checked.value;
        r := Ok(true);
      } else {
        r := Err(checked.error);
      }
    }

    /** `get_product_version`: merges the configuration file's products
        into the registry, then resolves the requested product and version
        against it. */
    method GetProductVersion() returns (r: Resolution)
      modifies this`knownProducts, this`fullproduct, this`baseproduct, this`baseversion, this`github
      ensures knownProducts == KnownProducts(old(knownProducts), config)
      ensures r == ResolveProduct(options.product, options.productVersion, knownProducts)
      ensures r == Resolution(fullproduct, baseproduct, baseversion)
      ensures github == OnGitHub(options.product, knownProducts)
    {
      MergeKnownProducts();
      var product, version, known := options.product, options.productVersion, knownProducts;
      r := ResolveRequested(product, version, known);
      SetGitHub(product, known);
    }

    /** The configuration file's products join the registry. */
    method MergeKnownProducts()
      modifies this`knownProducts
      ensures knownProducts == KnownProducts(old(knownProducts), config)
    {
      knownProducts := KnownProducts(knownProducts, config);
    }

    /** The requested product and version resolved against the registry. */
    method ResolveRequested(product: string, version: string, known: map<string, string>) returns (r: Resolution)
      modifies this`fullproduct, this`baseproduct, this`baseversion
      ensures r == ResolveProduct(product, version, known)
      ensures r == Resolution(fullproduct, baseproduct, baseversion)
    {
      r := ResolveProduct(product, version, known);
      fullproduct := r.fullproduct;
      baseproduct := r.baseproduct;
      baseversion := r.baseversion;
    }

    /** Whether the requested product is fetched from GitHub. */
    method SetGitHub(product: string, known: map<string, string>)
      modifies this`github
      ensures github == OnGitHub(product, known)
    {
      github := OnGitHub(product, known);
    }

    /** `identify_branch`: the URL of the requested version, from which
        that version can be read back. */
    method IdentifyBranch() returns (url: string)
      modifies this`productUrl
      ensures url == productUrl == BranchUrl(github, fullproduct, options.productVersion)
      ensures (github || (fullproduct != "" && !EndsWith(fullproduct, "/") && !StartsWith(options.productVersion, "/"))) ==>
        VersionFromUrl(github, fullproduct, productUrl) == Some(options.productVersion)
    {
      productUrl := BranchUrl(github, fullproduct, options.productVersion);
      url := productUrl;
      if github || (fullproduct != "" && !EndsWith(fullproduct, "/") && !StartsWith(options.productVersion, "/")) {
        BranchUrlRoundTrip(github, fullproduct, options.productVersion);
      }
    }

    /** `verify_url`: for a GitHub product the answer to an HTTP request
        for the URL decides; for a subversion one, the exit status of the
        `svn ls` command returned in `command`, run with the client `svn`. */
    method VerifyUrl(status: Option<nat>, exitStatus: Option<nat>, svn: string := SvnClient)
      returns (command: seq<string>, r: Result<bool, InstallError>)
      ensures r == Install.VerifyUrl(github, productUrl, status, exitStatus)
      ensures github ==> command == []
      ensures !github ==> command == SvnLsCommand(svn, options.username, productUrl)
    {
      if github {
        command := [];
        r := VerifyGitUrl(productUrl, status);
      } else {
        command := SvnLsCommand(svn, options.username, productUrl);
        r := VerifySvnUrl(productUrl, exitStatus);
      }
    }

    /** The `build_type` property, read off the working directory. */
    function BuildType(fs: FileSystem): (r: set<BuildStep>)
      reads this, fs
      ensures Plain in r
      ensures Make in r <==> options.forceBuildType || Exists(fs.disk, PathJoin(workingDir, Makefile))
      ensures Py in r <==> Exists(fs.disk, PathJoin(workingDir, SetupScript))
      ensures Src in r <==> PathJoin(workingDir, SourceDirectory) in fs.disk.dirs
    {
      Install.BuildType(options.forceBuildType, workingDir, fs.disk)
    }

    /** `set_install_dir`: picks the root (the NERSC default when no usable
        root was given, which then becomes the root option), puts the
        product under `<root>/code/<product>/<version>`, refuses an
        existing one unless --force, and then removes it. */
    method SetInstallDir(fs: FileSystem) returns (r: Result<string, InstallError>)
      modifies this`options, this`installDir, fs`disk
      ensures var root := InstallRoot(old(options.root), old(fs.disk), nersc, DefaultTemplates, options.knl, options.anaconda);
        (root.Err? ==>
          r == Err(root.error) && fs.disk == old(fs.disk) && options == old(options) && installDir == old(installDir)) &&
        (root.Ok? ==>
          var dir := Install.InstallDir(root.value, baseproduct, baseversion);
          var plan := PlanInstallDir(dir, options.force, old(fs.disk));
          options == old(options).(root := Some(root.value)) && installDir == dir &&
          (plan.Err? ==> r == Err(plan.error) && fs.disk == old(fs.disk)) &&
          (plan.Ok? ==> r == Ok(dir) && fs.disk == plan.value))
      ensures r.Ok? ==> r.value == installDir && installDir !in fs.disk.dirs
      ensures r.Err? ==> fs.disk == old(fs.disk)
      ensures forall q :: !Under(q, installDir) ==> (Exists(fs.disk, q) <==> Exists(old(fs.disk), q))
    {
      var disk := fs.disk;
      var root := InstallRoot(options.root, disk, nersc, DefaultTemplates, options.knl, options.anaconda);
      if root.Err? {
        r := Err(root.error);
        return;
      }
      options := options.(root := Some(root.value));
      var dir := Install.InstallDir(root.value, baseproduct, baseversion);
      installDir := dir;
      var plan := PlanInstallDir(dir, options.force, disk);
      if plan.Err? {
        r := Err(plan.error);
        return;
      }
      if dir in disk.dirs {
        fs.RemoveTree(dir);
      }
      r := Ok(dir);
    }

    /** `cleanup`: back to the directory the install started from, and the
        working directory removed unless --keep. */
    method Cleanup(fs: FileSystem) returns (r: bool)
      modifies fs
      ensures r
      ensures fs.cwd == originalDir
      ensures options.keep ==> fs.disk == old(fs.disk)
      ensures !options.keep ==> fs.disk == Install.RemoveTree(old(fs.disk), workingDir) && !Exists(fs.disk, workingDir)
      ensures forall q :: !Under(q, workingDir) ==> (Exists(fs.disk, q) <==> Exists(old(fs.disk), q))
    {
      fs.ChangeDirectory(originalDir);
      if !options.keep {
        fs.RemoveTree(workingDir);
      }
      r := true;
    }
  }
}
