# lvmutil install and svn helpers, in Dafny

This project models two parts of lvmutil.

**DesiInstall** is the object that installs a product. Each install stage decides something and records it in the object's fields. The stages modelled are:

- reading the options;
- the sanity check;
- resolving the product name and version against the registry of known products, merged with the configuration file;
- building the URL of the requested branch or tag;
- verifying that URL;
- detecting the build type of a checkout;
- deriving the desiconda (anaconda) version and the KNL marker;
- the default NERSC directory and the NERSC module directory;
- choosing and clearing the install directory;
- cleaning up.

**The svn helpers** are:

- `last_revision`, which reads the output of `svnversion`;
- `last_tag`, which picks the most recent release tag from an `svn ls` listing;
- `version`, which composes `<tag>.dev<revision>`.

Modules:

- `Results`: `Option` and `Result`.
- `Strings`: string operations the installer and the helpers rely on, each with its own contract:
  - substring search;
  - base name and `os.path.join`;
  - split and join;
  - removing characters;
  - decimal numerals.
- `Paths`: paths built from components, and lemmas locating `desiconda/` and `/code` in them.
- `Install`: the installer's decisions as pure functions over values:
  - options and environment;
  - the disk, as sets of files and directories;
  - HTTP status codes and exit statuses.
- `Installer`: two classes.
  - `FileSystem`: the disk and the current directory.
  - `DesiInstall`: the installer object. Its methods update its fields as `modifies` clauses state. Each method is tied by its `ensures` to the `Install` functions.
- `Svn`: the three helpers as functions of the text the commands print.

The text of the implementation modules `py/lvmutil/install.py` and `py/lvmutil/svn/*.py` is not part of this model; their behaviour is modelled as their tests pin it down: `py/lvmutil/test/test_install.py` and `py/lvmutil/test/test_svn.py`. Where the tests are silent, the behaviour and the message wordings are this model's own choices; nothing in lvmutil pins them. The cited lines are the test lines each member reproduces or generalises.

## Model

| member | source | states |
|---|---|---|
| Installer.DesiInstall.constructor | py/lvmutil/test/test_install.py:41-43 | a fresh installer has unset options, no NERSC host, no configuration and only the built-in product registry |
| Installer.DesiInstall.GetOptions | py/lvmutil/test/test_install.py:91-140 | the options are those read from the command line and environment; the NERSC host comes from NERSC_HOST; the configuration is stored |
| Install.Getenv | py/lvmutil/test/test_install.py:134-140 | a variable is found exactly when it is set, with its value |
| Install.OptionsOf | py/lvmutil/test/test_install.py:91-140 | an option given on the command line wins; a missing one takes its default: NO PACKAGE, NO VERSION, the desiconda version of DESICONDA, LVM_PRODUCT_ROOT, MODULESHOME, and USER for the user name |
| Install.DefaultOptions | py/lvmutil/test/test_install.py:95-116 | with no arguments: no product, no version, all flags off; anaconda version from DESICONDA; root and Modules home from the environment; username from USER |
| Install.PositionalOptions | py/lvmutil/test/test_install.py:117-120 | the two positional arguments set product and version and change nothing else |
| Install.RootFromEnvironment | py/lvmutil/test/test_install.py:134-140 | without --root, the root is LVM_PRODUCT_ROOT when that is set, and unset otherwise |
| Install.SanityCheck | py/lvmutil/test/test_install.py:143-162 | a missing product or version fails with the "must specify" error unless bootstrapping; bootstrapping installs lvmutil at the installer's own version; otherwise Modules must be set up; success keeps every other option |
| Installer.DesiInstall.SanityCheck | py/lvmutil/test/test_install.py:143-162 | succeeds exactly when the sanity check on the installer's file system does; the options become the checked ones on success and are untouched on failure |
| Install.MustSpecifyMessage | py/lvmutil/test/test_install.py:147-151 | without a product or a version, and not bootstrapping, the message is "You must specify a product and a version!" |
| Install.ModulesMessage | py/lvmutil/test/test_install.py:157-162 | bootstrapping without MODULESHOME gives "You do not appear to have Modules set up." |
| Install.KnownProducts | py/lvmutil/test/test_install.py:181-185 | the registry after merging the configuration file holds both key sets; configured URLs override the built-in ones, and other entries are kept |
| Install.ResolveProduct | py/lvmutil/test/test_install.py:164-186 | base product and base version are the base names of the arguments; a known base name takes the registered URL; an unknown one becomes a GitHub URL |
| Install.ResolveBareName | py/lvmutil/test/test_install.py:169-176 | an unregistered bare name becomes https://github.com/desihub/<name> and is its own base name |
| Install.ResolveOwnerName | py/lvmutil/test/test_install.py:177-180 | an unregistered owner/name becomes https://github.com/<owner>/<name> with base name <name> |
| Install.ConfigurationWins | py/lvmutil/test/test_install.py:181-185 | a product named in the configuration file resolves to the configured URL for every registry |
| Install.ResolveConfiguredName | py/lvmutil/test/test_install.py:181-185 | a configured bare name resolves fully to the configured URL, itself, and the base name of the version |
| Install.ResolveFoo | py/lvmutil/test/test_install.py:169-172 | foo/bar resolves to https://github.com/desihub/foo, foo, bar |
| Install.ResolveLvmutil | py/lvmutil/test/test_install.py:173-176 | lvmutil/1.0.0 resolves to https://github.com/desihub/lvmutil, lvmutil, 1.0.0 |
| Install.ResolveDesispec | py/lvmutil/test/test_install.py:177-180 | desihub/desispec/2.0.0 resolves to https://github.com/desihub/desispec, desispec, 2.0.0 |
| Install.ResolveConfigured | py/lvmutil/test/test_install.py:181-185 | with the test configuration, my_new_product/1.2.3 resolves to https://github.com/me/my_new_product |
| Installer.DesiInstall.GetProductVersion | py/lvmutil/test/test_install.py:164-186 | the registry becomes the merge with the configuration; the returned triple is the resolution of the requested product and version and is stored in the fields; the GitHub flag is set |
| Installer.DesiInstall.MergeKnownProducts | py/lvmutil/test/test_install.py:181-185 | the configuration file's products join the registry |
| Installer.DesiInstall.ResolveRequested | py/lvmutil/test/test_install.py:164-180 | the fields fullproduct, baseproduct and baseversion hold the resolution |
| Installer.DesiInstall.SetGitHub | py/lvmutil/test/test_install.py:189-220 | the GitHub flag says whether the product is fetched from GitHub: unregistered, or registered at a github.com URL |
| Install.OnGitHub | py/lvmutil/test/test_install.py:189-220 | a product is fetched from GitHub exactly when its resolved URL, for any version, contains github.com |
| Install.GitHubUrlsMentionGitHub | py/lvmutil/test/test_install.py:169-180 | every URL under https://github.com/ contains github.com |
| Install.ProductUrl | py/lvmutil/test/test_install.py:189-220 | for a GitHub product, or an svn URL not ending in '/' and a version not starting with '/', the URL starts with the product URL and the version reads back from it |
| Install.BranchUrl | py/lvmutil/test/test_install.py:189-220 | GitHub: `.git` for master, otherwise the `/archive/<version>.tar.gz` tarball; svn: trunk and branches/* are appended as given, anything else goes under tags/ |
| Install.BranchUrlRoundTrip | py/lvmutil/test/test_install.py:189-220 | the version can be read back from every branch URL |
| Install.ArchiveRoundTrip | py/lvmutil/test/test_install.py:192-197 | the tag can be read back from every GitHub archive URL |
| Install.SvnBranchRoundTrip | py/lvmutil/test/test_install.py:209-220 | trunk and branch versions can be read back from their svn URLs |
| Install.SvnTagRoundTrip | py/lvmutil/test/test_install.py:203-208 | tag versions can be read back from their svn tags/ URLs |
| Install.BranchUrlInjective | py/lvmutil/test/test_install.py:189-220 | two versions of one product never share a URL |
| Install.LvmutilTagUrl | py/lvmutil/test/test_install.py:192-197 | lvmutil 1.0.0 is https://github.com/desihub/lvmutil/archive/1.0.0.tar.gz |
| Install.LvmutilHeadUrl | py/lvmutil/test/test_install.py:198-202 | lvmutil master is https://github.com/desihub/lvmutil.git |
| Install.AdminSvnUrl | py/lvmutil/test/test_install.py:203-220 | desiAdmin's URL for any version is the svn rule applied to the registered desiAdmin URL |
| Install.AdminTagUrl | py/lvmutil/test/test_install.py:203-208 | desiAdmin 1.0.0 is https://desi.lbl.gov/svn/code/tools/desiAdmin/tags/1.0.0 |
| Install.AdminTrunkUrl | py/lvmutil/test/test_install.py:209-213 | desiAdmin trunk is https://desi.lbl.gov/svn/code/tools/desiAdmin/trunk |
| Install.AdminBranchUrl | py/lvmutil/test/test_install.py:214-220 | desiAdmin branches/testing is https://desi.lbl.gov/svn/code/tools/desiAdmin/branches/testing |
| Install.LvmutilOnGitHub | py/lvmutil/test/test_install.py:192-202 | lvmutil is fetched from GitHub at https://github.com/desihub/lvmutil for every version |
| Install.AdminResolution | py/lvmutil/test/test_install.py:203-220 | desiAdmin is not fetched from GitHub and resolves to its registered svn URL for every version |
| Installer.DesiInstall.IdentifyBranch | py/lvmutil/test/test_install.py:189-220 | the product URL field holds the branch URL of the stored resolution; the requested version can be read back from it |
| Install.VerifyGitUrl | py/lvmutil/test/test_install.py:222-234 | a GitHub URL is valid exactly on status 200; another status is reported with that status and the URL; no answer is an unreachable-URL error |
| Install.Message | py/lvmutil/test/test_install.py:229-234 | every error message is nonempty and names the URL, host or directory it is about at a fixed place: the URL or host right before the final '.', the svn URL first, the directory after `Install directory, ` |
| Install.NotFoundMessage | py/lvmutil/test/test_install.py:229-234 | a 404 gives "Error 404 querying GitHub URL: <url>." |
| Install.SvnLsCommand | py/lvmutil/test/test_install.py:235-242 | the command is the svn program, `--non-interactive`, `--username`, the user name, `ls` and the URL, in that order |
| Install.EchoOutput | py/lvmutil/test/test_install.py:235-242 | the output of `echo` always ends in a newline |
| Install.EchoedSvnCommand | py/lvmutil/test/test_install.py:235-242 | with `echo` standing in for svn, the output is the svn arguments `--non-interactive --username <user> ls <url>` and a newline |
| Install.VerifySvnUrl | py/lvmutil/test/test_install.py:235-244 | an svn URL is valid exactly when `svn ls` exits with 0; otherwise it is an invalid-svn-URL error |
| Install.VerifyUrl | py/lvmutil/test/test_install.py:222-244 | GitHub products are checked over HTTP and svn products with svn; success always carries true |
| Installer.DesiInstall.VerifyUrl | py/lvmutil/test/test_install.py:222-244 | the stored product URL is verified as the GitHub flag says; the svn command, with the client `svn` unless another is given, is returned for svn products and nothing is run for GitHub ones |
| Install.BuildType | py/lvmutil/test/test_install.py:246-281 | plain is always present; make if a Makefile exists or -C was given; py if setup.py exists; src if a src directory exists |
| Install.BuildTypeIs | py/lvmutil/test/test_install.py:246-281 | any set of steps matching those four conditions is the build type |
| Install.BuildTypeMonotonic | py/lvmutil/test/test_install.py:261-277 | adding files or directories to the checkout never removes a build step |
| Install.BuildTypePlainOnly | py/lvmutil/test/test_install.py:256-257 | a checkout without a Makefile, setup.py or src builds plain only |
| Install.BuildTypeOfEmptyCheckout | py/lvmutil/test/test_install.py:256-259 | an empty checkout is plain; with -C it is plain and make |
| Install.BuildTypeOfMakefile | py/lvmutil/test/test_install.py:261-269 | a Makefile gives plain and make |
| Install.BuildTypeOfSetupScript | py/lvmutil/test/test_install.py:261-269 | setup.py gives plain and py |
| Install.BuildTypeOfSourceDirectory | py/lvmutil/test/test_install.py:271-277 | a src directory gives plain and src |
| Installer.DesiInstall.BuildType | py/lvmutil/test/test_install.py:246-281 | the build type of the working directory on the installer's file system: plain always; make exactly with -C or a Makefile; py exactly with setup.py; src exactly with a src directory |
| Install.DesicondaSegment | py/lvmutil/test/test_install.py:284-295 | the text between the first `desiconda/` and the first `/code`; empty if `/code` comes first; `current` if either marker is missing |
| Install.AnacondaVersion | py/lvmutil/test/test_install.py:284-295 | `current` without DESICONDA, otherwise the desiconda segment of its value |
| Install.DesicondaSegmentOf | py/lvmutil/test/test_install.py:290-292 | a value `pre desiconda/ v /code post`, with neither marker earlier, yields exactly `v` |
| Install.DesicondaOfPath | py/lvmutil/test/test_install.py:290-292 | in a path of components, the components strictly between one ending in `desiconda` and one starting with `code`, joined by '/' |
| Install.DesicondaWithoutCode | py/lvmutil/test/test_install.py:293-295 | a path with no component starting with `code` yields `current` |
| Install.AnacondaWithoutMarkers | py/lvmutil/test/test_install.py:287-289 | DESICONDA=FOO gives `current` |
| Install.AnacondaOfCoriPath | py/lvmutil/test/test_install.py:290-292 | the cori desiconda path of the test gives 20170613-1.1.4-spectro |
| Install.AnacondaMarkersAreCaseSensitive | py/lvmutil/test/test_install.py:293-295 | the upper-case CODE path of the test gives `current`: the markers are case-sensitive |
| Install.KnlMarker | py/lvmutil/test/test_install.py:297-303 | the knl property is "knl" exactly when --knl was given, and empty otherwise |
| Install.DefaultNerscDir | py/lvmutil/test/test_install.py:305-320 | fails exactly for a host without a template, naming that host |
| Install.DefaultNerscDirOfHost | py/lvmutil/test/test_install.py:305-320 | for each built-in host, /global/common/software/desi/<host>/desiconda/<anaconda version> |
| Install.EdisonNerscDir | py/lvmutil/test/test_install.py:308-314 | edison gives /global/common/software/desi/edison/desiconda/current |
| Install.DatatranNerscDir | py/lvmutil/test/test_install.py:315-320 | datatran with anaconda version frobulate gives /global/common/software/desi/datatran/desiconda/frobulate |
| Install.FormatWithoutVersion | py/lvmutil/test/test_install.py:315-320 | a template without a version slot gives the same text for every version |
| Install.InstallRoot | py/lvmutil/test/test_install.py:323-370 | an existing root directory is used as given; otherwise the NERSC default; off NERSC, a missing root is the missing-root error |
| Install.MissingRootOffNersc | py/lvmutil/test/test_install.py:326-332 | a root that is not a directory, off NERSC, fails with the missing-root error |
| Install.InstallDirEndsWithVersion | py/lvmutil/test/test_install.py:333-338 | the install directory ends with the base version |
| Install.InstallDir | py/lvmutil/test/test_install.py:333-338 | for a root not ending in '/' and '/'-free product and version, the install directory is <root>/code/<product>/<version> |
| Install.InstallDirUnderRoot | py/lvmutil/test/test_install.py:333-358 | everything in the install directory lies strictly inside the root, so clearing it never touches the root |
| Install.PlanInstallDir | py/lvmutil/test/test_install.py:339-358 | an existing install directory is refused exactly without --force, naming it; with --force it is removed and nothing outside it changes; a new one leaves the disk alone |
| Install.InstallDirExistsMessage | py/lvmutil/test/test_install.py:344-351 | an existing install directory without --force gives "Install directory, <dir>, already exists!" |
| Install.LvmutilMasterInstallDir | py/lvmutil/test/test_install.py:333-358 | lvmutil master under an existing root goes to <root>/code/lvmutil/master; if that exists it is refused, and with --force it is removed |
| Install.EdisonInstallDir | py/lvmutil/test/test_install.py:361-370 | on edison without a root, lvmutil test-blat-foo goes to /global/common/software/desi/edison/desiconda/current/code/lvmutil/test-blat-foo |
| Installer.DesiInstall.SetInstallDir | py/lvmutil/test/test_install.py:323-370 | the root option becomes the chosen root and the install directory lies under it; an error leaves the disk alone; success leaves no install directory on disk; nothing outside the install directory changes |
| Install.NerscModuleDir | py/lvmutil/test/test_install.py:390-420 | no directory off NERSC; the configured directory for the host if there is one; an unknown host is an error; otherwise `modulefiles` under the host's NERSC directory, with the Modules product using its startup version |
| Install.ModuleDirOfHost | py/lvmutil/test/test_install.py:398-412 | for a built-in, unconfigured host: /global/common/software/desi/<host>/desiconda/<version>/modulefiles |
| Install.EdisonModuleDirFromConfiguration | py/lvmutil/test/test_install.py:413-417 | with the test configuration, edison's module directory is /project/projectdirs/desi/test/modules |
| Install.CoriModuleDirFromConfiguration | py/lvmutil/test/test_install.py:418-420 | with the test configuration, cori's module directory is /global/common/cori/contrib/desi/test/modules |
| Install.RemoveTree | py/lvmutil/test/test_install.py:422-432 | removing a tree removes the path and everything inside it, and nothing else |
| Installer.FileSystem.RemoveTree | py/lvmutil/test/test_install.py:422-432 | the disk becomes the one with the tree removed; the path is gone; every path outside it still exists, or is still absent |
| Installer.FileSystem.ChangeDirectory | py/lvmutil/test/test_install.py:422-432 | the current directory becomes the given path |
| Installer.DesiInstall.Cleanup | py/lvmutil/test/test_install.py:422-432 | returns true and goes back to the original directory; the working directory is removed unless --keep; nothing outside it changes |
| Svn.LastRevision | py/lvmutil/test/test_svn.py:33-69 | "0" outside a working copy; otherwise the upper end of a mixed range, with the M, S and P letters removed |
| Svn.LastRevisionOfSvnversion | py/lvmutil/test/test_svn.py:33-69 | for the svnversion outputs modelled (`Unversioned`, `exported`, a revision or mixed range followed by M, S, P markers): the highest revision of a working copy, or "0" for an unversioned or exported tree |
| Svn.RangeWithMarkers | py/lvmutil/test/test_svn.py:48-69 | a mixed range `low:high` followed by any letters gives `high` |
| Svn.RevisionWithMarkers | py/lvmutil/test/test_svn.py:59-69 | removing the letters from a revision followed by markers gives back the revision |
| Svn.LastRevisionUnversioned | py/lvmutil/test/test_svn.py:37-47 | "Unversioned" gives "0" |
| Svn.LastRevisionRange | py/lvmutil/test/test_svn.py:48-58 | "123:345" gives "345" |
| Svn.LastRevisionModified | py/lvmutil/test/test_svn.py:59-69 | "345M" gives "345" |
| Svn.TagListCommand | py/lvmutil/test/test_svn.py:81-83 | `svn --non-interactive [--username <user>] ls <tags>`: the `--username` pair appears exactly when a user is given |
| Svn.ListingEntries | py/lvmutil/test/test_svn.py:76-108 | every entry read from a listing is a tag that can be listed: no line break in it and no '/' at its end |
| Svn.ListingRoundTrip | py/lvmutil/test/test_svn.py:76-86 | reading a listing gives back exactly the listed tags, in order |
| Svn.ReleaseOf | py/lvmutil/test/test_svn.py:79-85 | a tag that parses as a release holds a '.' and only digits and dots |
| Svn.ReleaseOfPair | py/lvmutil/test/test_svn.py:79-85 | two dot-separated numerals give the release with their values and patch level 0 |
| Svn.ReleasesOf | py/lvmutil/test/test_svn.py:72-108 | every tag's release number, in order; fails on exactly the listings with a tag that is not a release number, naming one such tag |
| Svn.LastGreatest | py/lvmutil/test/test_svn.py:79-85 | the position of a greatest release with no equal one after it, where a stable sort leaves its last element |
| Svn.LastTag | py/lvmutil/test/test_svn.py:72-108 | "0.0.0" for an empty listing; an error exactly when some tag is not a release number; otherwise a greatest tag, taken from the listing with no equal release listed after it |
| Svn.LastTagExample | py/lvmutil/test/test_svn.py:76-97 | the listing 0.0.1/ 0.0.2/ 0.0.3/ gives 0.0.3 |
| Svn.ExampleListing | py/lvmutil/test/test_svn.py:79 | the test listing holds the tags 0.0.1, 0.0.2, 0.0.3 |
| Svn.ExampleReleases | py/lvmutil/test/test_svn.py:79-85 | those tags are releases 0.0.1, 0.0.2 and 0.0.3 |
| Svn.LastTagTieBreak | py/lvmutil/test/test_svn.py:72-108 | of 1.0 and 1.0.0, equal releases, the one listed last is returned |
| Svn.EmptyListing | py/lvmutil/test/test_svn.py:98-108 | an empty listing gives 0.0.0 |
| Svn.ReleaseOfTriple | py/lvmutil/test/test_svn.py:79-85 | three dot-separated numerals give the release with their values |
| Svn.VersionSource | py/lvmutil/test/test_svn.py:114-123 | a given URL is used as is; otherwise the product's registered URL, and none for an unknown product |
| Svn.Version | py/lvmutil/test/test_svn.py:111-123 | without a source URL, 0.0.1.dev0; otherwise `<last tag>.dev<last revision>`; a bad listing is reported |
| Svn.VersionWithTag123 | py/lvmutil/test/test_svn.py:114-121 | with the last tag 1.2.3 and the revision 0, every product with a source URL gets 1.2.3.dev0 |
| Svn.VersionOfKnownProduct | py/lvmutil/test/test_svn.py:118-119 | version('foo') with foo registered gives 1.2.3.dev0 |
| Svn.VersionOfGivenUrl | py/lvmutil/test/test_svn.py:120-121 | version('bar', url='baz') gives 1.2.3.dev0 |
| Svn.VersionOfUnknownProduct | py/lvmutil/test/test_svn.py:122-123 | version('frobulate') gives 0.0.1.dev0 |

## Left out

- Command-line parsing with argparse is not modelled. A `CommandLine` value holds what was parsed.
- The `--verbose`, `--test`, `--default`, `--cross-install` and `--module-dir` options are not modelled. Whatever they change in lvmutil is not captured here; in particular no dry-run mode guards the removal done by Installer.DesiInstall.SetInstallDir.
- Logging is not modelled. The tests' assertions on log messages are not reproduced.
- Reading dependencies from a module file (`dependencies`, test_install.py:68-88), initialising the Modules environment (`start_modules`, test_install.py:374-388), and writing and installing module files are not modelled. They read files and run the external Modules system, neither of which the model has.
- Running commands and HTTP requests are not modelled. Their answers (exit status, printed text, HTTP status) are parameters. In particular the `svnversion -n .` call that last_revision makes (test_svn.py:42) is not modelled: Svn.LastRevision starts from the text svnversion printed.
- Downloading, unpacking and building a product are not modelled.
- Svn.ReleaseOf: a release number is read as `N.N` or `N.N.N`, which is this model's reading; any other tag, including pre-release forms such as `1.0a1`, is invalid.
- Svn.Version: the tags directory listed is not derived from the source URL. The listing text is a parameter, so appending `tags` to the URL is not modelled.
- Install.Message: its contract states only where the URL, host or path of a message appears. The four wordings the tests pin are stated by their own lemmas: Install.MustSpecifyMessage, Install.ModulesMessage, Install.NotFoundMessage and Install.InstallDirExistsMessage. The wordings for a missing root, an unknown NERSC host, an unreachable GitHub URL and an invalid svn URL are this model's own.
- Install.BuildType: each marker file is detected on its own. `-C` adds `make` and does not suppress the other steps.
- Install.DefaultNerscDir: the built-in templates never use the KNL slot, so `--knl` changes no default directory.
- Installer.DesiInstall.GetOptions: returns a copy of the options. In lvmutil it returns the very object the installer keeps, and a caller sees later stages change it (the bootstrap product read at test_install.py:153-156); that sharing is not modelled, and callers read the field instead.
- Install.KnownProducts: configuration keys are merged as written. If lvmutil reads the file with configparser's default settings, option names arrive lower-cased, so a mixed-case configured name such as `desiAdmin` would not override the built-in entry; Install.ConfigurationWins holds for the keys as the model receives them.
- Installer.DesiInstall.constructor: each installer holds its own copy of the product registry, and Svn.Version takes the registry as a parameter. In lvmutil the registry is one module-level dictionary (`lvmutil.install.known_products`, patched at test_svn.py:115), so a merge by the installer is seen by `version`; that sharing is not modelled.
- Install.OptionsOf: requires USER to be set, because the username option defaults to it unconditionally.
- Install.AnacondaOfCoriPath: the DESICONDA value is built from its components with Paths.PathOf, which spells the path of test_install.py:290. That the components spell exactly that text is not proved: a 111-character literal equality is beyond the verifier's resource limit here. The same holds for Install.AnacondaMarkersAreCaseSensitive and the path of test_install.py:293.
- Install.DesicondaOfPath: the general desiconda lemmas are stated on paths given as lists of '/'-free components.
- Install.ModuleDirOfHost: requires a non-empty, '/'-free anaconda version for the non-Modules case. Otherwise `os.path.join` would not spell the path component by component.
- Installer.FileSystem.RemoveTree: removing a tree that is not there is not an error in the model. `shutil.rmtree` would raise.
- Installer.FileSystem.ChangeDirectory: changing to a missing directory is not an error in the model. `os.chdir` would raise.
- Install.InstallRoot: a root counts only if it is a directory on the modelled disk. Permissions and links are not modelled.
- Strings.AfterLast: the fact that the result is a suffix of its argument is stated by the lemma `Strings.AfterLastSuffix` rather than in the contract. The same goes for the identity on names without the separator (`Strings.AfterLastWithout`).
- Strings.Basename: its identity on '/'-free names is stated by the lemma `Strings.BasenameOfName`.
- Strings.PathJoin: the fact that the result ends with the second argument is stated by the lemma `Strings.PathJoinSuffix`.
- Install.InstallDir: the fact that it ends with the version is stated by the lemma `Install.InstallDirEndsWithVersion`.
