/** `DockerComposeGenerator` (`utils/generate_docker_compose.py`): the compose
    document built from the project model, the start-up shell script of each
    service, and the text rewrite that turns the dumped `command` scalar into a
    literal block. */
module Compose {
  import opened Wrappers
  import opened Text
  import opened Paths
  import opened Dicts
  import opened ProjectModel

  /** Why generation raises: a `KeyError` on a required key, the `TypeError` of
      `Path()` applied to a data root that is not a string, or the
      `StopIteration` of `next(iter(apps.values()))` on a service without apps. */
  datatype ComposeError = MissingKey(key: Key) | DataRootNotText | NoApps

  /** The keys generation reads from the project model. */
  datatype Key = ServicesKey | UserKey | DockerfileKey | ImageKey | WorkingDirKey | AppsKey
               | VenvKey | MainKey | ContainerPortKey

  /** The key as it is spelled in `project_info.json`. */
  function KeyName(k: Key): string {
    match k
    case ServicesKey => "services"
    case UserKey => "user"
    case DockerfileKey => "Dockerfile"
    case ImageKey => "image"
    case WorkingDirKey => "working_dir"
    case AppsKey => "apps"
    case VenvKey => "venv"
    case MainKey => "main"
    case ContainerPortKey => "container_port"
  }

  /** `d[key]` on a key that may be absent. */
  function Require<T>(o: Option<T>, key: Key): (r: Result<T, ComposeError>)
    ensures r.Ok? <==> o.Some?
    ensures r.Ok? ==> r.value == o.value
    ensures r.Err? ==> r.error == MissingKey(key)
  {
    match o
    case Some(v) => Ok(v)
    case None => Err(MissingKey(key))
  }

  /** `filter(None, xs)` on strings: the non-empty ones, in order. */
  function NonEmpty(xs: seq<string>): (r: seq<string>)
    ensures |r| <= |xs|
    ensures forall x <- r :: x != "" && x in xs
    ensures forall x <- xs :: x != "" ==> x in r
  {
    if xs == [] then []
    else if xs[0] == "" then NonEmpty(xs[1..])
    else [xs[0]] + NonEmpty(xs[1..])
  }

  /** Filtering a list without empty strings changes nothing. */
  lemma {:induction false} NonEmptyKeepsAll(xs: seq<string>)
    requires forall x <- xs :: x != ""
    ensures NonEmpty(xs) == xs
  {
    if xs != [] {
      assert xs[0] in xs;
      assert forall x <- xs[1..] :: x in xs;
      NonEmptyKeepsAll(xs[1..]);
    }
  }

  /** `str(Path("/") / c1 / ... / cn)` for plain components: empty components
      vanish and the rest are joined with `/`. */
  function PosixPath(comps: seq<string>): (r: string)
    ensures |r| > 0 && r[0] == '/'
  {
    "/" + Join(NonEmpty(comps), "/")
  }

  /** `path.replace('\\', '/')` */
  function Slashes(s: string): (r: string)
    ensures |r| == |s|
    ensures '\\' !in r
    ensures forall i :: 0 <= i < |s| && s[i] != '\\' ==> r[i] == s[i]
  {
    seq(|s|, i requires 0 <= i < |s| => if s[i] == '\\' then '/' else s[i])
  }

  /** The local `normalize_path(Path("/") / c1 / ... / cn)`: the components
      joined under the root, then every backslash made a forward slash. */
  function NormalPath(comps: seq<string>): (r: string)
    ensures |r| > 0 && r[0] == '/'
    ensures '\\' !in r
  {
    Slashes(PosixPath(comps))
  }

  /** Replacing backslashes changes nothing in a text that has none, so the
      normalised path of backslash-free components is the plain joined path. */
  lemma NormalPathOfPlainComponents(comps: seq<string>)
    requires forall c <- comps :: '\\' !in c
    ensures NormalPath(comps) == PosixPath(comps)
  {
    var p := PosixPath(comps);
    JoinWithout(NonEmpty(comps), "/", '\\');
    assert forall i :: 0 <= i < |p| ==> Slashes(p)[i] == p[i];
  }

  // ------------------------------------------------------------------
  // Data roots

  /** The host paths of a `data_roots` list; a non-string entry makes `Path()` raise. */
  function RootPaths(roots: seq<DataRoot>): (r: Result<seq<string>, ComposeError>)
    ensures r.Ok? <==> forall d <- roots :: d.RootPath?
    ensures r.Ok? ==> |r.value| == |roots| && forall i :: 0 <= i < |roots| ==> r.value[i] == roots[i].path
    ensures r.Err? ==> r.error == DataRootNotText
  {
    if roots == [] then Ok([])
    else if roots[0].RootOther? then
      assert roots[0] in roots;
      Err(DataRootNotText)
    else
      var rest :- RootPaths(roots[1..]);
      Ok([roots[0].path] + rest)
  }

  /** `app_info["data_roots"]` when the key is present, nothing otherwise. */
  function HostPaths(a: App): Result<seq<string>, ComposeError> {
    match a.dataRoots
    case None => Ok([])
    case Some(rs) => RootPaths(rs)
  }

  /** Number of declared data roots over all apps. */
  function RootCount(apps: Dict<App>): nat {
    if apps == [] then 0
    else (match apps[0].1.dataRoots case None => 0 case Some(rs) => |rs|) + RootCount(apps[1..])
  }

  /** Every app's data roots are host path strings. */
  predicate RootsAreText(apps: Dict<App>) {
    forall i :: 0 <= i < |apps| ==> HostPaths(apps[i].1).Ok?
  }

  // ------------------------------------------------------------------
  // _generate_permission_commands

  /** The data directory of an app inside the container, as normalised by
      `Path` and with forward slashes only. */
  function ContainerAppPath(user: string, app: string): (r: string)
    ensures |r| > 0 && r[0] == '/' && '\\' !in r
  {
    NormalPath(["home", user, "apps", app])
  }

  const FindHead: string := "find "
  const ChmodRootHead: string := "chmod 777 "

  const FileChmodArgs: string := " -type f ! -name 'app_info.json' ! -name 'container_info.json' -exec chmod 755 {} \\;"

  /** The `chmod` over the app's files, which leaves the two info files alone. */
  function FileChmod(appPath: string): string {
    FindHead + appPath + FileChmodArgs
  }

  const DirChmodArgs: string := " -type d -exec chmod 755 {} \\;"

  function DirChmod(appPath: string): string {
    FindHead + appPath + DirChmodArgs
  }

  const RootChmodNote: string := " # データディレクトリのルートにパーミッションを設定"
  const SubdirChmodArgs: string := " -type d -exec chmod 777 {} \\; # サブディレクトリのパーミッションを設定"
  const DataFileChmodArgs: string := " -type f -exec chmod 666 {} \\; # ファイルのパーミッションを設定"

  /** A data root's directory inside the container, named after the root. */
  function DataDir(user: string, app: string, hostPath: string): (r: string)
    ensures |r| > 0 && r[0] == '/' && '\\' !in r
  {
    NormalPath(["home", user, "apps", app, Name(hostPath)])
  }

  function RootChmod(dir: string): string {
    ChmodRootHead + dir + RootChmodNote
  }

  function SubdirChmod(dir: string): string {
    FindHead + dir + SubdirChmodArgs
  }

  function DataFileChmod(dir: string): string {
    FindHead + dir + DataFileChmodArgs
  }

  /** The data directories of an app, one per host path, in order. */
  function DataDirs(user: string, app: string, hostPaths: seq<string>): (r: seq<string>)
    ensures |r| == |hostPaths|
    ensures forall k :: 0 <= k < |hostPaths| ==> r[k] == DataDir(user, app, hostPaths[k])
  {
    if hostPaths == [] then [] else [DataDir(user, app, hostPaths[0])] + DataDirs(user, app, hostPaths[1..])
  }

  /** Three lines per directory. */
  function RootLines(dirs: seq<string>): (r: seq<string>)
    ensures |r| == 3 * |dirs|
  {
    if dirs == [] then [] else [RootChmod(dirs[0]), SubdirChmod(dirs[0]), DataFileChmod(dirs[0])] + RootLines(dirs[1..])
  }

  lemma {:induction false} RootLinesAt(dirs: seq<string>, k: nat)
    requires k < |dirs|
    ensures RootLines(dirs)[3 * k] == RootChmod(dirs[k])
    ensures RootLines(dirs)[3 * k + 1] == SubdirChmod(dirs[k])
    ensures RootLines(dirs)[3 * k + 2] == DataFileChmod(dirs[k])
  {
    if k > 0 {
      RootLinesAt(dirs[1..], k - 1);
    }
  }

  /** Three lines per data root. */
  function RootPermissionLines(user: string, app: string, hostPaths: seq<string>): (r: seq<string>)
    ensures |r| == 3 * |hostPaths|
  {
    RootLines(DataDirs(user, app, hostPaths))
  }

  /** The lines of the `k`-th data root, in order: the root itself, its
      sub-directories, then its files, each naming the root's directory. */
  lemma RootPermissionLinesAt(user: string, app: string, hostPaths: seq<string>, k: nat)
    requires k < |hostPaths|
    ensures RootPermissionLines(user, app, hostPaths)[3 * k] == RootChmod(DataDir(user, app, hostPaths[k]))
    ensures RootPermissionLines(user, app, hostPaths)[3 * k + 1] == SubdirChmod(DataDir(user, app, hostPaths[k]))
    ensures RootPermissionLines(user, app, hostPaths)[3 * k + 2] == DataFileChmod(DataDir(user, app, hostPaths[k]))
  {
    RootLinesAt(DataDirs(user, app, hostPaths), k);
  }

  /** The permission lines of one app: files, directories, then its data roots. */
  function AppPermissionLines(user: string, app: string, a: App): (r: Result<seq<string>, ComposeError>)
    ensures r.Ok? <==> HostPaths(a).Ok?
    ensures r.Ok? ==> |r.value| == 2 + 3 * |HostPaths(a).value|
    ensures r.Ok? ==> r.value[0] == FileChmod(ContainerAppPath(user, app))
    ensures r.Ok? ==> r.value[1] == DirChmod(ContainerAppPath(user, app))
  {
    var hostPaths :- HostPaths(a);
    var appPath := ContainerAppPath(user, app);
    Ok([FileChmod(appPath), DirChmod(appPath)] + RootPermissionLines(user, app, hostPaths))
  }

  /** The `chmod` script: two lines per app plus three per data root, and it
      fails exactly when some data root is not a path string. */
  function PermissionLines(user: string, apps: Dict<App>): (r: Result<seq<string>, ComposeError>)
    ensures r.Ok? <==> RootsAreText(apps)
    ensures r.Ok? ==> |r.value| == 2 * |apps| + 3 * RootCount(apps)
    ensures r.Ok? && apps != [] ==> r.value[0] == FileChmod(ContainerAppPath(user, apps[0].0))
    ensures r.Err? ==> r.error == DataRootNotText
  {
    if apps == [] then Ok([])
    else
      var first :- AppPermissionLines(user, apps[0].0, apps[0].1);
      var rest :- PermissionLines(user, apps[1..]);
      assert RootsAreText(apps[1..]);
      assert forall i :: 1 <= i < |apps| ==> apps[i] == apps[1..][i - 1];
      Ok(first + rest)
  }

  // ------------------------------------------------------------------
  // _generate_venv_setup_commands

  predicate HasVenvAndMain(a: App) {
    a.venv.Some? && a.main.Some?
  }

  const VenvFlags: string := " --clear --system-site-packages"
  const InstallEcho: string := "echo \"Installing requirements for "
  const PipInstall: string := "/bin/pip install --no-cache-dir -r "
  const FreezeNote: string := "のパッケージリストを保存"
  const PipFreeze: string := "/bin/pip freeze > /opt/version_info/"
  const FrozenSuffix: string := "_requirements.txt"

  /** Six lines per app: create its virtual environment, install its requirements
      and record the frozen package list. */
  function AppVenvLines(user: string, app: string, a: App): (r: Result<seq<string>, ComposeError>)
    ensures r.Ok? <==> HasVenvAndMain(a)
    ensures r.Err? ==> r.error == (if a.venv.None? then MissingKey(VenvKey) else MissingKey(MainKey))
    ensures r.Ok? ==> |r.value| == 6 && r.value[0] == SetupEcho(app)
  {
    var venv :- Require(a.venv, VenvKey);
    var main :- Require(a.main, MainKey);
    var venvPath := NormalPath(["home", user, "venv", venv]);
    var appPath := NormalPath(["home", user, "apps", app, Stem(main)]);
    Ok([SetupEcho(app),
        "python3 -m venv " + venvPath + VenvFlags,
        InstallEcho + app + "...\"",
        venvPath + PipInstall + appPath + "/requirements.txt",
        "# " + app + FreezeNote,
        venvPath + PipFreeze + app + FrozenSuffix])
  }

  const SetupEchoHead: string := "echo \"Setting up virtual environment for "

  function SetupEcho(app: string): string {
    SetupEchoHead + app + "...\""
  }

  function VenvSetupLines(user: string, apps: Dict<App>): (r: Result<seq<string>, ComposeError>)
    ensures r.Ok? <==> forall i :: 0 <= i < |apps| ==> HasVenvAndMain(apps[i].1)
    ensures r.Ok? ==> |r.value| == 6 * |apps|
    ensures r.Ok? && apps != [] ==> r.value[0] == SetupEcho(apps[0].0)
    ensures r.Err? ==> r.error.MissingKey?
  {
    if apps == [] then Ok([])
    else
      var first :- AppVenvLines(user, apps[0].0, apps[0].1);
      var rest :- VenvSetupLines(user, apps[1..]);
      assert forall i :: 1 <= i < |apps| ==> apps[i] == apps[1..][i - 1];
      Ok(first + rest)
  }

  // ------------------------------------------------------------------
  // _generate_pythonpath_commands

  /** The `venv` of every app, in app order. */
  function Venvs(apps: Dict<App>): (r: Result<seq<string>, ComposeError>)
    ensures r.Ok? <==> forall i :: 0 <= i < |apps| ==> apps[i].1.venv.Some?
    ensures r.Ok? ==> |r.value| == |apps| && forall i :: 0 <= i < |apps| ==> r.value[i] == apps[i].1.venv.value
    ensures r.Err? ==> r.error == MissingKey(VenvKey)
  {
    MapAll(apps, (k: string, a: App) => Require(a.venv, VenvKey))
  }

  /** A package directory of the image's Python under an installation prefix. */
  function LibDir(prefix: string, kind: string): string {
    prefix + "/lib/python${PY_VER}/" + kind
  }

  /** The system package directories put ahead of the venv's own. */
  const SystemPackageDirs: seq<string> := [
    LibDir("/usr/local", "dist-packages"),
    LibDir("/usr/local", "site-packages"),
    LibDir("/usr", "dist-packages"),
    LibDir("/usr", "site-packages")]

  const PathNote: string := "環境のPYTHONPATH設定"

  function PathComment(venv: string): string {
    "# " + venv + PathNote
  }

  /** The venv's own site-packages directory. */
  function VenvSitePackages(user: string, venv: string): string {
    LibDir("/home/" + user + "/venv/" + venv, "site-packages")
  }

  /** The value assigned to `PYTHONPATH_<venv>`: the search path, `:`-separated. */
  function SearchPath(user: string, venv: string): string {
    Join(SystemPackageDirs + [VenvSitePackages(user, venv)], ":")
  }

  function PathExport(user: string, venv: string): string {
    "export PYTHONPATH_" + venv + "=\"" + SearchPath(user, venv) + "\""
  }

  /** Read back as a search path, the exported value lists the four system
      package directories first, in order, and the venv's site-packages last
      (for a user and venv name without `:`). */
  lemma SearchPathOrder(user: string, venv: string)
    requires ':' !in user && ':' !in venv
    ensures var dirs := Split(SearchPath(user, venv), ':');
      && |dirs| == 5
      && dirs[..4] == SystemPackageDirs
      && dirs[4] == VenvSitePackages(user, venv)
  {
    var all := SystemPackageDirs + [VenvSitePackages(user, venv)];
    SystemDirsColonFree();
    VenvSitePackagesColonFree(user, venv);
    assert forall d <- all :: ':' !in d;
    SplitJoin(all, ':');
  }

  /** A package directory contains `:` only through its prefix or kind. */
  lemma LibDirColonFree(prefix: string, kind: string)
    requires ':' !in prefix && ':' !in kind
    ensures ':' !in LibDir(prefix, kind)
  {
    assert ':' !in "/lib/python${PY_VER}/";
  }

  /** No system package directory contains the separator `:`. */
  lemma SystemDirsColonFree()
    ensures forall d <- SystemPackageDirs :: ':' !in d
  {
    assert ':' !in "/usr/local" && ':' !in "/usr";
    assert ':' !in "dist-packages" && ':' !in "site-packages";
    LibDirColonFree("/usr/local", "dist-packages");
    LibDirColonFree("/usr/local", "site-packages");
    LibDirColonFree("/usr", "dist-packages");
    LibDirColonFree("/usr", "site-packages");
  }

  /** A venv's site-packages directory contains `:` only through its names. */
  lemma VenvSitePackagesColonFree(user: string, venv: string)
    requires ':' !in user && ':' !in venv
    ensures ':' !in VenvSitePackages(user, venv)
  {
    assert ':' !in "/home/" && ':' !in "/venv/" && ':' !in "site-packages";
    LibDirColonFree("/home/" + user + "/venv/" + venv, "site-packages");
  }

  const PathEchoHead: string := "echo \"PYTHONPATH for "
  const PathEchoMiddle: string := " set to: ${PYTHONPATH_"

  function PathEcho(venv: string): string {
    PathEchoHead + venv + PathEchoMiddle + venv + "}\""
  }

  /** The three lines that set `PYTHONPATH_<venv>`: the comment, the export of
      the venv's search path, and the echo that prints it back. */
  function PathBlock(user: string, venv: string): (r: seq<string>)
    ensures |r| == 3 && r[0] == PathComment(venv) && r[2] == PathEcho(venv)
    ensures r[1] == "export PYTHONPATH_" + venv + "=\"" + SearchPath(user, venv) + "\""
  {
    [PathComment(venv), PathExport(user, venv), PathEcho(venv)]
  }

  /** The loop over apps with its `used_venvs` set: a venv already seen is skipped. */
  function PathBlocksFrom(user: string, venvs: seq<string>, used: set<string>): seq<string> {
    if venvs == [] then []
    else if venvs[0] in used then PathBlocksFrom(user, venvs[1..], used)
    else PathBlock(user, venvs[0]) + PathBlocksFrom(user, venvs[1..], used + {venvs[0]})
  }

  function PythonpathLines(user: string, apps: Dict<App>): (r: Result<seq<string>, ComposeError>)
    ensures r.Ok? <==> Venvs(apps).Ok?
    ensures r.Err? ==> r.error == MissingKey(VenvKey)
  {
    var venvs :- Venvs(apps);
    Ok(PathBlocksFrom(user, venvs, {}))
  }

  /** Reference: the elements of a list that do not occur earlier in it. */
  function FirstOccurrences(s: seq<string>): (r: seq<string>)
    ensures NoDuplicates(r)
    ensures forall x :: x in r <==> x in s
  {
    if s == [] then []
    else
      var init := FirstOccurrences(s[..|s| - 1]);
      assert s == s[..|s| - 1] + [s[|s| - 1]];
      if s[|s| - 1] in s[..|s| - 1] then init else init + [s[|s| - 1]]
  }

  /** Extending the list by one element adds it exactly when it is new. */
  lemma FirstOccurrencesSnoc(s: seq<string>, v: string)
    ensures FirstOccurrences(s + [v]) == FirstOccurrences(s) + (if v in s then [] else [v])
  {
    assert (s + [v])[..|s + [v]| - 1] == s;
  }

  /** The blocks of a list of venvs, one after another. */
  function Blocks(user: string, venvs: seq<string>): (r: seq<string>)
    ensures |r| == 3 * |venvs|
    ensures venvs != [] ==> r[0] == PathComment(venvs[0])
  {
    if venvs == [] then [] else PathBlock(user, venvs[0]) + Blocks(user, venvs[1..])
  }

  lemma {:induction false} BlocksAppend(user: string, a: seq<string>, b: seq<string>)
    ensures Blocks(user, a + b) == Blocks(user, a) + Blocks(user, b)
  {
    if a == [] {
      assert a + b == b;
    } else {
      assert (a + b)[0] == a[0];
      assert (a + b)[1..] == a[1..] + b;
      BlocksAppend(user, a[1..], b);
      assert Blocks(user, a + b) == PathBlock(user, a[0]) + (Blocks(user, a[1..]) + Blocks(user, b));
    }
  }

  /** The venvs the loop writes a block for: those not yet `used`, each once. */
  function Unseen(venvs: seq<string>, used: set<string>): seq<string> {
    if venvs == [] then []
    else if venvs[0] in used then Unseen(venvs[1..], used)
    else [venvs[0]] + Unseen(venvs[1..], used + {venvs[0]})
  }

  /** The loop writes the blocks of exactly the unseen venvs. */
  lemma {:induction false} PathBlocksFromUnseen(user: string, venvs: seq<string>, used: set<string>)
    ensures PathBlocksFrom(user, venvs, used) == Blocks(user, Unseen(venvs, used))
    decreases |venvs|
  {
    if venvs != [] {
      var v := venvs[0];
      if v in used {
        PathBlocksFromUnseen(user, venvs[1..], used);
      } else {
        PathBlocksFromUnseen(user, venvs[1..], used + {v});
        assert ([v] + Unseen(venvs[1..], used + {v}))[1..] == Unseen(venvs[1..], used + {v});
      }
    }
  }

  /** The elements of a list, as a set. */
  function Elements(s: seq<string>): (r: set<string>)
    ensures forall x :: x in r <==> x in s
  {
    set x | x in s
  }

  lemma ElementsSnoc(s: seq<string>, v: string)
    ensures Elements(s + [v]) == Elements(s) + {v}
  {
  }

  /** Started after a prefix whose venvs are `used`, the unseen venvs are the
      first occurrences the rest of the list adds. */
  lemma {:induction false} UnseenAreFirstOccurrences(pre: seq<string>, venvs: seq<string>)
    ensures FirstOccurrences(pre + venvs) == FirstOccurrences(pre) + Unseen(venvs, Elements(pre))
    decreases |venvs|
  {
    if venvs == [] {
      assert pre + venvs == pre;
    } else {
      var v := venvs[0];
      var pre' := pre + [v];
      assert pre + venvs == pre' + venvs[1..];
      ElementsSnoc(pre, v);
      UnseenAreFirstOccurrences(pre', venvs[1..]);
      FirstOccurrencesSnoc(pre, v);
      var rest := Unseen(venvs[1..], Elements(pre'));
      if v in pre {
        assert Elements(pre') == Elements(pre);
        assert Unseen(venvs, Elements(pre)) == rest;
      } else {
        assert Unseen(venvs, Elements(pre)) == [v] + rest;
        assert FirstOccurrences(pre) + ([v] + rest) == (FirstOccurrences(pre) + [v]) + rest;
      }
    }
  }

  /** From an empty `used` set, the unseen venvs are the first occurrences. */
  lemma UnseenFromStart(venvs: seq<string>)
    ensures Unseen(venvs, {}) == FirstOccurrences(venvs)
  {
    UnseenAreFirstOccurrences([], venvs);
    assert Elements([]) == {};
    assert [] + venvs == venvs;
  }

  /** One `PYTHONPATH` block per distinct venv, in order of first use. */
  lemma PythonpathOncePerVenv(user: string, apps: Dict<App>)
    requires Venvs(apps).Ok?
    ensures PythonpathLines(user, apps) == Ok(Blocks(user, FirstOccurrences(Venvs(apps).value)))
  {
    var venvs := Venvs(apps).value;
    PathBlocksFromUnseen(user, venvs, {});
    UnseenFromStart(venvs);
  }


  // ------------------------------------------------------------------
  // _generate_start_commands

  const RunPython: string := "/bin/python3 ./"

  /** The launch line of one app; every app but the one under `lastKey` is put
      in the background. */
  function StartCommand(user: string, app: string, a: App, lastKey: string): (r: Result<string, ComposeError>)
    ensures r.Ok? <==> HasVenvAndMain(a)
    ensures r.Err? ==> r.error == (if a.main.None? then MissingKey(MainKey) else MissingKey(VenvKey))
    ensures r.Ok? ==> |r.value| > 0 && r.value[|r.value| - 1] == (if app == lastKey then ' ' else '&')
  {
    var main :- Require(a.main, MainKey);
    var venv :- Require(a.venv, VenvKey);
    var background := if app == lastKey then "" else "&";
    var line := "cd /home/" + user + "/apps/" + app + "/" + Stem(main) + "/ &&\n"
      + "PYTHONPATH=${PYTHONPATH_" + venv + "} /home/" + user + "/venv/" + venv + RunPython
      + main + " " + ArgsString(a.args.GetOr([])) + " ";
    Ok(line + background)
  }

  /** One launch line per app, in app order; the last key is the one run in
      the foreground. */
  function StartLines(user: string, apps: Dict<App>): (r: Result<seq<string>, ComposeError>)
    ensures r.Ok? <==> forall i :: 0 <= i < |apps| ==> HasVenvAndMain(apps[i].1)
    ensures r.Ok? ==> |r.value| == |apps|
    ensures r.Ok? ==> forall i :: 0 <= i < |apps| ==>
      Ok(r.value[i]) == StartCommand(user, apps[i].0, apps[i].1, apps[|apps| - 1].0)
    ensures r.Err? ==> r.error.MissingKey?
  {
    if apps == [] then Ok([])
    else
      var last := apps[|apps| - 1].0;
      var f := (k: string, a: App) => StartCommand(user, k, a, last);
      assert forall i :: 0 <= i < |apps| ==> f(apps[i].0, apps[i].1) == StartCommand(user, apps[i].0, apps[i].1, last);
      MapAll(apps, f)
  }

  /** With distinct app names, every launch line but the last ends in `&`, and
      the last ends in the space that precedes an empty background marker. */
  lemma StartLinesBackground(user: string, apps: Dict<App>, i: nat)
    requires DistinctKeys(apps) && StartLines(user, apps).Ok? && i < |apps|
    ensures var line := StartLines(user, apps).value[i];
      |line| > 0 && line[|line| - 1] == (if i == |apps| - 1 then ' ' else '&')
  {
  }

  // ------------------------------------------------------------------
  // _generate_service_command

  const ChownNote: string := "# rootとして所有権を変更（sudoを使用）"
  const ChmodNote: string := "# パーミッション変更（一般ユーザーで実行）"

  /** The fixed lines before the permission commands. */
  function PreambleLines(user: string): seq<string> {
    ["set -e",
     ChownNote,
     "sudo -n chown -R " + user + ":" + user + " /home/" + user,
     ChmodNote]
  }

  /** The fixed lines between the permission commands and the venv setup. */
  const ProbeLines: seq<string> :=
    ["# 以降は一般ユーザーとして実行",
     "echo \"Current working directory: $${pwd}\"",
     "ls -la",
     "echo \"Detecting Python version...\"",
     "RAW_VERSION=\"$$(python3 --version)\"",
     "FULL_VERSION=\"$${RAW_VERSION#Python }\"",
     "PY_VER=\"$$(echo $${FULL_VERSION} | cut -d. -f1,2)\"",
     "# 仮想環境のセットアップ"]

  const CopyNote: string := "# バージョン情報をコピー"
  const CopyVersionInfo: string := "cp -r /opt/version_info/* /home/"
  const RemoveVersionInfo: string := "rm -rf /opt/version_info/*"
  const PathsNote: string := "# PYTHONPATHの設定"

  /** The fixed lines between the venv setup and the `PYTHONPATH` blocks. */
  function CopyLines(user: string): seq<string> {
    [CopyNote,
     CopyVersionInfo + user + "/version_info/",
     RemoveVersionInfo,
     PathsNote]
  }

  const TestEcho: string := "echo \"Testing libm2k...\""
  const ImportCheck: string := "/bin/python3 -c \"import libm2k; print(f\\\"libm2k path: {libm2k.__file__}\\\")\""
  const StartEcho: string := "echo \"Starting applications...\""

  /** The `libm2k` import check under the first app's venv, then the launch header. */
  function LaunchLines(user: string, firstVenv: string): seq<string> {
    [TestEcho,
     "PYTHONPATH=${PYTHONPATH_" + firstVenv + "} " + Slashes("/home/" + user + "/venv/" + firstVenv)
       + ImportCheck,
     StartEcho,
     "mkdir -p /home/" + user + "/version_info"]
  }

  /** The `commands` list: fixed lines with the four generated blocks, each
      joined into one fragment. */
  function Fragments(user: string, firstVenv: string, perm: seq<string>, setup: seq<string>,
                     paths: seq<string>, start: seq<string>): seq<string> {
    PreambleLines(user) + [Join(perm, "\n")] + ProbeLines + [Join(setup, "\n")]
    + CopyLines(user) + [Join(paths, "\n")] + LaunchLines(user, firstVenv) + [Join(start, "\n")]
  }

  /** Reference: the script as one flat list of lines. */
  function ScriptLines(user: string, firstVenv: string, perm: seq<string>, setup: seq<string>,
                       paths: seq<string>, start: seq<string>): seq<string> {
    PreambleLines(user) + perm + ProbeLines + setup + CopyLines(user) + paths + LaunchLines(user, firstVenv) + start
  }

  /** Every app's venv and main are given and its data roots are path strings. */
  predicate AppsReady(apps: Dict<App>) {
    RootsAreText(apps) && forall i :: 0 <= i < |apps| ==> HasVenvAndMain(apps[i].1)
  }

  /** The container's `command`: a `bash -c` running the non-empty fragments. It
      fails on a service without apps before anything else is read. */
  function ServiceCommand(user: string, apps: Dict<App>): (r: Result<string, ComposeError>) {
    if apps == [] then Err(NoApps)
    else
      var firstVenv :- Require(apps[0].1.venv, VenvKey);
      var perm :- PermissionLines(user, apps);
      var setup :- VenvSetupLines(user, apps);
      // The setup lines read every `venv` and `main`, so the two remaining
      // blocks cannot fail any more.
      SetupCoversBlocks(user, apps);
      var paths := PythonpathLines(user, apps).value;
      var start := StartLines(user, apps).value;
      Ok(BashCommand(ServiceScript(user, firstVenv, perm, setup, paths, start)))
  }

  /** A service without apps fails with its own error, and the first app's
      `venv` is the first key read. */
  lemma ServiceCommandErrors(user: string, apps: Dict<App>)
    ensures ServiceCommand(user, apps) == Err(NoApps) <==> apps == []
    ensures apps != [] && apps[0].1.venv.None? ==> ServiceCommand(user, apps) == Err(MissingKey(VenvKey))
  {
  }

  /** The command exists exactly for a non-empty service whose apps are complete. */
  lemma ServiceCommandOk(user: string, apps: Dict<App>)
    ensures ServiceCommand(user, apps).Ok? <==> apps != [] && AppsReady(apps)
  {
  }

  /** The non-empty fragments, one per line. */
  function ServiceScript(user: string, firstVenv: string, perm: seq<string>, setup: seq<string>,
                         paths: seq<string>, start: seq<string>): string {
    Join(NonEmpty(Fragments(user, firstVenv, perm, setup, paths, start)), "\n")
  }

  /** `/bin/bash -c '<script>'` */
  function BashCommand(script: string): string {
    "/bin/bash -c '" + script + "'"
  }

  /** Four joined blocks between fixed lines flatten into one join. */
  lemma FlattenFour(a: seq<string>, p1: seq<string>, b: seq<string>, p2: seq<string>,
                    c: seq<string>, p3: seq<string>, d: seq<string>, p4: seq<string>, sep: string)
    requires p1 != [] && p2 != [] && p3 != [] && p4 != []
    ensures Join(a + [Join(p1, sep)] + b + [Join(p2, sep)] + c + [Join(p3, sep)] + d + [Join(p4, sep)], sep)
         == Join(a + p1 + b + p2 + c + p3 + d + p4, sep)
  {
    var j2 := Join(p2, sep);
    var j3 := Join(p3, sep);
    var j4 := Join(p4, sep);
    JoinNested(a, p1, b + [j2] + c + [j3] + d + [j4], sep);
    assert a + [Join(p1, sep)] + b + [j2] + c + [j3] + d + [j4] == a + [Join(p1, sep)] + (b + [j2] + c + [j3] + d + [j4]);
    JoinNested(a + p1 + b, p2, c + [j3] + d + [j4], sep);
    assert a + p1 + (b + [j2] + c + [j3] + d + [j4]) == a + p1 + b + [j2] + (c + [j3] + d + [j4]);
    JoinNested(a + p1 + b + p2 + c, p3, d + [j4], sep);
    assert a + p1 + b + p2 + (c + [j3] + d + [j4]) == a + p1 + b + p2 + c + [j3] + (d + [j4]);
    JoinNested(a + p1 + b + p2 + c + p3 + d, p4, [], sep);
    assert a + p1 + b + p2 + c + p3 + (d + [j4]) == a + p1 + b + p2 + c + p3 + d + [j4] + [];
    assert a + p1 + b + p2 + c + p3 + d + p4 + [] == a + p1 + b + p2 + c + p3 + d + p4;
  }

  /** The nested joins of the fragments flatten into one join of the script lines. */
  lemma FragmentsFlatten(user: string, fv: string, perm: seq<string>, setup: seq<string>,
                         paths: seq<string>, start: seq<string>)
    requires perm != [] && setup != [] && paths != [] && start != []
    ensures Join(Fragments(user, fv, perm, setup, paths, start), "\n")
         == Join(ScriptLines(user, fv, perm, setup, paths, start), "\n")
  {
    FlattenFour(PreambleLines(user), perm, ProbeLines, setup, CopyLines(user), paths, LaunchLines(user, fv), start, "\n");
  }

  /** A list of non-empty strings with four non-empty strings put between its parts. */
  lemma NoEmptyBetween(a: seq<string>, x1: string, b: seq<string>, x2: string,
                       c: seq<string>, x3: string, d: seq<string>, x4: string)
    requires forall s <- a + b + c + d :: s != ""
    requires x1 != "" && x2 != "" && x3 != "" && x4 != ""
    ensures forall s <- a + [x1] + b + [x2] + c + [x3] + d + [x4] :: s != ""
  {
    forall s <- a + [x1] + b + [x2] + c + [x3] + d + [x4] ensures s != "" {
      assert s in a + b + c + d || s in [x1, x2, x3, x4];
    }
  }

  /** None of the fixed lines is empty. */
  lemma FixedLinesNotEmpty(user: string, fv: string)
    ensures forall s <- PreambleLines(user) + ProbeLines + CopyLines(user) + LaunchLines(user, fv) :: s != ""
  {
  }

  /** No fragment is empty when the four generated blocks are not. */
  lemma FragmentsNotEmpty(user: string, fv: string, perm: seq<string>, setup: seq<string>,
                          paths: seq<string>, start: seq<string>)
    requires Join(perm, "\n") != "" && Join(setup, "\n") != ""
    requires Join(paths, "\n") != "" && Join(start, "\n") != ""
    ensures NonEmpty(Fragments(user, fv, perm, setup, paths, start)) == Fragments(user, fv, perm, setup, paths, start)
  {
    FixedLinesNotEmpty(user, fv);
    NoEmptyBetween(PreambleLines(user), Join(perm, "\n"), ProbeLines, Join(setup, "\n"),
                   CopyLines(user), Join(paths, "\n"), LaunchLines(user, fv), Join(start, "\n"));
    NonEmptyKeepsAll(Fragments(user, fv, perm, setup, paths, start));
  }

  /** For a service whose apps are complete, each of the four generated blocks
      exists and joins to a non-empty text. */
  lemma ServiceBlocksNotEmpty(user: string, apps: Dict<App>)
    requires apps != [] && AppsReady(apps)
    ensures PermissionLines(user, apps).Ok? && PermissionLines(user, apps).value != []
    ensures VenvSetupLines(user, apps).Ok? && VenvSetupLines(user, apps).value != []
    ensures PythonpathLines(user, apps).Ok? && PythonpathLines(user, apps).value != []
    ensures StartLines(user, apps).Ok? && StartLines(user, apps).value != []
    ensures Join(PermissionLines(user, apps).value, "\n") != ""
    ensures Join(VenvSetupLines(user, apps).value, "\n") != ""
    ensures Join(PythonpathLines(user, apps).value, "\n") != ""
    ensures Join(StartLines(user, apps).value, "\n") != ""
  {
    JoinNotEmpty(PermissionLines(user, apps).value, "\n");
    JoinNotEmpty(VenvSetupLines(user, apps).value, "\n");
    PythonpathOncePerVenv(user, apps);
    assert Venvs(apps).value[0] in FirstOccurrences(Venvs(apps).value);
    JoinNotEmpty(PythonpathLines(user, apps).value, "\n");
    JoinNotEmpty(StartLines(user, apps).value, "\n");
  }

  /** Every app that passed the setup block has the `venv` and `main` the
      path and start blocks read. */
  lemma SetupCoversBlocks(user: string, apps: Dict<App>)
    requires VenvSetupLines(user, apps).Ok?
    ensures PythonpathLines(user, apps).Ok? && StartLines(user, apps).Ok?
  {
  }

  /** With four non-empty blocks, nothing is filtered and the nested joins
      flatten into one join of the script lines. */
  lemma ServiceScriptFlat(user: string, fv: string, perm: seq<string>, setup: seq<string>,
                          paths: seq<string>, start: seq<string>)
    requires perm != [] && setup != [] && paths != [] && start != []
    requires Join(perm, "\n") != "" && Join(setup, "\n") != ""
    requires Join(paths, "\n") != "" && Join(start, "\n") != ""
    ensures ServiceScript(user, fv, perm, setup, paths, start) == Join(ScriptLines(user, fv, perm, setup, paths, start), "\n")
  {
    FragmentsNotEmpty(user, fv, perm, setup, paths, start);
    FragmentsFlatten(user, fv, perm, setup, paths, start);
  }

  /** For a service whose apps are complete, the command is `bash -c` over the
      flat script: no fragment is empty, so nothing is filtered, and the nested
      joins flatten into one. */
  lemma ServiceCommandScript(user: string, apps: Dict<App>, perm: seq<string>, setup: seq<string>,
                             paths: seq<string>, start: seq<string>)
    requires apps != [] && AppsReady(apps)
    requires PermissionLines(user, apps) == Ok(perm) && VenvSetupLines(user, apps) == Ok(setup)
    requires PythonpathLines(user, apps) == Ok(paths) && StartLines(user, apps) == Ok(start)
    ensures ServiceCommand(user, apps)
         == Ok(BashCommand(Join(ScriptLines(user, apps[0].1.venv.value, perm, setup, paths, start), "\n")))
  {
    ServiceBlocksNotEmpty(user, apps);
    ServiceScriptFlat(user, apps[0].1.venv.value, perm, setup, paths, start);
  }

  // ------------------------------------------------------------------
  // _generate_volumes

  /** Where a data root is mounted: under the app's directory, by base name. */
  function MountPoint(user: string, app: string, hostPath: string): string {
    JoinPath("/home/" + user + "/apps/" + app, Name(hostPath))
  }

  /** A data-root mount: the host path verbatim, then its mount point. */
  function DataMount(user: string, app: string, hostPath: string): string {
    hostPath + ":" + MountPoint(user, app, hostPath)
  }

  function DataMounts(user: string, app: string, hostPaths: seq<string>): (r: seq<string>)
    ensures |r| == |hostPaths|
    ensures forall k :: 0 <= k < |hostPaths| ==> r[k] == DataMount(user, app, hostPaths[k])
  {
    if hostPaths == [] then [] else [DataMount(user, app, hostPaths[0])] + DataMounts(user, app, hostPaths[1..])
  }

  /** The mount of an app's program directory, named by the stem of `main`. */
  function ProgramMount(user: string, app: string, stem: string): string {
    "./programs/" + stem + ":/home/" + user + "/apps/" + app + "/" + stem
  }

  /** The mount of an app's `app_info.json`. */
  function AppInfoMount(user: string, service: string, app: string): string {
    "./container_info/" + service + "/" + app + "/app_info.json:/home/" + user + "/apps/" + app + "/app_info.json"
  }

  /** The mounts of one app: its program directory, its `app_info.json`, then
      one per data root. */
  function AppVolumes(user: string, service: string, app: string, a: App): (r: Result<seq<string>, ComposeError>)
    ensures r.Ok? <==> a.main.Some? && HostPaths(a).Ok?
    ensures r.Ok? ==> |r.value| == 2 + |HostPaths(a).value|
    ensures r.Ok? ==> r.value[0] == ProgramMount(user, app, Stem(a.main.value))
    ensures r.Ok? ==> r.value[1] == AppInfoMount(user, service, app)
    ensures r.Ok? ==> forall k :: 0 <= k < |HostPaths(a).value| ==>
      r.value[2 + k] == DataMount(user, app, HostPaths(a).value[k])
  {
    var main :- Require(a.main, MainKey);
    var hostPaths :- HostPaths(a);
    Ok([ProgramMount(user, app, Stem(main)), AppInfoMount(user, service, app)] + DataMounts(user, app, hostPaths))
  }

  function AppsVolumes(user: string, service: string, apps: Dict<App>): (r: Result<seq<string>, ComposeError>)
    ensures r.Ok? <==> forall i :: 0 <= i < |apps| ==> apps[i].1.main.Some? && HostPaths(apps[i].1).Ok?
    ensures r.Ok? ==> |r.value| == 2 * |apps| + RootCount(apps)
  {
    if apps == [] then Ok([])
    else
      var first :- AppVolumes(user, service, apps[0].0, apps[0].1);
      var rest :- AppsVolumes(user, service, apps[1..]);
      assert forall i :: 1 <= i < |apps| ==> apps[i] == apps[1..][i - 1];
      Ok(first + rest)
  }

  /** The service's `volumes`: its version-info and container-info mounts,
      then two mounts per app plus one per data root. */
  function Volumes(user: string, apps: Dict<App>, service: string): (r: Result<seq<string>, ComposeError>)
    ensures r.Ok? <==> forall i :: 0 <= i < |apps| ==> apps[i].1.main.Some? && HostPaths(apps[i].1).Ok?
    ensures r.Ok? ==> |r.value| == 2 + 2 * |apps| + RootCount(apps)
    ensures r.Ok? ==> r.value[0] == "./version_info/" + service + ":/home/" + user + "/version_info"
    ensures r.Ok? ==> r.value[1] == "./container_info/" + service + "/container_info.json:/home/" + user + "/container_info.json"
  {
    var rest :- AppsVolumes(user, service, apps);
    Ok(["./version_info/" + service + ":/home/" + user + "/version_info",
        "./container_info/" + service + "/container_info.json:/home/" + user + "/container_info.json"] + rest)
  }

  /** A data root is mounted under the same base name it has on the host. */
  lemma MountPointKeepsName(user: string, app: string, hostPath: string)
    requires Name(hostPath) != ""
    ensures Name(MountPoint(user, app, hostPath)) == Name(hostPath)
  {
    NameOfJoin("/home/" + user + "/apps/" + app, Name(hostPath));
  }

  // ------------------------------------------------------------------
  // generate

  /** `str(container_port)` for every app, in app order. */
  function Ports(apps: Dict<App>): (r: Result<seq<string>, ComposeError>)
    ensures r.Ok? <==> forall i :: 0 <= i < |apps| ==> apps[i].1.containerPort.Some?
    ensures r.Ok? ==> |r.value| == |apps|
    ensures r.Err? ==> r.error == MissingKey(ContainerPortKey)
  {
    if apps == [] then Ok([])
    else
      var port :- Require(apps[0].1.containerPort, ContainerPortKey);
      var rest :- Ports(apps[1..]);
      assert forall i :: 1 <= i < |apps| ==> apps[i] == apps[1..][i - 1];
      Ok([IntToString(port)] + rest)
  }

  /** Each port entry reads back as the app's `container_port`. */
  lemma {:induction false} PortsReadBack(apps: Dict<App>, i: nat)
    requires Ports(apps).Ok? && i < |apps|
    ensures ParseInt(Ports(apps).value[i]) == Some(apps[i].1.containerPort.value)
  {
    if i == 0 {
      IntToStringRoundTrip(apps[0].1.containerPort.value);
    } else {
      PortsReadBack(apps[1..], i - 1);
    }
  }

  /** One entry of the compose `services` section. */
  datatype ServiceConfig = ServiceConfig(
    buildContext: string,
    dockerfile: string,
    image: string,
    user: string,
    workingDir: string,
    networks: seq<string>,
    volumes: seq<string>,
    command: string,
    ports: seq<string>,
    environment: seq<string>)

  /** The generated document: services, and networks by name with their driver. */
  datatype ComposeFile = ComposeFile(services: Dict<ServiceConfig>, networks: Dict<string>)

  /** What a service needs for its configuration to be generated. */
  predicate ServiceReady(s: Service) {
    && s.user.Some? && s.dockerfile.Some? && s.image.Some? && s.workingDir.Some?
    && s.apps.Some? && s.apps.value != [] && AppsReady(s.apps.value)
    && Ports(s.apps.value).Ok?
  }

  /** The configuration of one service, reading the keys in the order the
      source's dictionary display evaluates them. */
  function ServiceConfigOf(name: string, s: Service): (r: Result<ServiceConfig, ComposeError>) {
    var user :- Require(s.user, UserKey);
    var dockerfile :- Require(s.dockerfile, DockerfileKey);
    var image :- Require(s.image, ImageKey);
    var workingDir :- Require(s.workingDir, WorkingDirKey);
    var apps :- Require(s.apps, AppsKey);
    var volumes :- Volumes(user, apps, name);
    var command :- ServiceCommand(user, apps);
    var ports :- Ports(apps);
    Ok(ServiceConfig(".", "./dockerfiles/" + dockerfile + "/Dockerfile", image, user, workingDir,
                     ["default"], volumes, command, ports, ["PYTHONPATH"]))
  }

  /** A service's configuration is generated exactly when the service is ready. */
  lemma ServiceConfigOk(name: string, s: Service)
    ensures ServiceConfigOf(name, s).Ok? <==> ServiceReady(s)
  {
    if s.user.Some? && s.dockerfile.Some? && s.image.Some? && s.workingDir.Some? && s.apps.Some? {
      var user, apps := s.user.value, s.apps.value;
      ServiceCommandOk(user, apps);
      if apps != [] && AppsReady(apps) {
        ReadyVolumes(user, apps, name);
      }
    }
  }

  /** Apps ready to run have everything their mounts need. */
  lemma ReadyVolumes(user: string, apps: Dict<App>, service: string)
    requires AppsReady(apps)
    ensures Volumes(user, apps, service).Ok?
  {
    forall i | 0 <= i < |apps| ensures apps[i].1.main.Some? && HostPaths(apps[i].1).Ok? {
      assert HasVenvAndMain(apps[i].1);
    }
  }

  /** A generated service builds from its dockerfile directory with context
      `.`, copies image, user and working directory, joins the default network,
      passes `PYTHONPATH` through, and carries its volumes, command and ports. */
  lemma ServiceConfigFields(name: string, s: Service)
    requires ServiceReady(s)
    ensures ServiceConfigOf(name, s).Ok?
    ensures var c := ServiceConfigOf(name, s).value;
      && c.buildContext == "."
      && c.dockerfile == "./dockerfiles/" + s.dockerfile.value + "/Dockerfile"
      && c.image == s.image.value && c.user == s.user.value
      && c.workingDir == s.workingDir.value
      && c.networks == ["default"] && c.environment == ["PYTHONPATH"]
      && Ok(c.volumes) == Volumes(s.user.value, s.apps.value, name)
      && Ok(c.command) == ServiceCommand(s.user.value, s.apps.value)
      && Ok(c.ports) == Ports(s.apps.value)
  {
    ServiceConfigOk(name, s);
  }

  /** Reference: every entry's value mapped by `f` under its key, in order;
      the first failing entry decides the error. */
  function MapEntries<S, C>(entries: Dict<S>, f: (string, S) -> Result<C, ComposeError>): (r: Result<Dict<C>, ComposeError>)
    ensures r.Ok? <==> forall i :: 0 <= i < |entries| ==> f(entries[i].0, entries[i].1).Ok?
    ensures r.Ok? ==> Keys(r.value) == Keys(entries)
    ensures r.Ok? ==> forall i :: 0 <= i < |entries| ==> Ok(r.value[i].1) == f(entries[i].0, entries[i].1)
  {
    if entries == [] then Ok([])
    else
      var first :- f(entries[0].0, entries[0].1);
      var rest :- MapEntries(entries[1..], f);
      assert forall i :: 1 <= i < |entries| ==> entries[i] == entries[1..][i - 1];
      Ok([(entries[0].0, first)] + rest)
  }

  /** One step of `MapEntries`. */
  lemma MapEntriesStep<S, C>(entries: Dict<S>, f: (string, S) -> Result<C, ComposeError>)
    requires entries != []
    ensures MapEntries(entries, f)
         == match f(entries[0].0, entries[0].1)
            case Err(e) => Err(e)
            case Ok(v) =>
              match MapEntries(entries[1..], f)
              case Err(e) => Err(e)
              case Ok(m) => Ok([(entries[0].0, v)] + m)
  {
  }

  /** The source's loop shape: `out[key] = f(key, value)` for each entry in turn. */
  function PutEntries<S, C>(acc: Dict<C>, entries: Dict<S>, f: (string, S) -> Result<C, ComposeError>): Result<Dict<C>, ComposeError>
    decreases |entries|
  {
    if entries == [] then Ok(acc)
    else
      var value :- f(entries[0].0, entries[0].1);
      PutEntries(Put(acc, entries[0].0, value), entries[1..], f)
  }

  /** A loop step with a fresh key appends the entry. */
  lemma PutEntriesStep<S, C>(acc: Dict<C>, entries: Dict<S>, f: (string, S) -> Result<C, ComposeError>)
    requires entries != [] && f(entries[0].0, entries[0].1).Ok? && !HasKey(acc, entries[0].0)
    ensures PutEntries(acc, entries, f)
         == PutEntries(acc + [(entries[0].0, f(entries[0].0, entries[0].1).value)], entries[1..], f)
  {
    PutAbsent(acc, entries[0].0, f(entries[0].0, entries[0].1).value);
  }

  /** After appending the first entry, the remaining keys are still fresh. */
  lemma FreshAfterAppend<S, C>(acc: Dict<C>, entries: Dict<S>, v: C)
    requires entries != [] && DistinctKeys(entries)
    requires forall i :: 0 <= i < |entries| ==> !HasKey(acc, entries[i].0)
    ensures DistinctKeys(entries[1..])
    ensures forall i :: 0 <= i < |entries| - 1 ==> !HasKey(acc + [(entries[0].0, v)], entries[1..][i].0)
  {
    DistinctKeysTail(entries);
    var acc' := acc + [(entries[0].0, v)];
    assert Keys(acc') == Keys(acc) + [entries[0].0];
    forall i | 0 <= i < |entries| - 1 ensures !HasKey(acc', entries[1..][i].0) {
      assert entries[1..][i] == entries[i + 1];
    }
  }

  /** With distinct keys, the loop appends each mapped entry in turn. */
  lemma {:induction false} PutEntriesAppends<S, C>(acc: Dict<C>, entries: Dict<S>, f: (string, S) -> Result<C, ComposeError>)
    requires DistinctKeys(entries)
    requires forall i :: 0 <= i < |entries| ==> !HasKey(acc, entries[i].0)
    ensures PutEntries(acc, entries, f)
         == (match MapEntries(entries, f) case Ok(m) => Ok(acc + m) case Err(e) => Err(e))
    decreases |entries|
  {
    if entries == [] {
      assert acc + [] == acc;
    } else {
      var key := entries[0].0;
      var value := f(key, entries[0].1);
      MapEntriesStep(entries, f);
      if value.Ok? {
        var acc' := acc + [(key, value.value)];
        PutEntriesStep(acc, entries, f);
        FreshAfterAppend(acc, entries, value.value);
        PutEntriesAppends(acc', entries[1..], f);
        var m := MapEntries(entries[1..], f);
        if m.Ok? {
          assert acc' + m.value == acc + ([(key, value.value)] + m.value);
        }
      }
    }
  }

  /** `generate`: the services section and the default bridge network. */
  function Generate(p: Project): (r: Result<ComposeFile, ComposeError>)
    ensures p.services.None? ==> r == Err(MissingKey(ServicesKey))
    ensures r.Ok? ==> r.value.networks == [("default", "bridge")]
  {
    var services :- Require(p.services, ServicesKey);
    var configs :- PutEntries([], services, ServiceConfigOf);
    Ok(ComposeFile(configs, [("default", "bridge")]))
  }

  /** `generate` on a model with distinct service names: one configuration per
      service, under the service's name and in declaration order, and it fails
      exactly when some service is not ready. */
  lemma GenerateServices(p: Project)
    requires p.services.Some? && DistinctKeys(p.services.value)
    ensures var services := p.services.value;
      && (Generate(p).Ok? <==> forall i :: 0 <= i < |services| ==> ServiceReady(services[i].1))
      && (Generate(p).Ok? ==>
            && Keys(Generate(p).value.services) == Keys(services)
            && forall i :: 0 <= i < |services| ==>
                 Ok(Generate(p).value.services[i].1) == ServiceConfigOf(services[i].0, services[i].1))
  {
    var services := p.services.value;
    forall i | 0 <= i < |services| ensures ServiceConfigOf(services[i].0, services[i].1).Ok? <==> ServiceReady(services[i].1) {
      ServiceConfigOk(services[i].0, services[i].1);
    }
    PutEntriesAppends([], services, ServiceConfigOf);
    var m := MapEntries(services, ServiceConfigOf);
    if m.Ok? {
      assert [] + m.value == m.value;
      assert Generate(p) == Ok(ComposeFile(m.value, [("default", "bridge")]));
    }
  }

  // ------------------------------------------------------------------
  // replace_command in save

  /** Each non-blank line, stripped and indented by six spaces. */
  function IndentedLines(lines: seq<string>): (r: seq<string>)
    ensures |r| <= |lines|
  {
    if lines == [] then []
    else
      var s := Strip(lines[0]);
      (if s != "" then ["      " + s] else []) + IndentedLines(lines[1..])
  }

  /** Every line stripped, in order. */
  function StripAll(lines: seq<string>): (r: seq<string>)
    ensures |r| == |lines|
    ensures forall i :: 0 <= i < |lines| ==> r[i] == Strip(lines[i])
  {
    if lines == [] then [] else [Strip(lines[0])] + StripAll(lines[1..])
  }

  /** Reference: the stripped lines, with the blank ones left out. */
  function StrippedLines(lines: seq<string>): (r: seq<string>) {
    NonEmpty(StripAll(lines))
  }

  /** The rewrite applied to the captured `bash -c` prefix and script of a
      dumped `command` scalar: a literal block with one line per non-blank
      script line. */
  function ReplaceCommand(bashCmd: string, command: string): string {
    var processed := ["      " + bashCmd + " '"] + IndentedLines(Split(command, '\n')) + ["      '"];
    "command: |\n" + Join(processed, "\n")
  }

  /** Every line behind six spaces. */
  function Indented(xs: seq<string>): (r: seq<string>)
    ensures |r| == |xs|
    ensures forall k :: 0 <= k < |xs| ==> r[k] == "      " + xs[k]
  {
    if xs == [] then [] else ["      " + xs[0]] + Indented(xs[1..])
  }

  /** The indented lines are the stripped non-blank lines, each behind six spaces. */
  lemma {:induction false} IndentedLinesAreStripped(lines: seq<string>)
    ensures IndentedLines(lines) == Indented(StrippedLines(lines))
  {
    if lines != [] {
      IndentedLinesAreStripped(lines[1..]);
      StrippedLinesCons(lines);
      var s := Strip(lines[0]);
      var rest := StrippedLines(lines[1..]);
      if s != "" {
        assert ([s] + rest)[1..] == rest;
      } else {
        assert [] + rest == rest;
      }
    }
  }

  /** The reference list, one line at a time. */
  lemma StrippedLinesCons(lines: seq<string>)
    requires lines != []
    ensures StrippedLines(lines)
         == (if Strip(lines[0]) != "" then [Strip(lines[0])] else []) + StrippedLines(lines[1..])
  {
    assert StripAll(lines)[1..] == StripAll(lines[1..]);
  }

  /** No stripped piece of a newline-free line contains a newline. */
  lemma IndentedLinesOneLine(lines: seq<string>)
    requires forall l <- lines :: '\n' !in l
    ensures forall l <- IndentedLines(lines) :: '\n' !in l
  {
    if lines != [] {
      StripSubstring(lines[0]);
      assert lines[0] in lines;
      assert forall l <- lines[1..] :: l in lines;
      IndentedLinesOneLine(lines[1..]);
    }
  }

  /** Read back line by line, the rewritten field is the `command: |` header,
      the `bash -c '` opener, the indented non-blank script lines and the
      closing quote. */
  lemma ReplaceCommandLines(bashCmd: string, command: string)
    requires '\n' !in bashCmd
    ensures Split(ReplaceCommand(bashCmd, command), '\n')
         == ["command: |", "      " + bashCmd + " '"] + IndentedLines(Split(command, '\n')) + ["      '"]
  {
    var opener := "      " + bashCmd + " '";
    var middle := IndentedLines(Split(command, '\n'));
    var body := [opener] + middle + ["      '"];
    IndentedLinesOneLine(Split(command, '\n'));
    HeaderJoin(body);
    LiteralBlockOneLine(opener, middle);
    assert ["command: |"] + body == ["command: |", opener] + middle + ["      '"];
    SplitJoin(["command: |"] + body, '\n');
  }

  /** The header and the joined body are the join of the header line and the body lines. */
  lemma HeaderJoin(body: seq<string>)
    requires body != []
    ensures "command: |\n" + Join(body, "\n") == Join(["command: |"] + body, "\n")
  {
    JoinAppend(["command: |"], body, "\n");
  }

  /** None of the lines of the rewritten field holds a newline. */
  lemma LiteralBlockOneLine(opener: string, middle: seq<string>)
    requires '\n' !in opener
    requires forall l <- middle :: '\n' !in l
    ensures forall l <- ["command: |", opener] + middle + ["      '"] :: '\n' !in l
  {
  }

}
