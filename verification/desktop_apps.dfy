/** Desktop apps (`utils/ui/desktop_apps.py`): the command line that starts a
    host application, and the layout `setup_desktop_apps_directory` lays out
    under `desktop_apps/` — the symbolic links it plans and the `app_info.json`
    record it writes for every host app. */
module DesktopAppsLayout {
  import opened Wrappers
  import opened Text
  import opened Paths
  import opened Dicts
  import opened ProjectModel

  /** A `KeyError` on a required key, or the `TypeError` of `Path()` on a data
      root that is not a string. */
  datatype DesktopError = KeyMissing(key: string) | DataRootNotPath

  // ------------------------------------------------------------------
  // create_start_command

  /** `f"{interpreter} {main} {args_str}"`; the interpreter is read first. */
  function StartCommandLine(a: App): (r: Result<string, DesktopError>)
    ensures r.Ok? <==> a.interpreter.Some? && a.main.Some?
    ensures a.interpreter.None? ==> r == Err(KeyMissing("interpreter"))
    ensures a.interpreter.Some? && a.main.None? ==> r == Err(KeyMissing("main"))
    ensures r.Ok? ==> StartsWith(r.value, a.interpreter.value + " " + a.main.value + " ")
    ensures r.Ok? ==> r.value == a.interpreter.value + " " + a.main.value + " " + ArgsString(a.args.GetOr([]))
  {
    var args := ArgsString(a.args.GetOr([]));
    if a.interpreter.None? then Err(KeyMissing("interpreter"))
    else if a.main.None? then Err(KeyMissing("main"))
    else
      var prefix := a.interpreter.value + " " + a.main.value + " ";
      assert (prefix + args)[..|prefix|] == prefix;
      Ok(prefix + args)
  }

  /** The words of the arguments: each name followed by its value. */
  function ArgWords(args: Dict<string>): (r: seq<string>)
    ensures |r| == 2 * |args|
  {
    if args == [] then [] else [args[0].0, args[0].1] + ArgWords(args[1..])
  }

  /** The argument string is its words separated by single spaces. */
  lemma {:induction false} ArgsStringWords(args: Dict<string>)
    requires args != []
    ensures ArgsString(args) == Join(ArgWords(args), " ")
  {
    var first := [args[0]];
    ArgsStringSingle(args[0].0, args[0].1);
    assert Join([args[0].0, args[0].1], " ") == args[0].0 + " " + args[0].1;
    if |args| > 1 {
      ArgsStringWords(args[1..]);
      assert args == first + args[1..];
      ArgsStringAppend(first, args[1..]);
      assert ArgWords(args) == [args[0].0, args[0].1] + ArgWords(args[1..]);
      JoinAppend([args[0].0, args[0].1], ArgWords(args[1..]), " ");
    } else {
      assert args == first;
      assert ArgWords(args) == [args[0].0, args[0].1];
    }
  }

  /** Split on spaces, a start command whose parts contain no space reads
      back as interpreter, main, then the argument words (or one empty word
      when there are no arguments: the command ends with a space). */
  lemma StartCommandWords(a: App)
    requires a.interpreter.Some? && a.main.Some?
    requires ' ' !in a.interpreter.value && ' ' !in a.main.value
    requires forall i :: 0 <= i < |a.args.GetOr([])| ==> ' ' !in a.args.GetOr([])[i].0 && ' ' !in a.args.GetOr([])[i].1
    ensures Split(StartCommandLine(a).value, ' ')
         == [a.interpreter.value, a.main.value] + (if a.args.GetOr([]) == [] then [""] else ArgWords(a.args.GetOr([])))
  {
    var args := a.args.GetOr([]);
    var words := if args == [] then [""] else ArgWords(args);
    if args != [] {
      ArgsStringWords(args);
      assert forall w <- ArgWords(args) :: ' ' !in w by {
        ArgWordsFree(args);
      }
    }
    assert Join(words, " ") == ArgsString(args);
    JoinAppend([a.interpreter.value, a.main.value], words, " ");
    var all := [a.interpreter.value, a.main.value] + words;
    assert forall w <- all :: ' ' !in w;
    SplitJoin(all, ' ');
  }

  lemma {:induction false} ArgWordsFree(args: Dict<string>)
    requires forall i :: 0 <= i < |args| ==> ' ' !in args[i].0 && ' ' !in args[i].1
    ensures forall w <- ArgWords(args) :: ' ' !in w
  {
    if args != [] {
      assert forall i :: 0 <= i < |args[1..]| ==> args[1..][i] == args[i + 1];
      ArgWordsFree(args[1..]);
    }
  }

  // ------------------------------------------------------------------
  // setup_desktop_apps_directory

  /** `str(Path(base) / name)`: joining an empty name leaves the base as it is. */
  function Child(base: string, name: string): string {
    if name == "" then base else base + "/" + name
  }

  /** `str(Path(a) / b)` for a relative `a`: `.` when both are empty. */
  function Relative(a: string, b: string): string {
    if a == "" && b == "" then "."
    else if a == "" then b
    else if b == "" then a
    else a + "/" + b
  }

  /** The `app_info.json` written for a desktop app. */
  datatype AppInfoRecord = AppInfoRecord(
    interpreter: string,
    main: string,
    args: Dict<string>,
    devices: Dict<Device>,
    dataRoots: Dict<string>)

  /** The file-system actions the setup performs, in order. */
  datatype Step = Link(src: string, dst: string) | WriteAppInfo(path: string, record: AppInfoRecord)

  /** The actions performed, and the error that ended the setup early, if any. */
  datatype Setup = Setup(steps: seq<Step>, error: Option<DesktopError>)

  /** `desktop_apps['host_machine']['apps']` when both keys exist, `{}` otherwise. */
  function HostApps(d: DesktopApps): Dict<App> {
    if d.hostMachine.Some? && d.hostMachine.value.apps.Some? then d.hostMachine.value.apps.value else []
  }

  /** The directory of a desktop app. */
  function AppDir(projectRoot: string, app: string): string {
    Child(Child(projectRoot, "desktop_apps"), app)
  }

  /** The link of one data root, named by its base name inside the app directory. */
  function RootLink(appDir: string, hostPath: string): Step {
    Link(hostPath, Child(appDir, Name(hostPath)))
  }

  /** The links of the data roots, in order, until the first non-string entry. */
  function RootLinks(appDir: string, roots: seq<DataRoot>): (r: Setup)
    ensures r.error.None? <==> forall k :: 0 <= k < |roots| ==> roots[k].RootPath?
    ensures r.error.Some? ==> r.error.value == DataRootNotPath
    ensures r.error.None? ==> |r.steps| == |roots|
    ensures r.error.None? ==> forall k :: 0 <= k < |roots| ==> r.steps[k] == RootLink(appDir, roots[k].path)
    ensures forall k :: 0 <= k < |r.steps| ==> r.steps[k].Link?
  {
    if roots == [] then Setup([], None)
    else if roots[0].RootOther? then Setup([], Some(DataRootNotPath))
    else
      var rest := RootLinks(appDir, roots[1..]);
      assert forall k :: 1 <= k < |roots| ==> roots[k] == roots[1..][k - 1];
      StepsAfterHead(RootLink(appDir, roots[0].path), rest.steps);
      Setup([RootLink(appDir, roots[0].path)] + rest.steps, rest.error)
  }

  /** Prepending a step shifts every other step by one. */
  lemma StepsAfterHead(head: Step, steps: seq<Step>)
    ensures |[head] + steps| == 1 + |steps| && ([head] + steps)[0] == head
    ensures forall k :: 0 <= k < |steps| ==> ([head] + steps)[k + 1] == steps[k]
  {
  }

  /** The `data_roots` object of the record: each root's name mapped to its
      place in the app directory (a later root of the same name overwrites). */
  function DataRootMap(appDir: string, hostPaths: seq<string>, acc: Dict<string>): (r: Dict<string>)
    decreases |hostPaths|
  {
    if hostPaths == [] then acc
    else DataRootMap(appDir, hostPaths[1..], Put(acc, Name(hostPaths[0]), Child(appDir, Name(hostPaths[0]))))
  }

  /** Every name in the map is mapped to its place in the app directory. */
  lemma {:induction false} DataRootMapValues(appDir: string, hostPaths: seq<string>, acc: Dict<string>)
    requires forall k :: HasKey(acc, k) ==> Get(acc, k) == Some(Child(appDir, k))
    ensures forall k :: HasKey(DataRootMap(appDir, hostPaths, acc), k) ==>
      Get(DataRootMap(appDir, hostPaths, acc), k) == Some(Child(appDir, k))
    decreases |hostPaths|
  {
    if hostPaths != [] {
      var n := Name(hostPaths[0]);
      var acc' := Put(acc, n, Child(appDir, n));
      forall k | HasKey(acc', k) ensures Get(acc', k) == Some(Child(appDir, k)) {
        if k == n {
          GetPutSame(acc, k, Child(appDir, k));
        } else {
          GetPutOther(acc, n, Child(appDir, n), k);
        }
      }
      DataRootMapValues(appDir, hostPaths[1..], acc');
    }
  }

  /** Names already in the map stay, and every data root's name is added. */
  lemma {:induction false} DataRootMapKeys(appDir: string, hostPaths: seq<string>, acc: Dict<string>)
    ensures forall k :: HasKey(acc, k) ==> HasKey(DataRootMap(appDir, hostPaths, acc), k)
    ensures forall i :: 0 <= i < |hostPaths| ==> HasKey(DataRootMap(appDir, hostPaths, acc), Name(hostPaths[i]))
    decreases |hostPaths|
  {
    if hostPaths != [] {
      var n := Name(hostPaths[0]);
      var acc' := Put(acc, n, Child(appDir, n));
      assert HasKey(acc', n) by { GetPutSame(acc, n, Child(appDir, n)); }
      forall k | HasKey(acc, k) ensures HasKey(acc', k) {
        if k != n { GetPutOther(acc, n, Child(appDir, n), k); }
      }
      DataRootMapKeys(appDir, hostPaths[1..], acc');
      assert forall i :: 1 <= i < |hostPaths| ==> hostPaths[i] == hostPaths[1..][i - 1];
    }
  }

  /** Every name in the map was there before or is a data root's name. */
  lemma {:induction false} DataRootMapOrigin(appDir: string, hostPaths: seq<string>, acc: Dict<string>, k: string)
    requires HasKey(DataRootMap(appDir, hostPaths, acc), k)
    ensures HasKey(acc, k) || exists i :: 0 <= i < |hostPaths| && k == Name(hostPaths[i])
    decreases |hostPaths|
  {
    if hostPaths != [] {
      var n := Name(hostPaths[0]);
      var acc' := Put(acc, n, Child(appDir, n));
      DataRootMapOrigin(appDir, hostPaths[1..], acc', k);
      if k != n && HasKey(acc', k) {
        GetPutOther(acc, n, Child(appDir, n), k);
      }
      if exists i :: 0 <= i < |hostPaths[1..]| && k == Name(hostPaths[1..][i]) {
        var i :| 0 <= i < |hostPaths[1..]| && k == Name(hostPaths[1..][i]);
        assert hostPaths[1..][i] == hostPaths[i + 1];
      }
    }
  }

  /** The record written for one app. */
  function RecordOf(a: App, interpreter: string, main: string, appDir: string, hostPaths: seq<string>): AppInfoRecord {
    AppInfoRecord(interpreter, Relative(ParentName(main), Name(main)),
                  a.args.GetOr([]), a.devices.GetOr([]), DataRootMap(appDir, hostPaths, []))
  }

  /** The host paths of data roots all of which are strings. */
  function TextRoots(roots: seq<DataRoot>): (r: seq<string>)
    ensures |r| == |roots|
    ensures forall k :: 0 <= k < |roots| ==> r[k] == roots[k].path
    requires forall d <- roots :: d.RootPath?
  {
    if roots == [] then []
    else
      assert forall d <- roots[1..] :: d in roots;
      [roots[0].path] + TextRoots(roots[1..])
  }

  /** The actions for one app: link its program directory, link its data
      roots, then write its record. `main` is read first and `interpreter`
      only after the links exist. `AppSetupLinksRoots`, `AppSetupWritesRecord`
      and `FailedAppSetupWritesNothing` state the rest of the plan. */
  function AppSetup(projectRoot: string, app: string, a: App): (r: Setup)
    ensures a.main.None? ==> r == Setup([], Some(KeyMissing("main")))
    ensures r.error.None? <==> a.main.Some? && a.interpreter.Some? && forall d <- a.dataRoots.GetOr([]) :: d.RootPath?
    ensures r.error.None? ==> |r.steps| == 2 + |a.dataRoots.GetOr([])|
    ensures a.main.Some? ==> |r.steps| > 0 && r.steps[0] == ProgramLink(projectRoot, app, a.main.value)
  {
    match a.main
    case None => Setup([], Some(KeyMissing("main")))
    case Some(main) => MainSetup(projectRoot, app, a, main)
  }

  /** A complete app gets one link per data root, in order, right after the
      program link. */
  lemma AppSetupLinksRoots(projectRoot: string, app: string, a: App)
    requires AppSetup(projectRoot, app, a).error.None?
    ensures var r := AppSetup(projectRoot, app, a);
      var roots := a.dataRoots.GetOr([]);
      forall k :: 0 <= k < |roots| ==> r.steps[1 + k] == RootLink(AppDir(projectRoot, app), roots[k].path)
  {
    var r := AppSetup(projectRoot, app, a);
    var links := CompleteAppSteps(projectRoot, app, a);
    var roots := a.dataRoots.GetOr([]);
    var write := r.steps[|r.steps| - 1];
    assert r.steps == [ProgramLink(projectRoot, app, a.main.value)] + links + [write];
    forall k | 0 <= k < |roots|
      ensures r.steps[1 + k] == RootLink(AppDir(projectRoot, app), roots[k].path)
    {
      StepAfterFirst(ProgramLink(projectRoot, app, a.main.value), links, [write], k);
    }
  }

  /** The step after the first one, at offset `k`. */
  lemma StepAfterFirst(first: Step, mid: seq<Step>, rest: seq<Step>, k: nat)
    requires k < |mid|
    ensures ([first] + mid + rest)[1 + k] == mid[k]
  {
  }

  /** A complete app's last action writes its record into `app_info.json`. */
  lemma AppSetupWritesRecord(projectRoot: string, app: string, a: App)
    requires AppSetup(projectRoot, app, a).error.None?
    ensures var r := AppSetup(projectRoot, app, a);
      var dir := AppDir(projectRoot, app);
      r.steps[|r.steps| - 1]
      == WriteAppInfo(Child(dir, "app_info.json"),
                      RecordOf(a, a.interpreter.value, a.main.value, dir, TextRoots(a.dataRoots.GetOr([]))))
  {
    var links := CompleteAppSteps(projectRoot, app, a);
  }

  /** The steps of a complete app are the program link, the data-root links
      and the record write; the data-root links are returned. */
  lemma CompleteAppSteps(projectRoot: string, app: string, a: App) returns (links: seq<Step>)
    requires AppSetup(projectRoot, app, a).error.None?
    ensures var roots := a.dataRoots.GetOr([]);
      && |links| == |roots|
      && (forall k :: 0 <= k < |roots| ==> roots[k].RootPath? && links[k] == RootLink(AppDir(projectRoot, app), roots[k].path))
    ensures var dir := AppDir(projectRoot, app);
      AppSetup(projectRoot, app, a).steps
      == [ProgramLink(projectRoot, app, a.main.value)] + links
         + [WriteAppInfo(Child(dir, "app_info.json"),
                         RecordOf(a, a.interpreter.value, a.main.value, dir, TextRoots(a.dataRoots.GetOr([]))))]
  {
    var roots := a.dataRoots.GetOr([]);
    var setup := RootLinks(AppDir(projectRoot, app), roots);
    assert forall k :: 0 <= k < |roots| ==> roots[k] in roots;
    assert setup.error.None?;
    assert AppSetup(projectRoot, app, a) == MainSetup(projectRoot, app, a, a.main.value);
    links := setup.steps;
  }

  /** An app whose setup fails only creates links: it gets no record. */
  lemma FailedAppSetupWritesNothing(projectRoot: string, app: string, a: App)
    requires AppSetup(projectRoot, app, a).error.Some?
    ensures var r := AppSetup(projectRoot, app, a);
      forall k :: 0 <= k < |r.steps| ==> r.steps[k].Link?
  {
    var r := AppSetup(projectRoot, app, a);
    if a.main.Some? {
      var links := RootLinks(AppDir(projectRoot, app), a.dataRoots.GetOr([]));
      assert r.steps == [ProgramLink(projectRoot, app, a.main.value)] + links.steps;
      forall k | 0 <= k < |r.steps|
        ensures r.steps[k].Link?
      {
        if k > 0 { StepAfterFirst(ProgramLink(projectRoot, app, a.main.value), links.steps, [], k - 1); }
      }
    }
  }

  /** The link of an app's program directory, named by the parent of `main`. */
  function ProgramLink(projectRoot: string, app: string, main: string): Step {
    var programDir := ParentName(main);
    Link(Child(Child(projectRoot, "programs"), programDir), Child(AppDir(projectRoot, app), programDir))
  }

  /** The actions for an app whose `main` is known: the program link and the
      data-root links, then the record when every root is a path and the
      interpreter is given. */
  function MainSetup(projectRoot: string, app: string, a: App, main: string): (r: Setup)
    ensures var links := RootLinks(AppDir(projectRoot, app), a.dataRoots.GetOr([]));
      links.error.None? && a.interpreter.Some? ==>
        && r.error.None?
        && r.steps == [ProgramLink(projectRoot, app, main)] + links.steps
                      + [WriteAppInfo(Child(AppDir(projectRoot, app), "app_info.json"),
                                      RecordOf(a, a.interpreter.value, main, AppDir(projectRoot, app),
                                               TextRoots(a.dataRoots.GetOr([]))))]
    ensures var links := RootLinks(AppDir(projectRoot, app), a.dataRoots.GetOr([]));
      links.error.Some? || a.interpreter.None? ==>
        && r.error.Some?
        && r.steps == [ProgramLink(projectRoot, app, main)] + links.steps
  {
    var dir := AppDir(projectRoot, app);
    var roots := a.dataRoots.GetOr([]);
    var links := RootLinks(dir, roots);
    if links.error.Some? then Setup([ProgramLink(projectRoot, app, main)] + links.steps, links.error)
    else if a.interpreter.None? then Setup([ProgramLink(projectRoot, app, main)] + links.steps, Some(KeyMissing("interpreter")))
    else
      var record := RecordOf(a, a.interpreter.value, main, dir, TextRoots(roots));
      Setup([ProgramLink(projectRoot, app, main)] + links.steps + [WriteAppInfo(Child(dir, "app_info.json"), record)], None)
  }

  /** The loop over the host apps, for a per-app setup `f`: each app's actions
      in turn; the first app that fails ends the loop with its error. */
  function RunApps(f: (string, App) -> Setup, apps: Dict<App>): (r: Setup)
    ensures r.error.None? <==> forall i :: 0 <= i < |apps| ==> f(apps[i].0, apps[i].1).error.None?
  {
    if apps == [] then Setup([], None)
    else
      var first := f(apps[0].0, apps[0].1);
      if first.error.Some? then first
      else
        var rest := RunApps(f, apps[1..]);
        assert forall i :: 1 <= i < |apps| ==> apps[i] == apps[1..][i - 1];
        Setup(first.steps + rest.steps, rest.error)
  }

  /** The actions of the apps, one app after the other. */
  function ConcatSteps(f: (string, App) -> Setup, apps: Dict<App>): seq<Step> {
    if apps == [] then [] else f(apps[0].0, apps[0].1).steps + ConcatSteps(f, apps[1..])
  }

  /** The position of the first app whose setup fails, or the number of apps. */
  function FirstFailure(f: (string, App) -> Setup, apps: Dict<App>): (n: nat)
    ensures n <= |apps|
    ensures forall i :: 0 <= i < n ==> f(apps[i].0, apps[i].1).error.None?
    ensures n < |apps| ==> f(apps[n].0, apps[n].1).error.Some?
  {
    if apps == [] then 0
    else if f(apps[0].0, apps[0].1).error.Some? then 0
    else
      assert forall i :: 1 <= i < |apps| ==> apps[i] == apps[1..][i - 1];
      1 + FirstFailure(f, apps[1..])
  }

  /** The loop performs the actions of the apps before the first failing one,
      in order, then that app's own actions, and ends with its error; when no
      app fails it performs every app's actions. */
  lemma {:induction false} RunAppsSteps(f: (string, App) -> Setup, apps: Dict<App>)
    ensures var r := RunApps(f, apps);
      var n := FirstFailure(f, apps);
      && r.steps == ConcatSteps(f, apps[..n]) + (if n < |apps| then f(apps[n].0, apps[n].1).steps else [])
      && r.error == (if n < |apps| then f(apps[n].0, apps[n].1).error else None)
  {
    if apps == [] {
    } else if f(apps[0].0, apps[0].1).error.Some? {
      assert apps[..0] == [];
    } else {
      var tail := apps[1..];
      RunAppsSteps(f, tail);
      var n := FirstFailure(f, tail);
      var pre := apps[..n + 1];
      assert pre[0] == apps[0] && pre[1..] == tail[..n];
      if n < |tail| {
        assert tail[n] == apps[n + 1];
      }
    }
  }

  /** The setup of one app of the project. */
  function SetupOf(projectRoot: string): (string, App) -> Setup {
    (app, a) => AppSetup(projectRoot, app, a)
  }

  function AppsSetup(projectRoot: string, apps: Dict<App>): (r: Setup)
    ensures r.error.None? <==> forall i :: 0 <= i < |apps| ==> AppSetup(projectRoot, apps[i].0, apps[i].1).error.None?
  {
    RunApps(SetupOf(projectRoot), apps)
  }

  /** The desktop setup performs the actions of the apps before the first
      failing one, then that app's own actions, and stops with its error. */
  lemma AppsSetupSteps(projectRoot: string, apps: Dict<App>)
    ensures var r := AppsSetup(projectRoot, apps);
      var n := FirstFailure(SetupOf(projectRoot), apps);
      && r.steps == ConcatSteps(SetupOf(projectRoot), apps[..n])
                    + (if n < |apps| then AppSetup(projectRoot, apps[n].0, apps[n].1).steps else [])
      && r.error == (if n < |apps| then AppSetup(projectRoot, apps[n].0, apps[n].1).error else None)
  {
    RunAppsSteps(SetupOf(projectRoot), apps);
  }

  /** `setup_desktop_apps_directory` as the actions it performs. */
  function SetupDesktopApps(projectRoot: string, d: DesktopApps): (r: Setup)
    ensures HostApps(d) == [] ==> r == Setup([], None)
  {
    AppsSetup(projectRoot, HostApps(d))
  }

  /** Number of data roots over all apps. */
  function LinkedRootCount(apps: Dict<App>): nat {
    if apps == [] then 0 else |apps[0].1.dataRoots.GetOr([])| + LinkedRootCount(apps[1..])
  }

  /** A complete setup performs two actions per app and one per data root. */
  lemma {:induction false} SetupStepCount(projectRoot: string, apps: Dict<App>)
    requires AppsSetup(projectRoot, apps).error.None?
    ensures |AppsSetup(projectRoot, apps).steps| == 2 * |apps| + LinkedRootCount(apps)
  {
    if apps != [] {
      assert AppSetup(projectRoot, apps[0].0, apps[0].1).error.None?;
      SetupStepCount(projectRoot, apps[1..]);
    }
  }

  /** The record's `main` is the parent directory name and file name of the
      declared `main`. */
  lemma RecordMain(dir: string, sub: string, file: string)
    requires sub != [] && '/' !in sub && file != [] && '/' !in file
    ensures Relative(ParentName(JoinPath(JoinPath(dir, sub), file)), Name(JoinPath(JoinPath(dir, sub), file)))
         == sub + "/" + file
  {
    ParentNameOfJoin(dir, sub, file);
    NameOfJoin(JoinPath(dir, sub), file);
  }

  /** The record's `data_roots` maps exactly the data roots' names, each to its
      place in the app directory. */
  lemma RecordDataRoots(appDir: string, hostPaths: seq<string>, k: string)
    ensures HasKey(DataRootMap(appDir, hostPaths, []), k)
        <==> exists i :: 0 <= i < |hostPaths| && k == Name(hostPaths[i])
    ensures HasKey(DataRootMap(appDir, hostPaths, []), k) ==>
      Get(DataRootMap(appDir, hostPaths, []), k) == Some(Child(appDir, k))
  {
    DataRootMapValues(appDir, hostPaths, []);
    DataRootMapKeys(appDir, hostPaths, []);
    if HasKey(DataRootMap(appDir, hostPaths, []), k) {
      DataRootMapOrigin(appDir, hostPaths, [], k);
    }
  }
}
