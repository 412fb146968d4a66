/** The declarative `project_info.json` model, as the source reads it after
    `json.load`. A field is an `Option` exactly when the source tests for its
    presence (`'key' in d`, `d.get('key', default)`); values the source only
    renders with `str()` (argument values, non-string data roots) are kept as
    the text they render to. */
module ProjectModel {
  import opened Wrappers
  import opened Dicts
  import opened Text

  /** One device binding of an app: the IP pool, the chosen targets and the
      `"min:max:dup"` cardinality constraint. */
  datatype Device = Device(ipAddr: Option<seq<string>>, target: Option<seq<string>>, num: Option<string>)

  /** A `data_roots` entry: a host path string, or some other JSON value
      (carried as its `str()` rendering) that path operations reject. */
  datatype DataRoot = RootPath(path: string) | RootOther(text: string)

  /** An application record, shared by container apps and desktop apps. */
  datatype App = App(
    interpreter: Option<string>,
    main: Option<string>,
    args: Option<Dict<string>>,
    containerPort: Option<int>,
    venv: Option<string>,
    dataRoots: Option<seq<DataRoot>>,
    devices: Option<Dict<Device>>)

  /** A declared compose service. `id` and `image` are also written back from
      the container runtime. */
  datatype Service = Service(
    user: Option<string>,
    image: Option<string>,
    workingDir: Option<string>,
    dockerfile: Option<string>,
    id: Option<string>,
    apps: Option<Dict<App>>)

  datatype HostMachine = HostMachine(apps: Option<Dict<App>>)

  datatype DesktopApps = DesktopApps(hostMachine: Option<HostMachine>)

  /** The root of `project_info.json` (repositories and dockerfiles are only
      read by the clone steps, which are not part of this model). */
  datatype Project = Project(services: Option<Dict<Service>>, desktopApps: Option<DesktopApps>)

  /** `service.get('apps', {})` */
  function ServiceApps(s: Service): Dict<App> {
    s.apps.GetOr([])
  }

  /** `project.get('desktop_apps', {}).get('host_machine', {}).get('apps', {})` */
  function HostAppsOrEmpty(p: Project): Dict<App> {
    match p.desktopApps
    case None => []
    case Some(d) =>
      match d.hostMachine
      case None => []
      case Some(h) => h.apps.GetOr([])
  }

  /** Each argument as `"{name} {value}"`, in order. */
  function ArgPairs(args: Dict<string>): (r: seq<string>)
    ensures |r| == |args|
    ensures forall i :: 0 <= i < |args| ==> r[i] == args[i].0 + " " + args[i].1
  {
    if args == [] then [] else [args[0].0 + " " + args[0].1] + ArgPairs(args[1..])
  }

  /** The command-line rendering of an `args` object: the pairs joined by single spaces. */
  function ArgsString(args: Dict<string>): string {
    Join(ArgPairs(args), " ")
  }

  /** Rendering distributes over concatenation of argument lists. */
  lemma ArgsStringAppend(a: Dict<string>, b: Dict<string>)
    requires a != [] && b != []
    ensures ArgsString(a + b) == ArgsString(a) + " " + ArgsString(b)
  {
    assert ArgPairs(a + b) == ArgPairs(a) + ArgPairs(b);
    JoinAppend(ArgPairs(a), ArgPairs(b), " ");
  }

  /** A single argument renders as its name, a space and its value. */
  lemma ArgsStringSingle(name: string, value: string)
    ensures ArgsString([(name, value)]) == name + " " + value
  {
    assert ArgPairs([(name, value)]) == [name + " " + value];
  }

  /** Where an app lives: on the host machine, or inside a named service. */
  datatype AppRef = HostApp(app: string) | ServiceApp(service: string, app: string)

  /** The app a reference designates, when every dictionary on the way exists
      (the lookups `update_settings_json` performs). */
  function AppAt(p: Project, r: AppRef): Option<App> {
    match r
    case HostApp(a) =>
      if p.desktopApps.Some? && p.desktopApps.value.hostMachine.Some?
         && p.desktopApps.value.hostMachine.value.apps.Some?
      then Get(p.desktopApps.value.hostMachine.value.apps.value, a)
      else None
    case ServiceApp(s, a) =>
      if p.services.Some? && Get(p.services.value, s).Some? && Get(p.services.value, s).value.apps.Some?
      then Get(Get(p.services.value, s).value.apps.value, a)
      else None
  }

  /** Replaces the app a reference designates, leaving everything else as it was. */
  function WithApp(p: Project, r: AppRef, app: App): Project
    requires AppAt(p, r).Some?
  {
    match r
    case HostApp(a) =>
      var d := p.desktopApps.value;
      var h := d.hostMachine.value;
      p.(desktopApps := Some(d.(hostMachine := Some(h.(apps := Some(Put(h.apps.value, a, app)))))))
    case ServiceApp(s, a) =>
      var svc := Get(p.services.value, s).value;
      p.(services := Some(Put(p.services.value, s, svc.(apps := Some(Put(svc.apps.value, a, app))))))
  }

  /** Writing back the app a reference already designates changes nothing. */
  lemma WithAppSame(p: Project, r: AppRef, app: App)
    requires AppAt(p, r) == Some(app)
    ensures WithApp(p, r, app) == p
  {
    match r
    case HostApp(a) =>
      PutExisting(p.desktopApps.value.hostMachine.value.apps.value, a, app);
    case ServiceApp(s, a) =>
      var svc := Get(p.services.value, s).value;
      PutExisting(svc.apps.value, a, app);
      PutExisting(p.services.value, s, svc);
  }

  /** A second replacement of the same app overrides the first. */
  lemma WithAppTwice(p: Project, r: AppRef, app: App, app': App)
    requires AppAt(p, r).Some?
    ensures AppAt(WithApp(p, r, app), r).Some?
    ensures WithApp(WithApp(p, r, app), r, app') == WithApp(p, r, app')
  {
    WithAppReads(p, r, app, r);
    match r
    case HostApp(a) =>
      PutTwice(p.desktopApps.value.hostMachine.value.apps.value, a, app, app');
    case ServiceApp(s, a) =>
      var svc := Get(p.services.value, s).value;
      var svc1 := svc.(apps := Some(Put(svc.apps.value, a, app)));
      GetPutSame(p.services.value, s, svc1);
      PutTwice(svc.apps.value, a, app, app');
      PutTwice(p.services.value, s, svc1, svc.(apps := Some(Put(svc.apps.value, a, app'))));
  }

  /** After `WithApp`, the designated app is the new one and every other
      reference sees what it saw before. */
  lemma WithAppReads(p: Project, r: AppRef, app: App, r': AppRef)
    requires AppAt(p, r).Some?
    ensures AppAt(WithApp(p, r, app), r) == Some(app)
    ensures r' != r ==> AppAt(WithApp(p, r, app), r') == AppAt(p, r')
  {
    match r
    case HostApp(a) =>
      var h := p.desktopApps.value.hostMachine.value;
      GetPutSame(h.apps.value, a, app);
      if r'.HostApp? && r'.app != a {
        GetPutOther(h.apps.value, a, app, r'.app);
      }
    case ServiceApp(s, a) =>
      var svc := Get(p.services.value, s).value;
      var svc' := svc.(apps := Some(Put(svc.apps.value, a, app)));
      GetPutSame(p.services.value, s, svc');
      GetPutSame(svc.apps.value, a, app);
      if r'.ServiceApp? {
        if r'.service != s {
          GetPutOther(p.services.value, s, svc', r'.service);
        } else if r'.app != a {
          GetPutOther(svc.apps.value, a, app, r'.app);
        }
      }
  }

  /** `WithApp` touches nothing but the designated app: putting the old app
      back gives the original project exactly. */
  lemma WithAppRestores(p: Project, r: AppRef, app: App)
    requires AppAt(p, r).Some?
    ensures AppAt(WithApp(p, r, app), r).Some?
    ensures WithApp(WithApp(p, r, app), r, AppAt(p, r).value) == p
  {
    WithAppTwice(p, r, app, AppAt(p, r).value);
    WithAppSame(p, r, AppAt(p, r).value);
  }
}
