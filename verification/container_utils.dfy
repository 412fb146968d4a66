/** `utils/container_utils.py`: recovering a compose service name from a
    container name, and fanning the project model out into the
    `container_info/` tree. */
module ContainerUtils {
  import opened Wrappers
  import opened Text
  import opened Paths
  import opened Dicts
  import opened ProjectModel

  /** Length of the run of ASCII digits that ends `t`. */
  function TrailingDigits(t: string): (k: nat)
    ensures k <= |t|
    ensures forall i :: |t| - k <= i < |t| ==> IsDigit(t[i])
    ensures k < |t| ==> !IsDigit(t[|t| - k - 1])
  {
    if |t| > 0 && IsDigit(t[|t| - 1]) then 1 + TrailingDigits(t[..|t| - 1]) else 0
  }

  /** Removes a final `-<digits>` from `t`, if there is one. */
  function StripIndex(t: string): string {
    var k := TrailingDigits(t);
    if 0 < k < |t| && t[|t| - k - 1] == '-' then t[..|t| - k - 1] else t
  }

  /** `re.sub(r'-\d+$', '', s)`: without `re.MULTILINE`, `$` also matches just
      before a final newline, so a replica index may sit before one. */
  function StripReplicaSuffix(s: string): string {
    if |s| > 0 && s[|s| - 1] == '\n' then StripIndex(s[..|s| - 1]) + "\n" else StripIndex(s)
  }

  /** `t` ends with a dash followed by at least one digit. */
  predicate EndsWithReplicaIndex(t: string) {
    exists i :: 0 <= i < |t| - 1 && t[i] == '-' && AllDigits(t[i + 1..])
  }

  /** The part of a string the pattern's `$` anchors against. */
  function Anchored(s: string): string {
    if |s| > 0 && s[|s| - 1] == '\n' then s[..|s| - 1] else s
  }

  lemma {:induction false} TrailingDigitsOfIndex(base: string, idx: string)
    requires idx != [] && AllDigits(idx)
    ensures TrailingDigits(base + "-" + idx) == |idx|
  {
    var t := base + "-" + idx;
    assert t[|t| - |idx| - 1] == '-';
    forall i | |t| - |idx| <= i < |t| ensures IsDigit(t[i]) {
      assert t[i] == idx[i - (|t| - |idx|)];
    }
  }

  lemma StripIndexOfIndex(base: string, idx: string)
    requires idx != [] && AllDigits(idx)
    ensures StripIndex(base + "-" + idx) == base
  {
    var t := base + "-" + idx;
    TrailingDigitsOfIndex(base, idx);
    assert t[|t| - |idx| - 1] == '-';
    assert t[..|t| - |idx| - 1] == base;
  }

  /** Stripping removes exactly the replica index that was appended. */
  lemma StripReplicaRoundTrip(base: string, idx: string, nl: string)
    requires idx != [] && AllDigits(idx)
    requires nl == "" || nl == "\n"
    ensures StripReplicaSuffix(base + "-" + idx + nl) == base + nl
  {
    var t := base + "-" + idx;
    StripIndexOfIndex(base, idx);
    if nl == "\n" {
      assert (t + nl)[..|t + nl| - 1] == t;
    } else {
      assert t + nl == t;
      assert t[|t| - 1] == idx[|idx| - 1];
    }
  }

  /** A string whose anchored part has no final `-<digits>` is left unchanged. */
  lemma StripReplicaKeepsPlain(s: string)
    requires !EndsWithReplicaIndex(Anchored(s))
    ensures StripReplicaSuffix(s) == s
  {
    var t := Anchored(s);
    if |s| > 0 && s[|s| - 1] == '\n' {
      assert s == t + "\n";
    }
  }

  /** `extract_service_name`: `None` when the container name does not start with
      the project directory's name and a dash, otherwise the rest with its
      replica index removed. */
  function ExtractServiceName(containerName: string, composeDir: string): (r: Option<string>)
    ensures r.None? <==> !StartsWith(containerName, Name(composeDir) + "-")
  {
    var prefix := Name(composeDir) + "-";
    if StartsWith(containerName, prefix) then
      Some(StripReplicaSuffix(containerName[|prefix|..]))
    else
      None
  }

  /** A name that starts with the project prefix keeps the rest, stripped. */
  lemma ExtractAfterPrefix(composeDir: string, rest: string)
    ensures ExtractServiceName(Name(composeDir) + "-" + rest, composeDir) == Some(StripReplicaSuffix(rest))
  {
    var prefix := Name(composeDir) + "-";
    assert Name(composeDir) + "-" + rest == prefix + rest;
    assert (prefix + rest)[..|prefix|] == prefix;
    assert (prefix + rest)[|prefix|..] == rest;
  }

  /** The compose naming convention round-trips: `{project}-{service}-{n}`
      yields `service` for any replica number `n`. */
  lemma ExtractServiceNameRoundTrip(composeDir: string, service: string, n: string)
    requires n != [] && AllDigits(n)
    ensures ExtractServiceName(Name(composeDir) + "-" + service + "-" + n, composeDir) == Some(service)
  {
    var rest := service + "-" + n;
    assert Name(composeDir) + "-" + service + "-" + n == Name(composeDir) + "-" + rest;
    ExtractAfterPrefix(composeDir, rest);
    StripReplicaRoundTrip(service, n, "");
    assert rest + "" == rest && service + "" == service;
  }

  /** A remainder without a replica index comes back unchanged. */
  lemma ExtractServiceNameKeepsPlain(composeDir: string, rest: string)
    requires !EndsWithReplicaIndex(Anchored(rest))
    ensures ExtractServiceName(Name(composeDir) + "-" + rest, composeDir) == Some(rest)
  {
    ExtractAfterPrefix(composeDir, rest);
    StripReplicaKeepsPlain(rest);
  }

  /** Only the last `-<digits>` run goes: `web-v2-1` gives `web-v2`. */
  lemma ExtractServiceNameKeepsInnerDashes()
    ensures ExtractServiceName("myproj-web-v2-1", "/any/myproj") == Some("web-v2")
  {
    assert "myproj-web-v2-1" == "myproj" + "-" + "web-v2" + "-" + "1";
    assert "/any/myproj" == JoinPath("/any", "myproj");
    NameOfJoin("/any", "myproj");
    ExtractServiceNameRoundTrip("/any/myproj", "web-v2", "1");
  }

  /** The example in the function's documentation (`my-project-web-1` in a
      directory named `project`) is rejected: the name must start with `project-`. */
  lemma ExtractServiceNameDocExampleRejected()
    ensures ExtractServiceName("my-project-web-1", "/path/to/project") == None
  {
    assert "/path/to/project" == JoinPath("/path/to", "project");
    NameOfJoin("/path/to", "project");
    var c := "my-project-web-1";
    var prefix := Name("/path/to/project") + "-";
    assert prefix == "project-";
    assert c[..8][0] != prefix[0];
  }

  // ---------------------------------------------------------------------------
  // parse_project_info

  /** A file under the build context, as its path components. */
  type FilePath = seq<string>

  /** The contents of a generated JSON file. */
  datatype Artifact =
    | ContainerInfo(name: string, image: string, id: string, dockerfile: string, apps: Dict<App>)
    | AppInfo(app: App)

  function ContainerInfoPath(service: string): FilePath {
    ["container_info", service, "container_info.json"]
  }

  function AppInfoPath(service: string, app: string): FilePath {
    ["container_info", service, app, "app_info.json"]
  }

  /** What `project_info.json` could not be turned into: the three failures the
      source catches and reports instead of raising. */
  datatype FanOutError = ProjectFileMissing | ProjectFileMalformed | NoServicesKey

  /** The result of one pass: the files written (later writes win) and the
      error that was reported, if any. */
  datatype FanOut = FanOut(files: map<FilePath, Artifact>, error: Option<FanOutError>)

  /** The `container_info.json` record of one service; absent fields become `''`,
      absent apps `{}`. */
  function ContainerInfoOf(name: string, s: Service): Artifact {
    ContainerInfo(name, s.image.GetOr(""), s.id.GetOr(""), s.dockerfile.GetOr(""), ServiceApps(s))
  }

  function AppFiles(service: string, apps: Dict<App>): map<FilePath, Artifact> {
    if apps == [] then map[]
    else AppFiles(service, apps[..|apps| - 1])[AppInfoPath(service, apps[|apps| - 1].0) := AppInfo(apps[|apps| - 1].1)]
  }

  function ServiceFiles(services: Dict<Service>): map<FilePath, Artifact> {
    if services == [] then map[]
    else
      var (name, s) := services[|services| - 1];
      (ServiceFiles(services[..|services| - 1])[ContainerInfoPath(name) := ContainerInfoOf(name, s)])
        + AppFiles(name, ServiceApps(s))
  }

  /** `parse_project_info`: one `container_info.json` per service and one
      `app_info.json` per app of each service; a load failure or a missing
      `services` key is reported and writes nothing. */
  function ParseProjectInfo(loaded: Result<Project, FanOutError>): (out: FanOut)
    ensures out.error.Some? ==> out.files == map[]
    ensures out.error.None? <==> loaded.Ok? && loaded.value.services.Some?
  {
    match loaded
    case Err(e) => FanOut(map[], Some(e))
    case Ok(p) =>
      if p.services.None? then FanOut(map[], Some(NoServicesKey))
      else FanOut(ServiceFiles(p.services.value), None)
  }

  /** A path names a file of one service: its `container_info.json` or the
      `app_info.json` of one of its apps. */
  predicate ServiceDeclares(name: string, s: Service, path: FilePath) {
    path == ContainerInfoPath(name) ||
    exists j :: 0 <= j < |ServiceApps(s)| && path == AppInfoPath(name, ServiceApps(s)[j].0)
  }

  /** A path names a file of the fan-out. */
  predicate DeclaredPath(services: Dict<Service>, path: FilePath) {
    exists i :: 0 <= i < |services| && ServiceDeclares(services[i].0, services[i].1, path)
  }

  lemma {:induction false} AppFilesDomain(service: string, apps: Dict<App>, path: FilePath)
    ensures path in AppFiles(service, apps) <==> exists j :: 0 <= j < |apps| && path == AppInfoPath(service, apps[j].0)
  {
    if apps != [] {
      var init := apps[..|apps| - 1];
      AppFilesDomain(service, init, path);
      if path in AppFiles(service, init) {
        var j :| 0 <= j < |init| && path == AppInfoPath(service, init[j].0);
        assert apps[j] == init[j];
      }
      if exists j :: 0 <= j < |apps| && path == AppInfoPath(service, apps[j].0) {
        var j :| 0 <= j < |apps| && path == AppInfoPath(service, apps[j].0);
        if j < |apps| - 1 {
          assert apps[j] == init[j];
        }
      }
    }
  }

  lemma {:induction false} AppFilesValue(service: string, apps: Dict<App>, j: nat)
    requires DistinctKeys(apps) && j < |apps|
    ensures AppInfoPath(service, apps[j].0) in AppFiles(service, apps)
    ensures AppFiles(service, apps)[AppInfoPath(service, apps[j].0)] == AppInfo(apps[j].1)
  {
    if j < |apps| - 1 {
      var init := apps[..|apps| - 1];
      assert apps[j] == init[j];
      assert apps[j].0 != apps[|apps| - 1].0;
      AppFilesValue(service, init, j);
    }
  }

  /** Every container-info path has three components and every app-info path
      four, so the two kinds of file never collide. */
  lemma PathKindsDiffer(s: string, s': string, a: string)
    ensures ContainerInfoPath(s) != AppInfoPath(s', a)
  {
    assert |ContainerInfoPath(s)| != |AppInfoPath(s', a)|;
  }

  /** The fan-out writes exactly the declared files. */
  lemma {:induction false} ParseProjectInfoDomain(services: Dict<Service>, path: FilePath)
    ensures path in ServiceFiles(services) <==> DeclaredPath(services, path)
  {
    if services != [] {
      var n := |services| - 1;
      var init := services[..n];
      var (name, s) := services[n];
      var apps := ServiceApps(s);
      ParseProjectInfoDomain(init, path);
      AppFilesDomain(name, apps, path);
      if DeclaredPath(init, path) {
        var i :| 0 <= i < |init| && ServiceDeclares(init[i].0, init[i].1, path);
        assert services[i] == init[i];
      }
      if path in AppFiles(name, apps) {
        assert ServiceDeclares(services[n].0, services[n].1, path);
      }
      if DeclaredPath(services, path) {
        var i :| 0 <= i < |services| && ServiceDeclares(services[i].0, services[i].1, path);
        if i < n {
          assert services[i] == init[i];
        }
      }
    }
  }

  /** Each service's `container_info.json` holds its summary record. */
  lemma {:induction false} ParseProjectInfoContainerInfo(services: Dict<Service>, i: nat)
    requires DistinctKeys(services) && i < |services|
    ensures ContainerInfoPath(services[i].0) in ServiceFiles(services)
    ensures ServiceFiles(services)[ContainerInfoPath(services[i].0)] == ContainerInfoOf(services[i].0, services[i].1)
  {
    var n := |services| - 1;
    var (name, s) := services[n];
    forall a ensures ContainerInfoPath(services[i].0) != AppInfoPath(name, a) {
      PathKindsDiffer(services[i].0, name, a);
    }
    AppFilesDomain(name, ServiceApps(s), ContainerInfoPath(services[i].0));
    if i < n {
      var init := services[..n];
      assert services[i] == init[i];
      assert services[i].0 != name;
      ParseProjectInfoContainerInfo(init, i);
    }
  }

  /** Each app's `app_info.json` holds the app's record verbatim. */
  lemma {:induction false} ParseProjectInfoAppInfo(services: Dict<Service>, i: nat, j: nat)
    requires DistinctKeys(services) && i < |services|
    requires DistinctKeys(ServiceApps(services[i].1)) && j < |ServiceApps(services[i].1)|
    ensures AppInfoPath(services[i].0, ServiceApps(services[i].1)[j].0) in ServiceFiles(services)
    ensures ServiceFiles(services)[AppInfoPath(services[i].0, ServiceApps(services[i].1)[j].0)]
         == AppInfo(ServiceApps(services[i].1)[j].1)
  {
    var n := |services| - 1;
    var (name, s) := services[n];
    var path := AppInfoPath(services[i].0, ServiceApps(services[i].1)[j].0);
    if i < n {
      var init := services[..n];
      assert services[i] == init[i];
      assert services[i].0 != name;
      AppFilesDomain(name, ServiceApps(s), path);
      PathKindsDiffer(name, services[i].0, ServiceApps(services[i].1)[j].0);
      ParseProjectInfoAppInfo(init, i, j);
    } else {
      AppFilesValue(name, ServiceApps(s), j);
    }
  }
}
