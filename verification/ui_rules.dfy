/** The decision rules embedded in `utils/ui_utils.py`: when the IP dialog
    opens and what it applies, how a chosen directory replaces a data root,
    which host port a card shows, and the order of the setup steps. */
module UiRules {
  import opened Wrappers
  import opened Text
  import opened Paths
  import opened Dicts
  import opened ProjectModel
  import opened ContainerUtils
  import opened IpSettings
  import opened Classifiers
  import Compose
  import DesktopAppsLayout

  /** Whose card a dialog was opened from: the desktop card, or the card of a
      running container with that name. */
  datatype Owner = DesktopOwner | ContainerOwner(name: string)

  /** The app a card's dialog edits: a desktop app, or an app of the service
      the container name belongs to (`None` when no service name can be read
      from it). */
  function OwnerRef(owner: Owner, appName: string, composeDir: string): (r: Option<AppRef>)
    ensures owner.DesktopOwner? ==> r == Some(HostApp(appName))
    ensures owner.ContainerOwner? ==>
      (r.Some? <==> ExtractServiceName(owner.name, composeDir).Some? && ExtractServiceName(owner.name, composeDir).value != "")
    ensures owner.ContainerOwner? && r.Some? ==> r.value == ServiceApp(ExtractServiceName(owner.name, composeDir).value, appName)
  {
    match owner
    case DesktopOwner => Some(HostApp(appName))
    case ContainerOwner(name) =>
      match ExtractServiceName(name, composeDir)
      case None => None
      case Some(s) => if s == "" then None else Some(ServiceApp(s, appName))
  }

  // ------------------------------------------------------------------
  // show_ip_setting_dialog

  /** Why the IP dialog was not shown. */
  datatype DialogError = NoServiceName | AppNotFound | NoNumSetting | BadNum(num: string) | NoIpSetting | EmptyPool

  /** What the dialog opens with: the parsed constraint, the pool offered in
      every dropdown and the targets already chosen. */
  datatype IpDialog = IpDialog(constraints: Constraints, pool: seq<string>, currentTargets: seq<string>)

  /** The device an app declares under that type. */
  function DeviceOf(a: App, deviceType: string): (r: Option<Device>)
    ensures r.Some? <==> a.devices.Some? && HasKey(a.devices.value, deviceType)
  {
    match a.devices
    case None => None
    case Some(d) => Get(d, deviceType)
  }

  /** The checks on the app's device, in the order the dialog makes them: the
      `num` setting must exist and parse, then the pool must exist and be
      non-empty; the targets default to none. */
  function OpenIpDialog(a: App, deviceType: string): (r: Result<IpDialog, DialogError>)
    ensures r.Ok? <==>
      && DeviceOf(a, deviceType).Some?
      && DeviceOf(a, deviceType).value.num.Some?
      && ParseNumConstraint(DeviceOf(a, deviceType).value.num.value).Some?
      && DeviceOf(a, deviceType).value.ipAddr.Some?
      && DeviceOf(a, deviceType).value.ipAddr.value != []
    ensures r.Ok? ==>
      var dev := DeviceOf(a, deviceType).value;
      && Some(r.value.constraints) == ParseNumConstraint(dev.num.value)
      && r.value.pool == dev.ipAddr.value
      && r.value.currentTargets == dev.target.GetOr([])
    ensures (DeviceOf(a, deviceType).Some? && DeviceOf(a, deviceType).value.num.Some?
             && ParseNumConstraint(DeviceOf(a, deviceType).value.num.value).None?) ==>
      r == Err(BadNum(DeviceOf(a, deviceType).value.num.value))
  {
    match DeviceOf(a, deviceType)
    case None => Err(NoNumSetting)
    case Some(dev) =>
      match dev.num
      case None => Err(NoNumSetting)
      case Some(num) =>
        match ParseNumConstraint(num)
        case None => Err(BadNum(num))
        case Some(c) =>
          match dev.ipAddr
          case None => Err(NoIpSetting)
          case Some(pool) =>
            if pool == [] then Err(EmptyPool)
            else Ok(IpDialog(c, pool, dev.target.GetOr([])))
  }

  /** `show_ip_setting_dialog` up to the dialog being built: the app is looked
      up first, then its device is checked. */
  function ShowIpDialog(p: Project, owner: Owner, appName: string, composeDir: string, deviceType: string)
    : (r: Result<IpDialog, DialogError>)
    ensures OwnerRef(owner, appName, composeDir).None? ==> r == Err(NoServiceName)
    ensures r.Ok? ==>
      && OwnerRef(owner, appName, composeDir).Some?
      && AppAt(p, OwnerRef(owner, appName, composeDir).value).Some?
      && r == OpenIpDialog(AppAt(p, OwnerRef(owner, appName, composeDir).value).value, deviceType)
  {
    match OwnerRef(owner, appName, composeDir)
    case None => Err(NoServiceName)
    case Some(ref) =>
      match AppAt(p, ref)
      case None => Err(AppNotFound)
      case Some(a) => OpenIpDialog(a, deviceType)
  }

  /** A dialog opens exactly on a non-empty pool of a device whose constraint
      parses, and offers that pool. */
  lemma IpDialogOffersPool(a: App, deviceType: string, dev: Device, c: Constraints)
    requires DeviceOf(a, deviceType) == Some(dev)
    requires dev.num.Some? && ParseNumConstraint(dev.num.value) == Some(c)
    ensures OpenIpDialog(a, deviceType).Ok? <==> dev.ipAddr.Some? && dev.ipAddr.value != []
    ensures OpenIpDialog(a, deviceType).Ok? ==> OpenIpDialog(a, deviceType).value == IpDialog(c, dev.ipAddr.value, dev.target.GetOr([]))
  {
  }

  // ------------------------------------------------------------------
  // on_apply

  /** The dropdown values that are set, in row order. */
  function CollectTargets(values: seq<Option<string>>): (r: seq<string>)
    ensures |r| <= |values|
    ensures forall x <- r :: x != ""
    ensures (forall v <- values :: v.Some? && v.value != "") ==> |r| == |values|
  {
    if values == [] then []
    else
      assert forall v <- values[1..] :: v in values;
      (if values[0].Some? && values[0].value != "" then [values[0].value] else []) + CollectTargets(values[1..])
  }

  /** The rows are read one after another. */
  lemma {:induction false} CollectTargetsAppend(a: seq<Option<string>>, b: seq<Option<string>>)
    ensures CollectTargets(a + b) == CollectTargets(a) + CollectTargets(b)
  {
    if a == [] {
      assert a + b == b;
    } else {
      assert (a + b)[0] == a[0];
      assert (a + b)[1..] == a[1..] + b;
      CollectTargetsAppend(a[1..], b);
    }
  }

  /** Every chosen value is collected and every collected value was chosen. */
  lemma {:induction false} CollectTargetsMembers(values: seq<Option<string>>, x: string)
    ensures x in CollectTargets(values) <==> x != "" && Some(x) in values
  {
    if values != [] {
      CollectTargetsMembers(values[1..], x);
      assert values == [values[0]] + values[1..];
    }
  }

  /** The targets `on_apply` saves, or the minimum it reports when fewer were
      chosen. Neither the maximum nor repeated addresses are checked here. */
  function ApplyTargets(values: seq<Option<string>>, c: Constraints): (r: Result<seq<string>, int>)
    ensures r.Ok? <==> |CollectTargets(values)| >= c.minConnections
    ensures r.Ok? ==> r.value == CollectTargets(values)
    ensures r.Err? ==> r.error == c.minConnections
  {
    var targets := CollectTargets(values);
    if |targets| < c.minConnections then Err(c.minConnections) else Ok(targets)
  }

  /** The outcome depends on the minimum alone. */
  lemma ApplyIgnoresMaxAndDuplicates(values: seq<Option<string>>, c: Constraints, maxC: Option<int>, allow: bool)
    ensures ApplyTargets(values, c) == ApplyTargets(values, Constraints(c.minConnections, maxC, allow))
  {
  }

  /** A repeated address above the maximum is still applied. */
  lemma ApplyAcceptsWhatTheValidatorRejects()
    ensures ApplyTargets([Some("10.0.0.1"), Some("10.0.0.1")], Constraints(0, Some(1), false))
         == Ok(["10.0.0.1", "10.0.0.1"])
  {
    var one := [Some("10.0.0.1")];
    assert one[1..] == [];
    assert CollectTargets(one) == ["10.0.0.1"];
    CollectTargetsAppend(one, one);
    assert one + one == [Some("10.0.0.1"), Some("10.0.0.1")];
    assert CollectTargets([Some("10.0.0.1"), Some("10.0.0.1")]) == ["10.0.0.1"] + ["10.0.0.1"];
    assert ["10.0.0.1"] + ["10.0.0.1"] == ["10.0.0.1", "10.0.0.1"];
  }

  /** `on_apply`: when enough targets are chosen they replace the device's
      `target` through `update_settings_json`; otherwise nothing is saved. */
  function ApplyToProject(p: Project, values: seq<Option<string>>, c: Constraints, serviceOrHost: string, appName: string, deviceType: string)
    : (r: Result<(Project, bool), int>)
    ensures r.Err? <==> |CollectTargets(values)| < c.minConnections
    ensures r.Ok? && r.value.1 ==>
      var dev := DeviceAt(r.value.0, TargetRef(serviceOrHost, appName), deviceType);
      dev.Some? && dev.value.target == Some(CollectTargets(values))
    ensures r.Ok? && !r.value.1 ==> r.value.0 == p
  {
    match ApplyTargets(values, c)
    case Err(m) => Err(m)
    case Ok(targets) => Ok(UpdateSettingsJson(p, targets, serviceOrHost, appName, deviceType))
  }

  // ------------------------------------------------------------------
  // show_data_path_dialog

  /** Where the scan of the `data_roots` list stopped: at the first string
      entry containing the root's name, at its end, or at a non-string entry,
      on which `Path()` raises. */
  datatype Scan = Found(index: nat) | NotFound | Broken(index: nat)

  function ScanRoots(roots: seq<DataRoot>, dataRoot: string): (r: Scan)
    ensures r.Found? ==> r.index < |roots| && roots[r.index].RootPath? && Contains(roots[r.index].path, dataRoot)
    ensures r.Broken? ==> r.index < |roots| && roots[r.index].RootOther?
    ensures r.Found? || r.Broken? ==>
      forall k :: 0 <= k < r.index ==> roots[k].RootPath? && !Contains(roots[k].path, dataRoot)
    ensures r.NotFound? ==> forall k :: 0 <= k < |roots| ==> roots[k].RootPath? && !Contains(roots[k].path, dataRoot)
  {
    if roots == [] then NotFound
    else if roots[0].RootOther? then Broken(0)
    else if Contains(roots[0].path, dataRoot) then Found(0)
    else
      match ScanRoots(roots[1..], dataRoot)
      case Found(i) => Found(i + 1)
      case NotFound => NotFound
      case Broken(i) => Broken(i + 1)
  }

  /** The scan stops at the first entry that matches or is not a string. */
  lemma {:induction false} ScanRootsAt(roots: seq<DataRoot>, dataRoot: string, i: nat)
    requires i < |roots|
    requires forall k :: 0 <= k < i ==> roots[k].RootPath? && !Contains(roots[k].path, dataRoot)
    ensures roots[i].RootOther? ==> ScanRoots(roots, dataRoot) == Broken(i)
    ensures roots[i].RootPath? && Contains(roots[i].path, dataRoot) ==> ScanRoots(roots, dataRoot) == Found(i)
  {
    if i > 0 {
      ScanRootsAt(roots[1..], dataRoot, i - 1);
    }
  }

  /** The loop over `data_roots`: the first entry containing the root's name
      is replaced by the chosen path, otherwise the path is appended; `None`
      when a non-string entry is reached first. */
  function ReplaceOrAppend(roots: seq<DataRoot>, dataRoot: string, chosen: string): (r: Option<seq<DataRoot>>)
    ensures r.None? <==> ScanRoots(roots, dataRoot).Broken?
    ensures ScanRoots(roots, dataRoot).Found? ==> r == Some(roots[ScanRoots(roots, dataRoot).index := RootPath(chosen)])
    ensures ScanRoots(roots, dataRoot).NotFound? ==> r == Some(roots + [RootPath(chosen)])
  {
    match ScanRoots(roots, dataRoot)
    case Found(i) => Some(roots[i := RootPath(chosen)])
    case NotFound => Some(roots + [RootPath(chosen)])
    case Broken(_) => None
  }

  /** Choosing the same directory again changes nothing more, as long as the
      chosen path contains the root's name. */
  lemma ReplaceOrAppendIdempotent(roots: seq<DataRoot>, dataRoot: string, chosen: string)
    requires Contains(chosen, dataRoot)
    requires ReplaceOrAppend(roots, dataRoot, chosen).Some?
    ensures ReplaceOrAppend(ReplaceOrAppend(roots, dataRoot, chosen).value, dataRoot, chosen)
         == ReplaceOrAppend(roots, dataRoot, chosen)
  {
    var rs := ReplaceOrAppend(roots, dataRoot, chosen).value;
    match ScanRoots(roots, dataRoot)
    case Found(i) =>
      ScanRootsAt(rs, dataRoot, i);
      assert rs[i := RootPath(chosen)] == rs;
    case NotFound =>
      ScanRootsAt(rs, dataRoot, |roots|);
      assert rs[|roots| := RootPath(chosen)] == rs;
  }

  /** The chosen path ends up in the list, and no other entry moves or changes. */
  lemma ReplaceOrAppendKeepsOthers(roots: seq<DataRoot>, dataRoot: string, chosen: string)
    requires ReplaceOrAppend(roots, dataRoot, chosen).Some?
    ensures RootPath(chosen) in ReplaceOrAppend(roots, dataRoot, chosen).value
    ensures var rs := ReplaceOrAppend(roots, dataRoot, chosen).value;
      forall k :: 0 <= k < |roots| && roots[k] != rs[k] ==> ScanRoots(roots, dataRoot) == Found(k)
  {
    var rs := ReplaceOrAppend(roots, dataRoot, chosen).value;
    match ScanRoots(roots, dataRoot)
    case Found(i) => assert rs[i] == RootPath(chosen);
    case NotFound => assert rs[|roots|] == RootPath(chosen);
  }

  /** Why a chosen directory was not saved. */
  datatype DataPathError = Cancelled | WrongDirectory(selected: string) | UpdateFailed

  /** The app with its data roots edited for the chosen path. */
  function EditRoots(a: App, dataRoot: string, chosen: string): (r: Option<App>)
    ensures r.Some? <==> ReplaceOrAppend(a.dataRoots.GetOr([]), dataRoot, chosen).Some?
    ensures r.Some? ==> r.value == a.(dataRoots := ReplaceOrAppend(a.dataRoots.GetOr([]), dataRoot, chosen))
  {
    match ReplaceOrAppend(a.dataRoots.GetOr([]), dataRoot, chosen)
    case None => None
    case Some(rs) => Some(a.(dataRoots := Some(rs)))
  }

  /** `on_dialog_result` of the data-path dialog: the project it writes back,
      or why it writes nothing. The directory's name must equal the root's
      name. A desktop app is looked up under `host_machine.apps`, which must
      exist; a container app under the service named by the container. An app
      that is not found leaves the project as it was. */
  function SetDataPath(p: Project, owner: Owner, appName: string, composeDir: string, dataRoot: string, chosen: string)
    : (r: Result<Project, DataPathError>)
    ensures chosen == "" ==> r == Err(Cancelled)
    ensures chosen != "" && Name(chosen) != dataRoot ==> r == Err(WrongDirectory(Name(chosen)))
    ensures r.Ok? ==> chosen != "" && Name(chosen) == dataRoot
    ensures r.Ok? && (OwnerRef(owner, appName, composeDir).None? || AppAt(p, OwnerRef(owner, appName, composeDir).value).None?) ==>
      r.value == p
  {
    if chosen == "" then Err(Cancelled)
    else if Name(chosen) != dataRoot then Err(WrongDirectory(Name(chosen)))
    else if owner.DesktopOwner? && p.desktopApps.Some? && p.desktopApps.value.hostMachine.Some?
            && p.desktopApps.value.hostMachine.value.apps.None? then Err(UpdateFailed)
    else
      match OwnerRef(owner, appName, composeDir)
      case None => Ok(p)
      case Some(ref) =>
        match AppAt(p, ref)
        case None => Ok(p)
        case Some(a) =>
          match EditRoots(a, dataRoot, chosen)
          case None => Err(UpdateFailed)
          case Some(a') => Ok(WithApp(p, ref, a'))
  }

  /** Saving a data path edits the roots of the one app the dialog belongs to;
      every other app reads as before. */
  lemma SetDataPathEditsOneApp(p: Project, owner: Owner, appName: string, composeDir: string, dataRoot: string, chosen: string, other: AppRef)
    requires SetDataPath(p, owner, appName, composeDir, dataRoot, chosen).Ok?
    requires OwnerRef(owner, appName, composeDir).Some?
    ensures var ref := OwnerRef(owner, appName, composeDir).value;
      var r := SetDataPath(p, owner, appName, composeDir, dataRoot, chosen).value;
      && (other != ref ==> AppAt(r, other) == AppAt(p, other))
      && (AppAt(p, ref).Some? ==> AppAt(r, ref) == EditRoots(AppAt(p, ref).value, dataRoot, chosen))
  {
    var ref := OwnerRef(owner, appName, composeDir).value;
    if AppAt(p, ref).Some? {
      WithAppReads(p, ref, EditRoots(AppAt(p, ref).value, dataRoot, chosen).value, other);
    }
  }

  /** Editing an app's roots a second time for the same directory changes nothing. */
  lemma EditRootsIdempotent(a: App, dataRoot: string, chosen: string)
    requires Name(chosen) == dataRoot
    requires EditRoots(a, dataRoot, chosen).Some?
    ensures EditRoots(EditRoots(a, dataRoot, chosen).value, dataRoot, chosen) == EditRoots(a, dataRoot, chosen)
  {
    NameOccursIn(chosen);
    ReplaceOrAppendIdempotent(a.dataRoots.GetOr([]), dataRoot, chosen);
  }

  /** Choosing the same directory twice saves what choosing it once saved. */
  lemma SetDataPathIdempotent(p: Project, owner: Owner, appName: string, composeDir: string, dataRoot: string, chosen: string)
    requires SetDataPath(p, owner, appName, composeDir, dataRoot, chosen).Ok?
    ensures SetDataPath(SetDataPath(p, owner, appName, composeDir, dataRoot, chosen).value, owner, appName, composeDir, dataRoot, chosen)
         == SetDataPath(p, owner, appName, composeDir, dataRoot, chosen)
  {
    var ref := OwnerRef(owner, appName, composeDir);
    if ref.Some? && AppAt(p, ref.value).Some? {
      var a1 := EditRoots(AppAt(p, ref.value).value, dataRoot, chosen).value;
      EditRootsIdempotent(AppAt(p, ref.value).value, dataRoot, chosen);
      var p1 := WithApp(p, ref.value, a1);
      WithAppReads(p, ref.value, a1, ref.value);
      WithAppSame(p1, ref.value, a1);
    }
  }

  // ------------------------------------------------------------------
  // update_apps_card

  /** The host port shown for a container app: the runtime's mapping of the
      app's `container_port`, when that port is set (not 0) and mapped. */
  function HostPort(containerPort: Option<int>, ports: map<int, string>): (r: string)
    ensures r != "" ==> containerPort.Some? && containerPort.value != 0 && containerPort.value in ports
    ensures containerPort.Some? && containerPort.value != 0 && containerPort.value in ports ==> r == ports[containerPort.value]
  {
    match containerPort
    case None => ""
    case Some(cp) => if cp != 0 && cp in ports then ports[cp] else ""
  }

  /** The browser button is enabled only for a running container with a host port. */
  function BrowserEnabled(state: string, hostPort: string): (r: bool)
    ensures r <==> Lower(state) == "running" && hostPort != ""
  {
    !(Lower(state) != "running" || hostPort == "")
  }

  /** A browser can be opened only from a card that shows a stop button and a
      bright green border. */
  lemma BrowserOnlyWhenRunning(state: string, containerPort: Option<int>, ports: map<int, string>)
    requires BrowserEnabled(state, HostPort(containerPort, ports))
    ensures ControlIcon(state) == StopCircle
    ensures CardColour(state) == Green400
    ensures containerPort.Some? && containerPort.value in ports
  {
    CardAgreesWithIcon(state);
  }

  // ------------------------------------------------------------------
  // on_container_dialog_result and refresh_container_status

  /** The steps a chosen build context sets off. */
  datatype SetupStep = CloneRepositories | CloneDockerfiles | SetUpDesktopApps | GenerateCompose | Refresh

  /** Rank of a step in the fixed order the handler runs them. */
  function StepRank(s: SetupStep): nat {
    match s
    case CloneRepositories => 0
    case CloneDockerfiles => 1
    case SetUpDesktopApps => 2
    case GenerateCompose => 3
    case Refresh => 4
  }

  /** The desktop layout, when `desktop_apps` is present, is laid out
      without an exception. */
  predicate DesktopSetupOk(p: Project, composeDir: string) {
    p.desktopApps.None? || DesktopAppsLayout.SetupDesktopApps(composeDir, p.desktopApps.value).error.None?
  }

  /** `generator.save` runs, when `services` is non-empty, without an exception. */
  predicate ComposeSaveOk(p: Project) {
    p.services.GetOr([]) == [] || Compose.Generate(p).Ok?
  }

  /** The steps started, given which keys are present and which actions
      succeed: a failed action stops everything after it. */
  function StepsRun(hasDesktop: bool, hasServices: bool, reposCloned: bool, dockerfilesCloned: bool,
                    desktopOk: bool, composeOk: bool): (r: seq<SetupStep>)
    ensures |r| > 0 && r[0] == CloneRepositories
    ensures !reposCloned ==> r == [CloneRepositories]
    ensures CloneDockerfiles in r <==> reposCloned
    ensures SetUpDesktopApps in r <==> reposCloned && dockerfilesCloned && hasDesktop
    ensures GenerateCompose in r <==> reposCloned && dockerfilesCloned && desktopOk && hasServices
    ensures Refresh in r <==> reposCloned && dockerfilesCloned && desktopOk && composeOk
    ensures forall i, j :: 0 <= i < j < |r| ==> StepRank(r[i]) < StepRank(r[j])
  {
    if !reposCloned then [CloneRepositories]
    else if !dockerfilesCloned then [CloneRepositories, CloneDockerfiles]
    else
      var desktop := if hasDesktop then [SetUpDesktopApps] else [];
      if !desktopOk then [CloneRepositories, CloneDockerfiles] + desktop
      else
        var compose := if hasServices then [GenerateCompose] else [];
        if !composeOk then [CloneRepositories, CloneDockerfiles] + desktop + compose
        else [CloneRepositories, CloneDockerfiles] + desktop + compose + [Refresh]
  }

  /** The steps started after `project_info.json` is read, given whether each
      clone succeeds: a failed clone stops everything after it, the desktop
      layout needs `desktop_apps`, Compose generation needs a non-empty
      `services`, and an exception in either ends the setup in the error
      dialog before the next step. */
  function SetupSteps(p: Project, composeDir: string, reposCloned: bool, dockerfilesCloned: bool): (r: seq<SetupStep>)
    ensures |r| > 0 && r[0] == CloneRepositories
    ensures !reposCloned ==> r == [CloneRepositories]
    ensures CloneDockerfiles in r <==> reposCloned
    ensures SetUpDesktopApps in r <==> reposCloned && dockerfilesCloned && p.desktopApps.Some?
    ensures GenerateCompose in r <==>
      reposCloned && dockerfilesCloned && DesktopSetupOk(p, composeDir) && p.services.GetOr([]) != []
    ensures Refresh in r <==>
      reposCloned && dockerfilesCloned && DesktopSetupOk(p, composeDir) && ComposeSaveOk(p)
  {
    StepsRun(p.desktopApps.Some?, p.services.GetOr([]) != [], reposCloned, dockerfilesCloned,
             DesktopSetupOk(p, composeDir), ComposeSaveOk(p))
  }

  /** The steps that start do so in their fixed order, each at most once. */
  lemma SetupStepsOrdered(p: Project, composeDir: string, reposCloned: bool, dockerfilesCloned: bool)
    ensures var r := SetupSteps(p, composeDir, reposCloned, dockerfilesCloned);
      forall i, j :: 0 <= i < j < |r| ==> StepRank(r[i]) < StepRank(r[j])
  {
  }

  /** After both clones succeed, the refresh happens exactly when the desktop
      layout succeeds and, when there are services, every one of them can be
      turned into a Compose service; one service without `user`, `Dockerfile`
      or apps is enough to end the setup before the refresh. */
  lemma SetupRefreshesIffServicesReady(p: Project, composeDir: string)
    requires p.services.Some? && p.services.value != [] && DistinctKeys(p.services.value)
    ensures Refresh in SetupSteps(p, composeDir, true, true) <==>
      && DesktopSetupOk(p, composeDir)
      && forall i :: 0 <= i < |p.services.value| ==> Compose.ServiceReady(p.services.value[i].1)
  {
    Compose.GenerateServices(p);
  }

  /** A card of the refreshed list. */
  datatype Card = DesktopCard | ContainerCard(name: string)

  /** The cards `refresh_container_status` lists: the desktop card first when
      there are desktop apps, then one card per reported container, in the
      runtime's order, only when `services` is non-empty. */
  function RefreshCards(p: Project, containers: seq<string>): (r: seq<Card>)
    ensures DesktopCard in r <==> p.desktopApps.Some?
    ensures p.desktopApps.Some? ==> r[0] == DesktopCard
    ensures p.services.GetOr([]) == [] ==> forall c <- r :: c == DesktopCard
    ensures p.services.GetOr([]) != [] ==>
      |r| == (if p.desktopApps.Some? then 1 else 0) + |containers|
      && forall k :: 0 <= k < |containers| ==> r[|r| - |containers| + k] == ContainerCard(containers[k])
  {
    (if p.desktopApps.Some? then [DesktopCard] else [])
    + (if p.services.GetOr([]) != [] then ContainerCards(containers) else [])
  }

  function ContainerCards(names: seq<string>): (r: seq<Card>)
    ensures |r| == |names|
    ensures forall k :: 0 <= k < |names| ==> r[k] == ContainerCard(names[k])
  {
    if names == [] then [] else [ContainerCard(names[0])] + ContainerCards(names[1..])
  }

  /** The desktop card precedes every container card. */
  lemma DesktopCardFirst(p: Project, containers: seq<string>, i: nat, j: nat)
    requires var r := RefreshCards(p, containers);
      i < |r| && j < |r| && r[i] == DesktopCard && r[j].ContainerCard?
    ensures i < j
  {
  }
}
