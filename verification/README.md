# Mochimaki project model in Dafny

Mochimaki is a desktop tool that reads a declarative `project_info.json`. That
file lists Compose services with their apps, and desktop apps on the host
machine. From it the tool derives:

- `docker-compose.yml`;
- per-container `container_info.json` and `app_info.json` files;
- a desktop-app directory layout;
- a Mermaid system graph.

It also edits the project through a few dialogs: device IP pools and targets,
and data-root paths. This project models that decision logic as pure Dafny
functions over an immutable project value, and proves what each step promises.

Modules, one per concern of the source:

- `Wrappers`, `Text`, `Paths`, `Dicts`: the `Option`/`Result` types and the
  parts of Python's `str`, `int()`, `pathlib` and `dict` the source relies on.
  Dictionaries are ordered association lists, because Python's insertion order
  decides which app is "last" and the order of ports and volumes.
- `ProjectModel`: the typed model of `project_info.json`. A key the source
  tests with `in` or `.get` is an `Option`. This module also addresses one app
  of the project and writes it back.
- `ContainerUtils`: `extract_service_name` and the `container_info` fan-out of
  `parse_project_info`. The fan-out is a map from file path to file content.
- `IpSettings`: IPv4 validation and `ip_to_int`, the `"min:max:flag"`
  constraint, selection validation, and the targeted `target` update.
- `IpPool`: the IP-pool editor. It validates input, adds and removes
  addresses, sorts by address, and saves the pool to every app using the
  device.
- `Compose`: `DockerComposeGenerator`. It produces the service
  configurations, volumes, ports and the generated shell script, and performs
  the `replace_command` rewrite of the dumped YAML.
- `RuntimeFold`: the write-back of container ids and images reported by the
  runtime.
- `DesktopAppsLayout`: the start command and the symlink and `app_info.json`
  plan of `setup_desktop_apps_directory`.
- `SystemGraph`: the Mermaid graph, with nodes deduplicated by (label, type),
  consecutive `N<k>` ids, and its line layout.
- `Classifiers`: container state to label, icon and card colour, and the
  data-root basenames.
- `UiRules`: the rules embedded in the UI handlers:
  - opening the IP dialog and applying it;
  - the data-path dialog's replace-or-append;
  - the host port shown on a card;
  - the order of the setup steps and of the refreshed cards.

File I/O becomes values. The loaded `project_info.json` is an argument, a file
that is written is an output value, and a failure the source catches is an
`Err`/`None`. What the container runtime reports is a parameter
(`RuntimeFold.ContainerFact`), and so is the outcome of each clone step.

The docstring of `extract_service_name` (`utils/container_utils.py:68-70`)
gives an example the code does not honour. The model follows the code;
`ContainerUtils.ExtractServiceNameDocExampleRejected` proves that the
example's input yields `None`.

## Model

| member | source | states |
|---|---|---|
| ContainerUtils.TrailingDigits | utils/container_utils.py:84 | the length of the digit run `\d+$` can match at the end of a name: every character in it is a digit, and the character before it is not |
| ContainerUtils.TrailingDigitsOfIndex | utils/container_utils.py:84 | after `base-<digits>` the trailing run is exactly the replica index, however `base` ends |
| ContainerUtils.StripReplicaRoundTrip | utils/container_utils.py:84 | removing the replica suffix from `base-<digits>` gives back `base`, also when one final newline follows (Python's `$` matches before it) |
| ContainerUtils.StripReplicaKeepsPlain | utils/container_utils.py:84 | a name with no trailing `-<digits>` is left unchanged |
| ContainerUtils.ExtractServiceName | utils/container_utils.py:74-90 | there is no service name exactly when the container name does not start with the compose directory's basename followed by `-` |
| ContainerUtils.ExtractAfterPrefix | utils/container_utils.py:81-86 | once the prefix is there, the service name is the rest of the name with only its replica suffix removed |
| ContainerUtils.ExtractServiceNameRoundTrip | utils/container_utils.py:74-86 | for every service and every non-empty digit index, `{project}-{service}-{n}` gives back the service |
| ContainerUtils.ExtractServiceNameKeepsPlain | utils/container_utils.py:81-86 | a remainder without a trailing `-<digits>` is returned unchanged |
| ContainerUtils.ExtractServiceNameKeepsInnerDashes | utils/container_utils.py:81-84 | `myproj-web-v2-1` in `/any/myproj` gives `web-v2`: only the final dash and digits go |
| ContainerUtils.ExtractServiceNameDocExampleRejected | utils/container_utils.py:68-78 | the docstring's example input yields no name, because `my-project-web-1` does not start with `project-` |
| ContainerUtils.ParseProjectInfo | utils/container_utils.py:12-56 | a missing or malformed file, or a missing `services` key, is reported and writes no file; every loaded project with `services` is fanned out without error |
| ContainerUtils.AppFilesDomain | utils/container_utils.py:41-49 | the files written for a service's apps are exactly one `app_info.json` per declared app |
| ContainerUtils.AppFilesValue | utils/container_utils.py:46-49 | each app's `app_info.json` holds that app's record verbatim |
| ContainerUtils.PathKindsDiffer | utils/container_utils.py:25-47 | a `container_info.json` path never coincides with an `app_info.json` path, so neither kind of file overwrites the other |
| ContainerUtils.ParseProjectInfoDomain | utils/container_utils.py:23-49 | the files written are exactly the `container_info.json` of each service and the `app_info.json` of each of its apps |
| ContainerUtils.ParseProjectInfoContainerInfo | utils/container_utils.py:28-38 | each service's `container_info.json` holds its name and its image, id and Dockerfile, with `''` for an absent key, and its apps, with `{}` when absent |
| ContainerUtils.ParseProjectInfoAppInfo | utils/container_utils.py:40-49 | each (service, app) pair gets its own `app_info.json` holding the app's record |
| IpSettings.IpToInt | utils/ip_settings.py:16-22 | for a valid dotted quad the value is a·2^24 + b·2^16 + c·2^8 + d and lies below 2^32; a part that does not parse gives 0 |
| IpSettings.ShiftedSumOfQuad | utils/ip_settings.py:20 | the sum of the four shifted parts is the positional base-256 value, below 2^32 when every part is an octet |
| IpSettings.QuadTextSplits | utils/ip_settings.py:9 | splitting a rendered quad on `.` gives back the four rendered numbers |
| IpSettings.QuadRoundTrip | utils/ip_settings.py:6-22 | every quad of octets, rendered with dots, is a valid IPv4 address and converts to its positional value |
| IpSettings.ParseNumConstraint | utils/ip_settings.py:105-111 | a constraint is read exactly when the text splits on `:` into three fields whose first and last are integers and whose middle is empty or an integer; it holds that minimum, that maximum (none for an empty field), and "duplicates allowed" exactly when the flag is non-zero, as `bool(int(…))` reads it |
| IpSettings.ParseFields | utils/ip_settings.py:106-111 | three fields give a constraint exactly when the minimum, the maximum and the flag each convert; the values are the converted minimum and maximum and a flag that is true iff non-zero |
| IpSettings.ParseMax | utils/ip_settings.py:109 | the maximum is "none" exactly for an empty field; any other field must be an integer, and that integer is the maximum |
| IpSettings.ParseFieldsOfText | utils/ip_settings.py:106-111 | the three fields rendered from a constraint parse back to that constraint |
| IpSettings.NumConstraintRoundTrip | utils/ip_settings.py:106-111 | every constraint written as `min:max:flag` parses back to itself |
| IpSettings.NumConstraintAnyFlag | utils/ip_settings.py:106-111 | for every minimum, maximum and integer flag, the rendered fields parse back with "duplicates allowed" exactly when the flag is non-zero |
| IpSettings.IntToStringHasNoColon | utils/ip_settings.py:106 | a rendered number contains no `:`, so the rendered constraint splits into exactly three fields |
| IpSettings.GetDeviceConstraints | utils/ip_settings.py:92-114 | for an existing device of the service app, the result is exactly the parse of its `num` (none when `num` is absent or malformed); no device, no constraint |
| IpSettings.CountSelections | utils/ip_settings.py:142-144 | the counted keys are exactly the selected addresses, each count is the address's multiplicity, and the counts add up to the number selected |
| IpSettings.ValidateIpSelections | utils/ip_settings.py:116-148 | the below-minimum message appears iff fewer than the minimum are selected, the above-maximum one iff a maximum is given and exceeded, and no other message appears; the duplicates are exactly the addresses selected more than once; the counts are as in `CountSelections` |
| IpSettings.UpdateSettingsJson | utils/ip_settings.py:24-54 | succeeds exactly when the named app has the named device, and then replaces that device's `target` and nothing else: putting the old device back into the app and the old app back into the project gives the original project exactly; the app's other devices and fields and every other app read as before; on failure the project is unchanged |
| IpPool.SortBySorted | utils/ip_settings.py:198 | insertion by key leaves the list ordered by key |
| IpPool.SortByPermutes | utils/ip_settings.py:198 | sorting neither loses nor adds an address: the result is a permutation |
| IpPool.InsertByStable | utils/ip_settings.py:198 | insertion into a sorted list places the new entry after every entry of the same key |
| IpPool.SortByStable | utils/ip_settings.py:198 | the sort is stable: for every key, the entries with that key keep their input order |
| IpPool.SortedByKeyClasses | utils/ip_settings.py:198 | two lists in key order that agree, key by key, on their entries in order are the same list |
| IpPool.SortByAddress | utils/ip_settings.py:153 | `sorted(…, key=ip_to_int)`: ordered by numeric address, a permutation of its input, and stable — the entries with the same numeric value keep their input order |
| IpPool.SortByAddressUnique | utils/ip_settings.py:153 | any arrangement in address order that keeps tied entries (such as `01.2.3.4` and `1.2.3.4`, or entries that do not parse) in input order is the sorted pool, so `sorted` has exactly one result |
| IpPool.SortKeepsNoDuplicates | utils/ip_settings.py:282 | sorting a duplicate-free pool keeps it duplicate-free |
| IpPool.ValidateInput | utils/ip_settings.py:180-191 | input is accepted iff it is non-empty, a valid IPv4 address and not yet in the pool; empty input is reported as such |
| IpPool.AddIpAddress | utils/ip_settings.py:259-271 | the stripped input is accepted or refused exactly as `validate_input` decides; an accepted address is valid and appended, a refused one leaves the pool as it was; a duplicate-free pool stays duplicate-free |
| IpPool.RemoveIpAddress | utils/ip_settings.py:252-257 | an address not in the pool changes nothing; otherwise its first occurrence is dropped and the other entries keep their order; one occurrence leaves the multiset |
| IpPool.RemoveCounts | utils/ip_settings.py:255-256 | dropping the first occurrence, or nothing when there is none, removes exactly one occurrence from the multiset |
| IpPool.RemoveKeepsNoDuplicates | utils/ip_settings.py:252-257 | from a duplicate-free pool the address is gone afterwards, and the pool stays duplicate-free |
| IpPool.OpenEditor | utils/ip_settings.py:153 | the editor opens on the current pool sorted by address, with the same entries, equal addresses in their stored order |
| IpPool.PoolInApps | utils/ip_settings.py:286-288 | every app keeps its key and position, and each is updated through `WithPool` |
| IpPool.PoolInServices | utils/ip_settings.py:291-295 | every service keeps its key and position, and only its apps are updated |
| IpPool.SaveChanges | utils/ip_settings.py:273-306 | saving keeps the presence and the keys of `services` |
| IpPool.GetPoolInApps | utils/ip_settings.py:286-288 | looking up an app after the update gives the updated app, or nothing if it was not there |
| IpPool.GetPoolInServices | utils/ip_settings.py:291-295 | looking up a service after the update gives it with its apps updated, or nothing if it was not there |
| IpPool.SaveChangesReachesEveryApp | utils/ip_settings.py:282-295 | every desktop app and every service app is given the sorted pool for that device type; apps that did not exist still do not |
| IpPool.WithPoolSetsPool | utils/ip_settings.py:287-288 | an app using the device type still uses it, and its `ip_addr` is the given pool |
| IpPool.SavedPoolIsSortedEdit | utils/ip_settings.py:282-295 | after saving, every app using the device holds the edited pool sorted by address, as a permutation of the edit |
| Compose.NonEmpty | utils/generate_docker_compose.py:143 | `filter(None, …)` keeps exactly the non-empty fragments, and nothing else |
| Compose.NonEmptyKeepsAll | utils/generate_docker_compose.py:143 | a list without empty fragments passes the filter unchanged |
| Compose.Slashes | utils/generate_docker_compose.py:27-29 | no backslash remains, and every other character keeps its place |
| Compose.NormalPath | utils/generate_docker_compose.py:27-29 | a normalised path starts at the root and holds no backslash |
| Compose.NormalPathOfPlainComponents | utils/generate_docker_compose.py:27-29 | for components without backslashes, normalisation leaves the joined path as it is |
| Compose.ContainerAppPath | utils/generate_docker_compose.py:33 | the app directory in the container starts at the root and holds no backslash |
| Compose.DataDir | utils/generate_docker_compose.py:40 | a data root's container directory starts at the root and holds no backslash |
| Compose.RootPaths | utils/generate_docker_compose.py:39-40 | the data roots are read as their paths, in order; a non-string root makes `Path()` fail |
| Compose.DataDirs | utils/generate_docker_compose.py:39-40 | one container directory per data root, in order, each named after its root and normalised to forward slashes |
| Compose.RootLinesAt | utils/generate_docker_compose.py:41-45 | each directory gets its three lines in order: `chmod 777` on the directory, then on its sub-directories, then `chmod 666` on its files |
| Compose.RootPermissionLinesAt | utils/generate_docker_compose.py:38-45 | the k-th data root's three permission lines name the root's normalised directory under the app |
| Compose.AppPermissionLines | utils/generate_docker_compose.py:32-45 | an app gets the file `chmod` that spares `app_info.json` and `container_info.json`, then the directory `chmod`, both on the app directory normalised to forward slashes, then three lines per data root; it fails iff a root is not a path string |
| Compose.PermissionLines | utils/generate_docker_compose.py:25-46 | two lines per app plus three per data root, starting with the first app's file `chmod` on its normalised directory; it fails exactly when some data root is not a path string |
| Compose.AppVenvLines | utils/generate_docker_compose.py:53-65 | six lines per app, opening with the app's setup message; a missing `venv` is reported before a missing `main` |
| Compose.VenvSetupLines | utils/generate_docker_compose.py:48-66 | six lines per app; it fails exactly when some app lacks `venv` or `main` |
| Compose.Venvs | utils/generate_docker_compose.py:72-73 | the `venv` of every app in app order, failing exactly when one is missing |
| Compose.PathBlock | utils/generate_docker_compose.py:79-84 | a venv's `PYTHONPATH` block is its comment, the export of the venv's search path as `PYTHONPATH_<venv>`, and the echo that prints it |
| Compose.SearchPathOrder | utils/generate_docker_compose.py:78-82 | read back as a `:`-separated search path, the export lists the four system dist- and site-packages directories first, in order, and the venv's own site-packages last |
| Compose.PythonpathLines | utils/generate_docker_compose.py:68-85 | the blocks fail exactly when some app lacks `venv` |
| Compose.FirstOccurrences | utils/generate_docker_compose.py:71-77 | the reference list of distinct venvs: no venv twice, and exactly the venvs that occur in the input |
| Compose.PathBlocksFromUnseen | utils/generate_docker_compose.py:71-84 | the loop, with its `used_venvs` set, writes the blocks of exactly the venvs not yet seen, in order |
| Compose.UnseenAreFirstOccurrences | utils/generate_docker_compose.py:71-77 | the venvs not yet seen after a prefix are exactly what the first occurrences of the whole list add to those of the prefix |
| Compose.PythonpathOncePerVenv | utils/generate_docker_compose.py:68-85 | one `PYTHONPATH` block per distinct venv, in first-occurrence order |
| Compose.StartCommand | utils/generate_docker_compose.py:89-104 | an app's launch line ends with `&` unless it is the last key, in which case it runs in the foreground; a missing `main` is reported before a missing `venv` |
| Compose.StartLines | utils/generate_docker_compose.py:87-105 | one launch line per app in app order, each judged against the last key; it fails exactly when some app lacks `venv` or `main` |
| Compose.StartLinesBackground | utils/generate_docker_compose.py:93-94 | with distinct keys, every line but the last ends with `&` and the last does not |
| Compose.ServiceCommandErrors | utils/generate_docker_compose.py:107-109 | a service without apps cannot be given a command; when the first app has no `venv`, that is the error |
| Compose.ServiceCommandOk | utils/generate_docker_compose.py:107-144 | the command is generated exactly when there are apps and each has `venv` and `main` and path-string data roots |
| Compose.ServiceCommandScript | utils/generate_docker_compose.py:116-144 | the command is `/bin/bash -c '<script>'`, where the script is `set -e`, the fixed lines and the four generated blocks, flattened into one list of lines in order and joined by newlines |
| Compose.DataMounts | utils/generate_docker_compose.py:161-164 | one `host_path:container_path` mount per data root, in order |
| Compose.AppVolumes | utils/generate_docker_compose.py:152-164 | an app's mounts are its program directory (named by the stem of `main`), then its `app_info.json`, then one per data root, with the host path verbatim |
| Compose.AppsVolumes | utils/generate_docker_compose.py:152-164 | two mounts per app plus one per data root; it fails exactly when an app lacks `main` or has a non-path root |
| Compose.Volumes | utils/generate_docker_compose.py:146-166 | `version_info` and `container_info.json` come first, then the apps' mounts; there are 2 + 2·apps + roots entries |
| Compose.MountPointKeepsName | utils/generate_docker_compose.py:163 | a data root is mounted under the app at a path ending in the root's basename |
| Compose.Ports | utils/generate_docker_compose.py:195-197 | one port entry per app, in app order; a missing `container_port` fails |
| Compose.PortsReadBack | utils/generate_docker_compose.py:197 | each port entry reads back as the app's `container_port` |
| Compose.ServiceConfigOk | utils/generate_docker_compose.py:178-193 | a service's configuration is generated exactly when it has `user`, `Dockerfile`, `image`, `working_dir`, a non-empty `apps` whose apps are ready for the script, and a `container_port` on every app |
| Compose.ReadyVolumes | utils/generate_docker_compose.py:146-166 | apps that are ready for the script always get their volumes |
| Compose.ServiceConfigFields | utils/generate_docker_compose.py:180-193 | build context `.`, dockerfile `./dockerfiles/{Dockerfile}/Dockerfile`, and `image`, `user` and `working_dir` copied; network `default`, environment `PYTHONPATH`; volumes, command and ports as generated |
| Compose.PutEntriesAppends | utils/generate_docker_compose.py:178-199 | storing each configuration under its service name in turn, on distinct names, gives the services in their declared order |
| Compose.Generate | utils/generate_docker_compose.py:168-201 | a project without `services` fails; the networks are `default` with driver `bridge` |
| Compose.GenerateServices | utils/generate_docker_compose.py:178-199 | generation succeeds exactly when every service is ready; the services keep their names and order, and each holds its configuration |
| Compose.IndentedLinesAreStripped | utils/generate_docker_compose.py:233-236 | each non-blank script line is kept stripped and indented by six spaces, blank lines are dropped, and the order is kept |
| Compose.ReplaceCommandLines | utils/generate_docker_compose.py:227-238 | the rewritten field reads, line by line: `command: \|`, the bash prefix line, the stripped non-blank script lines indented, and the closing `'` line |
| RuntimeFold.FirstNamed | utils/ui/app_utils.py:22-29 | finds the first reported container with that name, or reports that there is none |
| RuntimeFold.FoldService | utils/ui/app_utils.py:16-29 | a service without a report of `{project}-{service}-1` is unchanged; otherwise it takes the first such report's id, and its image only when the reported image is non-empty; no other field changes; a matched report without an `id` makes the write-back fail |
| RuntimeFold.FoldRuntimeFacts | utils/ui/app_utils.py:7-38 | a failed update of any service leaves the whole project unchanged; otherwise every service, in order and under its own name, takes its update; desktop apps are untouched and `services` keeps its presence and keys |
| RuntimeFold.FoldServiceIdempotent | utils/ui/app_utils.py:22-29 | folding the same report into an already folded service changes nothing |
| RuntimeFold.FoldRuntimeFactsIdempotent | utils/ui/app_utils.py:7-38 | running the write-back twice with the same report gives what running it once gave |
| RuntimeFold.FoldSetsReportedId | utils/ui/app_utils.py:15-29 | after a successful write-back, a service whose first replica is reported carries that report's id, and its image when the reported image is non-empty |
| DesktopAppsLayout.StartCommandLine | utils/ui/desktop_apps.py:10-18 | the command is the interpreter, a space, `main`, a space and the rendered arguments; a missing `interpreter` is reported before a missing `main` |
| DesktopAppsLayout.ArgsStringWords | utils/ui/desktop_apps.py:12-15 | the rendered arguments are the names and values, alternating, separated by single spaces |
| DesktopAppsLayout.StartCommandWords | utils/ui/desktop_apps.py:12-16 | when no part contains a space, splitting the command on spaces gives the interpreter, `main`, then each argument's name and value |
| DesktopAppsLayout.ArgWordsFree | utils/ui/desktop_apps.py:12-15 | argument names and values without spaces render into words without spaces |
| DesktopAppsLayout.RootLinks | utils/ui/desktop_apps.py:46-49 | one link per data root, in order, named by the root's basename; the plan breaks at the first non-path root |
| DesktopAppsLayout.DataRootMapValues | utils/ui/desktop_apps.py:57-60 | each recorded data root maps to the directory of its own name under the app directory |
| DesktopAppsLayout.DataRootMapKeys | utils/ui/desktop_apps.py:57-60 | every root's basename is recorded |
| DesktopAppsLayout.DataRootMapOrigin | utils/ui/desktop_apps.py:57-60 | every recorded key is some root's basename |
| DesktopAppsLayout.RecordDataRoots | utils/ui/desktop_apps.py:57-60 | the record's `data_roots` has exactly the roots' basenames as keys, each mapped to the app directory's child of that name |
| DesktopAppsLayout.AppSetup | utils/ui/desktop_apps.py:33-65 | a missing `main` is reported before anything is linked; otherwise the first action links the program directory named by the parent of `main`; the setup succeeds exactly when `interpreter` is given and every data root is a path string, and then has one action per root plus two |
| DesktopAppsLayout.AppSetupLinksRoots | utils/ui/desktop_apps.py:46-49 | a complete app gets one link per data root, in order, right after the program link, named by the root's basename |
| DesktopAppsLayout.AppSetupWritesRecord | utils/ui/desktop_apps.py:52-65 | a complete app's last action writes its record (interpreter, `main` relative to the program directory, args, devices, data-root map) into its `app_info.json` |
| DesktopAppsLayout.FailedAppSetupWritesNothing | utils/ui/desktop_apps.py:33-65 | an app whose setup raises has only created links: no `app_info.json` is written for it |
| DesktopAppsLayout.AppsSetup | utils/ui/desktop_apps.py:31-65 | the setup completes exactly when every app's setup does |
| DesktopAppsLayout.FirstFailure | utils/ui/desktop_apps.py:31-67 | the apps before the position all set up without error, and the app at it, if any, fails |
| DesktopAppsLayout.RunAppsSteps | utils/ui/desktop_apps.py:31-67 | the loop performs the actions of the apps before the first failing one, in order, then that app's own actions, and ends with its error; with no failure it performs every app's actions |
| DesktopAppsLayout.AppsSetupSteps | utils/ui/desktop_apps.py:20-68 | the desktop setup performs the actions of the host apps before the first failing one, then that app's actions, and stops with its error |
| DesktopAppsLayout.SetupDesktopApps | utils/ui/desktop_apps.py:20-68 | without `host_machine` or its `apps` nothing is generated |
| DesktopAppsLayout.SetupStepCount | utils/ui/desktop_apps.py:31-65 | a completed setup performs two steps per app plus one link per data root |
| DesktopAppsLayout.RecordMain | utils/ui/desktop_apps.py:54 | the recorded `main` is `{program directory}/{file name}` |
| SystemGraph.NodeIdInjective | utils/system_graph_viewer.py:33 | distinct counters give distinct `N<k>` ids |
| SystemGraph.FindNode | utils/system_graph_viewer.py:31-32 | the lookup finds the first node with that label and type, and finds none exactly when there is none |
| SystemGraph.AddNode | utils/system_graph_viewer.py:29-37 | an existing (label, type) leaves the graph unchanged; a new one is appended with the next counter value; edges are untouched |
| SystemGraph.AddNodeValid | utils/system_graph_viewer.py:29-37 | ids stay `0..n-1` in insertion order, and the returned id is the node of that label and type |
| SystemGraph.AddNodeIdempotent | utils/system_graph_viewer.py:29-37 | adding the same (label, type) twice is the same as adding it once |
| SystemGraph.ConnectValid | utils/system_graph_viewer.py:48 | an edge between existing nodes keeps every edge endpoint an existing node |
| SystemGraph.Attach | utils/system_graph_viewer.py:50-52 | one edge per child label |
| SystemGraph.AttachValid | utils/system_graph_viewer.py:50-62 | attaching children keeps the graph valid and only adds nodes of the child type |
| SystemGraph.AttachEdge | utils/system_graph_viewer.py:50-52 | the k-th new edge runs from the parent to the node of the k-th label |
| SystemGraph.DataLabels | utils/system_graph_viewer.py:50-51 | one `Data: …` label per data root, in order |
| SystemGraph.DeviceLabels | utils/system_graph_viewer.py:53-62 | a device with `target` gives one label per target; one without gives a single device label |
| SystemGraph.AddAppValid | utils/system_graph_viewer.py:46-62 | adding an app with its data and device nodes keeps the graph valid and adds only those node types |
| SystemGraph.AddAppsValid | utils/system_graph_viewer.py:46-62 | the same for every app of a section |
| SystemGraph.AddServiceValid | utils/system_graph_viewer.py:69-97 | adding a container with its apps keeps the graph valid |
| SystemGraph.AddServicesValid | utils/system_graph_viewer.py:69-97 | the same for every service |
| SystemGraph.HostPartValid | utils/system_graph_viewer.py:42-62 | the host part is valid, and its section node exists exactly when there are host apps |
| SystemGraph.ServicePartValid | utils/system_graph_viewer.py:65-97 | the Docker part keeps the graph valid, adds nothing when there are no services, and otherwise adds the section node |
| SystemGraph.GraphValid | utils/system_graph_viewer.py:29-97 | node ids are consecutive from 0, no (label, type) pair occurs twice, and every edge joins two existing nodes |
| SystemGraph.SectionNodes | utils/system_graph_viewer.py:42-67 | the `Host Machine` section exists iff there are host apps, and the `Docker` section iff there are services |
| SystemGraph.NodeLinesAt | utils/system_graph_viewer.py:102-104 | node i gives the lines 2i (its label) and 2i+1 (its class) |
| SystemGraph.EdgeLines | utils/system_graph_viewer.py:105-106 | one arrow line per edge, in order |
| SystemGraph.MermaidLines | utils/system_graph_viewer.py:100-115 | 2 header lines, 2 per node, 1 per edge and 8 `classDef` lines |
| SystemGraph.GenerateMermaid | utils/system_graph_viewer.py:23-117 | the returned counts are the lengths of the node and edge lists; a type other than `unified` gives 0 and 0 |
| SystemGraph.MermaidLineCount | utils/system_graph_viewer.py:100-117 | when labels hold no newline, the text has 2 + 2·nodes + edges + 8 lines |
| Classifiers.ContainerStatus | utils/ui/container_operations.py:15-23 | `running`, `exited` and `not created`, in any case, give their labels; any other state is returned lower-cased; a missing state gives `''`; the result is its own lower case |
| Classifiers.StatusIgnoresCase | utils/ui/container_operations.py:15 | states that differ only in case get the same result |
| Classifiers.StatusOfStatus | utils/ui/container_operations.py:22-23 | for an unrecognised state, classifying the result again changes nothing |
| Classifiers.ControlIcon | utils/ui/ui_components.py:15-20 | the stop icon is shown iff the lower-cased state is `running`; `exited`, `not created` and `''` give the play icon |
| Classifiers.CardColour | utils/ui/ui_components.py:29-36 | blue exactly for `desktop` (case-sensitive); otherwise bright green iff running, dark green iff exited, grey for any other state |
| Classifiers.DesktopIsCaseSensitive | utils/ui/ui_components.py:29-32 | `Desktop` is grey while `RUNNING` is green |
| Classifiers.CardAgreesWithIcon | utils/ui/ui_components.py:15-32 | a card is bright green exactly when it shows the stop icon |
| Classifiers.RequiredDataRoots | utils/ui/data_path_utils.py:17-21 | at most one name per entry, exactly one each when every entry is a string |
| Classifiers.GetRequiredDataRoots | utils/ui/data_path_utils.py:18 | an app without `data_roots` has none |
| Classifiers.RequiredDataRootsAppend | utils/ui/data_path_utils.py:18-20 | the entries are processed one by one, in order |
| Classifiers.RequiredDataRootsBare | utils/ui/data_path_utils.py:20 | every result is a bare name without `/` |
| Classifiers.RequiredDataRootsAt | utils/ui/data_path_utils.py:19-20 | when every entry is a string, the k-th result is the basename of the k-th entry |
| Classifiers.BareRootKept | utils/ui/data_path_utils.py:20 | an entry that is already a bare name maps to itself |
| UiRules.OwnerRef | utils/ui_utils.py:425-446 | the desktop card edits a host app; a container card edits an app of the service read from the container name, and nothing when no non-empty name can be read |
| UiRules.OpenIpDialog | utils/ui_utils.py:448-483 | the dialog opens exactly for a device with a parsing `num` and a non-empty `ip_addr`, offering that pool and the current targets (`[]` when absent); a malformed `num` is reported with its text |
| UiRules.ShowIpDialog | utils/ui_utils.py:423-483 | the app is looked up first, then its device is checked; no service name means no dialog |
| UiRules.IpDialogOffersPool | utils/ui_utils.py:466-483 | given a parsing constraint, the dialog opens iff the pool exists and is non-empty, and then offers exactly that pool |
| UiRules.CollectTargets | utils/ui_utils.py:551-556 | only set values are collected: at most one per row, all of them when every row is set |
| UiRules.CollectTargetsAppend | utils/ui_utils.py:552-556 | rows are collected one after another, in order |
| UiRules.CollectTargetsMembers | utils/ui_utils.py:551-556 | an address is collected iff it is non-empty and chosen in some row |
| UiRules.ApplyTargets | utils/ui_utils.py:551-562 | applying succeeds iff at least the minimum is collected, saving exactly the collected targets; otherwise it reports the minimum |
| UiRules.ApplyIgnoresMaxAndDuplicates | utils/ui_utils.py:558-566 | the outcome depends on the minimum alone, not on the maximum or the duplicate flag |
| UiRules.ApplyAcceptsWhatTheValidatorRejects | utils/ui_utils.py:551-566 | a repeated address above the maximum is still applied |
| UiRules.ApplyToProject | utils/ui_utils.py:547-577 | too few targets save nothing; a successful save sets the device's `target` to the collected list; a failed update leaves the project unchanged |
| UiRules.ScanRoots | utils/ui_utils.py:696-699 | the scan stops at the first entry containing the root's name, or at the first non-path entry; all entries before it are paths without the name |
| UiRules.ScanRootsAt | utils/ui_utils.py:696-699 | the scan stops exactly at the first matching or non-path entry |
| UiRules.ReplaceOrAppend | utils/ui_utils.py:691-701 | the first entry containing the root's name is replaced by the chosen path; with none, the path is appended; a non-path entry on the way fails |
| UiRules.ReplaceOrAppendIdempotent | utils/ui_utils.py:694-701 | choosing the same directory again changes nothing more |
| UiRules.ReplaceOrAppendKeepsOthers | utils/ui_utils.py:694-701 | the chosen path ends up in the list, and no entry other than the replaced one changes |
| UiRules.EditRoots | utils/ui_utils.py:709-719 | the app's roots are edited by replace-or-append, starting from `[]` when absent; nothing else in the app changes |
| UiRules.SetDataPath | utils/ui_utils.py:663-723 | a cancelled dialog saves nothing; a directory whose basename differs from the root is rejected with that name; a save needs matching names; an app that is not found leaves the project unchanged |
| UiRules.SetDataPathEditsOneApp | utils/ui_utils.py:686-719 | only the dialog's own app changes, and it changes by `EditRoots` |
| UiRules.EditRootsIdempotent | utils/ui_utils.py:709-719 | editing an app's roots twice for the same directory is the same as once |
| UiRules.SetDataPathIdempotent | utils/ui_utils.py:663-723 | choosing the same directory twice saves what choosing it once saved |
| UiRules.HostPort | utils/ui_utils.py:238-241 | a host port is shown only for a set, non-zero `container_port` that the runtime maps, and it is that mapping |
| UiRules.BrowserEnabled | utils/ui_utils.py:249 | the browser button is enabled iff the state is running, in any case, and there is a host port |
| UiRules.BrowserOnlyWhenRunning | utils/ui_utils.py:238-249 | a browser can be opened only from a card with the stop icon and a bright green border, whose port is mapped |
| UiRules.SetupSteps | utils/ui_utils.py:770-794 | cloning the repositories always starts first and a failed clone stops everything after it; after both clones the desktop layout starts iff `desktop_apps` exists, Compose generation iff `services` is non-empty and the layout raised nothing, and the refresh iff neither the layout nor the Compose generation raised |
| UiRules.StepsRun | utils/ui_utils.py:770-794 | a failed clone or an action that raises stops every later step; the refresh starts only when everything before it succeeded |
| UiRules.SetupStepsOrdered | utils/ui_utils.py:770-794 | the steps that start do so in their fixed order, each at most once |
| UiRules.SetupRefreshesIffServicesReady | utils/ui_utils.py:778-794 | with services present, the refresh happens exactly when the desktop layout succeeds and every service can become a Compose service; one service without `user`, `Dockerfile` or apps ends the setup first |
| UiRules.RefreshCards | utils/ui_utils.py:812-827 | the desktop card exists iff there are desktop apps, and then it is first; container cards follow in the runtime's order, and only when `services` is non-empty |
| UiRules.DesktopCardFirst | utils/ui_utils.py:812-827 | the desktop card precedes every container card |
| ProjectModel.ArgPairs | utils/generate_docker_compose.py:96-98 | each argument renders as `name value`, in order |
| ProjectModel.ArgsStringAppend | utils/ui/desktop_apps.py:12-15 | rendering two argument lists one after the other joins their renderings with a space |
| ProjectModel.ArgsStringSingle | utils/ui/desktop_apps.py:12-15 | a single argument renders as `name value` |
| ProjectModel.WithAppReads | utils/ui_utils.py:686-719 | after an app is written back, reading it gives the new app, and every other app reads as before |
| ProjectModel.WithAppSame | utils/ui_utils.py:686-719 | writing back an app unchanged leaves the project unchanged |
| ProjectModel.WithAppTwice | utils/ui_utils.py:686-719 | a second write of the same app replaces the first |
| ProjectModel.WithAppRestores | utils/ip_settings.py:31-46 | writing an app back touches nothing else: putting the old app back gives the original project |
| Text.ParseNat | utils/ip_settings.py:12 | a part reads as a number iff it is a non-empty string of decimal digits |
| Text.NatToStringRoundTrip | utils/ip_settings.py:12 | a rendered number reads back as itself |
| Text.IntToStringRoundTrip | utils/generate_docker_compose.py:197 | a rendered integer, negative or not, reads back as itself |
| Text.NatToStringInjective | utils/ip_settings.py:12 | distinct numbers render differently |
| Text.JoinSplit | utils/generate_docker_compose.py:230 | joining the parts of a split with the separator restores the text |
| Text.SplitJoin | utils/ip_settings.py:106 | splitting a join of separator-free parts gives back the parts |
| Text.JoinAppend | utils/generate_docker_compose.py:143 | joining two non-empty lists is joining each and separating them once |
| Text.TrimLeft | utils/ip_settings.py:261 | only leading whitespace is removed, and the rest is kept verbatim |
| Text.TrimRight | utils/ip_settings.py:261 | only trailing whitespace is removed, and the rest is kept verbatim |
| Text.LowerIdempotent | utils/ui/container_operations.py:15 | lower-casing twice is lower-casing once |
| Text.Strip | utils/ip_settings.py:261 | the result is a slice of the input with only whitespace outside it, and it neither starts nor ends with whitespace |
| Text.StripKeepsTrimmed | utils/ip_settings.py:261 | text without surrounding whitespace is unchanged by stripping |
| Paths.Name | utils/container_utils.py:74 | a basename contains no `/`, and a bare name is its own basename |
| Paths.NameOfJoin | utils/ui/desktop_apps.py:48 | the basename of `dir/name` is `name` |
| Paths.NameOccursIn | utils/ui_utils.py:666-697 | a path contains its own basename, so a chosen directory whose name is the root's name contains it |
| Paths.ParentName | utils/ui/desktop_apps.py:38 | the parent directory's name contains no `/`, and is empty for a bare file name |
| Paths.ParentNameOfJoin | utils/ui/desktop_apps.py:38 | the parent name of `dir/sub/file` is `sub` |
| Paths.Stem | utils/generate_docker_compose.py:153 | the stem is a prefix of the basename, and the whole basename when it has no `.` |
| Paths.StemOfJoin | utils/generate_docker_compose.py:153 | the stem of `dir/base.ext` is `base` |
| Dicts.Get | utils/ip_settings.py:99-105 | a lookup finds a value exactly when the key is present |
| Dicts.Put | utils/ui/desktop_apps.py:57-60 | assigning keeps the key order, appending a key that is new |
| Dicts.GetPutSame | utils/ip_settings.py:40 | reading a key just assigned gives the assigned value |
| Dicts.GetPutOther | utils/ip_settings.py:40 | assigning one key leaves every other key's value alone |
| Dicts.PutTwice | utils/ui/desktop_apps.py:57-60 | the later assignment to a key wins |
| Dicts.PutAbsent | utils/ui/desktop_apps.py:57-60 | assigning a new key appends it |
| Dicts.MapValues | utils/ui/app_utils.py:16-29 | an update of every value keeps the keys and their order, and fails exactly when one value's update fails |
| Dicts.MapValuesIdempotent | utils/ui/app_utils.py:16-29 | an update applied twice gives what it gave once, when each value's update is idempotent |

## Left out

- File I/O, JSON parsing and `json.dump` formatting are left out. The loaded project is an argument and written files are values; the re-run of `parse_project_info` after each save is not repeated inside the edits.
- Flet widgets, dialogs, page updates and event wiring are left out. Only the decisions they display are modelled.
- Subprocesses, `git` clones, the container runtime and polling are left out. The clone outcomes and the container report are parameters.
- `yaml.dump` with its custom dumper is a library whose output is not visible. `Compose.ReplaceCommandLines` models the rewrite on the two groups the regular expression captures, not the regular-expression search over the dumped text.
- Symlink creation and `mkdir` are left out. The desktop layout is a plan of `Link` and `WriteAppInfo` steps.
- Python's `int()` also accepts surrounding whitespace, a sign and `_` inside a part. Parts are modelled as ASCII decimal digit strings, and `\d` as the ASCII digits.
- `str.lower()` and `str.strip()` are modelled on ASCII letters and ASCII whitespace only.
- `is_valid_ipv4` on a non-string value returns `False`. Addresses are always strings here.
- `pathlib` normalisation (`.`, `..`, repeated separators, Windows drive letters) is left out. `Paths.Name` drops trailing slashes and takes the text after the last `/`. The backslash replacement that follows `Path()` in the Compose script is modelled by `Compose.NormalPath`.
- The data-path scan tests `data_root in str(Path(path))`. The model tests the raw path text, which is the same for normalised paths.
- `container_port` may be a string in the JSON. It is modelled as an integer; `Compose.Ports` renders it as text and `UiRules.HostPort` looks up its integer value.
- The `ports` map of a running container is a parameter from integer port to host-port text.
- `repositories` and `dockerfiles` are read only by the clone steps and are not part of the project model.
- A reported container is assumed to carry a `name`. Without one the source raises inside its `try` and writes nothing.
- The error texts of `validate_ip_selections` are modelled as two message constructors carrying the numbers they print.
- The error dialogs' texts, the port caption and the graph title are left out. `GenerateMermaid` takes the title and does not use it, like the source.
- `refresh_container_status` returns early when no build context is chosen or the settings are empty. That check happens before any card is built and is left out.
- Exceptions from the file system itself (a failed `mkdir`, symlink or write) are left out. The setup failures modelled are those the project's content causes, via `DesktopAppsLayout.SetupDesktopApps` and `Compose.Generate`.
- `get_required_data_roots` takes an unused directory argument, and `utils/ui_utils.py:254` calls it with the app alone. The model follows the definition's behaviour and leaves the call mismatch out.
- The keys compose generation reads are an enumeration. `Compose.KeyName` gives each one's spelling in `project_info.json`.
- `IpSettings.IsValidIpv4` is a predicate that states the rule itself. `IpSettings.QuadRoundTrip` and `IpSettings.IpToInt` state what it accepts.
- UiRules.SetDataPath: a container name whose service part is empty is treated as naming no service, so a service keyed `''` is not edited.
- Compose.AppVenvLines: states the count, the error order and the opening line of the six lines; the text of the other five lines is not stated separately.
- Compose.StartCommand: states the background marker and the error order; the text of the `cd` and launch line is not stated separately.
- IpPool.SaveChanges: states that the service keys are kept; what each app receives is stated by `IpPool.SaveChangesReachesEveryApp` and `IpPool.SavedPoolIsSortedEdit`.
