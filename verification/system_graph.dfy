/** The system graph (`utils/system_graph_viewer.py`): the Mermaid diagram of
    host apps, services, their apps, data roots and devices. Nodes are shared
    between everything that names the same (caption, type) pair and are numbered
    `N0`, `N1`, ... in order of first insertion. */
module SystemGraph {
  import opened Wrappers
  import opened Text
  import opened Dicts
  import opened ProjectModel

  /** A node: the counter value its id was made from, its caption and its type. */
  datatype Node = Node(id: nat, caption: string, ntype: string)

  /** The node list and edge list being built, in insertion order. Ids are
      kept as the counter values they were made from; `NodeId` spells them. */
  datatype Builder = Builder(nodes: seq<Node>, edges: seq<(nat, nat)>)

  /** `f"N{node_counter}"` */
  function NodeId(i: nat): string {
    "N" + NatToString(i)
  }

  /** Different counter values give different ids. */
  lemma NodeIdInjective(i: nat, j: nat)
    requires NodeId(i) == NodeId(j)
    ensures i == j
  {
    assert NodeId(i)[1..] == NatToString(i);
    assert NodeId(j)[1..] == NatToString(j);
    NatToStringInjective(i, j);
  }

  /** Two nodes with the same (caption, type) key. */
  predicate SameKey(m: Node, n: Node) {
    m.caption == n.caption && m.ntype == n.ntype
  }

  /** Index of the node with that (caption, type) key, if there is one. */
  function FindNode(nodes: seq<Node>, caption: string, ntype: string): (r: Option<nat>)
    ensures r.None? <==> forall i :: 0 <= i < |nodes| ==> !(nodes[i].caption == caption && nodes[i].ntype == ntype)
    ensures r.Some? ==> r.value < |nodes| && nodes[r.value].caption == caption && nodes[r.value].ntype == ntype
    ensures r.Some? ==> forall i :: 0 <= i < r.value ==> !(nodes[i].caption == caption && nodes[i].ntype == ntype)
  {
    if nodes == [] then None
    else if nodes[0].caption == caption && nodes[0].ntype == ntype then Some(0)
    else match FindNode(nodes[1..], caption, ntype)
         case None => None
         case Some(i) => Some(i + 1)
  }

  /** A node found among the first nodes is still found, at the same place,
      once more nodes are appended. */
  lemma FindNodePrefix(nodes: seq<Node>, all: seq<Node>, caption: string, ntype: string)
    requires |nodes| <= |all| && forall i :: 0 <= i < |nodes| ==> all[i] == nodes[i]
    requires FindNode(nodes, caption, ntype).Some?
    ensures FindNode(all, caption, ntype) == FindNode(nodes, caption, ntype)
  {
    var k := FindNode(nodes, caption, ntype).value;
    assert all[k] == nodes[k];
  }

  /** What the builder keeps true: ids are the positions (so `N0`, `N1`, ...
      without gaps), there is one node per key, and edges join handed-out ids. */
  predicate Valid(b: Builder) {
    && (forall i :: 0 <= i < |b.nodes| ==> b.nodes[i].id == i)
    && (forall i, j {:trigger SameKey(b.nodes[i], b.nodes[j])} :: 0 <= i < j < |b.nodes| ==> !SameKey(b.nodes[i], b.nodes[j]))
    && (forall k :: 0 <= k < |b.edges| ==> b.edges[k].0 < |b.nodes| && b.edges[k].1 < |b.nodes|)
  }

  /** `r` is `b` with nodes of the given types and edges appended. */
  predicate Extends(b: Builder, r: Builder, types: set<string>) {
    && |b.nodes| <= |r.nodes| && (forall i :: 0 <= i < |b.nodes| ==> r.nodes[i] == b.nodes[i])
    && |b.edges| <= |r.edges| && (forall k :: 0 <= k < |b.edges| ==> r.edges[k] == b.edges[k])
    && forall i :: |b.nodes| <= i < |r.nodes| ==> r.nodes[i].ntype in types
  }

  lemma ExtendsTrans(a: Builder, b: Builder, c: Builder, t1: set<string>, t2: set<string>, t: set<string>)
    requires Extends(a, b, t1) && Extends(b, c, t2) && t1 + t2 <= t
    ensures Extends(a, c, t)
  {
  }

  /** `add_node`: the id of the node with that key, inserting it first under
      the next id when there is none. */
  function AddNode(b: Builder, caption: string, ntype: string): (r: (Builder, nat))
    ensures r.0.edges == b.edges
    ensures FindNode(b.nodes, caption, ntype).Some? ==> r.0 == b
    ensures FindNode(b.nodes, caption, ntype).None? ==> |r.0.nodes| == |b.nodes| + 1 && r.1 == |b.nodes|
  {
    match FindNode(b.nodes, caption, ntype)
    case Some(i) => (b, b.nodes[i].id)
    case None => (b.(nodes := b.nodes + [Node(|b.nodes|, caption, ntype)]), |b.nodes|)
  }

  /** `add_node` only appends a node of the requested type and, from a valid
      builder, keeps it valid and returns the id of the node with that key. */
  lemma AddNodeValid(b: Builder, caption: string, ntype: string)
    ensures var r := AddNode(b, caption, ntype);
      && Extends(b, r.0, {ntype})
      && FindNode(r.0.nodes, caption, ntype).Some?
      && (Valid(b) ==> Valid(r.0) && FindNode(r.0.nodes, caption, ntype) == Some(r.1))
  {
    var r := AddNode(b, caption, ntype);
    if FindNode(b.nodes, caption, ntype).None? {
      var n := |b.nodes|;
      assert r.0.nodes == b.nodes + [Node(n, caption, ntype)];
      assert r.0.nodes[n] == Node(n, caption, ntype);
      if Valid(b) {
        forall i, j | 0 <= i < j < |r.0.nodes| ensures !SameKey(r.0.nodes[i], r.0.nodes[j]) {
          assert r.0.nodes[i] == b.nodes[i];
          if j < n {
            assert r.0.nodes[j] == b.nodes[j];
          }
        }
      }
    }
  }

  /** Asking again for a key returns the same id and changes nothing. */
  lemma AddNodeIdempotent(b: Builder, caption: string, ntype: string)
    ensures AddNode(AddNode(b, caption, ntype).0, caption, ntype) == AddNode(b, caption, ntype)
  {
    var r := AddNode(b, caption, ntype);
    if FindNode(b.nodes, caption, ntype).None? {
      var n := |b.nodes|;
      assert r.0.nodes == b.nodes + [Node(n, caption, ntype)];
      assert r.0.nodes[n] == Node(n, caption, ntype);
      assert FindNode(r.0.nodes, caption, ntype) == Some(n);
    }
  }

  /** `edge_list.append((src, dst))` */
  function Connect(b: Builder, src: nat, dst: nat): Builder {
    b.(edges := b.edges + [(src, dst)])
  }

  lemma ConnectValid(b: Builder, src: nat, dst: nat)
    ensures Extends(b, Connect(b, src, dst), {})
    ensures Valid(b) && src < |b.nodes| && dst < |b.nodes| ==> Valid(Connect(b, src, dst))
  {
  }

  /** One node of type `ntype` per label, each joined to `parent`. */
  function Attach(b: Builder, parent: nat, labels: seq<string>, ntype: string): (r: Builder)
    ensures |r.edges| == |b.edges| + |labels|
    decreases |labels|
  {
    if labels == [] then b
    else
      var added := AddNode(b, labels[0], ntype);
      Attach(Connect(added.0, parent, added.1), parent, labels[1..], ntype)
  }

  /** Attaching adds nodes of that type only and keeps the builder valid. */
  lemma {:induction false} AttachValid(b: Builder, parent: nat, labels: seq<string>, ntype: string)
    ensures var r := Attach(b, parent, labels, ntype);
      Extends(b, r, {ntype}) && (Valid(b) && parent < |b.nodes| ==> Valid(r))
    decreases |labels|
  {
    if labels != [] {
      var added := AddNode(b, labels[0], ntype);
      AddNodeValid(b, labels[0], ntype);
      var b1 := Connect(added.0, parent, added.1);
      ConnectValid(added.0, parent, added.1);
      ExtendsTrans(b, added.0, b1, {ntype}, {}, {ntype});
      AttachValid(b1, parent, labels[1..], ntype);
      ExtendsTrans(b, b1, Attach(b1, parent, labels[1..], ntype), {ntype}, {ntype}, {ntype});
    }
  }

  /** The first new edge joins `parent` to the node of the first label. */
  lemma AttachFirstEdge(b: Builder, parent: nat, labels: seq<string>, ntype: string)
    requires Valid(b) && parent < |b.nodes| && labels != []
    ensures var r := Attach(b, parent, labels, ntype);
      && FindNode(r.nodes, labels[0], ntype).Some?
      && r.edges[|b.edges|] == (parent, FindNode(r.nodes, labels[0], ntype).value)
  {
    var added := AddNode(b, labels[0], ntype);
    AddNodeValid(b, labels[0], ntype);
    var b1 := Connect(added.0, parent, added.1);
    assert b1.edges[|b.edges|] == (parent, added.1);
    var r := Attach(b1, parent, labels[1..], ntype);
    assert r == Attach(b, parent, labels, ntype);
    AttachValid(b1, parent, labels[1..], ntype);
    assert r.edges[|b.edges|] == b1.edges[|b.edges|];
    FindNodePrefix(b1.nodes, r.nodes, labels[0], ntype);
  }

  /** The k-th new edge joins `parent` to the node of the k-th label. */
  lemma {:induction false} AttachEdge(b: Builder, parent: nat, labels: seq<string>, ntype: string, k: nat)
    requires Valid(b) && parent < |b.nodes| && k < |labels|
    ensures var r := Attach(b, parent, labels, ntype);
      && FindNode(r.nodes, labels[k], ntype).Some?
      && r.edges[|b.edges| + k] == (parent, FindNode(r.nodes, labels[k], ntype).value)
    decreases k
  {
    if k == 0 {
      AttachFirstEdge(b, parent, labels, ntype);
    } else {
      var added := AddNode(b, labels[0], ntype);
      AddNodeValid(b, labels[0], ntype);
      var b1 := Connect(added.0, parent, added.1);
      ConnectValid(added.0, parent, added.1);
      assert Valid(b1) && parent < |b1.nodes| && |b1.edges| == |b.edges| + 1;
      assert Attach(b1, parent, labels[1..], ntype) == Attach(b, parent, labels, ntype);
      assert labels[1..][k - 1] == labels[k];
      AttachEdge(b1, parent, labels[1..], ntype, k - 1);
    }
  }

  // ------------------------------------------------------------------
  // Labels

  /** `str(data_root)` */
  function RootText(d: DataRoot): string {
    match d
    case RootPath(p) => p
    case RootOther(t) => t
  }

  function DataLabels(roots: seq<DataRoot>): (r: seq<string>)
    ensures |r| == |roots|
    ensures forall k :: 0 <= k < |roots| ==> r[k] == "Data: " + RootText(roots[k])
  {
    if roots == [] then [] else ["Data: " + RootText(roots[0])] + DataLabels(roots[1..])
  }

  function TargetLabel(device: string, target: string): string {
    "Device: " + device + " (Target: " + target + ")"
  }

  /** The device nodes of one device: one per target when it has a `target`
      list (none for an empty list), a single device node otherwise. */
  function DeviceLabels(name: string, dev: Device): (r: seq<string>)
    ensures dev.target.Some? ==> |r| == |dev.target.value|
    ensures dev.target.Some? ==> forall k :: 0 <= k < |r| ==> r[k] == TargetLabel(name, dev.target.value[k])
    ensures dev.target.None? ==> r == ["Device: " + name]
  {
    match dev.target
    case None => ["Device: " + name]
    case Some(targets) => TargetLabels(name, targets)
  }

  function TargetLabels(name: string, targets: seq<string>): (r: seq<string>)
    ensures |r| == |targets|
    ensures forall k :: 0 <= k < |targets| ==> r[k] == TargetLabel(name, targets[k])
  {
    if targets == [] then [] else [TargetLabel(name, targets[0])] + TargetLabels(name, targets[1..])
  }

  /** The device nodes of all devices of an app, device by device. */
  function DevicesLabels(devices: Dict<Device>): seq<string> {
    if devices == [] then [] else DeviceLabels(devices[0].0, devices[0].1) + DevicesLabels(devices[1..])
  }

  /** Host apps are labelled by name; service apps add their port when declared. */
  function AppLabel(name: string, a: App, inService: bool): string {
    if inService && a.containerPort.Some? then "App: " + name + " (Port: " + IntToString(a.containerPort.value) + ")"
    else "App: " + name
  }

  function AppType(inService: bool): string {
    if inService then "app" else "host_app"
  }

  function ContainerLabel(name: string, s: Service): string {
    if s.image.Some? then "Container: " + name + " (Image: " + s.image.value + ")" else "Container: " + name
  }

  // ------------------------------------------------------------------
  // The graph

  /** One app: its node joined to `parent`, then its data roots, then its devices. */
  function AddApp(b: Builder, parent: nat, name: string, a: App, inService: bool): Builder {
    var added := AddNode(b, AppLabel(name, a, inService), AppType(inService));
    var b1 := Connect(added.0, parent, added.1);
    var b2 := Attach(b1, added.1, DataLabels(a.dataRoots.GetOr([])), "data");
    Attach(b2, added.1, DevicesLabels(a.devices.GetOr([])), "device")
  }

  lemma AddAppValid(b: Builder, parent: nat, name: string, a: App, inService: bool)
    ensures var r := AddApp(b, parent, name, a, inService);
      Extends(b, r, {AppType(inService), "data", "device"}) && (Valid(b) && parent < |b.nodes| ==> Valid(r))
  {
    var t := AppType(inService);
    var added := AddNode(b, AppLabel(name, a, inService), t);
    AddNodeValid(b, AppLabel(name, a, inService), t);
    var b1 := Connect(added.0, parent, added.1);
    ConnectValid(added.0, parent, added.1);
    var b2 := Attach(b1, added.1, DataLabels(a.dataRoots.GetOr([])), "data");
    AttachValid(b1, added.1, DataLabels(a.dataRoots.GetOr([])), "data");
    var r := Attach(b2, added.1, DevicesLabels(a.devices.GetOr([])), "device");
    AttachValid(b2, added.1, DevicesLabels(a.devices.GetOr([])), "device");
    ExtendsTrans(b, added.0, b1, {t}, {}, {t});
    ExtendsTrans(b, b1, b2, {t}, {"data"}, {t, "data"});
    ExtendsTrans(b, b2, r, {t, "data"}, {"device"}, {t, "data", "device"});
  }

  function AddApps(b: Builder, parent: nat, apps: Dict<App>, inService: bool): Builder
    decreases |apps|
  {
    if apps == [] then b
    else AddApps(AddApp(b, parent, apps[0].0, apps[0].1, inService), parent, apps[1..], inService)
  }

  lemma {:induction false} AddAppsValid(b: Builder, parent: nat, apps: Dict<App>, inService: bool)
    ensures var r := AddApps(b, parent, apps, inService);
      Extends(b, r, {AppType(inService), "data", "device"}) && (Valid(b) && parent < |b.nodes| ==> Valid(r))
    decreases |apps|
  {
    if apps != [] {
      var t := {AppType(inService), "data", "device"};
      var b1 := AddApp(b, parent, apps[0].0, apps[0].1, inService);
      AddAppValid(b, parent, apps[0].0, apps[0].1, inService);
      AddAppsValid(b1, parent, apps[1..], inService);
      ExtendsTrans(b, b1, AddApps(b1, parent, apps[1..], inService), t, t, t);
    }
  }

  /** One service: its container node joined to the Docker section, then its apps. */
  function AddService(b: Builder, section: nat, name: string, s: Service): Builder {
    var added := AddNode(b, ContainerLabel(name, s), "container");
    AddApps(Connect(added.0, section, added.1), added.1, s.apps.GetOr([]), true)
  }

  const AppTypes: set<string> := {"container", "app", "data", "device"}

  lemma AddServiceValid(b: Builder, section: nat, name: string, s: Service)
    ensures var r := AddService(b, section, name, s);
      Extends(b, r, AppTypes) && (Valid(b) && section < |b.nodes| ==> Valid(r))
  {
    var added := AddNode(b, ContainerLabel(name, s), "container");
    AddNodeValid(b, ContainerLabel(name, s), "container");
    var b1 := Connect(added.0, section, added.1);
    ConnectValid(added.0, section, added.1);
    AddAppsValid(b1, added.1, s.apps.GetOr([]), true);
    ExtendsTrans(b, added.0, b1, {"container"}, {}, {"container"});
    ExtendsTrans(b, b1, AddApps(b1, added.1, s.apps.GetOr([]), true), {"container"}, {"app", "data", "device"}, AppTypes);
  }

  function AddServices(b: Builder, section: nat, services: Dict<Service>): Builder
    decreases |services|
  {
    if services == [] then b
    else AddServices(AddService(b, section, services[0].0, services[0].1), section, services[1..])
  }

  lemma {:induction false} AddServicesValid(b: Builder, section: nat, services: Dict<Service>)
    ensures var r := AddServices(b, section, services);
      Extends(b, r, AppTypes) && (Valid(b) && section < |b.nodes| ==> Valid(r))
    decreases |services|
  {
    if services != [] {
      var b1 := AddService(b, section, services[0].0, services[0].1);
      AddServiceValid(b, section, services[0].0, services[0].1);
      AddServicesValid(b1, section, services[1..]);
      ExtendsTrans(b, b1, AddServices(b1, section, services[1..]), AppTypes, AppTypes, AppTypes);
    }
  }

  const HostTypes: set<string> := {"section", "host_app", "data", "device"}
  const ServiceTypes: set<string> := {"docker_section", "container", "app", "data", "device"}

  /** The host section: present only when there are host apps. */
  function HostPart(p: Project): Builder {
    var apps := HostAppsOrEmpty(p);
    if apps == [] then Builder([], [])
    else
      var added := AddNode(Builder([], []), "Host Machine", "section");
      AddApps(added.0, added.1, apps, false)
  }

  lemma HostPartValid(p: Project)
    ensures var r := HostPart(p);
      && Valid(r) && Extends(Builder([], []), r, HostTypes)
      && (HostAppsOrEmpty(p) != [] <==> FindNode(r.nodes, "Host Machine", "section").Some?)
  {
    var apps := HostAppsOrEmpty(p);
    if apps != [] {
      var e := Builder([], []);
      var added := AddNode(e, "Host Machine", "section");
      AddNodeValid(e, "Host Machine", "section");
      var r := AddApps(added.0, added.1, apps, false);
      AddAppsValid(added.0, added.1, apps, false);
      ExtendsTrans(e, added.0, r, {"section"}, {"host_app", "data", "device"}, HostTypes);
      FindNodePrefix(added.0.nodes, r.nodes, "Host Machine", "section");
    }
  }

  /** The Docker section: present only when there are services. */
  function ServicePart(b: Builder, p: Project): Builder {
    var services := p.services.GetOr([]);
    if services == [] then b
    else
      var added := AddNode(b, "Docker", "docker_section");
      AddServices(added.0, added.1, services)
  }

  lemma ServicePartValid(b: Builder, p: Project)
    ensures var r := ServicePart(b, p);
      && Extends(b, r, ServiceTypes)
      && (Valid(b) ==> Valid(r))
      && (p.services.GetOr([]) == [] ==> r == b)
      && (p.services.GetOr([]) != [] ==> FindNode(r.nodes, "Docker", "docker_section").Some?)
  {
    var services := p.services.GetOr([]);
    if services != [] {
      var added := AddNode(b, "Docker", "docker_section");
      AddNodeValid(b, "Docker", "docker_section");
      var r := AddServices(added.0, added.1, services);
      AddServicesValid(added.0, added.1, services);
      ExtendsTrans(b, added.0, r, {"docker_section"}, AppTypes, ServiceTypes);
      FindNodePrefix(added.0.nodes, r.nodes, "Docker", "docker_section");
    }
  }

  /** The nodes and edges `_generate_mermaid_string` collects: only the
      `"unified"` graph type has any. */
  function BuildGraph(p: Project, graphType: string): Builder {
    if graphType == "unified" then ServicePart(HostPart(p), p) else Builder([], [])
  }

  /** The collected graph is well formed: node `i` has id `N{i}`, no two nodes
      share a (caption, type) key, and every edge joins two of its nodes. */
  lemma GraphValid(p: Project, graphType: string)
    ensures Valid(BuildGraph(p, graphType))
  {
    HostPartValid(p);
    ServicePartValid(HostPart(p), p);
  }

  /** No node has a type outside `types`. */
  lemma TypesOf(r: Builder, types: set<string>, caption: string, ntype: string)
    requires Extends(Builder([], []), r, types) && ntype !in types
    ensures FindNode(r.nodes, caption, ntype).None?
  {
  }

  /** The section nodes: "Host Machine" exactly when there are host apps,
      "Docker" exactly when there are services. */
  lemma SectionNodes(p: Project)
    ensures FindNode(BuildGraph(p, "unified").nodes, "Host Machine", "section").Some? <==> HostAppsOrEmpty(p) != []
    ensures FindNode(BuildGraph(p, "unified").nodes, "Docker", "docker_section").Some? <==> p.services.GetOr([]) != []
  {
    var h := HostPart(p);
    var r := ServicePart(h, p);
    HostPartValid(p);
    ServicePartValid(h, p);
    if HostAppsOrEmpty(p) != [] {
      FindNodePrefix(h.nodes, r.nodes, "Host Machine", "section");
    } else {
      TypesOf(r, ServiceTypes, "Host Machine", "section");
    }
    if p.services.GetOr([]) == [] {
      TypesOf(r, HostTypes, "Docker", "docker_section");
    }
  }

  // ------------------------------------------------------------------
  // Rendering

  const Header: seq<string> := ["%%{init: {'theme': 'dark'}}%%", "graph TD"]

  function ClassDef(ntype: string, fill: string, width: string): string {
    "    classDef " + ntype + " fill:" + fill + ",stroke:#e2e8f0,stroke-width:" + width + "px,color:#ffffff;"
  }

  /** The styles of the section and host nodes. */
  function SectionStyles(): (r: seq<string>)
    ensures |r| == 4
  {
    [ ClassDef("host", "#2d3748", "2"),
      ClassDef("section", "#38a169", "3"),
      ClassDef("docker_section", "#3182ce", "1"),
      ClassDef("app", "#805ad5", "1") ]
  }

  /** The styles of the app, device, container and data nodes. */
  function ItemStyles(): (r: seq<string>)
    ensures |r| == 4
  {
    [ ClassDef("host_app", "#805ad5", "3"),
      ClassDef("device", "#d69e2e", "1"),
      ClassDef("container", "#38a169", "1"),
      ClassDef("data", "#2f855a", "1") ]
  }

  /** The shared styles, one line per node type. */
  function ClassDefs(): (r: seq<string>)
    ensures |r| == 8
  {
    SectionStyles() + ItemStyles()
  }

  function NodeLine(n: Node): string {
    "    " + NodeId(n.id) + "[\"" + n.caption + "\"]"
  }

  function ClassLine(n: Node): string {
    "    class " + NodeId(n.id) + " " + n.ntype + ";"
  }

  /** Two lines per node: its box and its class. */
  function NodeLines(nodes: seq<Node>): (r: seq<string>)
    ensures |r| == 2 * |nodes|
  {
    if nodes == [] then [] else [NodeLine(nodes[0]), ClassLine(nodes[0])] + NodeLines(nodes[1..])
  }

  /** Node `i` is drawn on lines `2i` and `2i + 1` of the node block. */
  lemma {:induction false} NodeLinesAt(nodes: seq<Node>, i: nat)
    requires i < |nodes|
    ensures NodeLines(nodes)[2 * i] == NodeLine(nodes[i])
    ensures NodeLines(nodes)[2 * i + 1] == ClassLine(nodes[i])
  {
    if i > 0 {
      NodeLinesAt(nodes[1..], i - 1);
      assert NodeLines(nodes)[2 * i] == NodeLines(nodes[1..])[2 * (i - 1)];
      assert NodeLines(nodes)[2 * i + 1] == NodeLines(nodes[1..])[2 * (i - 1) + 1];
    }
  }

  function EdgeLine(e: (nat, nat)): string {
    "    " + NodeId(e.0) + " --> " + NodeId(e.1)
  }

  function EdgeLines(edges: seq<(nat, nat)>): (r: seq<string>)
    ensures |r| == |edges|
    ensures forall k :: 0 <= k < |edges| ==> r[k] == EdgeLine(edges[k])
  {
    if edges == [] then [] else [EdgeLine(edges[0])] + EdgeLines(edges[1..])
  }

  function MermaidLines(b: Builder): (r: seq<string>)
    ensures |r| == 2 + 2 * |b.nodes| + |b.edges| + 8
  {
    Header + NodeLines(b.nodes) + EdgeLines(b.edges) + ClassDefs()
  }

  /** The Mermaid text and the node and edge counts it reports. */
  datatype Mermaid = Mermaid(text: string, nodeCount: nat, edgeCount: nat)

  /** `_generate_mermaid_string`; the title is not used. */
  function GenerateMermaid(p: Project, title: string, graphType: string): (r: Mermaid)
    ensures r.nodeCount == |BuildGraph(p, graphType).nodes| && r.edgeCount == |BuildGraph(p, graphType).edges|
    ensures graphType != "unified" ==> r.nodeCount == 0 && r.edgeCount == 0
    ensures |MermaidLines(BuildGraph(p, graphType))| == 2 + 2 * r.nodeCount + r.edgeCount + 8
  {
    var b := BuildGraph(p, graphType);
    Mermaid(Join(MermaidLines(b), "\n"), |b.nodes|, |b.edges|)
  }

  /** Ids carry no line break. */
  lemma NodeIdOneLine(i: nat)
    ensures '\n' !in NodeId(i)
  {
    var s := NatToString(i);
    assert forall k :: 0 <= k < |s| ==> IsDigit(s[k]);
  }

  /** When no caption or type breaks a line, the text has exactly
      2 + 2·nodes + edges + 8 lines. */
  lemma MermaidLineCount(p: Project, title: string, graphType: string)
    requires forall n <- BuildGraph(p, graphType).nodes :: '\n' !in n.caption && '\n' !in n.ntype
    ensures var m := GenerateMermaid(p, title, graphType);
      |Split(m.text, '\n')| == 2 + 2 * m.nodeCount + m.edgeCount + 8
  {
    var b := BuildGraph(p, graphType);
    LinesOneLine(b);
    SplitJoin(MermaidLines(b), '\n');
  }

  lemma LinesOneLine(b: Builder)
    requires forall n <- b.nodes :: '\n' !in n.caption && '\n' !in n.ntype
    ensures forall l <- MermaidLines(b) :: '\n' !in l
  {
    var nl := NodeLines(b.nodes);
    var el := EdgeLines(b.edges);
    var cd := ClassDefs();
    NodeLinesOneLine(b.nodes);
    EdgeLinesOneLine(b.edges);
    ClassDefsOneLine();
    assert MermaidLines(b) == Header + nl + el + cd;
    forall l <- MermaidLines(b) ensures '\n' !in l {
      assert l in Header || l in nl || l in el || l in cd;
    }
  }

  lemma NodeLinesOneLine(nodes: seq<Node>)
    requires forall n <- nodes :: '\n' !in n.caption && '\n' !in n.ntype
    ensures forall l <- NodeLines(nodes) :: '\n' !in l
  {
    var nl := NodeLines(nodes);
    forall j | 0 <= j < |nl| ensures '\n' !in nl[j] {
      var i := j / 2;
      assert nodes[i] in nodes;
      NodeLineOneLine(nodes[i]);
      NodeLinesAt(nodes, i);
      assert j == 2 * i || j == 2 * i + 1;
    }
  }

  lemma EdgeLinesOneLine(edges: seq<(nat, nat)>)
    ensures forall l <- EdgeLines(edges) :: '\n' !in l
  {
    var el := EdgeLines(edges);
    forall k | 0 <= k < |el| ensures '\n' !in el[k] {
      NodeIdOneLine(edges[k].0);
      NodeIdOneLine(edges[k].1);
    }
  }

  lemma NodeLineOneLine(n: Node)
    requires '\n' !in n.caption && '\n' !in n.ntype
    ensures '\n' !in NodeLine(n) && '\n' !in ClassLine(n)
  {
    NodeIdOneLine(n.id);
  }

  lemma ClassDefOneLine(ntype: string, fill: string, width: string)
    requires '\n' !in ntype && '\n' !in fill && '\n' !in width
    ensures '\n' !in ClassDef(ntype, fill, width)
  {
  }

  lemma SectionStylesOneLine()
    ensures forall l <- SectionStyles() :: '\n' !in l
  {
    ClassDefOneLine("host", "#2d3748", "2");
    ClassDefOneLine("section", "#38a169", "3");
    ClassDefOneLine("docker_section", "#3182ce", "1");
    ClassDefOneLine("app", "#805ad5", "1");
  }

  lemma ItemStylesOneLine()
    ensures forall l <- ItemStyles() :: '\n' !in l
  {
    ClassDefOneLine("host_app", "#805ad5", "3");
    ClassDefOneLine("device", "#d69e2e", "1");
    ClassDefOneLine("container", "#38a169", "1");
    ClassDefOneLine("data", "#2f855a", "1");
  }

  lemma ClassDefsOneLine()
    ensures forall l <- ClassDefs() :: '\n' !in l
  {
    SectionStylesOneLine();
    ItemStylesOneLine();
  }
}
