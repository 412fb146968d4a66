/** `update_container_info_in_project_info` (`utils/ui/app_utils.py`): the
    container id and, when known, the image reported by the container runtime
    are written back into the service they belong to. */
module RuntimeFold {
  import opened Wrappers
  import opened Text
  import opened Paths
  import opened Dicts
  import opened ProjectModel

  /** What the runtime reports about one container; `id` and `image` may be
      missing from the report. */
  datatype ContainerFact = ContainerFact(name: string, id: Option<string>, image: Option<string>)

  /** The name Compose gives the first replica of a service. */
  function FirstReplicaName(composeDir: string, service: string): string {
    Name(composeDir) + "-" + service + "-1"
  }

  /** Index of the first fact reporting a container of that name. */
  function FirstNamed(facts: seq<ContainerFact>, name: string): (r: Option<nat>)
    ensures r.None? <==> forall i :: 0 <= i < |facts| ==> facts[i].name != name
    ensures r.Some? ==> r.value < |facts| && facts[r.value].name == name
    ensures r.Some? ==> forall i :: 0 <= i < r.value ==> facts[i].name != name
  {
    if facts == [] then None
    else if facts[0].name == name then Some(0)
    else match FirstNamed(facts[1..], name)
         case None => None
         case Some(i) => Some(i + 1)
  }

  /** `container.get('image')` is truthy. */
  predicate HasImage(c: ContainerFact) {
    c.image.Some? && c.image.value != ""
  }

  /** The update of one service; `None` when the matched report has no `id`,
      which raises inside the `try` and leaves the file as it was. */
  function FoldService(composeDir: string, name: string, s: Service, facts: seq<ContainerFact>): (r: Option<Service>)
    ensures FirstNamed(facts, FirstReplicaName(composeDir, name)).None? ==> r == Some(s)
    ensures r.None? <==>
      var m := FirstNamed(facts, FirstReplicaName(composeDir, name));
      m.Some? && facts[m.value].id.None?
    ensures r.Some? ==> r.value.(id := s.id, image := s.image) == s
    ensures r.Some? && FirstNamed(facts, FirstReplicaName(composeDir, name)).Some? ==>
      var c := facts[FirstNamed(facts, FirstReplicaName(composeDir, name)).value];
      && r.value.id == c.id
      && r.value.image == (if HasImage(c) then c.image else s.image)
  {
    match FirstNamed(facts, FirstReplicaName(composeDir, name))
    case None => Some(s)
    case Some(i) =>
      var c := facts[i];
      if c.id.None? then None
      else Some(s.(id := c.id, image := if HasImage(c) then c.image else s.image))
  }

  function FoldServices(composeDir: string, services: Dict<Service>, facts: seq<ContainerFact>): Option<Dict<Service>> {
    MapValues(services, (name, s) => FoldService(composeDir, name, s, facts))
  }

  /** A service whose write-back fails. */
  predicate SomeFoldFails(composeDir: string, services: Dict<Service>, facts: seq<ContainerFact>) {
    exists i :: 0 <= i < |services| && FoldService(composeDir, services[i].0, services[i].1, facts).None?
  }

  /** The project after the write-back: every service, in order and under its
      own name, takes its update; a failed update anywhere leaves the whole
      project unchanged, and a project without `services` is written back as
      it was. */
  function FoldRuntimeFacts(p: Project, composeDir: string, facts: seq<ContainerFact>): (r: Project)
    ensures r.desktopApps == p.desktopApps
    ensures r.services.Some? <==> p.services.Some?
    ensures r.services.Some? ==> Keys(r.services.value) == Keys(p.services.value)
    ensures p.services.Some? && SomeFoldFails(composeDir, p.services.value, facts) ==> r == p
    ensures p.services.Some? && !SomeFoldFails(composeDir, p.services.value, facts) ==>
      forall i :: 0 <= i < |p.services.value| ==>
        Some(r.services.value[i].1) == FoldService(composeDir, p.services.value[i].0, p.services.value[i].1, facts)
  {
    match p.services
    case None => p
    case Some(services) =>
      match FoldServices(composeDir, services, facts)
      case None => p
      case Some(updated) => p.(services := Some(updated))
  }

  /** Folding the same report twice changes nothing the first fold did not. */
  lemma FoldServiceIdempotent(composeDir: string, name: string, s: Service, facts: seq<ContainerFact>)
    requires FoldService(composeDir, name, s, facts).Some?
    ensures FoldService(composeDir, name, FoldService(composeDir, name, s, facts).value, facts)
         == FoldService(composeDir, name, s, facts)
  {
  }

  /** Running the write-back twice with the same report gives the same project. */
  lemma FoldRuntimeFactsIdempotent(p: Project, composeDir: string, facts: seq<ContainerFact>)
    ensures FoldRuntimeFacts(FoldRuntimeFacts(p, composeDir, facts), composeDir, facts)
         == FoldRuntimeFacts(p, composeDir, facts)
  {
    var f := (name, s) => FoldService(composeDir, name, s, facts);
    forall name, s | f(name, s).Some? ensures f(name, f(name, s).value) == f(name, s) {
      FoldServiceIdempotent(composeDir, name, s, facts);
    }
    if p.services.Some? && FoldServices(composeDir, p.services.value, facts).Some? {
      MapValuesIdempotent(p.services.value, f);
    }
  }

  /** After a successful write-back, a service whose first replica is reported
      carries that report's id, and its image when the report names a
      non-empty one. */
  lemma FoldSetsReportedId(p: Project, composeDir: string, facts: seq<ContainerFact>, name: string)
    requires p.services.Some? && DistinctKeys(p.services.value) && HasKey(p.services.value, name)
    requires !SomeFoldFails(composeDir, p.services.value, facts)
    requires FirstNamed(facts, FirstReplicaName(composeDir, name)).Some?
    ensures var c := facts[FirstNamed(facts, FirstReplicaName(composeDir, name)).value];
      var s := Get(FoldRuntimeFacts(p, composeDir, facts).services.value, name);
      && s.Some?
      && s.value.id == c.id
      && s.value.image == (if HasImage(c) then c.image else Get(p.services.value, name).value.image)
  {
    var services := p.services.value;
    var r := FoldRuntimeFacts(p, composeDir, facts).services.value;
    GetIsEntry(services, name);
    var i :| 0 <= i < |services| && services[i] == (name, Get(services, name).value);
    assert Keys(r)[i] == Keys(services)[i];
    assert DistinctKeys(r) by {
      forall j, k | 0 <= j < k < |r| ensures r[j].0 != r[k].0 {
        assert Keys(r)[j] == Keys(services)[j] && Keys(r)[k] == Keys(services)[k];
      }
    }
    GetEntry(r, i);
  }
}
