/** The small classifiers of `utils/ui`: a container state's display label,
    its control icon and card colour, and the data-root names an app needs. */
module Classifiers {
  import opened Wrappers
  import opened Text
  import opened Paths
  import opened ProjectModel

  // ------------------------------------------------------------------
  // Container state

  const Running: string := "起動中"
  const Stopped: string := "停止中"
  const NotCreated: string := "未生成"

  /** The three labels are fixed by lower-casing. */
  lemma LabelsAreLower()
    ensures Lower(Running) == Running && Lower(Stopped) == Stopped && Lower(NotCreated) == NotCreated
  {
  }

  /** `get_container_status`: the report's `state` (empty when missing),
      lower-cased, with the three known states translated. */
  function ContainerStatus(state: Option<string>): (r: string)
    ensures state.None? ==> r == ""
    ensures Lower(state.GetOr("")) == "running" ==> r == Running
    ensures Lower(state.GetOr("")) == "exited" ==> r == Stopped
    ensures Lower(state.GetOr("")) == "not created" ==> r == NotCreated
    ensures Lower(state.GetOr("")) !in {"running", "exited", "not created"} ==> r == Lower(state.GetOr(""))
    ensures Lower(r) == r
  {
    var s := Lower(state.GetOr(""));
    LowerIdempotent(state.GetOr(""));
    LabelsAreLower();
    if s == "running" then Running
    else if s == "exited" then Stopped
    else if s == "not created" then NotCreated
    else s
  }

  /** The label depends on the state only up to letter case. */
  lemma StatusIgnoresCase(s: string, t: string)
    requires Lower(s) == Lower(t)
    ensures ContainerStatus(Some(s)) == ContainerStatus(Some(t))
  {
  }

  /** A label is its own status: showing a status again does not change it. */
  lemma StatusOfStatus(state: Option<string>)
    requires Lower(state.GetOr("")) !in {"running", "exited", "not created"}
    ensures ContainerStatus(Some(ContainerStatus(state))) == ContainerStatus(state)
  {
    LowerIdempotent(state.GetOr(""));
  }

  /** The icon of the start/stop button. */
  datatype Icon = StopCircle | PlayCircle

  /** `get_container_control_icon`: stop for a running container, play for
      anything else, the empty, exited and not-created states included. */
  function ControlIcon(state: string): (r: Icon)
    ensures r == StopCircle <==> Lower(state) == "running"
    ensures Lower(state) in {"exited", "not created", ""} ==> r == PlayCircle
  {
    if Lower(state) == "running" then StopCircle
    else PlayCircle
  }

  /** The card border colours. */
  datatype Colour = Blue400 | Green400 | Green900 | Grey700

  /** The colour `set_card_color` chooses: the exact state `"desktop"` first,
      then running and exited ignoring case, grey otherwise. */
  function CardColour(state: string): (r: Colour)
    ensures r == Blue400 <==> state == "desktop"
    ensures r == Green400 <==> state != "desktop" && Lower(state) == "running"
    ensures r == Green900 <==> state != "desktop" && Lower(state) == "exited"
    ensures r == Grey700 <==> state != "desktop" && Lower(state) != "running" && Lower(state) != "exited"
  {
    if state == "desktop" then Blue400
    else if Lower(state) == "running" then Green400
    else if Lower(state) == "exited" then Green900
    else Grey700
  }

  /** The desktop check is case-sensitive, unlike the others. */
  lemma DesktopIsCaseSensitive()
    ensures CardColour("Desktop") == Grey700
    ensures CardColour("RUNNING") == Green400
  {
    assert Lower("Desktop") == "desktop";
    assert Lower("RUNNING") == "running";
  }

  /** A card is bright green exactly when its button is a stop button. */
  lemma CardAgreesWithIcon(state: string)
    ensures CardColour(state) == Green400 <==> ControlIcon(state) == StopCircle
  {
    if state == "desktop" {
      assert Lower(state) == "desktop";
    }
  }

  // ------------------------------------------------------------------
  // Data roots

  /** Every data root is a path string. */
  predicate AllPaths(roots: seq<DataRoot>) {
    forall i :: 0 <= i < |roots| ==> roots[i].RootPath?
  }

  /** The names of the string data roots, in order; other entries are skipped. */
  function RequiredDataRoots(roots: seq<DataRoot>): (r: seq<string>)
    ensures |r| <= |roots|
    ensures AllPaths(roots) ==> |r| == |roots|
  {
    if roots == [] then []
    else
      (match roots[0] case RootPath(path) => [Name(path)] case RootOther(_) => []) + RequiredDataRoots(roots[1..])
  }

  /** `get_required_data_roots`: a missing `data_roots` gives no names. */
  function GetRequiredDataRoots(a: App): (r: seq<string>)
    ensures a.dataRoots.None? ==> r == []
    ensures a.dataRoots.Some? ==> r == RequiredDataRoots(a.dataRoots.value)
  {
    RequiredDataRoots(a.dataRoots.GetOr([]))
  }

  /** Entries are handled one by one: the names of a concatenation are the
      concatenation of the names. */
  lemma {:induction false} RequiredDataRootsAppend(a: seq<DataRoot>, b: seq<DataRoot>)
    ensures RequiredDataRoots(a + b) == RequiredDataRoots(a) + RequiredDataRoots(b)
  {
    if a == [] {
      assert a + b == b;
    } else {
      assert (a + b)[0] == a[0];
      assert (a + b)[1..] == a[1..] + b;
      RequiredDataRootsAppend(a[1..], b);
    }
  }

  /** Every name is a bare name: it holds no `/`. */
  lemma {:induction false} RequiredDataRootsBare(roots: seq<DataRoot>)
    ensures forall x <- RequiredDataRoots(roots) :: '/' !in x
  {
    if roots != [] {
      RequiredDataRootsBare(roots[1..]);
    }
  }

  /** When every entry is a string, name `k` is the name of entry `k`. */
  lemma {:induction false} RequiredDataRootsAt(roots: seq<DataRoot>, k: nat)
    requires AllPaths(roots)
    requires k < |roots|
    ensures RequiredDataRoots(roots)[k] == Name(roots[k].path)
  {
    if k > 0 {
      RequiredDataRootsAt(roots[1..], k - 1);
    }
  }

  /** A root that is already a bare name is its own name. */
  lemma BareRootKept(roots: seq<DataRoot>, k: nat)
    requires AllPaths(roots)
    requires k < |roots| && '/' !in roots[k].path
    ensures RequiredDataRoots(roots)[k] == roots[k].path
  {
    RequiredDataRootsAt(roots, k);
  }
}
