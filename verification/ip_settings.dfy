/** `utils/ip_settings.py`: IPv4 text checks, the `"min:max:dup"` device
    constraint, validation of a target selection and the update of one
    device's `target` list. */
module IpSettings {
  import opened Wrappers
  import opened Text
  import opened Dicts
  import opened ProjectModel

  /** A dotted-quad part: decimal digits denoting at most 255. */
  predicate IsOctet(part: string) {
    ParseNat(part).Some? && ParseNat(part).value <= 255
  }

  /** `is_valid_ipv4`: exactly four dot-separated parts, each an integer in [0, 255]. */
  predicate IsValidIpv4(ip: string) {
    var parts := Split(ip, '.');
    |parts| == 4 && forall i :: 0 <= i < 4 ==> IsOctet(parts[i])
  }

  function Pow256(k: nat): nat {
    if k == 0 then 1 else 256 * Pow256(k - 1)
  }

  /** `sum(int(part) << (24 - 8 * i) for i, part in enumerate(parts))`, from part `i` on. */
  function ShiftedSum(parts: seq<string>, i: nat): nat
    requires |parts| <= 4 && i <= |parts|
    requires forall j :: 0 <= j < |parts| ==> ParseNat(parts[j]).Some?
    decreases |parts| - i
  {
    if i == |parts| then 0
    else ParseNat(parts[i]).value * Pow256(3 - i) + ShiftedSum(parts, i + 1)
  }

  /** `ip_to_int`: the parts weighted by 2^24, 2^16, 2^8, 1. A part that is not an
      integer, or a fifth part (whose shift count would be negative), makes the
      conversion fail, and a failure yields 0. */
  function IpToInt(ip: string): (r: nat)
    ensures IsValidIpv4(ip) ==>
      var p := Split(ip, '.');
      && r == ParseNat(p[0]).value * 16777216 + ParseNat(p[1]).value * 65536
              + ParseNat(p[2]).value * 256 + ParseNat(p[3]).value
      && r < 0x1_0000_0000
    ensures (exists j :: 0 <= j < |Split(ip, '.')| && ParseNat(Split(ip, '.')[j]).None?) ==> r == 0
  {
    var parts := Split(ip, '.');
    if |parts| > 4 || exists j :: 0 <= j < |parts| && ParseNat(parts[j]).None? then 0
    else
      var s := ShiftedSum(parts, 0);
      if |parts| == 4 then ShiftedSumOfQuad(parts); s else s
  }

  lemma ShiftedSumOfQuad(parts: seq<string>)
    requires |parts| == 4
    requires forall j :: 0 <= j < 4 ==> ParseNat(parts[j]).Some?
    ensures ShiftedSum(parts, 0) == ParseNat(parts[0]).value * 16777216 + ParseNat(parts[1]).value * 65536
                                    + ParseNat(parts[2]).value * 256 + ParseNat(parts[3]).value
    ensures (forall j :: 0 <= j < 4 ==> ParseNat(parts[j]).value <= 255) ==> ShiftedSum(parts, 0) < 0x1_0000_0000
  {
    assert Pow256(0) == 1 && Pow256(1) == 256 && Pow256(2) == 65536 && Pow256(3) == 16777216;
    assert ShiftedSum(parts, 4) == 0;
    assert ShiftedSum(parts, 3) == ParseNat(parts[3]).value;
    assert ShiftedSum(parts, 2) == ParseNat(parts[2]).value * 256 + ShiftedSum(parts, 3);
    assert ShiftedSum(parts, 1) == ParseNat(parts[1]).value * 65536 + ShiftedSum(parts, 2);
  }

  /** The dotted-quad text of four numbers. */
  function QuadText(a: nat, b: nat, c: nat, d: nat): string {
    Join([NatToString(a), NatToString(b), NatToString(c), NatToString(d)], ".")
  }

  lemma QuadTextSplits(a: nat, b: nat, c: nat, d: nat)
    ensures Split(QuadText(a, b, c, d), '.') == [NatToString(a), NatToString(b), NatToString(c), NatToString(d)]
  {
    var parts := [NatToString(a), NatToString(b), NatToString(c), NatToString(d)];
    forall p <- parts ensures '.' !in p {
      assert AllDigits(p);
    }
    SplitJoin(parts, '.');
  }

  /** Rendering four octets and reading them back: the text is a valid address
      and converts to the big-endian 32-bit value of the octets. */
  lemma QuadRoundTrip(a: nat, b: nat, c: nat, d: nat)
    requires a < 256 && b < 256 && c < 256 && d < 256
    ensures IsValidIpv4(QuadText(a, b, c, d))
    ensures IpToInt(QuadText(a, b, c, d)) == a * 16777216 + b * 65536 + c * 256 + d
  {
    var parts := [NatToString(a), NatToString(b), NatToString(c), NatToString(d)];
    QuadTextSplits(a, b, c, d);
    NatToStringRoundTrip(a);
    NatToStringRoundTrip(b);
    NatToStringRoundTrip(c);
    NatToStringRoundTrip(d);
    assert ParseNat(parts[0]) == Some(a) && ParseNat(parts[1]) == Some(b);
    assert ParseNat(parts[2]) == Some(c) && ParseNat(parts[3]) == Some(d);
    assert IsValidIpv4(QuadText(a, b, c, d));
  }

  // ---------------------------------------------------------------------------
  // The "min:max:dup" constraint

  /** A parsed device constraint; `maxConnections == None` means unbounded. */
  datatype Constraints = Constraints(minConnections: int, maxConnections: Option<int>, allowDuplicate: bool)

  /** `min_conn, max_conn_str, allow_duplicate_str = num.split(':')` and the
      conversions that follow: exactly three fields, an empty maximum means no
      maximum, the flag is any integer and means "allowed" when non-zero. Any
      failure is `None`. */
  function ParseNumConstraint(num: string): (r: Option<Constraints>)
    ensures r.Some? <==>
      var f := Split(num, ':');
      |f| == 3 && ParseInt(f[0]).Some? && ParseMax(f[1]).Some? && ParseInt(f[2]).Some?
    ensures r.Some? ==>
      var f := Split(num, ':');
      && r.value.minConnections == ParseInt(f[0]).value
      && r.value.maxConnections == ParseMax(f[1]).value
      && r.value.allowDuplicate == (ParseInt(f[2]).value != 0)
    ensures r.Some? ==> (r.value.maxConnections.None? <==> Split(num, ':')[1] == "")
  {
    ParseFields(Split(num, ':'))
  }

  /** The three fields converted in order: the minimum, the optional maximum,
      then the flag, which is `bool(int(...))`. */
  function ParseFields(fields: seq<string>): (r: Option<Constraints>)
    ensures r.Some? <==>
      |fields| == 3 && ParseInt(fields[0]).Some? && ParseMax(fields[1]).Some? && ParseInt(fields[2]).Some?
    ensures r.Some? ==>
      && r.value.minConnections == ParseInt(fields[0]).value
      && r.value.maxConnections == ParseMax(fields[1]).value
      && r.value.allowDuplicate == (ParseInt(fields[2]).value != 0)
    ensures r.Some? ==> (r.value.maxConnections.None? <==> fields[1] == "")
  {
    if |fields| != 3 then None
    else
      match ParseInt(fields[0])
      case None => None
      case Some(lo) =>
        match ParseMax(fields[1])
        case None => None
        case Some(maxC) =>
          match ParseInt(fields[2])
          case None => None
          case Some(flag) => Some(Constraints(lo, maxC, flag != 0))
  }

  /** The maximum field: empty means unbounded, otherwise it must be an
      integer, and that integer is the maximum. */
  function ParseMax(field: string): (r: Option<Option<int>>)
    ensures r == Some(None) <==> field == ""
    ensures field != "" ==> (r.Some? <==> ParseInt(field).Some?)
    ensures field != "" && r.Some? ==> r.value == Some(ParseInt(field).value)
  {
    if field == "" then Some(None)
    else match ParseInt(field) case Some(m) => Some(Some(m)) case None => None
  }

  function MaxText(m: Option<int>): string {
    match m case None => "" case Some(v) => IntToString(v)
  }

  function FlagText(allow: bool): string {
    if allow then "1" else "0"
  }

  /** The canonical `"min:max:dup"` text of a constraint. */
  function NumText(c: Constraints): string {
    Join([IntToString(c.minConnections), MaxText(c.maxConnections), FlagText(c.allowDuplicate)], ":")
  }

  lemma ParseFieldsOfText(c: Constraints)
    ensures ParseFields([IntToString(c.minConnections), MaxText(c.maxConnections), FlagText(c.allowDuplicate)]) == Some(c)
  {
    IntToStringRoundTrip(c.minConnections);
    if c.maxConnections.Some? {
      IntToStringRoundTrip(c.maxConnections.value);
    }
    assert ParseMax(MaxText(c.maxConnections)) == Some(c.maxConnections);
    var flag := if c.allowDuplicate then 1 else 0;
    assert FlagText(c.allowDuplicate) == NatToString(flag);
    NatToStringRoundTrip(flag);
  }

  /** Writing a constraint and parsing it back gives the same constraint. */
  lemma NumConstraintRoundTrip(c: Constraints)
    ensures ParseNumConstraint(NumText(c)) == Some(c)
  {
    var fields := [IntToString(c.minConnections), MaxText(c.maxConnections), FlagText(c.allowDuplicate)];
    IntToStringHasNoColon(c.minConnections);
    if c.maxConnections.Some? {
      IntToStringHasNoColon(c.maxConnections.value);
    }
    assert forall f <- fields :: ':' !in f;
    SplitJoin(fields, ':');
    ParseFieldsOfText(c);
  }

  /** Any integer flag is read back as "duplicates allowed" exactly when it is
      non-zero, whatever the minimum and the maximum. */
  lemma NumConstraintAnyFlag(lo: int, m: Option<int>, flag: int)
    ensures ParseNumConstraint(Join([IntToString(lo), MaxText(m), IntToString(flag)], ":"))
         == Some(Constraints(lo, m, flag != 0))
  {
    var fields := [IntToString(lo), MaxText(m), IntToString(flag)];
    IntToStringHasNoColon(lo);
    IntToStringHasNoColon(flag);
    IntToStringRoundTrip(lo);
    IntToStringRoundTrip(flag);
    if m.Some? {
      IntToStringHasNoColon(m.value);
      IntToStringRoundTrip(m.value);
    }
    assert ParseMax(MaxText(m)) == Some(m);
    assert forall f <- fields :: ':' !in f;
    SplitJoin(fields, ':');
  }

  lemma IntToStringHasNoColon(i: int)
    ensures ':' !in IntToString(i)
  {
    var s := IntToString(i);
    if i >= 0 {
      assert AllDigits(s);
    } else {
      assert AllDigits(s[1..]);
      forall j | 0 <= j < |s| ensures s[j] != ':' {
        if j > 0 { assert s[j] == s[1..][j - 1]; }
      }
    }
  }

  /** The device a reference and device type designate, if every level exists. */
  function DeviceAt(p: Project, r: AppRef, deviceType: string): Option<Device> {
    match AppAt(p, r)
    case None => None
    case Some(a) => if a.devices.None? then None else Get(a.devices.value, deviceType)
  }

  /** `get_device_constraints`: the parsed `num` of a service app's device; a
      missing level (including a service without `apps`, which raises) or a
      malformed constraint gives `None`. */
  function GetDeviceConstraints(p: Project, service: string, app: string, deviceType: string): (r: Option<Constraints>)
    ensures r.Some? ==> DeviceAt(p, ServiceApp(service, app), deviceType).Some?
    ensures r.Some? ==> ParseNumConstraint(DeviceAt(p, ServiceApp(service, app), deviceType).value.num.GetOr("")) == r
    ensures DeviceAt(p, ServiceApp(service, app), deviceType).None? ==> r.None?
    ensures DeviceAt(p, ServiceApp(service, app), deviceType).Some? ==>
      var d := DeviceAt(p, ServiceApp(service, app), deviceType).value;
      r == if d.num.Some? then ParseNumConstraint(d.num.value) else None
  {
    match DeviceAt(p, ServiceApp(service, app), deviceType)
    case None => None
    case Some(d) => if d.num.None? then None else ParseNumConstraint(d.num.value)
  }

  // ---------------------------------------------------------------------------
  // validate_ip_selections

  /** The two messages the validator can produce, with the numbers they quote. */
  datatype ValidationMessage =
    | BelowMinimum(required: int, current: nat)
    | AboveMaximum(limit: int, current: nat)

  /** The sum of the values of a count map. */
  ghost function SumValues(m: map<string, nat>): nat
    decreases |m|
  {
    if m == map[] then 0
    else
      var k :| k in m;
      m[k] + SumValues(m - {k})
  }

  lemma {:induction false} SumValuesRemove(m: map<string, nat>, k: string)
    requires k in m
    ensures SumValues(m) == m[k] + SumValues(m - {k})
    decreases |m|
  {
    var k' :| k' in m && SumValues(m) == m[k'] + SumValues(m - {k'});
    if k' != k {
      assert (m - {k'}) - {k} == (m - {k}) - {k'};
      SumValuesRemove(m - {k'}, k);
      SumValuesRemove(m - {k}, k');
    }
  }

  /** Counting one more occurrence adds one to the total. */
  lemma SumValuesIncrement(m: map<string, nat>, x: string)
    ensures SumValues(m[x := (if x in m then m[x] else 0) + 1]) == SumValues(m) + 1
  {
    var m' := m[x := (if x in m then m[x] else 0) + 1];
    SumValuesRemove(m', x);
    assert m' - {x} == m - {x};
    if x in m {
      SumValuesRemove(m, x);
    } else {
      assert m - {x} == m;
    }
  }

  /** The occurrence count of every selected address, as the loop of
      `validate_ip_selections` builds it. */
  method CountSelections(selected: seq<string>) returns (counts: map<string, nat>)
    ensures forall ip :: ip in counts <==> ip in selected
    ensures forall ip :: ip in counts ==> counts[ip] == multiset(selected)[ip]
    ensures SumValues(counts) == |selected|
  {
    counts := map[];
    var i := 0;
    while i < |selected|
      invariant 0 <= i <= |selected|
      invariant forall ip :: ip in counts <==> ip in selected[..i]
      invariant forall ip :: ip in counts ==> counts[ip] == multiset(selected[..i])[ip]
      invariant SumValues(counts) == i
    {
      var ip := selected[i];
      SumValuesIncrement(counts, ip);
      counts := counts[ip := (if ip in counts then counts[ip] else 0) + 1];
      assert selected[..i + 1] == selected[..i] + [ip];
      assert multiset(selected[..i + 1]) == multiset(selected[..i]) + multiset{ip};
      i := i + 1;
    }
    assert selected[..i] == selected;
  }

  /** `validate_ip_selections`: the count bounds checked on the length of the
      selection alone, and the occurrence count of every selected address. */
  method ValidateIpSelections(selected: seq<string>, minConnections: int, maxConnections: Option<int>)
    returns (errors: seq<ValidationMessage>, duplicates: set<string>, counts: map<string, nat>)
    ensures BelowMinimum(minConnections, |selected|) in errors <==> |selected| < minConnections
    ensures AboveMaximum(maxConnections.GetOr(0), |selected|) in errors
        <==> maxConnections.Some? && |selected| > maxConnections.value
    ensures forall e <- errors :: e == BelowMinimum(minConnections, |selected|)
                              || e == AboveMaximum(maxConnections.GetOr(0), |selected|)
    ensures |errors| <= 2
    ensures forall ip :: ip in counts <==> ip in selected
    ensures forall ip :: ip in counts ==> counts[ip] == multiset(selected)[ip]
    ensures forall ip :: ip in duplicates <==> multiset(selected)[ip] > 1
    ensures SumValues(counts) == |selected|
  {
    errors := [];
    var current := |selected|;
    if current < minConnections {
      errors := errors + [BelowMinimum(minConnections, current)];
    }
    if maxConnections.Some? && current > maxConnections.value {
      errors := errors + [AboveMaximum(maxConnections.value, current)];
    }
    counts := CountSelections(selected);
    duplicates := set ip | ip in counts && counts[ip] > 1;
  }

  // ---------------------------------------------------------------------------
  // update_settings_json

  /** The app `update_settings_json` edits: the name `host_machine` selects the
      desktop apps, any other name a service. */
  function TargetRef(serviceName: string, appName: string): AppRef {
    if serviceName == "host_machine" then HostApp(appName) else ServiceApp(serviceName, appName)
  }

  /** `update_settings_json`: replaces the `target` list of one device and
      reports success; when the service, app or device does not exist, reports
      failure and leaves the project as it was. Nothing else changes: putting
      the old device back into the app, and the old app back into the
      project, gives the original project. */
  function UpdateSettingsJson(p: Project, newTargets: seq<string>, serviceName: string, appName: string, deviceType: string)
    : (r: (Project, bool))
    ensures var ref := TargetRef(serviceName, appName);
      r.1 <==> DeviceAt(p, ref, deviceType).Some?
    ensures !r.1 ==> r.0 == p
    ensures var ref := TargetRef(serviceName, appName);
      r.1 ==> DeviceAt(r.0, ref, deviceType) == Some(DeviceAt(p, ref, deviceType).value.(target := Some(newTargets)))
    ensures var ref := TargetRef(serviceName, appName);
      r.1 ==> forall d :: d != deviceType ==> DeviceAt(r.0, ref, d) == DeviceAt(p, ref, d)
    ensures var ref := TargetRef(serviceName, appName);
      r.1 ==> AppAt(r.0, ref).value.(devices := None) == AppAt(p, ref).value.(devices := None)
    ensures var ref := TargetRef(serviceName, appName);
      forall ref' :: ref' != ref ==> AppAt(r.0, ref') == AppAt(p, ref')
    ensures var ref := TargetRef(serviceName, appName);
      r.1 ==>
        Put(AppAt(r.0, ref).value.devices.value, deviceType, DeviceAt(p, ref, deviceType).value)
        == AppAt(p, ref).value.devices.value
    ensures var ref := TargetRef(serviceName, appName);
      r.1 ==> WithApp(r.0, ref, AppAt(p, ref).value) == p
  {
    var ref := TargetRef(serviceName, appName);
    match DeviceAt(p, ref, deviceType)
    case None => (p, false)
    case Some(dev) =>
      var app := AppAt(p, ref).value;
      var devices' := Put(app.devices.value, deviceType, dev.(target := Some(newTargets)));
      var app' := app.(devices := Some(devices'));
      var p' := WithApp(p, ref, app');
      WithAppReads(p, ref, app', ref);
      WithAppRestores(p, ref, app');
      GetPutSame(app.devices.value, deviceType, dev.(target := Some(newTargets)));
      PutTwice(app.devices.value, deviceType, dev.(target := Some(newTargets)), dev);
      PutExisting(app.devices.value, deviceType, dev);
      assert forall d :: d != deviceType ==> DeviceAt(p', ref, d) == DeviceAt(p, ref, d) by {
        forall d | d != deviceType ensures DeviceAt(p', ref, d) == DeviceAt(p, ref, d) {
          GetPutOther(app.devices.value, deviceType, dev.(target := Some(newTargets)), d);
        }
      }
      assert forall ref' :: ref' != ref ==> AppAt(p', ref') == AppAt(p, ref') by {
        forall ref' | ref' != ref ensures AppAt(p', ref') == AppAt(p, ref') {
          WithAppReads(p, ref, app', ref');
        }
      }
      (p', true)
  }
}
