/** The IP-pool editor nested in `on_edit_ip_options` (`utils/ip_settings.py`):
    the pool is kept free of duplicates while editing, and saved sorted by
    numeric address to every app that declares the device type. */
module IpPool {
  import opened Wrappers
  import opened Text
  import opened Dicts
  import opened ProjectModel
  import opened IpSettings

  /** In non-decreasing order of `key`. */
  predicate SortedBy(s: seq<string>, key: string -> nat) {
    forall i, j :: 0 <= i < j < |s| ==> key(s[i]) <= key(s[j])
  }

  predicate SortedByAddress(s: seq<string>) {
    SortedBy(s, IpToInt)
  }

  /** Inserts `x` after every element whose key is not greater, which keeps
      equal keys in arrival order. */
  function InsertBy(x: string, s: seq<string>, key: string -> nat): seq<string> {
    if s == [] then [x]
    else if key(x) < key(s[0]) then [x] + s
    else [s[0]] + InsertBy(x, s[1..], key)
  }

  /** The result starts with either the inserted element or the old head. */
  lemma {:induction false} InsertByHead(x: string, s: seq<string>, key: string -> nat)
    ensures |InsertBy(x, s, key)| == |s| + 1
    ensures InsertBy(x, s, key)[0] == x || InsertBy(x, s, key)[0] == s[0]
  {
    if s != [] && key(x) >= key(s[0]) {
      InsertByHead(x, s[1..], key);
    }
  }

  /** Insertion adds exactly one occurrence of `x` and keeps the rest. */
  lemma {:induction false} InsertByPermutes(x: string, s: seq<string>, key: string -> nat)
    ensures multiset(InsertBy(x, s, key)) == multiset(s) + multiset{x}
  {
    if s != [] && key(x) >= key(s[0]) {
      InsertByPermutes(x, s[1..], key);
      assert s == [s[0]] + s[1..];
    }
  }

  /** Inserting into a sorted list keeps it sorted. */
  lemma {:induction false} InsertBySorted(x: string, s: seq<string>, key: string -> nat)
    requires SortedBy(s, key)
    ensures SortedBy(InsertBy(x, s, key), key)
  {
    if s == [] {
    } else if key(x) < key(s[0]) {
      SortedCons(x, s, key);
    } else {
      var rest := InsertBy(x, s[1..], key);
      InsertBySorted(x, s[1..], key);
      InsertByHead(x, s[1..], key);
      assert key(s[0]) <= key(rest[0]) by {
        if rest[0] != x {
          assert rest[0] == s[1];
        }
      }
      SortedCons(s[0], rest, key);
    }
  }

  /** An element no greater than the head of a sorted list extends it. */
  lemma SortedCons(a: string, s: seq<string>, key: string -> nat)
    requires SortedBy(s, key) && s != [] && key(a) <= key(s[0])
    ensures SortedBy([a] + s, key)
  {
    var r := [a] + s;
    forall i, j | 0 <= i < j < |r| ensures key(r[i]) <= key(r[j]) {
      assert r[j] == s[j - 1];
      if i > 0 {
        assert r[i] == s[i - 1];
      }
    }
  }

  /** `sorted(s, key=key)`: a stable insertion sort. */
  function SortBy(s: seq<string>, key: string -> nat): seq<string> {
    if s == [] then [] else InsertBy(s[|s| - 1], SortBy(s[..|s| - 1], key), key)
  }

  lemma {:induction false} SortBySorted(s: seq<string>, key: string -> nat)
    ensures SortedBy(SortBy(s, key), key)
  {
    if s != [] {
      SortBySorted(s[..|s| - 1], key);
      InsertBySorted(s[|s| - 1], SortBy(s[..|s| - 1], key), key);
    }
  }

  /** Sorting rearranges the list: the same elements, the same number of times. */
  lemma {:induction false} SortByPermutes(s: seq<string>, key: string -> nat)
    ensures multiset(SortBy(s, key)) == multiset(s)
  {
    if s != [] {
      var init, last := s[..|s| - 1], s[|s| - 1];
      SortByPermutes(init, key);
      InsertByPermutes(last, SortBy(init, key), key);
      MultisetOfSnoc(s);
    }
  }

  lemma MultisetOfSnoc(s: seq<string>)
    requires s != []
    ensures multiset(s) == multiset(s[..|s| - 1]) + multiset{s[|s| - 1]}
  {
    assert s == s[..|s| - 1] + [s[|s| - 1]];
  }

  /** The elements of `s` whose key is `k`, in their order in `s`. */
  function WithKey(s: seq<string>, key: string -> nat, k: nat): seq<string> {
    if s == [] then [] else (if key(s[0]) == k then [s[0]] else []) + WithKey(s[1..], key, k)
  }

  lemma {:induction false} WithKeyAppend(a: seq<string>, b: seq<string>, key: string -> nat, k: nat)
    ensures WithKey(a + b, key, k) == WithKey(a, key, k) + WithKey(b, key, k)
  {
    if a == [] {
      assert a + b == b;
    } else {
      assert (a + b)[0] == a[0];
      assert (a + b)[1..] == a[1..] + b;
      WithKeyAppend(a[1..], b, key, k);
    }
  }

  /** A sorted list has no element below the key of its head. */
  lemma {:induction false} WithKeyBelowHead(s: seq<string>, key: string -> nat, k: nat)
    requires SortedBy(s, key) && s != [] && k < key(s[0])
    ensures WithKey(s, key, k) == []
  {
    if |s| > 1 {
      assert key(s[0]) <= key(s[1]);
      SortedTail(s, key);
      WithKeyBelowHead(s[1..], key, k);
    }
  }

  lemma SortedTail(s: seq<string>, key: string -> nat)
    requires SortedBy(s, key) && s != []
    ensures SortedBy(s[1..], key)
  {
    forall i, j | 0 <= i < j < |s| - 1 ensures key(s[1..][i]) <= key(s[1..][j]) {
      assert s[1..][i] == s[i + 1] && s[1..][j] == s[j + 1];
    }
  }

  /** Insertion places `x` after every element with its key. */
  lemma {:induction false} InsertByStable(x: string, s: seq<string>, key: string -> nat, k: nat)
    requires SortedBy(s, key)
    ensures WithKey(InsertBy(x, s, key), key, k) == WithKey(s, key, k) + (if key(x) == k then [x] else [])
  {
    if s == [] {
    } else if key(x) < key(s[0]) {
      assert ([x] + s)[1..] == s;
      if key(x) == k {
        WithKeyBelowHead(s, key, k);
      }
    } else {
      SortedTail(s, key);
      InsertByStable(x, s[1..], key, k);
      assert ([s[0]] + InsertBy(x, s[1..], key))[1..] == InsertBy(x, s[1..], key);
    }
  }

  /** The sort is stable: the elements sharing a key keep their input order. */
  lemma {:induction false} SortByStable(s: seq<string>, key: string -> nat, k: nat)
    ensures WithKey(SortBy(s, key), key, k) == WithKey(s, key, k)
  {
    if s != [] {
      var init, last := s[..|s| - 1], s[|s| - 1];
      SortByStable(init, key, k);
      SortBySorted(init, key);
      InsertByStable(last, SortBy(init, key), key, k);
      assert s == init + [last];
      WithKeyAppend(init, [last], key, k);
    }
  }

  lemma WithKeyOfHead(s: seq<string>, key: string -> nat)
    ensures s != [] ==> WithKey(s, key, key(s[0])) != []
  {
  }

  /** A sorted list is fixed by its elements of each key, in order: two sorted
      lists that agree on every key are the same list. */
  lemma {:induction false} SortedByKeyClasses(a: seq<string>, b: seq<string>, key: string -> nat)
    requires SortedBy(a, key) && SortedBy(b, key)
    requires forall k: nat :: WithKey(a, key, k) == WithKey(b, key, k)
    ensures a == b
    decreases |a| + |b|
  {
    if a == [] && b != [] {
      WithKeyOfHead(b, key);
      assert false;
    } else if a != [] && b == [] {
      WithKeyOfHead(a, key);
      assert false;
    } else if a != [] {
      var ka, kb := key(a[0]), key(b[0]);
      assert WithKey(a, key, ka) != [];
      assert WithKey(b, key, kb) != [];
      if ka < kb {
        WithKeyBelowHead(b, key, ka);
        assert false;
      }
      if kb < ka {
        WithKeyBelowHead(a, key, kb);
        assert false;
      }
      assert WithKey(a, key, ka)[0] == a[0] && WithKey(b, key, ka)[0] == b[0];
      assert WithKey(a, key, ka) == WithKey(b, key, ka);
      assert a[0] == b[0];
      SortedTail(a, key);
      SortedTail(b, key);
      forall k: nat ensures WithKey(a[1..], key, k) == WithKey(b[1..], key, k) {
        var h := if ka == k then [a[0]] else [];
        assert WithKey(a, key, k) == h + WithKey(a[1..], key, k);
        assert WithKey(b, key, k) == h + WithKey(b[1..], key, k);
        assert WithKey(a, key, k) == WithKey(b, key, k);
        assert WithKey(a[1..], key, k) == WithKey(a, key, k)[|h|..];
        assert WithKey(b[1..], key, k) == WithKey(b, key, k)[|h|..];
      }
      SortedByKeyClasses(a[1..], b[1..], key);
      assert a == [a[0]] + a[1..] && b == [b[0]] + b[1..];
    }
  }

  /** `sorted(ips, key=ip_to_int)` */
  function SortByAddress(s: seq<string>): (r: seq<string>)
    ensures SortedByAddress(r)
    ensures multiset(r) == multiset(s)
    ensures forall k: nat :: WithKey(r, IpToInt, k) == WithKey(s, IpToInt, k)
  {
    SortBySorted(s, IpToInt);
    SortByPermutes(s, IpToInt);
    forall k: nat ensures WithKey(SortBy(s, IpToInt), IpToInt, k) == WithKey(s, IpToInt, k) {
      SortByStable(s, IpToInt, k);
    }
    SortBy(s, IpToInt)
  }

  /** `sorted` has exactly one possible result: any arrangement in address
      order that keeps equal addresses (`01.2.3.4` and `1.2.3.4`, or entries
      that do not parse) in their input order is the sorted pool. */
  lemma SortByAddressUnique(s: seq<string>, t: seq<string>)
    requires SortedByAddress(t)
    requires forall k: nat :: WithKey(t, IpToInt, k) == WithKey(s, IpToInt, k)
    ensures t == SortByAddress(s)
  {
    SortedByKeyClasses(t, SortByAddress(s), IpToInt);
  }

  /** A list is duplicate-free exactly when no element occurs twice in its multiset. */
  lemma {:induction false} NoDuplicatesByMultiplicity(s: seq<string>)
    ensures NoDuplicates(s) <==> forall x :: multiset(s)[x] <= 1
  {
    if s != [] {
      var t := s[..|s| - 1];
      var last := s[|s| - 1];
      assert s == t + [last];
      NoDuplicatesByMultiplicity(t);
      if NoDuplicates(s) {
        assert NoDuplicates(t);
        forall i | 0 <= i < |t| ensures t[i] != last {
          assert t[i] == s[i];
        }
        assert last !in t;
      } else {
        var i, j :| 0 <= i < j < |s| && s[i] == s[j];
        if j < |s| - 1 {
          assert t[i] == t[j];
          var x :| multiset(t)[x] > 1;
          assert multiset(s)[x] >= multiset(t)[x];
        } else {
          assert s[i] in t;
          assert multiset(s)[last] == multiset(t)[last] + 1;
        }
      }
    }
  }

  /** Sorting a duplicate-free pool keeps it duplicate-free. */
  lemma SortKeepsNoDuplicates(s: seq<string>)
    requires NoDuplicates(s)
    ensures NoDuplicates(SortByAddress(s))
  {
    NoDuplicatesByMultiplicity(s);
    NoDuplicatesByMultiplicity(SortByAddress(s));
  }

  /** Why an entered address was refused. */
  datatype InputError = EmptyInput | NotAnAddress | AlreadyListed

  /** `validate_input`: an entry is accepted only when it is non-empty, a valid
      dotted quad and not yet in the pool. */
  function ValidateInput(newIp: string, pool: seq<string>): (r: Option<InputError>)
    ensures r.None? <==> newIp != "" && IsValidIpv4(newIp) && newIp !in pool
    ensures r == Some(EmptyInput) <==> newIp == ""
  {
    if newIp == "" then Some(EmptyInput)
    else if !IsValidIpv4(newIp) then Some(NotAnAddress)
    else if newIp in pool then Some(AlreadyListed)
    else None
  }

  /** `add_ip_address`: the typed text is stripped, validated and, when
      accepted, appended; a refusal leaves the pool untouched. */
  function AddIpAddress(pool: seq<string>, typed: string): (r: (seq<string>, Option<InputError>))
    ensures r.1 == ValidateInput(Strip(typed), pool)
    ensures r.1.None? ==> r.0 == pool + [Strip(typed)] && IsValidIpv4(Strip(typed))
    ensures r.1.Some? ==> r.0 == pool
    ensures NoDuplicates(pool) ==> NoDuplicates(r.0)
  {
    var ip := Strip(typed);
    match ValidateInput(ip, pool)
    case Some(e) => (pool, Some(e))
    case None => (pool + [ip], None)
  }

  /** The position of the first occurrence of `x`. */
  function FirstIndex(s: seq<string>, x: string): (i: nat)
    requires x in s
    ensures i < |s| && s[i] == x && x !in s[..i]
  {
    if s[0] == x then 0
    else
      var i := FirstIndex(s[1..], x);
      assert s[..i + 1] == [s[0]] + s[1..][..i];
      i + 1
  }

  /** `remove_ip_address`: `list.remove` drops the first occurrence and keeps
      the others in order; an address not in the pool changes nothing. */
  function RemoveIpAddress(pool: seq<string>, ip: string): (r: seq<string>)
    ensures ip !in pool ==> r == pool
    ensures ip in pool ==> r == pool[..FirstIndex(pool, ip)] + pool[FirstIndex(pool, ip) + 1..]
    ensures multiset(r) == multiset(pool) - multiset{ip}
  {
    if pool == [] then []
    else if pool[0] == ip then
      assert pool == [ip] + pool[1..];
      assert FirstIndex(pool, ip) == 0;
      assert pool[..0] + pool[1..] == pool[1..];
      pool[1..]
    else
      assert pool == [pool[0]] + pool[1..];
      var rest := RemoveIpAddress(pool[1..], ip);
      RemoveBehindHead(pool, ip, rest);
      RemoveCounts(pool, ip, [pool[0]] + rest);
      [pool[0]] + rest
  }

  /** Dropping the first occurrence, or nothing when there is none, removes
      one occurrence from the multiset. */
  lemma RemoveCounts(pool: seq<string>, ip: string, r: seq<string>)
    requires ip !in pool ==> r == pool
    requires ip in pool ==> r == pool[..FirstIndex(pool, ip)] + pool[FirstIndex(pool, ip) + 1..]
    ensures multiset(r) == multiset(pool) - multiset{ip}
  {
    if ip in pool {
      var i := FirstIndex(pool, ip);
      assert pool == pool[..i] + [ip] + pool[i + 1..];
      assert multiset(pool) == multiset(pool[..i]) + multiset{ip} + multiset(pool[i + 1..]);
      assert multiset(r) == multiset(pool[..i]) + multiset(pool[i + 1..]);
    }
  }

  /** Removing behind a head that differs keeps the head in front. */
  lemma RemoveBehindHead(pool: seq<string>, ip: string, rest: seq<string>)
    requires pool != [] && pool[0] != ip
    requires ip in pool[1..] ==> rest == pool[1..][..FirstIndex(pool[1..], ip)] + pool[1..][FirstIndex(pool[1..], ip) + 1..]
    ensures ip in pool ==> [pool[0]] + rest == pool[..FirstIndex(pool, ip)] + pool[FirstIndex(pool, ip) + 1..]
  {
    if ip in pool {
      assert ip in pool[1..] by {
        var j :| 0 <= j < |pool| && pool[j] == ip;
        assert pool[1..][j - 1] == ip;
      }
      var i := FirstIndex(pool[1..], ip);
      assert FirstIndex(pool, ip) == i + 1;
      assert pool[..i + 1] == [pool[0]] + pool[1..][..i];
      assert pool[i + 2..] == pool[1..][i + 1..];
    }
  }

  /** Removing from a duplicate-free pool removes the address entirely. */
  lemma RemoveKeepsNoDuplicates(pool: seq<string>, ip: string)
    requires NoDuplicates(pool)
    ensures NoDuplicates(RemoveIpAddress(pool, ip)) && ip !in RemoveIpAddress(pool, ip)
  {
    var r := RemoveIpAddress(pool, ip);
    NoDuplicatesByMultiplicity(pool);
    NoDuplicatesByMultiplicity(r);
    assert multiset(r)[ip] == 0;
  }

  /** The editor opens on the current pool sorted by address, equal addresses
      in their stored order. */
  function OpenEditor(current: seq<string>): (pool: seq<string>)
    ensures SortedByAddress(pool) && multiset(pool) == multiset(current)
    ensures forall k: nat :: WithKey(pool, IpToInt, k) == WithKey(current, IpToInt, k)
  {
    SortByAddress(current)
  }

  /** An app declares the device type. */
  predicate UsesDevice(a: App, deviceType: string) {
    a.devices.Some? && HasKey(a.devices.value, deviceType)
  }

  /** The app with that device's `ip_addr` replaced. */
  function WithPool(a: App, deviceType: string, pool: seq<string>): App {
    if UsesDevice(a, deviceType) then
      var dev := Get(a.devices.value, deviceType).value;
      a.(devices := Some(Put(a.devices.value, deviceType, dev.(ipAddr := Some(pool)))))
    else a
  }

  function PoolInApps(apps: Dict<App>, deviceType: string, pool: seq<string>): (r: Dict<App>)
    ensures Keys(r) == Keys(apps)
    ensures forall i :: 0 <= i < |apps| ==> r[i].1 == WithPool(apps[i].1, deviceType, pool)
  {
    if apps == [] then []
    else [(apps[0].0, WithPool(apps[0].1, deviceType, pool))] + PoolInApps(apps[1..], deviceType, pool)
  }

  function PoolInServices(services: Dict<Service>, deviceType: string, pool: seq<string>): (r: Dict<Service>)
    ensures Keys(r) == Keys(services)
    ensures forall i :: 0 <= i < |services| ==>
      r[i].1 == services[i].1.(apps := match services[i].1.apps
                                      case None => None
                                      case Some(a) => Some(PoolInApps(a, deviceType, pool)))
  {
    if services == [] then []
    else
      var s := services[0].1;
      var s' := s.(apps := match s.apps case None => None case Some(a) => Some(PoolInApps(a, deviceType, pool)));
      [(services[0].0, s')] + PoolInServices(services[1..], deviceType, pool)
  }

  /** `save_changes`: the edited pool, sorted by address, becomes the `ip_addr`
      of that device type in every desktop app and every service app declaring it. */
  function SaveChanges(p: Project, pool: seq<string>, deviceType: string): (r: Project)
    ensures r.services.Some? <==> p.services.Some?
    ensures r.services.Some? ==> Keys(r.services.value) == Keys(p.services.value)
  {
    var sorted := SortByAddress(pool);
    var desktop :=
      match p.desktopApps
      case None => None
      case Some(d) =>
        Some(match d.hostMachine
             case None => d
             case Some(h) =>
               d.(hostMachine := Some(h.(apps := match h.apps
                                                 case None => None
                                                 case Some(a) => Some(PoolInApps(a, deviceType, sorted))))));
    var services :=
      match p.services
      case None => None
      case Some(s) => Some(PoolInServices(s, deviceType, sorted));
    Project(services, desktop)
  }

  /** A lookup by key in a mapped dictionary finds the mapped value. */
  lemma {:induction false} GetPoolInApps(apps: Dict<App>, deviceType: string, pool: seq<string>, k: string)
    ensures Get(PoolInApps(apps, deviceType, pool), k)
         == (match Get(apps, k) case None => None case Some(a) => Some(WithPool(a, deviceType, pool)))
  {
    if apps != [] && apps[0].0 != k {
      GetPoolInApps(apps[1..], deviceType, pool, k);
    }
  }

  lemma {:induction false} GetPoolInServices(services: Dict<Service>, deviceType: string, pool: seq<string>, k: string)
    ensures Get(PoolInServices(services, deviceType, pool), k)
         == (match Get(services, k)
             case None => None
             case Some(s) => Some(s.(apps := match s.apps case None => None case Some(a) => Some(PoolInApps(a, deviceType, pool)))))
  {
    if services != [] && services[0].0 != k {
      GetPoolInServices(services[1..], deviceType, pool, k);
    }
  }

  /** Every app of the project, host or service, ends up with the sorted pool
      when it declares the device type and is otherwise untouched; no app
      appears or disappears. */
  lemma SaveChangesReachesEveryApp(p: Project, pool: seq<string>, deviceType: string, ref: AppRef)
    ensures AppAt(SaveChanges(p, pool, deviceType), ref)
         == (match AppAt(p, ref) case None => None case Some(a) => Some(WithPool(a, deviceType, SortByAddress(pool))))
  {
    var sorted := SortByAddress(pool);
    match ref
    case HostApp(a) =>
      if p.desktopApps.Some? && p.desktopApps.value.hostMachine.Some? && p.desktopApps.value.hostMachine.value.apps.Some? {
        GetPoolInApps(p.desktopApps.value.hostMachine.value.apps.value, deviceType, sorted, a);
      }
    case ServiceApp(s, a) =>
      if p.services.Some? {
        GetPoolInServices(p.services.value, deviceType, sorted, s);
        var svc := Get(p.services.value, s);
        if svc.Some? && svc.value.apps.Some? {
          GetPoolInApps(svc.value.apps.value, deviceType, sorted, a);
        }
      }
  }

  /** Writing a pool into a declaring app sets that device's `ip_addr` to it. */
  lemma WithPoolSetsPool(a: App, deviceType: string, pool: seq<string>)
    requires UsesDevice(a, deviceType)
    ensures var a' := WithPool(a, deviceType, pool);
      && UsesDevice(a', deviceType)
      && Get(a'.devices.value, deviceType).value.ipAddr == Some(pool)
  {
    var dev := Get(a.devices.value, deviceType).value;
    GetPutSame(a.devices.value, deviceType, dev.(ipAddr := Some(pool)));
  }

  /** The pool written to a declaring app is the sorted edit: in address order,
      with the same addresses as the edited list. */
  lemma SavedPoolIsSortedEdit(p: Project, pool: seq<string>, deviceType: string, ref: AppRef)
    requires AppAt(p, ref).Some? && UsesDevice(AppAt(p, ref).value, deviceType)
    ensures var a := AppAt(SaveChanges(p, pool, deviceType), ref);
      && a.Some?
      && UsesDevice(a.value, deviceType)
      && Get(a.value.devices.value, deviceType).value.ipAddr.Some?
      && var saved := Get(a.value.devices.value, deviceType).value.ipAddr.value;
      && SortedByAddress(saved)
      && multiset(saved) == multiset(pool)
  {
    SaveChangesReachesEveryApp(p, pool, deviceType, ref);
    WithPoolSetsPool(AppAt(p, ref).value, deviceType, SortByAddress(pool));
  }
}
