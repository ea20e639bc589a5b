/** What the uninstaller finds in a checkout, and the order in which it plans to
    remove it. */
module UninstallPlan {
  import opened Wrappers

  /** An absolute path as its components. */
  type Path = seq<string>

  function Basename(p: Path): string {
    if p == [] then "" else p[|p| - 1]
  }

  datatype PathItem = PathItem(what: string, path: Path)

  datatype ServiceInventory = ServiceInventory(
    launchdPlist: Option<Path>, systemdUserUnit: Option<Path>, systemdSystemUnit: Option<Path>,
    pidFile: Option<Path>, image: Option<string>, nclSymlink: Option<Path>)

  datatype Inventory = Inventory(
    projectRoot: Path, slug: string, service: ServiceInventory,
    data: seq<PathItem>, runtime: seq<PathItem>, user: seq<PathItem>)

  datatype Decisions = Decisions(service: bool, data: bool, user: bool, onecliDelete: seq<string>)

  datatype Flavor = Launchd | SystemdUser | SystemdSystem

  datatype RemovalAction =
    | UnloadService(flavor: Flavor, unitPath: Path)
    | KillPid(pidFile: Path)
    | PkillHost(pattern: Path)
    | RmContainers(labelFilter: string)
    | Rmi(image: string)
    | RmNclSymlink(linkPath: Path)
    | DeleteOnecliAgent(agent: string)
    | BackupEnv(envPath: Path)
    | DeletePath(item: PathItem)
    | DeleteRuntimePath(item: PathItem)

  // ---------- The plan, group by group ----------

  function Unload(flavor: Flavor, unit: Option<Path>): seq<RemovalAction> {
    if unit.Some? then [UnloadService(flavor, unit.value)] else []
  }

  function ServiceActions(inv: Inventory): seq<RemovalAction> {
    var s := inv.service;
    UnitActions(s) +
    (if s.pidFile.Some? then [KillPid(s.pidFile.value)] else []) +
    [PkillHost(inv.projectRoot + ["dist", "index.js"]), RmContainers("nanoclaw-install=" + inv.slug)] +
    (if s.image.Some? then [Rmi(s.image.value)] else []) +
    (if s.nclSymlink.Some? then [RmNclSymlink(s.nclSymlink.value)] else [])
  }

  function UnitActions(s: ServiceInventory): seq<RemovalAction> {
    Unload(Launchd, s.launchdPlist) + Unload(SystemdUser, s.systemdUserUnit) + Unload(SystemdSystem, s.systemdSystemUnit)
  }

  function VaultActions(agents: seq<string>): seq<RemovalAction> {
    seq(|agents|, i requires 0 <= i < |agents| => DeleteOnecliAgent(agents[i]))
  }

  function Deletes(items: seq<PathItem>): seq<RemovalAction> {
    seq(|items|, i requires 0 <= i < |items| => DeletePath(items[i]))
  }

  function RuntimeDeletes(items: seq<PathItem>): seq<RemovalAction> {
    seq(|items|, i requires 0 <= i < |items| => DeleteRuntimePath(items[i]))
  }

  /** The first item called .env, or the number of items. */
  function EnvIndex(items: seq<PathItem>): (e: nat)
    ensures e <= |items|
    ensures e < |items| ==> Basename(items[e].path) == ".env"
    ensures forall i :: 0 <= i < e ==> Basename(items[i].path) != ".env"
  {
    if items == [] || Basename(items[0].path) == ".env" then 0 else 1 + EnvIndex(items[1..])
  }

  /** The items up to n without the one at e. */
  function Without(items: seq<PathItem>, e: nat, n: nat): seq<PathItem>
    requires n <= |items|
  {
    if n <= e then items[..n] else items[..e] + items[e + 1..n]
  }

  function DataActions(items: seq<PathItem>): seq<RemovalAction> {
    var e := EnvIndex(items);
    (if e < |items| then [BackupEnv(items[e].path)] else []) + Deletes(Without(items, e, |items|))
  }

  predicate IsNodeModules(item: PathItem) {
    Basename(item.path) == "node_modules"
  }

  function Pick(items: seq<PathItem>, nodeModules: bool): (r: seq<PathItem>)
    ensures forall i :: 0 <= i < |r| ==> IsNodeModules(r[i]) == nodeModules
    ensures |r| <= |items|
  {
    if items == [] then []
    else (if IsNodeModules(items[0]) == nodeModules then [items[0]] else []) + Pick(items[1..], nodeModules)
  }

  /** The items sorted stably by whether they are node_modules. */
  function SortedTail(items: seq<PathItem>): seq<PathItem> {
    Pick(items, false) + Pick(items, true)
  }

  function ServicePart(inv: Inventory, d: Decisions): seq<RemovalAction> {
    if d.service then ServiceActions(inv) else []
  }

  function DataPart(inv: Inventory, d: Decisions): seq<RemovalAction> {
    if d.data then DataActions(inv.data) else []
  }

  function UserPart(inv: Inventory, d: Decisions): seq<RemovalAction> {
    if d.user then Deletes(inv.user) else []
  }

  function RuntimePart(inv: Inventory, d: Decisions): seq<RemovalAction> {
    if d.data then RuntimeDeletes(SortedTail(inv.runtime)) else []
  }

  function Plan(inv: Inventory, d: Decisions): seq<RemovalAction> {
    ServicePart(inv, d) + VaultActions(d.onecliDelete) + DataPart(inv, d) + UserPart(inv, d) + RuntimePart(inv, d)
  }

  method BuildRemovalPlan(inv: Inventory, d: Decisions) returns (actions: seq<RemovalAction>)
    ensures actions == Plan(inv, d)
    ensures actions == [] <==>
      !d.service && d.onecliDelete == [] && (d.data ==> inv.data == [] && inv.runtime == []) && (d.user ==> inv.user == [])
  {
    actions := [];
    if d.service { actions := PushService(inv); }
    assert actions == ServicePart(inv, d);
    actions := PushVault(actions, d.onecliDelete);
    ghost var head := actions;
    if d.data { actions := PushData(actions, inv.data); }
    assert actions == head + DataPart(inv, d);
    head := actions;
    if d.user { actions := PushUser(actions, inv.user); }
    assert actions == head + UserPart(inv, d);
    head := actions;
    if d.data { actions := PushRuntime(actions, inv.runtime); }
    assert actions == head + RuntimePart(inv, d);
    PlanIsEmptyIff(inv, d);
  }

  method PushService(inv: Inventory) returns (actions: seq<RemovalAction>)
    ensures actions == ServiceActions(inv)
  {
    var s := inv.service;
    actions := PushUnits(s);
    if s.pidFile.Some? { actions := actions + [KillPid(s.pidFile.value)]; }
    actions := actions + [PkillHost(inv.projectRoot + ["dist", "index.js"])];
    actions := actions + [RmContainers("nanoclaw-install=" + inv.slug)];
    if s.image.Some? { actions := actions + [Rmi(s.image.value)]; }
    if s.nclSymlink.Some? { actions := actions + [RmNclSymlink(s.nclSymlink.value)]; }
  }

  method PushUnits(s: ServiceInventory) returns (actions: seq<RemovalAction>)
    ensures actions == UnitActions(s)
  {
    actions := [];
    if s.launchdPlist.Some? { actions := actions + [UnloadService(Launchd, s.launchdPlist.value)]; }
    if s.systemdUserUnit.Some? { actions := actions + [UnloadService(SystemdUser, s.systemdUserUnit.value)]; }
    if s.systemdSystemUnit.Some? { actions := actions + [UnloadService(SystemdSystem, s.systemdSystemUnit.value)]; }
  }

  method PushData(before: seq<RemovalAction>, items: seq<PathItem>) returns (actions: seq<RemovalAction>)
    ensures actions == before + DataActions(items)
  {
    actions := before;
    var e := EnvIndex(items);
    if e < |items| { actions := actions + [BackupEnv(items[e].path)]; }
    ghost var backup := actions;
    for i := 0 to |items|
      invariant actions == backup + Deletes(Without(items, e, i))
    {
      WithoutStep(items, e, i);
      if i == e { continue; }
      actions := actions + [DeletePath(items[i])];
    }
  }

  method PushVault(before: seq<RemovalAction>, agents: seq<string>) returns (actions: seq<RemovalAction>)
    ensures actions == before + VaultActions(agents)
  {
    actions := before;
    for i := 0 to |agents|
      invariant actions == before + VaultActions(agents[..i])
    {
      assert VaultActions(agents[..i + 1]) == VaultActions(agents[..i]) + [DeleteOnecliAgent(agents[i])];
      actions := actions + [DeleteOnecliAgent(agents[i])];
    }
    assert agents[..|agents|] == agents;
  }

  method PushUser(before: seq<RemovalAction>, items: seq<PathItem>) returns (actions: seq<RemovalAction>)
    ensures actions == before + Deletes(items)
  {
    actions := before;
    for i := 0 to |items|
      invariant actions == before + Deletes(items[..i])
    {
      DeletesGrow(before, items, i);
      actions := actions + [DeletePath(items[i])];
    }
    assert items[..|items|] == items;
  }

  method PushRuntime(before: seq<RemovalAction>, items: seq<PathItem>) returns (actions: seq<RemovalAction>)
    ensures actions == before + RuntimeDeletes(SortedTail(items))
  {
    actions := before;
    var tail := SortedTail(items);
    for i := 0 to |tail|
      invariant actions == before + RuntimeDeletes(tail[..i])
    {
      DeletesGrow(before, tail, i);
      actions := actions + [DeleteRuntimePath(tail[i])];
    }
    assert tail[..|tail|] == tail;
  }

  lemma DeletesGrow(before: seq<RemovalAction>, items: seq<PathItem>, i: nat)
    requires i < |items|
    ensures before + Deletes(items[..i + 1]) == before + Deletes(items[..i]) + [DeletePath(items[i])]
    ensures before + RuntimeDeletes(items[..i + 1]) == before + RuntimeDeletes(items[..i]) + [DeleteRuntimePath(items[i])]
  {
  }

  lemma WithoutStep(items: seq<PathItem>, e: nat, i: nat)
    requires i < |items|
    ensures Deletes(Without(items, e, i + 1)) ==
      Deletes(Without(items, e, i)) + (if i == e then [] else [DeletePath(items[i])])
  {
    var before, after := Without(items, e, i), Without(items, e, i + 1);
    assert after == before + (if i == e then [] else [items[i]]);
  }

  lemma PlanIsEmptyIff(inv: Inventory, d: Decisions)
    ensures Plan(inv, d) == [] <==>
      !d.service && d.onecliDelete == [] && (d.data ==> inv.data == [] && inv.runtime == []) && (d.user ==> inv.user == [])
  {
    TailKeepsItems(inv.runtime);
    assert |Plan(inv, d)| == |ServicePart(inv, d)| + |d.onecliDelete| + |DataPart(inv, d)| + |UserPart(inv, d)| + |RuntimePart(inv, d)|;
    assert |ServiceActions(inv)| >= 2;
    assert |DataActions(inv.data)| == |inv.data|;
  }

  // ---------- The order ----------

  function Rank(a: RemovalAction): nat {
    match a
    case DeleteOnecliAgent(_) => 1
    case BackupEnv(_) => 2
    case DeletePath(_) => 3
    case DeleteRuntimePath(item) => if IsNodeModules(item) then 5 else 4
    case _ => 0
  }

  predicate Ordered(actions: seq<RemovalAction>) {
    forall i, j :: 0 <= i < j < |actions| ==> Rank(actions[i]) <= Rank(actions[j])
  }

  predicate RanksIn(actions: seq<RemovalAction>, lo: nat, hi: nat) {
    forall i :: 0 <= i < |actions| ==> lo <= Rank(actions[i]) <= hi
  }

  lemma OrderedConcat(a: seq<RemovalAction>, b: seq<RemovalAction>, lo: nat, mid: nat, hi: nat)
    requires Ordered(a) && Ordered(b) && RanksIn(a, lo, mid) && RanksIn(b, mid, hi) && lo <= mid <= hi
    ensures Ordered(a + b) && RanksIn(a + b, lo, hi)
  {
  }

  lemma ServiceRanks(inv: Inventory)
    ensures RanksIn(ServiceActions(inv), 0, 0) && Ordered(ServiceActions(inv))
  {
    var s := inv.service;
    var pid := if s.pidFile.Some? then [KillPid(s.pidFile.value)] else [];
    var stops := [PkillHost(inv.projectRoot + ["dist", "index.js"]), RmContainers("nanoclaw-install=" + inv.slug)];
    var image := if s.image.Some? then [Rmi(s.image.value)] else [];
    var link := if s.nclSymlink.Some? then [RmNclSymlink(s.nclSymlink.value)] else [];
    assert RanksIn(stops, 0, 0) && RanksIn(pid, 0, 0) && RanksIn(image, 0, 0) && RanksIn(link, 0, 0);
    UnitRanks(s);
    ZeroConcat(UnitActions(s), pid);
    ZeroConcat(UnitActions(s) + pid, stops);
    ZeroConcat(UnitActions(s) + pid + stops, image);
    ZeroConcat(UnitActions(s) + pid + stops + image, link);
  }

  lemma UnitRanks(s: ServiceInventory)
    ensures RanksIn(UnitActions(s), 0, 0)
  {
    ZeroConcat(Unload(Launchd, s.launchdPlist), Unload(SystemdUser, s.systemdUserUnit));
    ZeroConcat(Unload(Launchd, s.launchdPlist) + Unload(SystemdUser, s.systemdUserUnit), Unload(SystemdSystem, s.systemdSystemUnit));
  }

  lemma ZeroConcat(a: seq<RemovalAction>, b: seq<RemovalAction>)
    requires RanksIn(a, 0, 0) && RanksIn(b, 0, 0)
    ensures RanksIn(a + b, 0, 0) && Ordered(a + b)
  {
  }

  lemma DataRanks(items: seq<PathItem>)
    ensures RanksIn(DataActions(items), 2, 3) && Ordered(DataActions(items))
  {
  }

  lemma TailRanks(items: seq<PathItem>)
    ensures var tail := RuntimeDeletes(SortedTail(items)); Ordered(tail) && RanksIn(tail, 4, 5)
  {
  }

  lemma VaultRanks(agents: seq<string>)
    ensures RanksIn(VaultActions(agents), 1, 1) && Ordered(VaultActions(agents))
  {
  }

  lemma DeleteRanks(items: seq<PathItem>)
    ensures RanksIn(Deletes(items), 3, 3) && Ordered(Deletes(items))
  {
  }

  lemma WiderRanks(a: seq<RemovalAction>, lo: nat, hi: nat, lo': nat, hi': nat)
    requires RanksIn(a, lo, hi) && lo' <= lo && hi <= hi'
    ensures RanksIn(a, lo', hi')
  {
  }

  /** First the service, then the vault agents, then the .env backup before any
      deletion, then the paths, then the runtime with node_modules last of all. */
  lemma PlanIsOrdered(inv: Inventory, d: Decisions)
    ensures Ordered(Plan(inv, d))
  {
    ServiceRanks(inv);
    VaultRanks(d.onecliDelete);
    DataRanks(inv.data);
    DeleteRanks(inv.user);
    TailRanks(inv.runtime);
    FiveOrdered(ServicePart(inv, d), VaultActions(d.onecliDelete), DataPart(inv, d), UserPart(inv, d), RuntimePart(inv, d));
  }

  lemma FiveOrdered(a: seq<RemovalAction>, b: seq<RemovalAction>, c: seq<RemovalAction>, u: seq<RemovalAction>, r: seq<RemovalAction>)
    requires Ordered(a) && Ordered(b) && Ordered(c) && Ordered(u) && Ordered(r)
    requires RanksIn(a, 0, 0) && RanksIn(b, 1, 1) && RanksIn(c, 2, 3) && RanksIn(u, 3, 3) && RanksIn(r, 4, 5)
    ensures Ordered(a + b + c + u + r)
  {
    WiderRanks(b, 1, 1, 0, 1);
    OrderedConcat(a, b, 0, 0, 1);
    WiderRanks(c, 2, 3, 1, 3);
    OrderedConcat(a + b, c, 0, 1, 3);
    OrderedConcat(a + b + c, u, 0, 3, 3);
    WiderRanks(r, 4, 5, 3, 5);
    OrderedConcat(a + b + c + u, r, 0, 3, 5);
  }

  // ---------- Head and tail ----------

  function Chosen(actions: seq<RemovalAction>, runtime: bool): seq<RemovalAction> {
    if actions == [] then []
    else (if actions[0].DeleteRuntimePath? == runtime then [actions[0]] else []) + Chosen(actions[1..], runtime)
  }

  lemma {:induction false} OnlyRuntime(actions: seq<RemovalAction>)
    requires forall i :: 0 <= i < |actions| ==> actions[i].DeleteRuntimePath?
    ensures Chosen(actions, true) == actions && Chosen(actions, false) == []
  {
    if actions != [] {
      OnlyRuntime(actions[1..]);
    }
  }

  lemma {:induction false} OrderedSplits(actions: seq<RemovalAction>)
    requires Ordered(actions)
    ensures Chosen(actions, false) + Chosen(actions, true) == actions
  {
    if actions != [] {
      if actions[0].DeleteRuntimePath? {
        OnlyRuntime(actions);
      } else {
        OrderedSplits(actions[1..]);
      }
    }
  }

  /** Running everything but the runtime, and then the runtime, is running the plan. */
  lemma HeadThenTailIsPlan(inv: Inventory, d: Decisions)
    ensures Chosen(Plan(inv, d), false) + Chosen(Plan(inv, d), true) == Plan(inv, d)
  {
    PlanIsOrdered(inv, d);
    OrderedSplits(Plan(inv, d));
  }

  // ---------- What the plan covers ----------

  /** The paths that the actions remove from the checkout. */
  function Removed(actions: seq<RemovalAction>): multiset<Path> {
    if actions == [] then multiset{}
    else
      (match actions[0]
       case BackupEnv(p) => multiset{p}
       case DeletePath(item) => multiset{item.path}
       case DeleteRuntimePath(item) => multiset{item.path}
       case _ => multiset{})
      + Removed(actions[1..])
  }

  function Paths(items: seq<PathItem>): multiset<Path> {
    if items == [] then multiset{} else multiset{items[0].path} + Paths(items[1..])
  }

  lemma {:induction false} RemovedConcat(a: seq<RemovalAction>, b: seq<RemovalAction>)
    ensures Removed(a + b) == Removed(a) + Removed(b)
  {
    if a == [] {
      assert a + b == b;
    } else {
      assert (a + b)[1..] == a[1..] + b;
      RemovedConcat(a[1..], b);
    }
  }

  lemma {:induction false} PathsConcat(a: seq<PathItem>, b: seq<PathItem>)
    ensures Paths(a + b) == Paths(a) + Paths(b)
  {
    if a == [] {
      assert a + b == b;
    } else {
      assert (a + b)[1..] == a[1..] + b;
      PathsConcat(a[1..], b);
    }
  }

  lemma DeletesCons(item: PathItem, rest: seq<PathItem>)
    ensures Deletes([item] + rest) == [DeletePath(item)] + Deletes(rest)
    ensures RuntimeDeletes([item] + rest) == [DeleteRuntimePath(item)] + RuntimeDeletes(rest)
  {
  }

  lemma RemovedCons(a: RemovalAction, rest: seq<RemovalAction>, item: PathItem)
    requires a == DeletePath(item) || a == DeleteRuntimePath(item)
    ensures Removed([a] + rest) == multiset{item.path} + Removed(rest)
  {
    assert ([a] + rest)[1..] == rest;
  }

  lemma {:induction false} RemovedByDeletes(items: seq<PathItem>)
    ensures Removed(Deletes(items)) == Paths(items) && Removed(RuntimeDeletes(items)) == Paths(items)
  {
    if items != [] {
      var item, rest := items[0], items[1..];
      RemovedByDeletes(rest);
      assert items == [item] + rest;
      DeletesCons(item, rest);
      RemovedCons(DeletePath(item), Deletes(rest), item);
      RemovedCons(DeleteRuntimePath(item), RuntimeDeletes(rest), item);
    }
  }

  lemma PathsCons(item: PathItem, rest: seq<PathItem>)
    ensures Paths([item] + rest) == multiset{item.path} + Paths(rest)
  {
    assert ([item] + rest)[1..] == rest;
  }

  lemma PickCons(items: seq<PathItem>)
    requires items != []
    ensures var mine := IsNodeModules(items[0]);
      && Pick(items, mine) == [items[0]] + Pick(items[1..], mine)
      && Pick(items, !mine) == Pick(items[1..], !mine)
  {
  }

  predicate NodeModulesLast(items: seq<PathItem>) {
    forall i, j :: 0 <= i < j < |items| ==> IsNodeModules(items[i]) ==> IsNodeModules(items[j])
  }

  lemma {:induction false} PickConcat(a: seq<PathItem>, b: seq<PathItem>, nodeModules: bool)
    ensures Pick(a + b, nodeModules) == Pick(a, nodeModules) + Pick(b, nodeModules)
  {
    if a == [] {
      assert a + b == b;
    } else {
      assert (a + b)[1..] == a[1..] + b;
      PickConcat(a[1..], b, nodeModules);
    }
  }

  lemma {:induction false} PickUniform(items: seq<PathItem>, nodeModules: bool)
    requires forall i :: 0 <= i < |items| ==> IsNodeModules(items[i]) == nodeModules
    ensures Pick(items, nodeModules) == items && Pick(items, !nodeModules) == []
  {
    if items != [] {
      PickUniform(items[1..], nodeModules);
    }
  }

  lemma {:induction false} LastSplits(items: seq<PathItem>)
    requires NodeModulesLast(items)
    ensures items == SortedTail(items)
  {
    if items != [] {
      if IsNodeModules(items[0]) {
        PickUniform(items, true);
      } else {
        LastSplits(items[1..]);
      }
    }
  }

  /** The runtime tail is the one stable sort of the items: node_modules last, and
      both groups in the order they came in. */
  lemma TailIsTheStableSort(items: seq<PathItem>, out: seq<PathItem>)
    ensures NodeModulesLast(out) && (forall b :: Pick(out, b) == Pick(items, b)) <==> out == SortedTail(items)
  {
    var f, t := Pick(items, false), Pick(items, true);
    PickUniform(f, false);
    PickUniform(t, true);
    PickConcat(f, t, false);
    PickConcat(f, t, true);
    if NodeModulesLast(out) && forall b :: Pick(out, b) == Pick(items, b) {
      LastSplits(out);
      assert Pick(out, false) == f && Pick(out, true) == t;
    }
    if out == SortedTail(items) {
      forall b ensures Pick(out, b) == Pick(items, b) {
        assert b == true || b == false;
      }
    }
  }

  lemma {:induction false} PicksCover(items: seq<PathItem>)
    ensures Paths(Pick(items, false)) + Paths(Pick(items, true)) == Paths(items)
    ensures |Pick(items, false)| + |Pick(items, true)| == |items|
  {
    if items != [] {
      var item, rest := items[0], items[1..];
      PicksCover(rest);
      PickCons(items);
      PathsCons(item, Pick(rest, IsNodeModules(item)));
    }
  }

  lemma TailKeepsItems(items: seq<PathItem>)
    ensures Paths(SortedTail(items)) == Paths(items)
    ensures |SortedTail(items)| == |items|
  {
    PicksCover(items);
    PathsConcat(Pick(items, false), Pick(items, true));
  }

  lemma RemovedBackup(p: Path, rest: seq<RemovalAction>)
    ensures Removed([BackupEnv(p)] + rest) == multiset{p} + Removed(rest)
  {
    assert ([BackupEnv(p)] + rest)[1..] == rest;
  }

  lemma PathsWithout(items: seq<PathItem>, e: nat)
    requires e < |items|
    ensures Paths(items) == multiset{items[e].path} + Paths(Without(items, e, |items|))
  {
    var a, b := items[..e], items[e + 1..];
    SplitAt(items, e);
    PathsMiddle(a, items[e], b);
  }

  lemma SplitAt(items: seq<PathItem>, e: nat)
    requires e < |items|
    ensures items == items[..e] + ([items[e]] + items[e + 1..])
    ensures Without(items, e, |items|) == items[..e] + items[e + 1..]
  {
    assert items[e + 1..|items|] == items[e + 1..];
  }

  lemma PathsMiddle(a: seq<PathItem>, item: PathItem, b: seq<PathItem>)
    ensures Paths(a + ([item] + b)) == multiset{item.path} + Paths(a + b)
  {
    PathsConcat(a, [item] + b);
    PathsConcat(a, b);
    PathsCons(item, b);
  }

  lemma DataCovered(items: seq<PathItem>)
    ensures Removed(DataActions(items)) == Paths(items)
  {
    var e := EnvIndex(items);
    var rest := Without(items, e, |items|);
    RemovedByDeletes(rest);
    if e < |items| {
      RemovedBackup(items[e].path, Deletes(rest));
      PathsWithout(items, e);
    } else {
      assert rest == items && [] + Deletes(rest) == Deletes(rest);
    }
  }

  lemma {:induction false} RemovesNothing(actions: seq<RemovalAction>)
    requires RanksIn(actions, 0, 1)
    ensures Removed(actions) == multiset{}
  {
    if actions != [] {
      RemovesNothing(actions[1..]);
    }
  }

  /** The items of the chosen groups are each removed once, and no other path of the
      checkout is. */
  lemma PlanCovers(inv: Inventory, d: Decisions)
    ensures Removed(Plan(inv, d)) ==
      (if d.data then Paths(inv.data) + Paths(inv.runtime) else multiset{}) + (if d.user then Paths(inv.user) else multiset{})
  {
    FiveRemoved(ServicePart(inv, d), VaultActions(d.onecliDelete), DataPart(inv, d), UserPart(inv, d), RuntimePart(inv, d));
    HeadRemovesNothing(inv, d);
    DataCovered(inv.data);
    RemovedByDeletes(inv.user);
    RuntimeCovered(inv.runtime);
    assert Removed([]) == multiset{};
  }

  lemma HeadRemovesNothing(inv: Inventory, d: Decisions)
    ensures Removed(ServicePart(inv, d)) == multiset{} && Removed(VaultActions(d.onecliDelete)) == multiset{}
  {
    ServiceRanks(inv);
    WiderRanks(ServicePart(inv, d), 0, 0, 0, 1);
    RemovesNothing(ServicePart(inv, d));
    VaultRanks(d.onecliDelete);
    WiderRanks(VaultActions(d.onecliDelete), 1, 1, 0, 1);
    RemovesNothing(VaultActions(d.onecliDelete));
  }

  lemma RuntimeCovered(items: seq<PathItem>)
    ensures Removed(RuntimeDeletes(SortedTail(items))) == Paths(items)
  {
    RemovedByDeletes(SortedTail(items));
    TailKeepsItems(items);
  }

  lemma FiveRemoved(a: seq<RemovalAction>, b: seq<RemovalAction>, c: seq<RemovalAction>, u: seq<RemovalAction>, r: seq<RemovalAction>)
    ensures Removed(a + b + c + u + r) == Removed(a) + Removed(b) + Removed(c) + Removed(u) + Removed(r)
  {
    RemovedConcat(a + b + c + u, r);
    RemovedConcat(a + b + c, u);
    RemovedConcat(a + b, c);
    RemovedConcat(a, b);
  }

  // ---------- Which actions, and in which order ----------

  lemma DeletesMember(items: seq<PathItem>, item: PathItem)
    ensures DeletePath(item) in Deletes(items) <==> item in items
    ensures DeleteRuntimePath(item) in RuntimeDeletes(items) <==> item in items
  {
    if item in items {
      var i :| 0 <= i < |items| && items[i] == item;
      assert Deletes(items)[i] == DeletePath(item) && RuntimeDeletes(items)[i] == DeleteRuntimePath(item);
    }
  }

  lemma VaultMember(agents: seq<string>, agent: string)
    ensures DeleteOnecliAgent(agent) in VaultActions(agents) <==> agent in agents
  {
    if agent in agents {
      var i :| 0 <= i < |agents| && agents[i] == agent;
      assert VaultActions(agents)[i] == DeleteOnecliAgent(agent);
    }
  }

  lemma {:induction false} PickMember(items: seq<PathItem>, nodeModules: bool, item: PathItem)
    ensures item in Pick(items, nodeModules) <==> item in items && IsNodeModules(item) == nodeModules
  {
    if items != [] {
      PickMember(items[1..], nodeModules, item);
    }
  }

  lemma ServiceMember(inv: Inventory, a: RemovalAction)
    ensures a in ServiceActions(inv) <==>
      match a
      case UnloadService(Launchd, p) => inv.service.launchdPlist == Some(p)
      case UnloadService(SystemdUser, p) => inv.service.systemdUserUnit == Some(p)
      case UnloadService(SystemdSystem, p) => inv.service.systemdSystemUnit == Some(p)
      case KillPid(p) => inv.service.pidFile == Some(p)
      case PkillHost(pattern) => pattern == inv.projectRoot + ["dist", "index.js"]
      case RmContainers(filter) => filter == "nanoclaw-install=" + inv.slug
      case Rmi(image) => inv.service.image == Some(image)
      case RmNclSymlink(p) => inv.service.nclSymlink == Some(p)
      case _ => false
  {
    assert a in UnitActions(inv.service) <==>
      a in Unload(Launchd, inv.service.launchdPlist) || a in Unload(SystemdUser, inv.service.systemdUserUnit)
      || a in Unload(SystemdSystem, inv.service.systemdSystemUnit);
  }

  lemma ItemsMember(inv: Inventory, d: Decisions, item: PathItem)
    ensures DeletePath(item) in DataPart(inv, d) <==> d.data && item in Without(inv.data, EnvIndex(inv.data), |inv.data|)
    ensures DeletePath(item) in UserPart(inv, d) <==> d.user && item in inv.user
    ensures DeleteRuntimePath(item) in RuntimePart(inv, d) <==> d.data && item in inv.runtime
  {
    DeletesMember(Without(inv.data, EnvIndex(inv.data), |inv.data|), item);
    DeletesMember(inv.user, item);
    DeletesMember(SortedTail(inv.runtime), item);
    PickMember(inv.runtime, false, item);
    PickMember(inv.runtime, true, item);
  }

  /** An action is planned exactly for what was found, in a group that was chosen; the
      host and its containers are stopped whatever was found. The first .env is backed
      up, and the other paths of its group deleted. */
  lemma PlannedIff(inv: Inventory, d: Decisions, a: RemovalAction)
    ensures a in Plan(inv, d) <==>
      match a
      case UnloadService(Launchd, p) => d.service && inv.service.launchdPlist == Some(p)
      case UnloadService(SystemdUser, p) => d.service && inv.service.systemdUserUnit == Some(p)
      case UnloadService(SystemdSystem, p) => d.service && inv.service.systemdSystemUnit == Some(p)
      case KillPid(p) => d.service && inv.service.pidFile == Some(p)
      case PkillHost(pattern) => d.service && pattern == inv.projectRoot + ["dist", "index.js"]
      case RmContainers(filter) => d.service && filter == "nanoclaw-install=" + inv.slug
      case Rmi(image) => d.service && inv.service.image == Some(image)
      case RmNclSymlink(p) => d.service && inv.service.nclSymlink == Some(p)
      case DeleteOnecliAgent(agent) => agent in d.onecliDelete
      case BackupEnv(p) => d.data && EnvIndex(inv.data) < |inv.data| && inv.data[EnvIndex(inv.data)].path == p
      case DeletePath(item) =>
        (d.data && exists i :: 0 <= i < |inv.data| && i != EnvIndex(inv.data) && inv.data[i] == item) || (d.user && item in inv.user)
      case DeleteRuntimePath(item) => d.data && item in inv.runtime
  {
    assert a in Plan(inv, d) <==>
      a in ServicePart(inv, d) || a in VaultActions(d.onecliDelete) || a in DataPart(inv, d) || a in UserPart(inv, d) || a in RuntimePart(inv, d);
    ServiceMember(inv, a);
    match a
    case DeleteOnecliAgent(agent) => VaultMember(d.onecliDelete, agent);
    case DeletePath(item) =>
      ItemsMember(inv, d, item);
      WithoutMember(inv.data, EnvIndex(inv.data), item);
    case DeleteRuntimePath(item) => ItemsMember(inv, d, item);
    case _ =>
  }

  lemma WithoutMember(items: seq<PathItem>, e: nat, item: PathItem)
    requires e <= |items|
    ensures item in Without(items, e, |items|) <==> exists i :: 0 <= i < |items| && i != e && items[i] == item
  {
    var rest := Without(items, e, |items|);
    if i :| 0 <= i < |items| && i != e && items[i] == item {
      assert rest[if i < e then i else i - 1] == item;
    }
    if item in rest {
      var r :| 0 <= r < |rest| && rest[r] == item;
      assert items[if r < e then r else r + 1] == item;
    }
  }

  /** The order that matters: the host is stopped before any vault agent, backup or path
      goes; vault agents go before the data that they were computed from; the backup
      comes before every deletion; nothing but the runtime follows a runtime path, and
      node_modules is the last of it. */
  lemma OrderThatMatters(inv: Inventory, d: Decisions, i: nat, j: nat)
    requires i < j < |Plan(inv, d)|
    ensures var a, b := Plan(inv, d)[i], Plan(inv, d)[j];
      && (b.PkillHost? || b.RmContainers? || b.UnloadService? || b.KillPid? || b.Rmi? || b.RmNclSymlink? ==>
            !a.DeleteOnecliAgent? && !a.BackupEnv? && !a.DeletePath? && !a.DeleteRuntimePath?)
      && (b.DeleteOnecliAgent? ==> !a.BackupEnv? && !a.DeletePath? && !a.DeleteRuntimePath?)
      && (b.BackupEnv? ==> !a.DeletePath? && !a.DeleteRuntimePath?)
      && (a.DeleteRuntimePath? ==> b.DeleteRuntimePath?)
      && (a.DeleteRuntimePath? && Basename(a.item.path) == "node_modules" ==> Basename(b.item.path) == "node_modules")
  {
    PlanIsOrdered(inv, d);
  }
}
