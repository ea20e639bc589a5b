/** Running a removal plan on a file system where any step can fail, possibly
    half way through. */
module UninstallExec {
  import opened Wrappers
  import opened UninstallPlan

  datatype Node = Dir | File(content: string)

  type Files = map<Path, Node>

  // ---------- What the scan finds ----------

  datatype Platform = Darwin | Linux | Other

  /** `imageFound` and `ownsLink` are what the container runtime and the link of the
      ncl command say; `slug` is the checkout's own hexadecimal tag. */
  datatype Machine = Machine(root: Path, home: Path, platform: Platform, slug: string, imageFound: bool, ownsLink: bool)

  datatype Spec = Spec(rel: string, what: string)

  const DATA_SPECS := [
    Spec("data", "Database & conversations"), Spec("logs", "Logs"), Spec(".env", "Secrets / API keys (.env)"),
    Spec("start-nanoclaw.sh", "Start script"), Spec("nanoclaw.pid", "PID file")]
  const RUNTIME_SPECS := [Spec("dist", "Build output"), Spec("node_modules", "Installed dependencies")]
  const USER_SPECS := [Spec("groups", "Agent memory & files"), Spec("store", "Migrated data store")]

  function ExistingItems(files: Files, root: Path, specs: seq<Spec>): (items: seq<PathItem>)
    ensures forall item :: item in items <==> exists s :: s in specs && root + [s.rel] in files && item == PathItem(s.what, root + [s.rel])
  {
    if specs == [] then []
    else
      var rest := ExistingItems(files, root, specs[1..]);
      if root + [specs[0].rel] in files then [PathItem(specs[0].what, root + [specs[0].rel])] + rest else rest
  }

  function FoundAt(files: Files, p: Path): Option<Path> {
    if p in files then Some(p) else None
  }

  function ScanService(files: Files, m: Machine): ServiceInventory {
    ServiceInventory(
      if m.platform.Darwin? then FoundAt(files, m.home + ["Library", "LaunchAgents", "com.nanoclaw-v2-" + m.slug + ".plist"]) else None,
      if m.platform.Linux? then FoundAt(files, m.home + [".config", "systemd", "user", "nanoclaw-v2-" + m.slug + ".service"]) else None,
      if m.platform.Linux? then FoundAt(files, ["etc", "systemd", "system", "nanoclaw-v2-" + m.slug + ".service"]) else None,
      if m.platform.Linux? then FoundAt(files, m.root + ["nanoclaw.pid"]) else None,
      if m.imageFound then Some("nanoclaw-agent-v2-" + m.slug + ":latest") else None,
      if m.ownsLink then Some(m.home + [".local", "bin", "ncl"]) else None)
  }

  function ScanInstall(files: Files, m: Machine): Inventory {
    Inventory(m.root, m.slug, ScanService(files, m),
      ExistingItems(files, m.root, DATA_SPECS),
      ExistingItems(files, m.root, RUNTIME_SPECS),
      ExistingItems(files, m.root, USER_SPECS))
  }

  // ---------- One action ----------

  datatype CopyOutcome = Copied | NotCopied | Torn(content: string)

  /** What goes wrong during an action: its commands can throw or report a status
      (none when they could not be started), a copy can fail with anything in its
      target, and a removal can throw with some of the paths gone. */
  datatype World = World(stamp: string, status: Option<int>, throws: bool, throwsLater: bool,
                         copy: CopyOutcome, gone: Option<set<Path>>)

  /** The files left behind, and whether the action ended in a note. */
  datatype Ran = Ran(files: Files, noted: bool)

  function Under(files: Files, p: Path): set<Path> {
    set q | q in files && p <= q
  }

  function RemoveTree(files: Files, p: Path, gone: Option<set<Path>>): Ran {
    match gone
    case None => Ran(files - Under(files, p), false)
    case Some(some) => Ran(files - Under(files, p) * some, true)
  }

  function RemoveFile(files: Files, p: Path, gone: Option<set<Path>>): Ran {
    if gone.Some? || (p in files && files[p].Dir?) then Ran(files, true) else Ran(files - {p}, false)
  }

  function Sibling(p: Path, name: string): Path {
    (if p == [] then [] else p[..|p| - 1]) + [name]
  }

  function BackupPath(files: Files, envPath: Path, stamp: string): Path {
    if Sibling(envPath, ".env.bak") in files then Sibling(envPath, ".env.bak." + stamp) else Sibling(envPath, ".env.bak")
  }

  /** A copy and then a removal: the removal is never reached without the copy. */
  function RunBackup(files: Files, envPath: Path, w: World): Ran {
    var backup := BackupPath(files, envPath, w.stamp);
    if envPath !in files || files[envPath].Dir? || (backup in files && files[backup].Dir?) then Ran(files, true)
    else
      match w.copy
      case NotCopied => Ran(files, true)
      case Torn(content) => Ran(files[backup := File(content)], true)
      case Copied => RemoveFile(files[backup := files[envPath]], envPath, w.gone)
  }

  function RunUnload(files: Files, flavor: Flavor, unitPath: Path, isRoot: bool, w: World): Ran {
    if (flavor == SystemdSystem && !isRoot) || w.throws then Ran(files, true)
    else
      var removed := RemoveFile(files, unitPath, w.gone);
      removed.(noted := removed.noted || (flavor != Launchd && w.throwsLater))
  }

  function RunAction(files: Files, a: RemovalAction, isRoot: bool, w: World): Ran {
    match a
    case UnloadService(flavor, unitPath) => RunUnload(files, flavor, unitPath, isRoot, w)
    case KillPid(_) => Ran(files, false)
    case PkillHost(_) => Ran(files, w.throws)
    case RmContainers(_) => Ran(files, w.throws || w.status != Some(0) || w.throwsLater)
    case Rmi(_) => Ran(files, w.throws || w.status != Some(0))
    case RmNclSymlink(linkPath) => RemoveFile(files, linkPath, w.gone)
    case DeleteOnecliAgent(_) => Ran(files, w.throws || w.status == None)
    case BackupEnv(envPath) => RunBackup(files, envPath, w)
    case DeletePath(item) => RemoveTree(files, item.path, w.gone)
    case DeleteRuntimePath(item) => RemoveTree(files, item.path, w.gone)
  }

  // ---------- The executor ----------

  /** The final files, and the actions that ended in a note. */
  function Execute(files: Files, actions: seq<RemovalAction>, isRoot: bool, worlds: seq<World>): (Files, seq<RemovalAction>)
    requires |worlds| == |actions|
    decreases |actions|
  {
    if actions == [] then (files, [])
    else
      var ran := RunAction(files, actions[0], isRoot, worlds[0]);
      var rest := Execute(ran.files, actions[1..], isRoot, worlds[1..]);
      (rest.0, (if ran.noted then [actions[0]] else []) + rest.1)
  }

  lemma {:induction false} ExecuteConcat(files: Files, a: seq<RemovalAction>, b: seq<RemovalAction>, isRoot: bool, wa: seq<World>, wb: seq<World>)
    requires |wa| == |a| && |wb| == |b|
    ensures var first := Execute(files, a, isRoot, wa);
      var second := Execute(first.0, b, isRoot, wb);
      Execute(files, a + b, isRoot, wa + wb) == (second.0, first.1 + second.1)
    decreases |a|
  {
    if a == [] {
      assert a + b == b && wa + wb == wb;
      assert [] + Execute(files, b, isRoot, wb).1 == Execute(files, b, isRoot, wb).1;
    } else {
      assert (a + b)[1..] == a[1..] + b && (wa + wb)[1..] == wa[1..] + wb;
      var ran := RunAction(files, a[0], isRoot, wa[0]);
      ExecuteConcat(ran.files, a[1..], b, isRoot, wa[1..], wb);
      var note := if ran.noted then [a[0]] else [];
      var first := Execute(ran.files, a[1..], isRoot, wa[1..]);
      var second := Execute(first.0, b, isRoot, wb);
      assert (note + first.1) + second.1 == note + (first.1 + second.1);
    }
  }

  class Uninstaller {
    var files: Files

    constructor (initial: Files)
      ensures files == initial
    {
      files := initial;
    }

    /** An action that fails becomes a note, and the next one runs. */
    method ExecutePlan(actions: seq<RemovalAction>, isRoot: bool, worlds: seq<World>) returns (notes: seq<RemovalAction>)
      requires |worlds| == |actions|
      modifies this
      ensures (files, notes) == Execute(old(files), actions, isRoot, worlds)
    {
      notes := [];
      ghost var end := Execute(files, actions, isRoot, worlds);
      assert actions[0..] == actions && worlds[0..] == worlds;
      for i := 0 to |actions|
        invariant end.0 == Execute(files, actions[i..], isRoot, worlds[i..]).0
        invariant end.1 == notes + Execute(files, actions[i..], isRoot, worlds[i..]).1
      {
        assert actions[i..][1..] == actions[i + 1..] && worlds[i..][1..] == worlds[i + 1..];
        var ran := RunAction(files, actions[i], isRoot, worlds[i]);
        ghost var rest := Execute(ran.files, actions[i + 1..], isRoot, worlds[i + 1..]);
        assert Execute(files, actions[i..], isRoot, worlds[i..]) == (rest.0, (if ran.noted then [actions[i]] else []) + rest.1);
        files := ran.files;
        if ran.noted { notes := notes + [actions[i]]; }
      }
      assert notes + [] == notes;
    }
  }

  /** The runtime is removed in a second run, after the summary; together the two
      runs do what one run of the plan does. */
  lemma TwoRunsAreOne(files: Files, inv: Inventory, d: Decisions, isRoot: bool, wh: seq<World>, wt: seq<World>)
    requires |wh| == |Chosen(Plan(inv, d), false)| && |wt| == |Chosen(Plan(inv, d), true)|
    ensures |wh + wt| == |Plan(inv, d)|
    ensures var head := Execute(files, Chosen(Plan(inv, d), false), isRoot, wh);
      var tail := Execute(head.0, Chosen(Plan(inv, d), true), isRoot, wt);
      Execute(files, Plan(inv, d), isRoot, wh + wt) == (tail.0, head.1 + tail.1)
  {
    HeadThenTailIsPlan(inv, d);
    ExecuteConcat(files, Chosen(Plan(inv, d), false), Chosen(Plan(inv, d), true), isRoot, wh, wt);
  }

  // ---------- The secrets survive ----------

  predicate BackupName(name: string) {
    ".env.bak" <= name
  }

  predicate SecretName(name: string) {
    name == ".env" || BackupName(name)
  }

  /** The contents are in the file itself, or in a backup beside it. */
  ghost predicate Kept(files: Files, root: Path, content: string) {
    exists name :: SecretName(name) && root + [name] in files && files[root + [name]] == File(content)
  }

  predicate Intact(files: Files, root: Path, content: string) {
    root + [".env"] in files && files[root + [".env"]] == File(content)
  }

  /** An action that removes nothing with a secret's name, but for the backup of the
      checkout's own file. */
  predicate Harmless(a: RemovalAction, root: Path) {
    match a
    case BackupEnv(p) => p == root + [".env"]
    case DeletePath(item) => item.path == root + [Basename(item.path)] && !SecretName(Basename(item.path))
    case DeleteRuntimePath(item) => item.path == root + [Basename(item.path)] && !SecretName(Basename(item.path))
    case UnloadService(_, p) => !SecretName(Basename(p))
    case RmNclSymlink(p) => !SecretName(Basename(p))
    case _ => true
  }

  predicate AllHarmless(actions: seq<RemovalAction>, root: Path) {
    forall i :: 0 <= i < |actions| ==> Harmless(actions[i], root)
  }

  function Backups(actions: seq<RemovalAction>): nat {
    if actions == [] then 0 else (if actions[0].BackupEnv? then 1 else 0) + Backups(actions[1..])
  }

  lemma OtherSibling(root: Path, a: string, b: string)
    ensures root + [a] <= root + [b] <==> a == b
  {
    assert (root + [a])[|root|] == a && (root + [b])[|root|] == b;
  }

  lemma HarmlessKeeps(files: Files, a: RemovalAction, isRoot: bool, w: World, root: Path, name: string)
    requires Harmless(a, root) && !a.BackupEnv? && SecretName(name) && root + [name] in files
    ensures var after := RunAction(files, a, isRoot, w).files; root + [name] in after && after[root + [name]] == files[root + [name]]
  {
    var p := root + [name];
    assert Basename(p) == name;
    if a.DeletePath? || a.DeleteRuntimePath? {
      OtherSibling(root, Basename(a.item.path), name);
    }
  }

  lemma BackupKeeps(files: Files, isRoot: bool, w: World, root: Path, content: string)
    requires Intact(files, root, content)
    ensures Kept(RunAction(files, BackupEnv(root + [".env"]), isRoot, w).files, root, content)
  {
    var env := root + [".env"];
    assert env[..|env| - 1] == root;
    var backup := BackupPath(files, env, w.stamp);
    var name := if root + [".env.bak"] in files then ".env.bak." + w.stamp else ".env.bak";
    assert backup == root + [name];
    assert ".env.bak"[4] == '.' && |".env"| == 4;
    assert backup[|root|] != env[|root|];
    assert SecretName(name) && SecretName(".env");
  }

  lemma {:induction false} ExecutionKeeps(files: Files, actions: seq<RemovalAction>, isRoot: bool, worlds: seq<World>, root: Path, content: string)
    requires |worlds| == |actions| && AllHarmless(actions, root)
    requires (Intact(files, root, content) && Backups(actions) <= 1) || (Kept(files, root, content) && Backups(actions) == 0)
    ensures Kept(Execute(files, actions, isRoot, worlds).0, root, content)
    decreases |actions|
  {
    if actions == [] {
      assert Intact(files, root, content) ==> SecretName(".env") && Kept(files, root, content);
    } else {
      var a, w := actions[0], worlds[0];
      var after := RunAction(files, a, isRoot, w).files;
      if a.BackupEnv? {
        BackupKeeps(files, isRoot, w, root, content);
      } else if Intact(files, root, content) {
        HarmlessKeeps(files, a, isRoot, w, root, ".env");
      } else {
        var name :| SecretName(name) && root + [name] in files && files[root + [name]] == File(content);
        HarmlessKeeps(files, a, isRoot, w, root, name);
      }
      ExecutionKeeps(after, actions[1..], isRoot, worlds[1..], root, content);
    }
  }

  lemma {:induction false} BackupsConcat(a: seq<RemovalAction>, b: seq<RemovalAction>)
    ensures Backups(a + b) == Backups(a) + Backups(b)
  {
    if a == [] {
      assert a + b == b;
    } else {
      assert (a + b)[1..] == a[1..] + b;
      BackupsConcat(a[1..], b);
    }
  }

  lemma {:induction false} NoBackups(actions: seq<RemovalAction>)
    requires forall i :: 0 <= i < |actions| ==> Rank(actions[i]) != 2
    ensures Backups(actions) == 0
  {
    if actions != [] {
      NoBackups(actions[1..]);
    }
  }

  lemma DataBackups(items: seq<PathItem>)
    ensures Backups(DataActions(items)) <= 1
  {
    var e := EnvIndex(items);
    var deletes := Deletes(Without(items, e, |items|));
    NoBackups(deletes);
    if e < |items| {
      assert ([BackupEnv(items[e].path)] + deletes)[1..] == deletes;
    } else {
      assert [] + deletes == deletes;
    }
  }

  lemma PlanBacksUpOnce(inv: Inventory, d: Decisions)
    ensures Backups(Plan(inv, d)) <= 1
  {
    var s, v, a, u, r := ServicePart(inv, d), VaultActions(d.onecliDelete), DataPart(inv, d), UserPart(inv, d), RuntimePart(inv, d);
    BackupsConcat(s + v + a + u, r);
    BackupsConcat(s + v + a, u);
    BackupsConcat(s + v, a);
    BackupsConcat(s, v);
    ServiceRanks(inv);
    NoBackups(s);
    NoBackups(v);
    DataBackups(inv.data);
    NoBackups(u);
    TailRanks(inv.runtime);
    NoBackups(r);
  }

  // ---------- Scanned plans are harmless ----------

  lemma ScannedServiceHarmless(files: Files, m: Machine)
    ensures AllHarmless(ServiceActions(ScanInstall(files, m)), m.root)
  {
    var inv := ScanInstall(files, m);
    var s := inv.service;
    UnitNames(files, m);
    assert AllHarmless(UnitActions(s), m.root);
    var pid := if s.pidFile.Some? then [KillPid(s.pidFile.value)] else [];
    var stops := [PkillHost(inv.projectRoot + ["dist", "index.js"]), RmContainers("nanoclaw-install=" + inv.slug)];
    var image := if s.image.Some? then [Rmi(s.image.value)] else [];
    var link := if s.nclSymlink.Some? then [RmNclSymlink(s.nclSymlink.value)] else [];
    HarmlessConcat(UnitActions(s), pid, m.root);
    HarmlessConcat(UnitActions(s) + pid, stops, m.root);
    HarmlessConcat(UnitActions(s) + pid + stops, image, m.root);
    HarmlessConcat(UnitActions(s) + pid + stops + image, link, m.root);
  }

  lemma HarmlessConcat(a: seq<RemovalAction>, b: seq<RemovalAction>, root: Path)
    requires AllHarmless(a, root) && AllHarmless(b, root)
    ensures AllHarmless(a + b, root)
  {
  }

  lemma NotSecret(name: string, c: char)
    requires [c] <= name && c != '.'
    ensures !SecretName(name)
  {
    assert name[0] == c;
    assert ".env"[0] == '.' && ".env.bak"[0] == '.';
  }

  lemma UnitNames(files: Files, m: Machine)
    ensures var s := ScanService(files, m);
      && (s.launchdPlist.Some? ==> !SecretName(Basename(s.launchdPlist.value)))
      && (s.systemdUserUnit.Some? ==> !SecretName(Basename(s.systemdUserUnit.value)))
      && (s.systemdSystemUnit.Some? ==> !SecretName(Basename(s.systemdSystemUnit.value)))
      && (s.nclSymlink.Some? ==> !SecretName(Basename(s.nclSymlink.value)))
  {
    NotSecret("com.nanoclaw-v2-" + m.slug + ".plist", 'c');
    NotSecret("nanoclaw-v2-" + m.slug + ".service", 'n');
    NotSecret("ncl", 'n');
  }

  lemma ItemsNamed(files: Files, root: Path, specs: seq<Spec>, item: PathItem)
    requires item in ExistingItems(files, root, specs)
    ensures item.path == root + [Basename(item.path)]
    ensures exists s :: s in specs && s.rel == Basename(item.path)
  {
    var s :| s in specs && root + [s.rel] in files && item == PathItem(s.what, root + [s.rel]);
    assert Basename(root + [s.rel]) == s.rel;
  }

  predicate DistinctNames(items: seq<PathItem>) {
    forall i, j :: 0 <= i < j < |items| ==> Basename(items[i].path) != Basename(items[j].path)
  }

  lemma {:induction false} ItemsDistinct(files: Files, root: Path, specs: seq<Spec>)
    requires forall i, j :: 0 <= i < j < |specs| ==> specs[i].rel != specs[j].rel
    ensures DistinctNames(ExistingItems(files, root, specs))
  {
    if specs != [] {
      ItemsDistinct(files, root, specs[1..]);
      var items, rest := ExistingItems(files, root, specs), ExistingItems(files, root, specs[1..]);
      if root + [specs[0].rel] in files {
        assert Basename(items[0].path) == specs[0].rel;
        forall j | 0 <= j < |rest| ensures Basename(rest[j].path) != specs[0].rel {
          ItemsNamed(files, root, specs[1..], rest[j]);
          var s :| s in specs[1..] && s.rel == Basename(rest[j].path);
          var k :| 0 <= k < |specs[1..]| && specs[1..][k] == s;
          assert specs[k + 1] == s;
        }
        forall i, j | 0 <= i < j < |items| ensures Basename(items[i].path) != Basename(items[j].path) {
          assert items[j] == rest[j - 1];
          assert i > 0 ==> items[i] == rest[i - 1];
        }
      } else {
        assert items == rest;
      }
    }
  }

  lemma PlainNames()
    ensures forall s :: s in DATA_SPECS && s.rel != ".env" ==> !SecretName(s.rel)
    ensures forall s :: s in RUNTIME_SPECS || s in USER_SPECS ==> !SecretName(s.rel)
  {
    NotSecret("data", 'd');
    NotSecret("logs", 'l');
    NotSecret("start-nanoclaw.sh", 's');
    NotSecret("nanoclaw.pid", 'n');
    NotSecret("dist", 'd');
    NotSecret("node_modules", 'n');
    NotSecret("groups", 'g');
    NotSecret("store", 's');
  }

  lemma PlainItemsHarmless(items: seq<PathItem>, root: Path)
    requires forall item :: item in items ==> item.path == root + [Basename(item.path)] && !SecretName(Basename(item.path))
    ensures AllHarmless(Deletes(items), root) && AllHarmless(RuntimeDeletes(items), root)
  {
  }

  lemma DataSpecsDistinct()
    ensures forall i, j :: 0 <= i < j < |DATA_SPECS| ==> DATA_SPECS[i].rel != DATA_SPECS[j].rel
  {
    assert DATA_SPECS[0].rel[0] == 'd' && DATA_SPECS[1].rel[0] == 'l' && DATA_SPECS[2].rel[0] == '.';
    assert DATA_SPECS[3].rel[0] == 's' && DATA_SPECS[4].rel[0] == 'n';
  }

  lemma ScannedRestHarmless(files: Files, m: Machine, items: seq<PathItem>, e: nat)
    requires items == ExistingItems(files, m.root, DATA_SPECS) && e == EnvIndex(items)
    ensures AllHarmless(Deletes(Without(items, e, |items|)), m.root)
  {
    var rest := Without(items, e, |items|);
    DataSpecsDistinct();
    ItemsDistinct(files, m.root, DATA_SPECS);
    PlainNames();
    forall item | item in rest
      ensures item.path == m.root + [Basename(item.path)] && !SecretName(Basename(item.path))
    {
      RestIsOther(items, e, item);
      ItemsNamed(files, m.root, DATA_SPECS, item);
    }
    PlainItemsHarmless(rest, m.root);
  }

  lemma ScannedDataHarmless(files: Files, m: Machine)
    ensures AllHarmless(DataActions(ExistingItems(files, m.root, DATA_SPECS)), m.root)
  {
    var items := ExistingItems(files, m.root, DATA_SPECS);
    var e := EnvIndex(items);
    ScannedRestHarmless(files, m, items, e);
    if e < |items| {
      ItemsNamed(files, m.root, DATA_SPECS, items[e]);
      HarmlessConcat([BackupEnv(items[e].path)], Deletes(Without(items, e, |items|)), m.root);
    } else {
      HarmlessConcat([], Deletes(Without(items, e, |items|)), m.root);
    }
  }

  lemma RestIndex(items: seq<PathItem>, e: nat, item: PathItem) returns (k: nat)
    requires e <= |items| && item in Without(items, e, |items|)
    ensures k < |items| && k != e && items[k] == item
  {
    var rest := Without(items, e, |items|);
    var r :| 0 <= r < |rest| && rest[r] == item;
    k := if r < e then r else r + 1;
  }

  lemma RestIsOther(items: seq<PathItem>, e: nat, item: PathItem)
    requires e == EnvIndex(items) && item in Without(items, e, |items|)
    requires DistinctNames(items)
    ensures item in items && Basename(item.path) != ".env"
  {
    var k := RestIndex(items, e, item);
    if k > e {
      assert Basename(items[e].path) != Basename(items[k].path);
    }
  }

  lemma {:induction false} PickedAreItems(items: seq<PathItem>, nodeModules: bool)
    ensures forall item :: item in Pick(items, nodeModules) ==> item in items
  {
    if items != [] {
      PickedAreItems(items[1..], nodeModules);
    }
  }

  lemma ScannedUserHarmless(files: Files, m: Machine)
    ensures AllHarmless(Deletes(ExistingItems(files, m.root, USER_SPECS)), m.root)
  {
    var items := ExistingItems(files, m.root, USER_SPECS);
    PlainNames();
    forall item | item in items ensures item.path == m.root + [Basename(item.path)] && !SecretName(Basename(item.path)) {
      ItemsNamed(files, m.root, USER_SPECS, item);
    }
    PlainItemsHarmless(items, m.root);
  }

  lemma ScannedRuntimeHarmless(files: Files, m: Machine)
    ensures AllHarmless(RuntimeDeletes(SortedTail(ExistingItems(files, m.root, RUNTIME_SPECS))), m.root)
  {
    var items := ExistingItems(files, m.root, RUNTIME_SPECS);
    PlainNames();
    PickedAreItems(items, false);
    PickedAreItems(items, true);
    forall item | item in SortedTail(items) ensures item.path == m.root + [Basename(item.path)] && !SecretName(Basename(item.path)) {
      ItemsNamed(files, m.root, RUNTIME_SPECS, item);
    }
    PlainItemsHarmless(SortedTail(items), m.root);
  }

  lemma ScannedPlanHarmless(files: Files, m: Machine, d: Decisions)
    ensures AllHarmless(Plan(ScanInstall(files, m), d), m.root)
  {
    var inv := ScanInstall(files, m);
    ScannedServiceHarmless(files, m);
    ScannedDataHarmless(files, m);
    ScannedUserHarmless(files, m);
    ScannedRuntimeHarmless(files, m);
    FiveHarmless(ServicePart(inv, d), VaultActions(d.onecliDelete), DataPart(inv, d), UserPart(inv, d), RuntimePart(inv, d), m.root);
  }

  lemma FiveHarmless(a: seq<RemovalAction>, b: seq<RemovalAction>, c: seq<RemovalAction>, u: seq<RemovalAction>, r: seq<RemovalAction>, root: Path)
    requires AllHarmless(a, root) && AllHarmless(b, root) && AllHarmless(c, root) && AllHarmless(u, root) && AllHarmless(r, root)
    ensures AllHarmless(a + b + c + u + r, root)
  {
    HarmlessConcat(a, b, root);
    HarmlessConcat(a + b, c, root);
    HarmlessConcat(a + b + c, u, root);
    HarmlessConcat(a + b + c + u, r, root);
  }

  /** Whatever fails, and wherever the run is broken off, the secrets that were there
      when it started are still in .env or in a backup beside it. The files may have
      changed since the scan. */
  lemma SecretsSurvive(scanned: Files, m: Machine, d: Decisions, files: Files, isRoot: bool, worlds: seq<World>, n: nat, content: string)
    requires n == |worlds| <= |Plan(ScanInstall(scanned, m), d)|
    requires Intact(files, m.root, content)
    ensures Kept(Execute(files, Plan(ScanInstall(scanned, m), d)[..n], isRoot, worlds).0, m.root, content)
  {
    var plan := Plan(ScanInstall(scanned, m), d);
    ScannedPlanHarmless(scanned, m, d);
    PlanBacksUpOnce(ScanInstall(scanned, m), d);
    assert plan == plan[..n] + plan[n..];
    BackupsConcat(plan[..n], plan[n..]);
    ExecutionKeeps(files, plan[..n], isRoot, worlds, m.root, content);
  }

  // ---------- Nothing is left behind silently ----------

  function RemovalPath(a: RemovalAction): Option<Path> {
    match a
    case BackupEnv(p) => Some(p)
    case DeletePath(item) => Some(item.path)
    case DeleteRuntimePath(item) => Some(item.path)
    case _ => None
  }

  predicate NeverCreated(p: Path, root: Path) {
    p == root + [Basename(p)] && !BackupName(Basename(p))
  }

  lemma BackupSibling(files: Files, root: Path, stamp: string)
    ensures var backup := BackupPath(files, root + [".env"], stamp); backup == root + [Basename(backup)] && BackupName(Basename(backup))
  {
    var env := root + [".env"];
    assert env[..|env| - 1] == root;
  }

  lemma NoneCreated(files: Files, a: RemovalAction, isRoot: bool, w: World, root: Path, p: Path)
    requires Harmless(a, root) && NeverCreated(p, root) && p !in files
    ensures p !in RunAction(files, a, isRoot, w).files
  {
    BackupSibling(files, root, w.stamp);
  }

  lemma {:induction false} StaysGone(files: Files, actions: seq<RemovalAction>, isRoot: bool, worlds: seq<World>, root: Path, p: Path)
    requires |worlds| == |actions| && AllHarmless(actions, root) && NeverCreated(p, root) && p !in files
    ensures p !in Execute(files, actions, isRoot, worlds).0
    decreases |actions|
  {
    if actions != [] {
      NoneCreated(files, actions[0], isRoot, worlds[0], root, p);
      StaysGone(RunAction(files, actions[0], isRoot, worlds[0]).files, actions[1..], isRoot, worlds[1..], root, p);
    }
  }

  lemma RemovedOrNoted(files: Files, a: RemovalAction, isRoot: bool, w: World, root: Path)
    requires Harmless(a, root) && RemovalPath(a).Some?
    ensures var ran := RunAction(files, a, isRoot, w); ran.noted || RemovalPath(a).value !in ran.files
    ensures NeverCreated(RemovalPath(a).value, root)
  {
    if a.BackupEnv? {
      assert Basename(root + [".env"]) == ".env";
      assert |".env"| < |".env.bak"|;
    }
  }

  lemma {:induction false} LeftoversAreNoted(files: Files, actions: seq<RemovalAction>, isRoot: bool, worlds: seq<World>, root: Path, i: nat)
    requires |worlds| == |actions| && AllHarmless(actions, root) && i < |actions| && RemovalPath(actions[i]).Some?
    ensures var end := Execute(files, actions, isRoot, worlds);
      RemovalPath(actions[i]).value !in end.0 || actions[i] in end.1
    decreases |actions|
  {
    var ran := RunAction(files, actions[0], isRoot, worlds[0]);
    if i == 0 {
      RemovedOrNoted(files, actions[0], isRoot, worlds[0], root);
      if !ran.noted {
        StaysGone(ran.files, actions[1..], isRoot, worlds[1..], root, RemovalPath(actions[0]).value);
      }
    } else {
      LeftoversAreNoted(ran.files, actions[1..], isRoot, worlds[1..], root, i - 1);
    }
  }

  /** A planned path that is still there at the end has its action in the notes. */
  lemma NoSilentLeftovers(scanned: Files, m: Machine, d: Decisions, files: Files, isRoot: bool, worlds: seq<World>, a: RemovalAction)
    requires |worlds| == |Plan(ScanInstall(scanned, m), d)|
    requires a in Plan(ScanInstall(scanned, m), d) && RemovalPath(a).Some?
    ensures var end := Execute(files, Plan(ScanInstall(scanned, m), d), isRoot, worlds);
      RemovalPath(a).value in end.0 ==> a in end.1
  {
    var plan := Plan(ScanInstall(scanned, m), d);
    ScannedPlanHarmless(scanned, m, d);
    var i :| 0 <= i < |plan| && plan[i] == a;
    LeftoversAreNoted(files, plan, isRoot, worlds, m.root, i);
  }

  // ---------- Older backups ----------

  predicate FileAt(files: Files, p: Path) {
    p in files && files[p].File?
  }

  /** No file but the original is changed or lost. */
  ghost predicate OthersKept(files: Files, after: Files, envPath: Path) {
    forall p :: p in files && p != envPath ==> p in after && after[p] == files[p]
  }

  /** What a copy writes to its target, if anything. */
  function Written(copy: CopyOutcome, source: Node): Option<Node> {
    match copy
    case Copied => Some(source)
    case NotCopied => None
    case Torn(content) => Some(File(content))
  }

  /** The backup is meant never to clobber an older one. Whatever becomes of the copy
      and of the removal, it keeps every other file, exactly unless the plain name is
      taken, the stamped name is a file, and what is written there differs from it:
      stamps count seconds. */
  lemma NeverClobbersIff(files: Files, root: Path, w: World)
    ensures var env, stamped := root + [".env"], root + [".env.bak." + w.stamp];
      OthersKept(files, RunBackup(files, env, w).files, env) <==>
        !(FileAt(files, env) && root + [".env.bak"] in files && FileAt(files, stamped)
          && Written(w.copy, files[env]).Some? && Written(w.copy, files[env]).value != files[stamped])
  {
    var env, stamped, bak := root + [".env"], root + [".env.bak." + w.stamp], root + [".env.bak"];
    assert env[..|env| - 1] == root;
    assert |".env.bak." + w.stamp| > |".env"| && |".env.bak"| > |".env"|;
    assert stamped[|root|] != env[|root|] && bak[|root|] != env[|root|];
    assert BackupPath(files, env, w.stamp) == if bak in files then stamped else bak;
  }

  /** An earlier backup B under the stamped name, and either another uninstall within
      the same second or a copy that breaks off: B is gone. */
  lemma BackupsCanClobber(w: World)
    requires w.stamp == "20240102-030405" && (w.copy.Copied? || w.copy == Torn("X"))
    ensures var files: Files := map[[".env"] := File("C"), [".env.bak"] := File("A"), [".env.bak.20240102-030405"] := File("B")];
      forall p :: p in RunBackup(files, [".env"], w).files ==> RunBackup(files, [".env"], w).files[p] != File("B")
  {
    assert [".env"][..0] == [];
    assert ".env.bak." + "20240102-030405" == ".env.bak.20240102-030405";
    assert [] + [".env.bak"] == [".env.bak"] && [] + [".env.bak.20240102-030405"] == [".env.bak.20240102-030405"];
  }

  // ---------- A run in which nothing goes wrong ----------

  predicate Benign(w: World) {
    !w.throws && !w.throwsLater && w.status == Some(0) && w.copy == Copied && w.gone == None
  }

  /** Without faults an action leaves no note and does what it is for: a service unit or
      a link is gone, a deleted path with everything under it; .env is gone and its
      contents are under the plain backup name, or the stamped one if that was taken.
      No other path changes. */
  lemma BenignActionDoes(files: Files, a: RemovalAction, w: World)
    requires Benign(w)
    requires a.UnloadService? ==> a.unitPath !in files || files[a.unitPath] != Dir
    requires a.RmNclSymlink? ==> a.linkPath !in files || files[a.linkPath] != Dir
    requires a.BackupEnv? ==> FileAt(files, a.envPath) && Basename(a.envPath) == ".env"
    requires a.BackupEnv? ==> var bak := Sibling(a.envPath, if Sibling(a.envPath, ".env.bak") in files then ".env.bak." + w.stamp else ".env.bak");
      bak !in files || files[bak] != Dir
    ensures var ran := RunAction(files, a, true, w);
      && !ran.noted
      && match a
         case UnloadService(_, p) => ran.files == files - {p}
         case RmNclSymlink(p) => ran.files == files - {p}
         case BackupEnv(p) =>
           ran.files == files[Sibling(p, if Sibling(p, ".env.bak") in files then ".env.bak." + w.stamp else ".env.bak") := files[p]] - {p}
         case DeletePath(item) =>
           (forall q :: q in ran.files <==> q in files && !(item.path <= q)) && forall q :: q in ran.files ==> ran.files[q] == files[q]
         case DeleteRuntimePath(item) =>
           (forall q :: q in ran.files <==> q in files && !(item.path <= q)) && forall q :: q in ran.files ==> ran.files[q] == files[q]
         case _ => ran.files == files
  {
    if a.BackupEnv? {
      assert a.envPath != [];
    }
  }

  /** What each action reports, fault or not: a failed deletion, backup, unload or link
      removal; a system service without the rights to remove it; containers that cannot
      be listed; an image that stays; a vault that cannot be run. A host or an agent
      that is gone already is no failure. */
  lemma NotedIff(files: Files, a: RemovalAction, isRoot: bool, w: World)
    ensures RunAction(files, a, isRoot, w).noted <==>
      match a
      case UnloadService(Launchd, p) => w.throws || w.gone != None || (p in files && files[p] == Dir)
      case UnloadService(SystemdUser, p) => w.throws || w.throwsLater || w.gone != None || (p in files && files[p] == Dir)
      case UnloadService(SystemdSystem, p) => !isRoot || w.throws || w.throwsLater || w.gone != None || (p in files && files[p] == Dir)
      case RmNclSymlink(p) => w.gone != None || (p in files && files[p] == Dir)
      case BackupEnv(p) => p !in files || files[p] == Dir || BackupBlocked(files, p, w.stamp) || w.copy != Copied || w.gone != None
      case PkillHost(_) => w.throws
      case RmContainers(_) => w.throws || w.throwsLater || w.status != Some(0)
      case Rmi(_) => w.throws || w.status != Some(0)
      case DeleteOnecliAgent(_) => w.throws || w.status == None
      case DeletePath(_) => w.gone != None
      case DeleteRuntimePath(_) => w.gone != None
      case KillPid(_) => false
  {
  }

  /** The name that the backup would take is a directory's. */
  predicate BackupBlocked(files: Files, p: Path, stamp: string) {
    var plain, stamped := Sibling(p, ".env.bak"), Sibling(p, ".env.bak." + stamp);
    plain in files && stamped in files && files[stamped] == Dir
  }

  /** Fault or not, an action touches nothing but its own target: a deletion only what
      is under its path, a unit or link only itself, a backup only .env and its target. */
  lemma TouchesOnlyItsTarget(files: Files, a: RemovalAction, isRoot: bool, w: World, q: Path)
    requires match a
      case UnloadService(_, p) => q != p
      case RmNclSymlink(p) => q != p
      case BackupEnv(p) => q != p && q != Sibling(p, ".env.bak") && q != Sibling(p, ".env.bak." + w.stamp)
      case DeletePath(item) => !(item.path <= q)
      case DeleteRuntimePath(item) => !(item.path <= q)
      case _ => true
    ensures var after := RunAction(files, a, isRoot, w).files;
      (q in after <==> q in files) && (q in files ==> after[q] == files[q])
  {
  }

  /** What a scan finds in the checkout: the data, logs, secrets, start script and PID
      file that exist, the build output and dependencies, and the user's groups. */
  lemma ScanFindsData(files: Files, m: Machine, rel: string)
    ensures (exists item :: item in ScanInstall(files, m).data && item.path == m.root + [rel]) <==>
      m.root + [rel] in files && (rel == "data" || rel == "logs" || rel == ".env" || rel == "start-nanoclaw.sh" || rel == "nanoclaw.pid")
  {
    ItemIff(files, m.root, DATA_SPECS, rel);
    assert DATA_SPECS[0].rel == "data" && DATA_SPECS[1].rel == "logs" && DATA_SPECS[2].rel == ".env";
    assert DATA_SPECS[3].rel == "start-nanoclaw.sh" && DATA_SPECS[4].rel == "nanoclaw.pid";
  }

  lemma ScanFindsRuntime(files: Files, m: Machine, rel: string)
    ensures (exists item :: item in ScanInstall(files, m).runtime && item.path == m.root + [rel]) <==>
      m.root + [rel] in files && (rel == "dist" || rel == "node_modules")
  {
    ItemIff(files, m.root, RUNTIME_SPECS, rel);
    assert RUNTIME_SPECS[0].rel == "dist" && RUNTIME_SPECS[1].rel == "node_modules";
  }

  lemma ScanFindsUser(files: Files, m: Machine, rel: string)
    ensures (exists item :: item in ScanInstall(files, m).user && item.path == m.root + [rel]) <==>
      m.root + [rel] in files && (rel == "groups" || rel == "store")
  {
    ItemIff(files, m.root, USER_SPECS, rel);
    assert USER_SPECS[0].rel == "groups" && USER_SPECS[1].rel == "store";
  }

  lemma ItemIff(files: Files, root: Path, specs: seq<Spec>, rel: string)
    ensures (exists item :: item in ExistingItems(files, root, specs) && item.path == root + [rel]) <==>
      root + [rel] in files && exists i :: 0 <= i < |specs| && specs[i].rel == rel
  {
    var items := ExistingItems(files, root, specs);
    if item :| item in items && item.path == root + [rel] {
      var s :| s in specs && root + [s.rel] in files && item == PathItem(s.what, root + [s.rel]);
      OtherSibling(root, s.rel, rel);
    }
    if root + [rel] in files {
      if i :| 0 <= i < |specs| && specs[i].rel == rel {
        assert specs[i] in specs;
        assert PathItem(specs[i].what, root + [rel]) in items;
      }
    }
  }

  lemma ScanFindsService(files: Files, m: Machine)
    ensures var s := ScanInstall(files, m).service;
      var plist := m.home + ["Library", "LaunchAgents", "com.nanoclaw-v2-" + m.slug + ".plist"];
      var userUnit := m.home + [".config", "systemd", "user", "nanoclaw-v2-" + m.slug + ".service"];
      var systemUnit := ["etc", "systemd", "system", "nanoclaw-v2-" + m.slug + ".service"];
      var pidFile := m.root + ["nanoclaw.pid"];
      && s.launchdPlist == (if m.platform == Darwin && plist in files then Some(plist) else None)
      && s.systemdUserUnit == (if m.platform == Linux && userUnit in files then Some(userUnit) else None)
      && s.systemdSystemUnit == (if m.platform == Linux && systemUnit in files then Some(systemUnit) else None)
      && s.pidFile == (if m.platform == Linux && pidFile in files then Some(pidFile) else None)
      && s.image == (if m.imageFound then Some("nanoclaw-agent-v2-" + m.slug + ":latest") else None)
      && s.nclSymlink == (if m.ownsLink then Some(m.home + [".local", "bin", "ncl"]) else None)
  {
  }
}
