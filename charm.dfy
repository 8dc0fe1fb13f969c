/** The operator of src/charm.py: the choice of manager from `/etc/os-release`, and the
    unit status, deferral and workload version set by the install, remove and modprobe
    handlers.

    As for the manager, each handler is given as a function of the world before
    (`...Hook`), about which the lemmas are proved, and as a method of
    `InfinibandOperator` proved to have exactly that effect. */
module Charm {
  import opened Text
  import opened Host
  import opened OsRelease
  import opened OpsManager

  /** The unit status shown to the operator of the model. */
  datatype Status = Unknown | Waiting(message: string) | Blocked(message: string) | Active(message: string)

  /** How a handler ends: it returns, or an exception escapes it (the hook then fails). */
  datatype Exit = Returned | Raised(failure: Failure)

  const InstallMsg := "Installing Infiniband drivers..."
  const RemoveMsg := "Removing Infiniband drivers..."
  const ModprobeMsg := "Modprobing InfiniBand modules..."
  const Ready := "Ready"

  /** The kernel modules `modprobe_action` loads, in this order. */
  const Modules := ["rdma_ucm", "rdma_cm", "ib_ipoib", "mlx5_core", "mlx5_ib",
                    "ib_uverbs", "ib_umad", "ib_cm", "ib_core", "mlxfw"]

  // ---------------------------------------------------------------------------------
  // Choosing the manager

  /** `os_release()["ID"] == "ubuntu"` picks the Ubuntu manager; any other ID the CentOS one. */
  function VariantFor(id: string): Variant
  {
    if id == "ubuntu" then Ubuntu else Centos
  }

  /** The name of the repository-file resource each manager expects. */
  function ResourceName(v: Variant): string
  {
    match v
    case Ubuntu => "apt-repo"
    case Centos => "yum-repo"
  }

  /** What `__init__` makes of the os-release text: a manager, or the exception that stops
      it (the `ValueError` of the parser, or the `KeyError` of a missing "ID"). */
  datatype Selection = Selected(variant: Variant) | ParseFailed(error: ParseError) | MissingId

  function SelectVariant(data: string): Selection
  {
    match Parse(data)
    case Malformed(e) => ParseFailed(e)
    case Parsed(m) => if "ID" in m then Selected(VariantFor(m["ID"])) else MissingId
  }

  /** The manager is chosen by the last line whose key is "ID": Ubuntu exactly when its
      value, quotes stripped, is "ubuntu". */
  lemma SelectByLastIdLine(data: string, i: nat)
    requires Parse(data).Parsed?
    requires i < |Rows(data)| && Key(Rows(data)[i]) == "ID" && LastWithKey(Rows(data), i)
    ensures |Rows(data)[i]| == 2
    ensures SelectVariant(data) == Selected(VariantFor(Unquote(Rows(data)[i][1])))
    ensures SelectVariant(data) == Selected(Ubuntu) <==> Unquote(Rows(data)[i][1]) == "ubuntu"
  {
    ParseEntries(data, Parse(data).entries);
  }

  /** A readable file without an "ID" line stops `__init__` with a `KeyError`; an unreadable
      one with the parser's `ValueError`. */
  lemma SelectFails(data: string)
    ensures SelectVariant(data) == MissingId <==> Parse(data).Parsed? && !HasKey(Rows(data), "ID")
    ensures SelectVariant(data).ParseFailed? <==>
              exists i :: 0 <= i < |Lines(data)| && Count(Lines(data)[i], '=') != 1
  {
    ParseFailsIff(data);
    if Parse(data).Parsed? {
      ParseEntries(data, Parse(data).entries);
    }
  }

  /** The resource name and the manager always agree. */
  lemma ResourceNameMatchesVariant(data: string)
    requires SelectVariant(data).Selected?
    ensures ResourceName(SelectVariant(data).variant) == "apt-repo" <==>
              Parse(data).entries["ID"] == "ubuntu"
    ensures ResourceName(SelectVariant(data).variant) == "yum-repo" <==>
              Parse(data).entries["ID"] != "ubuntu"
  {
  }

  /** `self.model.resources.fetch(name)`, where a `ModelError` for a missing resource
      becomes `None`. */
  function RepoPathFor(name: string, resources: map<string, Path>): Option<Path>
  {
    if name in resources then Some(resources[name]) else None
  }

  // ---------------------------------------------------------------------------------
  // The handlers as functions

  /** What a handler does: how it ends, the statuses it shows in order, the workload
      version it sets (if any), whether it defers the event, and the world it leaves. */
  datatype Hook = Hook(exit: Exit, shown: seq<Status>, version: Option<string>, deferred: bool, world: World)

  /** `_on_install`, after the resource was looked up. */
  function InstallHook(v: Variant, checked: bool, o: Oracle, w: World, repoPath: Option<Path>): Hook
  {
    var h := AfterInstall(o, InstallEffect(v, checked, o, w, repoPath));
    h.(shown := [Waiting(InstallMsg)] + h.shown)
  }

  /** The part of `_on_install` that follows the call to `install`, given its effect `e`. */
  function AfterInstall(o: Oracle, e: Effect<()>): Hook
  {
    match e.result
    case Err(OpsError(m)) => Hook(Returned, [Blocked(m)], None, true, e.world)
    case Err(f) => Hook(Raised(f), [], None, false, e.world)
    case Ok(_) =>
      var ver := VersionEffect(o, e.world);
      match ver.result
      case Err(f) => Hook(Raised(f), [], None, false, ver.world)
      case Ok(s) => Hook(Returned, [Active(Ready)], Some(s), false, ver.world)
  }

  /** `_on_remove` */
  function RemoveHook(v: Variant, checked: bool, o: Oracle, w: World): Hook
  {
    var h := AfterRemove(RemoveEffect(v, checked, o, w));
    h.(shown := [Waiting(RemoveMsg)] + h.shown)
  }

  /** The part of `_on_remove` that follows the call to `remove`, given its effect `e`. */
  function AfterRemove(e: Effect<()>): Hook
  {
    match e.result
    case Err(OpsError(m)) => Hook(Returned, [Blocked(m)], None, true, e.world)
    case Err(f) => Hook(Raised(f), [], None, false, e.world)
    case Ok(_) => Hook(Returned, [], None, false, e.world)
  }

  /** `modprobe_action` */
  function ModprobeHook(checked: bool, o: Oracle, w: World): Hook
  {
    var h := AfterModprobe(ModprobeEffect(checked, o, w, Modules));
    h.(shown := [Waiting(ModprobeMsg)] + h.shown)
  }

  /** The part of `modprobe_action` that follows the call to `modprobe`, given its
      effect `e`. */
  function AfterModprobe(e: Effect<()>): Hook
  {
    match e.result
    case Err(OpsError(m)) => Hook(Returned, [Blocked(m)], None, true, e.world)
    case Err(f) => Hook(Raised(f), [], None, false, e.world)
    case Ok(_) => Hook(Returned, [Active(Ready)], None, false, e.world)
  }

  // ---------------------------------------------------------------------------------
  // What the handlers promise

  /** `_on_install` shows Waiting first. It defers exactly when `install` raises an
      `InfinibandOpsError`, and then ends Blocked with that error's message and sets no
      workload version. It ends Active("Ready") exactly when it sets the workload version,
      which is what `version()` returned. An exception that escapes, from `install` or from
      `version()`, leaves Waiting shown and defers nothing. */
  lemma InstallHookOutcome(v: Variant, checked: bool, o: Oracle, w: World, repoPath: Option<Path>)
    ensures var h := InstallHook(v, checked, o, w, repoPath);
      var e := InstallEffect(v, checked, o, w, repoPath);
      && 1 <= |h.shown| <= 2 && h.shown[0] == Waiting(InstallMsg)
      && (h.deferred <==> e.result.Err? && e.result.failure.OpsError?)
      && (h.deferred ==> h.shown[|h.shown| - 1] == Blocked(e.result.failure.message) && h.version.None?)
      && (h.version.Some? <==> h.shown[|h.shown| - 1] == Active(Ready))
      && (h.version.Some? ==> e.result.Ok? && VersionEffect(o, e.world).result == Ok(h.version.value))
      && (h.exit.Raised? <==> h.shown == [Waiting(InstallMsg)])
      && (e.result.Ok? && VersionEffect(o, e.world).result.Ok? ==>
            h == Hook(Returned, [Waiting(InstallMsg), Active(Ready)],
                      Some(VersionEffect(o, e.world).result.value), false, VersionEffect(o, e.world).world))
      && (e.result.Err? && e.result.failure.Uncaught? ==>
            h.exit == Raised(e.result.failure) && h.shown == [Waiting(InstallMsg)] && !h.deferred && h.world == e.world)
      && (e.result.Ok? && VersionEffect(o, e.world).result.Err? ==>
            h.exit == Raised(VersionEffect(o, e.world).result.failure) && h.shown == [Waiting(InstallMsg)] && !h.deferred)
  {
    var e := InstallEffect(v, checked, o, w, repoPath);
    AfterInstallOutcome(o, e);
  }

  /** The same, for any effect `e` of `install`. */
  lemma AfterInstallOutcome(o: Oracle, e: Effect<()>)
    ensures var a := AfterInstall(o, e);
      var h := a.(shown := [Waiting(InstallMsg)] + a.shown);
      && 1 <= |h.shown| <= 2 && h.shown[0] == Waiting(InstallMsg)
      && (h.deferred <==> e.result.Err? && e.result.failure.OpsError?)
      && (h.deferred ==> h.shown[|h.shown| - 1] == Blocked(e.result.failure.message) && h.version.None?)
      && (h.version.Some? <==> h.shown[|h.shown| - 1] == Active(Ready))
      && (h.version.Some? ==> e.result.Ok? && VersionEffect(o, e.world).result == Ok(h.version.value))
      && (h.exit.Raised? <==> h.shown == [Waiting(InstallMsg)])
      && (e.result.Ok? && VersionEffect(o, e.world).result.Ok? ==>
            h == Hook(Returned, [Waiting(InstallMsg), Active(Ready)],
                      Some(VersionEffect(o, e.world).result.value), false, VersionEffect(o, e.world).world))
      && (e.result.Err? && e.result.failure.Uncaught? ==>
            h.exit == Raised(e.result.failure) && h.shown == [Waiting(InstallMsg)] && !h.deferred && h.world == e.world)
      && (e.result.Ok? && VersionEffect(o, e.world).result.Err? ==>
            h.exit == Raised(VersionEffect(o, e.world).result.failure) && h.shown == [Waiting(InstallMsg)] && !h.deferred)
  {
  }

  /** With the repository and the packages in place, a failing `ofed_info -s` makes the
      `InfinibandOpsError` of `version()` escape the handler: it is called outside the
      `try`, so the unit is neither Blocked nor Active and nothing is deferred. */
  lemma InstallVersionEscapes(v: Variant, checked: bool, o: Oracle, w: World, repoPath: Option<Path>)
    requires InstallEffect(v, checked, o, w, repoPath).result.Ok?
    requires !o.exec(InstallEffect(v, checked, o, w, repoPath).world.trace, OfedInfoCmd).ok
    ensures var h := InstallHook(v, checked, o, w, repoPath);
      h.exit == Raised(OpsError(NotInstalled)) && !h.deferred && h.shown == [Waiting(InstallMsg)]
  {
  }

  /** `_on_remove` shows Waiting; it defers, Blocked with the error's message, exactly when
      `remove` fails, and otherwise leaves Waiting shown: it never shows Active. The
      repository file is gone unless the erase step failed. */
  lemma RemoveHookOutcome(v: Variant, checked: bool, o: Oracle, w: World)
    ensures var h := RemoveHook(v, checked, o, w);
      var e := RemoveEffect(v, checked, o, w);
      && h.exit == Returned
      && (h.deferred <==> e.result.Err?)
      && (h.deferred ==> h.shown == [Waiting(RemoveMsg), Blocked(e.result.failure.message)])
      && (!h.deferred ==> h.shown == [Waiting(RemoveMsg)])
      && (e.result == Err(OpsError(EraseStep(v).error)) ==> h.world.files == w.files)
      && (e.result != Err(OpsError(EraseStep(v).error)) ==> h.world.files == w.files - {RepoFile(v)})
  {
    RemoveOutcome(v, checked, o, w);
    RemoveTwice(v, checked, o, w);
  }

  /** `modprobe_action` loads exactly the ten modules, in order, and ends Active("Ready");
      or it stops at the first module whose `modprobe` raises, Blocked with an error naming
      that module, and defers. */
  lemma ModprobeHookOutcome(checked: bool, o: Oracle, w: World)
    ensures var h := ModprobeHook(checked, o, w);
      var n := FirstRaise(checked, o, w, ModprobeSteps(Modules), 0);
      && h.exit == Returned
      && h.world.files == w.files
      && (n == |Modules| ==>
            h.shown == [Waiting(ModprobeMsg), Active(Ready)] && !h.deferred
            && h.world.trace == w.trace + Execs(ModprobeSteps(Modules)))
      && (n < |Modules| ==>
            h.shown == [Waiting(ModprobeMsg), Blocked("Error modprobing " + Modules[n])] && h.deferred
            && h.world.trace == w.trace + Execs(ModprobeSteps(Modules[..n + 1])))
  {
    ModprobeOutcome(checked, o, w, Modules);
  }

  /** As written, `modprobe_action` always ends Active("Ready") and never defers, whatever
      `modprobe` exits with. */
  lemma ModprobeHookAsWritten(o: Oracle, w: World)
    ensures ModprobeHook(false, o, w).shown == [Waiting(ModprobeMsg), Active(Ready)]
    ensures !ModprobeHook(false, o, w).deferred
  {
    RunGuardedUnchecked(o, w, ModprobeSteps(Modules));
  }

  /** As written, `_on_remove` never blocks and never defers. */
  lemma RemoveHookAsWritten(v: Variant, o: Oracle, w: World)
    ensures RemoveHook(v, false, o, w).shown == [Waiting(RemoveMsg)]
    ensures !RemoveHook(v, false, o, w).deferred
  {
    RemoveAsWritten(v, o, w);
  }

  // ---------------------------------------------------------------------------------
  // The operator object

  /** `event.defer()` */
  class Event {
    var deferred: bool

    constructor ()
      ensures !deferred
    {
      deferred := false;
    }

    method Defer()
      modifies this
      ensures deferred
    {
      deferred := true;
    }
  }

  /** `InfinibandOperator`: the manager and resource name chosen in `__init__`, the unit
      status (with every status shown so far), the workload version and `repo_path`. */
  class InfinibandOperator {
    const resourceName: string
    const manager: Manager
    var status: Status
    ghost var shown: seq<Status>
    var workloadVersion: Option<string>
    var repoPath: Option<Path>

    ghost predicate Valid()
      reads this, manager
    {
      && manager.Valid()
      && resourceName == ResourceName(manager.variant)
      && (shown == [] ==> status == Unknown)
      && (shown != [] ==> status == shown[|shown| - 1])
    }

    /** `__init__`, on the text of `/etc/os-release`; the exceptions it raises on a
        malformed file or a missing "ID" are those of `SelectVariant`. */
    constructor (osRelease: string, host: Machine, checked: bool)
      requires SelectVariant(osRelease).Selected?
      ensures Valid() && manager.variant == SelectVariant(osRelease).variant
      ensures manager.host == host && manager.checked == checked
      ensures status == Unknown && shown == [] && workloadVersion == None && repoPath == None
    {
      var v := SelectVariant(osRelease).variant;
      resourceName := ResourceName(v);
      manager := new Manager(v, checked, host);
      status := Unknown;
      shown := [];
      workloadVersion := None;
      repoPath := None;
    }

    method Show(s: Status)
      modifies this
      ensures status == s && shown == old(shown) + [s]
      ensures workloadVersion == old(workloadVersion) && repoPath == old(repoPath)
    {
      status := s;
      shown := shown + [s];
    }

    /** `_on_install(event)`, with the charm's resources given as a map from name to path. */
    method OnInstall(event: Event, resources: map<string, Path>) returns (exit: Exit, ghost e: Effect<()>)
      requires Valid()
      modifies this, manager.host, event
      ensures Valid()
      ensures repoPath == RepoPathFor(resourceName, resources)
      ensures e == InstallEffect(manager.variant, manager.checked, manager.host.oracle, old(manager.host.State()), repoPath)
      ensures var h := AfterInstall(manager.host.oracle, e);
        && exit == h.exit
        && shown == old(shown) + [Waiting(InstallMsg)] + h.shown
        && manager.host.State() == h.world
        && event.deferred == (old(event.deferred) || h.deferred)
        && workloadVersion == (if h.version.Some? then h.version else old(workloadVersion))
    {
      var r := StartInstall(resources);
      e := Effect(r, manager.host.State());
      exit := FinishInstall(event, r);
    }

    /** The part of `_on_install` up to and including the call to `install`. */
    method StartInstall(resources: map<string, Path>) returns (r: Result<()>)
      requires Valid()
      modifies this, manager.host
      ensures Valid()
      ensures repoPath == RepoPathFor(resourceName, resources)
      ensures Effect(r, manager.host.State())
              == InstallEffect(manager.variant, manager.checked, manager.host.oracle, old(manager.host.State()), repoPath)
      ensures shown == old(shown) + [Waiting(InstallMsg)] && workloadVersion == old(workloadVersion)
    {
      Show(Waiting(InstallMsg));
      repoPath := RepoPathFor(resourceName, resources);
      r := manager.Install(repoPath);
    }

    /** The rest of `_on_install` once `install` has returned `r`. */
    method FinishInstall(event: Event, r: Result<()>) returns (exit: Exit)
      requires Valid()
      modifies this, manager.host, event
      ensures Valid()
      ensures var h := AfterInstall(manager.host.oracle, Effect(r, old(manager.host.State())));
        && exit == h.exit
        && shown == old(shown) + h.shown
        && manager.host.State() == h.world
        && event.deferred == (old(event.deferred) || h.deferred)
        && workloadVersion == (if h.version.Some? then h.version else old(workloadVersion))
        && repoPath == old(repoPath)
    {
      if r.Err? {
        if r.failure.OpsError? {
          Show(Blocked(r.failure.message));
          event.Defer();
          return Returned;
        }
        return Raised(r.failure);
      }
      var ver := manager.Version();
      if ver.Err? {
        return Raised(ver.failure);
      }
      workloadVersion := Some(ver.value);
      Show(Active(Ready));
      exit := Returned;
    }

    /** `_on_remove(event)` */
    method OnRemove(event: Event) returns (exit: Exit, ghost e: Effect<()>)
      requires Valid()
      modifies this, manager.host, event
      ensures Valid()
      ensures e == RemoveEffect(manager.variant, manager.checked, manager.host.oracle, old(manager.host.State()))
      ensures var h := AfterRemove(e);
        && exit == h.exit
        && shown == old(shown) + [Waiting(RemoveMsg)] + h.shown
        && manager.host.State() == h.world
        && event.deferred == (old(event.deferred) || h.deferred)
        && workloadVersion == old(workloadVersion) && repoPath == old(repoPath)
    {
      Show(Waiting(RemoveMsg));
      var r := manager.Remove();
      e := Effect(r, manager.host.State());
      exit := Report(event, r, []);
    }

    /** `modprobe_action(event)` */
    method ModprobeAction(event: Event) returns (exit: Exit, ghost e: Effect<()>)
      requires Valid()
      modifies this, manager.host, event
      ensures Valid()
      ensures e == ModprobeEffect(manager.checked, manager.host.oracle, old(manager.host.State()), Modules)
      ensures var h := AfterModprobe(e);
        && exit == h.exit
        && shown == old(shown) + [Waiting(ModprobeMsg)] + h.shown
        && manager.host.State() == h.world
        && event.deferred == (old(event.deferred) || h.deferred)
        && workloadVersion == old(workloadVersion) && repoPath == old(repoPath)
    {
      Show(Waiting(ModprobeMsg));
      var r := manager.Modprobe(Modules);
      e := Effect(r, manager.host.State());
      exit := Report(event, r, [Active(Ready)]);
    }

    /** The `try`/`except InfinibandOpsError` shared by `_on_remove` and
        `modprobe_action`: an `InfinibandOpsError` shows Blocked with its message and
        defers the event, any other exception escapes, and success shows `onOk`. */
    method Report(event: Event, r: Result<()>, onOk: seq<Status>) returns (exit: Exit)
      requires Valid() && |onOk| <= 1
      modifies this, event
      ensures Valid()
      ensures exit == (if r.Err? && !r.failure.OpsError? then Raised(r.failure) else Returned)
      ensures shown == old(shown) + (if r.Ok? then onOk else if r.failure.OpsError? then [Blocked(r.failure.message)] else [])
      ensures event.deferred == (old(event.deferred) || (r.Err? && r.failure.OpsError?))
      ensures workloadVersion == old(workloadVersion) && repoPath == old(repoPath)
    {
      if r.Err? {
        if r.failure.OpsError? {
          Show(Blocked(r.failure.message));
          event.Defer();
          return Returned;
        }
        return Raised(r.failure);
      }
      if onOk != [] {
        Show(onOk[0]);
      }
      exit := Returned;
    }
  }
}
