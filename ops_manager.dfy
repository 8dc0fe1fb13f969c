/** The driver manager of src/infiniband_ops_manager.py: the shared base (`version`,
    `modprobe`, `is_active`), the kernel probe `uname_r`, and the Ubuntu and CentOS variants
    of `_set_repository`, `install` and `remove`.

    Each operation is given twice: as a function from the world before to what it returns
    or raises and the world after (`...Effect`), about which the lemmas below are proved,
    and as a method of `Manager` that performs the same library calls one by one on a
    `Machine`, proved to have exactly that effect.

    `checked` selects how failures of `subprocess.run` and of HTTP requests surface. The
    code as written (`checked == false`) calls `run` without `check=True`, which never
    raises `CalledProcessError`, and `requests.get` without `raise_for_status()`, which
    never raises `HTTPError`: the `except` clauses around them are dead. With
    `checked == true` they raise, which is what those `except` clauses are written for. */
module OpsManager {
  import opened Text
  import opened Host

  /** Which manager class is in use. */
  datatype Variant = Ubuntu | Centos

  const DriverPackage := "mlnx-ofed-all"
  const SystemdService := "openibd.service"

  /** `_driver_repo_filepath` */
  function RepoFile(v: Variant): Path
  {
    match v
    case Ubuntu => "/etc/apt/sources.list.d/infiniband.list"
    case Centos => "/etc/yum.repos.d/infiniband.repo"
  }

  const GpgKeyUrl := "http://www.mellanox.com/downloads/ofed/RPM-GPG-KEY-Mellanox"
  const DefaultRepoUrl :=
    "http://linux.mellanox.com/public/repo/mlnx_ofed/5.8-1.1.2.1/rhel7.9/mellanox_mlnx_ofed.repo"

  const UnameCmd := ["/usr/bin/uname", "-r"]
  const OfedInfoCmd := ["ofed_info", "-s"]
  const IsActiveCmd := ["systemctl", "is-active", SystemdService]

  const NoRepository := "No InfiniBand repository provided"
  const KernelVersionError := "Error detecting kernel version."
  const NotInstalled := "Cannot return version for package that isn't installed."

  /** The argument of `str.strip` in `version()`: the SET of characters of
      "MLNX_OFED_LINUX-:\n". */
  const VersionChars: set<char> := {'M', 'L', 'N', 'X', '_', 'O', 'F', 'E', 'D', 'I', 'U', '-', ':', '\n'}

  lemma VersionCharsAreThoseOfTheLiteral()
    ensures VersionChars == set c | c in "MLNX_OFED_LINUX-:\n"
  {
  }

  /** A `run(argv)` inside `try ... except CalledProcessError: raise
      InfinibandOpsError(error)`. */
  datatype Guarded = Guarded(argv: seq<string>, error: string)

  /** Refreshing the package index: `apt-get update` / `yum clean expire-cache`. */
  function RefreshStep(v: Variant): Guarded
  {
    match v
    case Ubuntu => Guarded(["apt-get", "update"], "Error running `apt-get update`")
    case Centos => Guarded(["yum", "clean", "expire-cache"], "Error flushing the cache")
  }

  /** Installing the headers (and, on CentOS, the devel package) of kernel `uname`. */
  function HeadersStep(v: Variant, uname: string): Guarded
  {
    match v
    case Ubuntu => Guarded(["apt-get", "install", "-y", "linux-headers-" + uname], "Error installing kernel headers")
    case Centos =>
      Guarded(["yum", "install", "-y", "kernel-devel-" + uname, "kernel-headers-" + uname],
              "Error installing devel kernel headers")
  }

  function DriverStep(v: Variant): Guarded
  {
    match v
    case Ubuntu => Guarded(["apt-get", "install", "-y", DriverPackage], "Error installing InfiniBand drivers")
    case Centos =>
      Guarded(["yum", "install", "-y", DriverPackage], "Error installing InfiniBand " + DriverPackage + " drivers")
  }

  function EraseStep(v: Variant): Guarded
  {
    match v
    case Ubuntu => Guarded(["apt-get", "-y", "remove", "--purge", DriverPackage], "Error removing InfiniBand drivers")
    case Centos => Guarded(["yum", "erase", "-y", DriverPackage], "Error removing InfiniBand drivers from the system")
  }

  function ModprobeStep(m: string): Guarded
  {
    Guarded(["modprobe", m], "Error modprobing " + m)
  }

  function AddKeyStep(tmpDir: Path): Guarded
  {
    Guarded(["apt-key", "add", tmpDir + "/mellanox.gpg"], "Failed to add InfiniBand GPG key")
  }

  function ModprobeSteps(modules: seq<string>): (steps: seq<Guarded>)
    ensures |steps| == |modules|
    ensures forall i :: 0 <= i < |modules| ==> steps[i] == ModprobeStep(modules[i])
  {
    seq(|modules|, i requires 0 <= i < |modules| => ModprobeStep(modules[i]))
  }

  function Execs(steps: seq<Guarded>): (trace: seq<Action>)
    ensures |trace| == |steps|
    ensures forall i :: 0 <= i < |steps| ==> trace[i] == Exec(steps[i].argv)
  {
    seq(|steps|, i requires 0 <= i < |steps| => Exec(steps[i].argv))
  }

  /** Guarded commands run one after the other; the first that raises stops the sequence
      and is translated into its own error. */
  function RunGuarded(checked: bool, o: Oracle, w: World, steps: seq<Guarded>): Effect<()>
    decreases steps
  {
    if steps == [] then Effect(Ok(()), w)
    else
      var r := RunStep(o, w, steps[0].argv, checked);
      if r.value then Effect(Err(OpsError(steps[0].error)), r.world)
      else RunGuarded(checked, o, r.world, steps[1..])
  }

  /** Step `i` raises when run after steps `0..i-1` have run. */
  predicate Raises(checked: bool, o: Oracle, w: World, steps: seq<Guarded>, i: nat)
    requires i < |steps|
  {
    checked && !o.exec(w.trace + Execs(steps[..i]), steps[i].argv).ok
  }

  /** `uname_r()`: `uname -r`, decoded and trimmed. */
  function UnameEffect(o: Oracle, w: World): Effect<string>
  {
    var r := CheckOutputStep(o, w, UnameCmd);
    match r.value
    case None => Effect(Err(OpsError(KernelVersionError)), r.world)
    case Some(out) => Effect(Ok(Trim(out)), r.world)
  }

  /** The GPG key part of the Ubuntu `_set_repository`: fetch the key and `apt-key add` the
      temporary file it was written to. */
  function AddGpgKeyEffect(checked: bool, o: Oracle, w: World): Effect<()>
  {
    var g := GetStep(o, w, GpgKeyUrl, checked);
    match g.value
    case ConnectionError => Effect(Err(Uncaught(RequestFailed)), g.world)
    case HttpError => Effect(Err(OpsError("Error getting InfiniBand GPG key " + GpgKeyUrl)), g.world)
    case Body(_) => RunGuarded(checked, o, g.world, [AddKeyStep(o.tmpDir)])
  }

  /** `_set_repository(repo_path)` of either variant: the previous repository file is
      deleted first, then the new one is put in place. */
  function SetRepositoryEffect(v: Variant, checked: bool, o: Oracle, w: World, repoPath: Option<Path>): Effect<()>
  {
    PlaceRepository(v, checked, o, RemoveIfExists(w, RepoFile(v)), repoPath)
  }

  /** What `_set_repository` does once the previous file is gone: move the supplied file
      into place (and, on Ubuntu, add the GPG key), or fetch the default repository. */
  function PlaceRepository(v: Variant, checked: bool, o: Oracle, w1: World, repoPath: Option<Path>): Effect<()>
  {
    var dst := RepoFile(v);
    match repoPath
    case Some(src) =>
      var r := RenameStep(w1, src, dst);
      if !r.value then Effect(Err(Uncaught(FileNotFound)), r.world)
      else if v == Ubuntu then AddGpgKeyEffect(checked, o, r.world)
      else Effect(Ok(()), r.world)
    case None =>
      if v == Ubuntu then Effect(Err(OpsError(NoRepository)), w1)
      else
        var g := GetStep(o, w1, DefaultRepoUrl, checked);
        match g.value
        case ConnectionError => Effect(Err(Uncaught(RequestFailed)), g.world)
        case HttpError => Effect(Err(OpsError("Error getting InfiniBand repository from " + DefaultRepoUrl)), g.world)
        case Body(text) => Effect(Ok(()), WriteStep(g.world, dst, text))
  }

  /** What `install` does once the repository is in place: refresh the index, read the
      kernel version, install its headers, install the driver. */
  function InstallPackagesEffect(v: Variant, checked: bool, o: Oracle, w: World): Effect<()>
  {
    var u := RunGuarded(checked, o, w, [RefreshStep(v)]);
    if u.result.Err? then u
    else
      var k := UnameEffect(o, u.world);
      if k.result.Err? then Effect(Err(k.result.failure), k.world)
      else RunGuarded(checked, o, k.world, [HeadersStep(v, k.result.value), DriverStep(v)])
  }

  /** `install(repo_path)` of either variant. */
  function InstallEffect(v: Variant, checked: bool, o: Oracle, w: World, repoPath: Option<Path>): Effect<()>
  {
    var s := SetRepositoryEffect(v, checked, o, w, repoPath);
    if s.result.Err? then s else InstallPackagesEffect(v, checked, o, s.world)
  }

  /** `remove()` of either variant. */
  function RemoveEffect(v: Variant, checked: bool, o: Oracle, w: World): Effect<()>
  {
    var e := RunGuarded(checked, o, w, [EraseStep(v)]);
    if e.result.Err? then e
    else RunGuarded(checked, o, RemoveIfExists(e.world, RepoFile(v)), [RefreshStep(v)])
  }

  /** `modprobe(modules)` */
  function ModprobeEffect(checked: bool, o: Oracle, w: World, modules: seq<string>): Effect<()>
  {
    RunGuarded(checked, o, w, ModprobeSteps(modules))
  }

  /** The string expression of `version()`: the decoded output of `ofed_info -s` with every
      leading and trailing character of `VersionChars` removed. */
  function VersionOf(out: string): string
  {
    Strip(out, VersionChars)
  }

  /** `version()` */
  function VersionEffect(o: Oracle, w: World): Effect<string>
  {
    var r := CheckOutputStep(o, w, OfedInfoCmd);
    match r.value
    case None => Effect(Err(OpsError(NotInstalled)), r.world)
    case Some(out) => Effect(Ok(VersionOf(out)), r.world)
  }

  /** The comparison of `is_active()` on a probe that exited zero. */
  predicate ActiveOutput(out: string)
  {
    Lower(Trim(out)) == "active"
  }

  /** `is_active()`: a failing probe is logged and reads as not active. */
  function IsActiveEffect(o: Oracle, w: World): Reply<bool>
  {
    var r := CheckOutputStep(o, w, IsActiveCmd);
    Reply(r.value.Some? && ActiveOutput(r.value.value), r.world)
  }

  // ---------------------------------------------------------------------------------
  // Fail-fast command sequences

  /** The position of the first command, from `from` on, that raises when run after all
      those before it; `|steps|` when none does. */
  function FirstRaise(checked: bool, o: Oracle, w: World, steps: seq<Guarded>, from: nat): (n: nat)
    requires from <= |steps|
    ensures from <= n <= |steps|
    ensures forall j :: from <= j < n ==> !Raises(checked, o, w, steps, j)
    ensures n < |steps| ==> Raises(checked, o, w, steps, n)
    decreases |steps| - from
  {
    if from == |steps| || Raises(checked, o, w, steps, from) then from
    else FirstRaise(checked, o, w, steps, from + 1)
  }

  /** What a guarded sequence amounts to: every command up to the first that raises runs,
      in order, and that one's error is raised; with none raising, all of them run. Files
      are not touched. */
  function GuardedOutcome(checked: bool, o: Oracle, w: World, steps: seq<Guarded>): Effect<()>
  {
    var n := FirstRaise(checked, o, w, steps, 0);
    if n == |steps| then Effect(Ok(()), w.(trace := w.trace + Execs(steps)))
    else Effect(Err(OpsError(steps[n].error)), w.(trace := w.trace + Execs(steps[..n + 1])))
  }

  /** The first raising position is determined by its two properties. */
  lemma FirstRaiseIs(checked: bool, o: Oracle, w: World, steps: seq<Guarded>, n: nat)
    requires n <= |steps|
    requires forall j :: 0 <= j < n ==> !Raises(checked, o, w, steps, j)
    requires n < |steps| ==> Raises(checked, o, w, steps, n)
    ensures FirstRaise(checked, o, w, steps, 0) == n
  {
  }

  lemma ExecsShift(steps: seq<Guarded>, i: nat)
    requires 0 < |steps| && i < |steps|
    ensures [Exec(steps[0].argv)] + Execs(steps[1..][..i]) == Execs(steps[..i + 1])
  {
  }

  /** After the first command has run without raising, the rest raise as they would have
      in the whole sequence. */
  lemma RaisesShift(checked: bool, o: Oracle, w: World, steps: seq<Guarded>, i: nat)
    requires i + 1 < |steps|
    ensures Raises(checked, o, RunStep(o, w, steps[0].argv, checked).world, steps[1..], i)
            == Raises(checked, o, w, steps, i + 1)
  {
    var w' := RunStep(o, w, steps[0].argv, checked).world;
    ExecsShift(steps, i);
    assert steps[1..][i] == steps[i + 1];
    assert w'.trace + Execs(steps[1..][..i]) == w.trace + Execs(steps[..i + 1]);
  }

  /** After a first command that does not raise, the first raising position moves down
      by one. */
  lemma FirstRaiseShift(checked: bool, o: Oracle, w: World, steps: seq<Guarded>)
    requires 0 < |steps| && !Raises(checked, o, w, steps, 0)
    ensures FirstRaise(checked, o, w, steps, 0)
            == 1 + FirstRaise(checked, o, RunStep(o, w, steps[0].argv, checked).world, steps[1..], 0)
  {
    var w' := RunStep(o, w, steps[0].argv, checked).world;
    var m := FirstRaise(checked, o, w', steps[1..], 0);
    forall j | 0 < j < m + 1 ensures !Raises(checked, o, w, steps, j) {
      RaisesShift(checked, o, w, steps, j - 1);
    }
    if m < |steps| - 1 {
      RaisesShift(checked, o, w, steps, m);
    }
    FirstRaiseIs(checked, o, w, steps, m + 1);
  }

  /** After a first command that does not raise, the outcome is that of the rest. */
  lemma OutcomeShift(checked: bool, o: Oracle, w: World, steps: seq<Guarded>)
    requires 0 < |steps| && !Raises(checked, o, w, steps, 0)
    ensures GuardedOutcome(checked, o, w, steps)
            == GuardedOutcome(checked, o, RunStep(o, w, steps[0].argv, checked).world, steps[1..])
  {
    var w' := RunStep(o, w, steps[0].argv, checked).world;
    var e := Exec(steps[0].argv);
    var rest := steps[1..];
    assert w' == w.(trace := w.trace + [e]);
    FirstRaiseShift(checked, o, w, steps);
    var m := FirstRaise(checked, o, w', rest, 0);
    if m == |rest| {
      ExecsAll(steps);
      TraceShift(w.trace, e, Execs(rest), Execs(steps));
    } else {
      ExecsShift(steps, m + 1);
      TraceShift(w.trace, e, Execs(rest[..m + 1]), Execs(steps[..m + 2]));
    }
  }

  lemma ExecsAll(steps: seq<Guarded>)
    requires 0 < |steps|
    ensures Execs(steps) == [Exec(steps[0].argv)] + Execs(steps[1..])
  {
  }

  lemma TraceShift(t: seq<Action>, e: Action, xs: seq<Action>, ys: seq<Action>)
    requires ys == [e] + xs
    ensures (t + [e]) + xs == t + ys
  {
  }

  /** The step-by-step run of a guarded sequence has exactly the outcome above. */
  lemma {:induction false} RunGuardedOutcome(checked: bool, o: Oracle, w: World, steps: seq<Guarded>)
    ensures RunGuarded(checked, o, w, steps) == GuardedOutcome(checked, o, w, steps)
    decreases steps
  {
    if steps == [] {
      assert w.trace + Execs(steps) == w.trace;
      return;
    }
    var w' := RunStep(o, w, steps[0].argv, checked).world;
    assert Execs(steps[..1]) == [Exec(steps[0].argv)];
    assert Raises(checked, o, w, steps, 0) == RunStep(o, w, steps[0].argv, checked).value by {
      assert Execs(steps[..0]) == [];
      assert w.trace + Execs(steps[..0]) == w.trace;
    }
    if !Raises(checked, o, w, steps, 0) {
      RunGuardedOutcome(checked, o, w', steps[1..]);
      OutcomeShift(checked, o, w, steps);
    }
  }

  /** As written (`checked == false`) a guarded sequence never raises: every command runs,
      in order, whatever its exit status. */
  lemma RunGuardedUnchecked(o: Oracle, w: World, steps: seq<Guarded>)
    ensures RunGuarded(false, o, w, steps) == Effect(Ok(()), w.(trace := w.trace + Execs(steps)))
  {
    RunGuardedOutcome(false, o, w, steps);
  }

  // ---------------------------------------------------------------------------------
  // modprobe

  /** `modprobe(modules)` issues `modprobe m` for the modules in list order. It stops at the
      first module whose `modprobe` raises, with an error naming that module; the modules
      after it are never attempted. */
  lemma ModprobeOutcome(checked: bool, o: Oracle, w: World, modules: seq<string>)
    ensures var n := FirstRaise(checked, o, w, ModprobeSteps(modules), 0);
      && (n == |modules| ==>
            ModprobeEffect(checked, o, w, modules)
            == Effect(Ok(()), w.(trace := w.trace + Execs(ModprobeSteps(modules)))))
      && (n < |modules| ==>
            && checked
            && ModprobeEffect(checked, o, w, modules)
               == Effect(Err(OpsError("Error modprobing " + modules[n])),
                         w.(trace := w.trace + Execs(ModprobeSteps(modules[..n + 1])))))
  {
    var steps := ModprobeSteps(modules);
    RunGuardedOutcome(checked, o, w, steps);
    var n := FirstRaise(checked, o, w, steps, 0);
    if n < |modules| {
      assert steps[..n + 1] == ModprobeSteps(modules[..n + 1]);
    }
  }

  /** Modules a, b, c with `modprobe b` failing: exactly `modprobe a` and `modprobe b`
      run, `c` is never attempted, and the error names b. */
  lemma ModprobeStopsAtFailingModule(o: Oracle, w: World)
    requires o.exec(w.trace, ["modprobe", "a"]).ok
    requires !o.exec(w.trace + [Exec(["modprobe", "a"])], ["modprobe", "b"]).ok
    ensures ModprobeEffect(true, o, w, ["a", "b", "c"])
            == Effect(Err(OpsError("Error modprobing b")),
                      w.(trace := w.trace + [Exec(["modprobe", "a"]), Exec(["modprobe", "b"])]))
  {
    var steps := ModprobeSteps(["a", "b", "c"]);
    assert steps == [ModprobeStep("a"), ModprobeStep("b"), ModprobeStep("c")];
    assert Execs(steps[..0]) == [] && w.trace + [] == w.trace;
    assert Execs(steps[..1]) == [Exec(["modprobe", "a"])];
    assert Execs(steps[..2]) == [Exec(["modprobe", "a"]), Exec(["modprobe", "b"])];
    FirstRaiseIs(true, o, w, steps, 1);
    RunGuardedOutcome(true, o, w, steps);
    assert steps[1].error == "Error modprobing b";
  }

  // ---------------------------------------------------------------------------------
  // _set_repository

  /** Fetching and trusting the GPG key touches no file of the model. */
  lemma AddGpgKeyKeepsFiles(checked: bool, o: Oracle, w: World)
    ensures AddGpgKeyEffect(checked, o, w).world.files == w.files
  {
    var g := GetStep(o, w, GpgKeyUrl, checked);
    RunGuardedOutcome(checked, o, g.world, [AddKeyStep(o.tmpDir)]);
  }

  /** Any file already at the destination is deleted before anything else happens. */
  lemma SetRepositoryDeletesFirst(v: Variant, checked: bool, o: Oracle, w: World, repoPath: Option<Path>)
    requires RepoFile(v) in w.files
    ensures var e := SetRepositoryEffect(v, checked, o, w, repoPath);
      |e.world.trace| > |w.trace| && e.world.trace[..|w.trace| + 1] == w.trace + [Unlink(RepoFile(v))]
  {
    var w1 := RemoveIfExists(w, RepoFile(v));
    assert w1.trace == w.trace + [Unlink(RepoFile(v))];
    PlaceExtends(v, checked, o, w1, repoPath);
  }

  /** Placing the repository only appends to the trace. */
  lemma PlaceExtends(v: Variant, checked: bool, o: Oracle, w1: World, repoPath: Option<Path>)
    ensures var e := PlaceRepository(v, checked, o, w1, repoPath);
      |e.world.trace| >= |w1.trace| && e.world.trace[..|w1.trace|] == w1.trace
  {
    if repoPath.Some? && RenameStep(w1, repoPath.value, RepoFile(v)).value && v == Ubuntu {
      var r := RenameStep(w1, repoPath.value, RepoFile(v)).world;
      var g := GetStep(o, r, GpgKeyUrl, checked);
      RunGuardedOutcome(checked, o, g.world, [AddKeyStep(o.tmpDir)]);
    }
  }

  /** With a supplied file: the destination ends up holding that file's content, the
      supplied path no longer exists, and no other file changes (whether or not the
      GPG key step that follows on Ubuntu succeeds). */
  lemma SetRepositoryMovesSuppliedFile(v: Variant, checked: bool, o: Oracle, w: World, src: Path)
    requires src in w.files && src != RepoFile(v)
    ensures var e := SetRepositoryEffect(v, checked, o, w, Some(src));
      && e.world.files == (w.files - {src})[RepoFile(v) := w.files[src]]
      && (v == Centos ==> e.result.Ok?)
      && e.result != Err(Uncaught(FileNotFound))
  {
    var dst := RepoFile(v);
    var w1 := RemoveIfExists(w, dst);
    assert w1.files == w.files - {dst};
    var r := RenameStep(w1, src, dst);
    assert r.world.files == (w.files - {src})[dst := w.files[src]];
    AddGpgKeyKeepsFiles(checked, o, r.world);
    if v == Ubuntu {
      var g := GetStep(o, r.world, GpgKeyUrl, checked);
      RunGuardedOutcome(checked, o, g.world, [AddKeyStep(o.tmpDir)]);
    }
  }

  /** A supplied path that does not exist, or that is the destination itself (deleted just
      before), makes the rename raise `FileNotFoundError`, which is not caught; the
      destination is left absent. */
  lemma SetRepositoryMissingSource(v: Variant, checked: bool, o: Oracle, w: World, src: Path)
    requires src !in w.files || src == RepoFile(v)
    ensures var e := SetRepositoryEffect(v, checked, o, w, Some(src));
      && e.result == Err(Uncaught(FileNotFound))
      && e.world.files == w.files - {RepoFile(v)}
  {
  }

  /** Ubuntu without a supplied file: "No InfiniBand repository provided", and the only
      change is the deletion of the previous file. */
  lemma UbuntuNeedsRepository(checked: bool, o: Oracle, w: World)
    ensures var e := SetRepositoryEffect(Ubuntu, checked, o, w, None);
      && e.result == Err(OpsError(NoRepository))
      && e.world.files == w.files - {RepoFile(Ubuntu)}
      && e.world.trace == w.trace + (if RepoFile(Ubuntu) in w.files then [Unlink(RepoFile(Ubuntu))] else [])
  {
  }

  /** CentOS without a supplied file: the body fetched from the pinned default URL is
      written to the destination. */
  lemma CentosFetchesDefaultRepository(checked: bool, o: Oracle, w: World, status: int, text: string)
    requires var w1 := RemoveIfExists(w, RepoFile(Centos));
             o.web(w1.trace, DefaultRepoUrl) == Response(status, text)
    requires !checked || !(400 <= status < 600)
    ensures var e := SetRepositoryEffect(Centos, checked, o, w, None);
      && e.result.Ok?
      && e.world.files == w.files[RepoFile(Centos) := text]
      && e.world.trace == w.trace + (if RepoFile(Centos) in w.files then [Unlink(RepoFile(Centos))] else [])
                                  + [HttpGet(DefaultRepoUrl), WriteText(RepoFile(Centos))]
  {
    assert (w.files - {RepoFile(Centos)})[RepoFile(Centos) := text] == w.files[RepoFile(Centos) := text];
  }

  /** As written, an error page from the default repository URL (here a 404) is not an
      error: `requests.get` does not raise `HTTPError` without `raise_for_status()`, so the
      page's body becomes the repository file. */
  lemma ErrorPageBecomesRepository(o: Oracle, w: World, page: string)
    requires o.web(RemoveIfExists(w, RepoFile(Centos)).trace, DefaultRepoUrl) == Response(404, page)
    ensures var e := SetRepositoryEffect(Centos, false, o, w, None);
      e.result.Ok? && e.world.files == w.files[RepoFile(Centos) := page]
  {
    CentosFetchesDefaultRepository(false, o, w, 404, page);
  }

  /** With the status checked, the same 404 raises "Error getting InfiniBand repository
      from <url>" and no repository file is written. */
  lemma ErrorPageRejected(o: Oracle, w: World, page: string)
    requires o.web(RemoveIfExists(w, RepoFile(Centos)).trace, DefaultRepoUrl) == Response(404, page)
    ensures var e := SetRepositoryEffect(Centos, true, o, w, None);
      && e.result == Err(OpsError("Error getting InfiniBand repository from " + DefaultRepoUrl))
      && e.world.files == w.files - {RepoFile(Centos)}
  {
  }

  /** As written, the only `InfinibandOpsError`s `install` can raise are the missing Ubuntu
      repository and a failing `uname -r` (`check_output` does raise): every `run` and
      `requests.get` failure goes unnoticed. */
  lemma InstallErrorsAsWritten(v: Variant, o: Oracle, w: World, repoPath: Option<Path>)
    ensures var e := InstallEffect(v, false, o, w, repoPath);
      e.result.Err? && e.result.failure.OpsError? ==>
        e.result.failure.message in {NoRepository, KernelVersionError}
  {
    var s := SetRepositoryEffect(v, false, o, w, repoPath);
    PlaceErrorsAsWritten(v, o, RemoveIfExists(w, RepoFile(v)), repoPath);
    if s.result.Ok? {
      PackagesErrorsAsWritten(v, o, s.world);
    }
  }

  /** As written, the only `InfinibandOpsError` of `_set_repository` is the missing Ubuntu
      repository. */
  lemma PlaceErrorsAsWritten(v: Variant, o: Oracle, w1: World, repoPath: Option<Path>)
    ensures var e := PlaceRepository(v, false, o, w1, repoPath);
      e.result.Err? && e.result.failure.OpsError? ==> e.result.failure.message == NoRepository
  {
    if repoPath.Some? && v == Ubuntu && RenameStep(w1, repoPath.value, RepoFile(v)).value {
      var r := RenameStep(w1, repoPath.value, RepoFile(v)).world;
      RunGuardedUnchecked(o, GetStep(o, r, GpgKeyUrl, false).world, [AddKeyStep(o.tmpDir)]);
    }
  }

  /** As written, the only `InfinibandOpsError` of the package steps is a failing
      `uname -r`. */
  lemma PackagesErrorsAsWritten(v: Variant, o: Oracle, w: World)
    ensures var e := InstallPackagesEffect(v, false, o, w);
      e.result.Err? && e.result.failure.OpsError? ==> e.result.failure.message == KernelVersionError
  {
    var u := RunGuarded(false, o, w, [RefreshStep(v)]);
    RunGuardedUnchecked(o, w, [RefreshStep(v)]);
    var k := UnameEffect(o, u.world);
    if k.result.Ok? {
      RunGuardedUnchecked(o, k.world, [HeadersStep(v, k.result.value), DriverStep(v)]);
    }
  }

  /** As written, `remove` never raises. */
  lemma RemoveAsWritten(v: Variant, o: Oracle, w: World)
    ensures RemoveEffect(v, false, o, w).result.Ok?
  {
    RunGuardedUnchecked(o, w, [EraseStep(v)]);
    var e := RunGuarded(false, o, w, [EraseStep(v)]);
    RunGuardedUnchecked(o, RemoveIfExists(e.world, RepoFile(v)), [RefreshStep(v)]);
  }

  // ---------------------------------------------------------------------------------
  // install

  /** What `install` runs after `_set_repository`, given the kernel version `uname`. */
  function InstallPlan(v: Variant, uname: string): seq<Action>
  {
    [Exec(RefreshStep(v).argv), Exec(UnameCmd), Exec(HeadersStep(v, uname).argv), Exec(DriverStep(v).argv)]
  }

  /** The error each step of the plan raises. */
  function InstallErrors(v: Variant, uname: string): seq<string>
  {
    [RefreshStep(v).error, KernelVersionError, HeadersStep(v, uname).error, DriverStep(v).error]
  }

  /** The first `n` steps of `plan` ran, from `s`, and nothing else happened; the outcome is
      success only when all ran, and otherwise the error of step `n`. */
  predicate RanPlanTo(e: Effect<()>, s: World, plan: seq<Action>, errors: seq<string>, n: nat)
    requires 1 <= n <= |plan| && |errors| == |plan|
  {
    && e.world == s.(trace := s.trace + plan[..n])
    && (e.result.Ok? ==> n == |plan|)
    && (e.result.Err? ==> e.result.failure == OpsError(errors[n - 1]))
  }

  /** Once the repository is in place, `install` runs a prefix of the plan — refresh the
      index, `uname -r`, install the headers named with the trimmed output of `uname -r`,
      install `mlnx-ofed-all` — and nothing else, touching no file. It stops at the first
      step that raises, which the command results decide: the refresh (when checked), then
      `uname -r` (always checked, by `check_output`), then the headers (when checked); the
      driver step raises exactly when it is checked and fails. */
  lemma InstallFollowsPlan(v: Variant, checked: bool, o: Oracle, s: World)
    ensures var uname := Trim(o.exec(s.trace + [Exec(RefreshStep(v).argv)], UnameCmd).stdout);
      var plan := InstallPlan(v, uname);
      var n := if checked && !o.exec(s.trace, RefreshStep(v).argv).ok then 1
               else if !o.exec(s.trace + plan[..1], UnameCmd).ok then 2
               else if checked && !o.exec(s.trace + plan[..2], HeadersStep(v, uname).argv).ok then 3
               else 4;
      var e := InstallPackagesEffect(v, checked, o, s);
      && RanPlanTo(e, s, plan, InstallErrors(v, uname), n)
      && (n == 4 ==> (e.result.Err? <==> checked && !o.exec(s.trace + plan[..3], DriverStep(v).argv).ok))
  {
    var refresh := RefreshStep(v);
    var uname := Trim(o.exec(s.trace + [Exec(refresh.argv)], UnameCmd).stdout);
    var plan := InstallPlan(v, uname);
    var errors := InstallErrors(v, uname);
    var e := InstallPackagesEffect(v, checked, o, s);
    var u := RunGuarded(checked, o, s, [refresh]);
    SingleGuarded(checked, o, s, refresh);
    assert plan[..1] == [Exec(refresh.argv)];
    if u.result.Err? {
      assert RanPlanTo(e, s, plan, errors, 1);
      return;
    }
    var k := UnameEffect(o, u.world);
    assert k.world.trace == s.trace + [Exec(refresh.argv)] + [Exec(UnameCmd)];
    assert plan[..2] == [Exec(refresh.argv), Exec(UnameCmd)];
    assert k.world == s.(trace := s.trace + plan[..2]);
    if k.result.Err? {
      assert RanPlanTo(e, s, plan, errors, 2);
      return;
    }
    var rest := [HeadersStep(v, uname), DriverStep(v)];
    InstallPlanTail(v, checked, o, s, uname, k.world);
    TailOracle(checked, o, k.world, rest);
    assert plan[..3] == plan[..2] + [Exec(rest[0].argv)];
    assert s.trace + plan[..3] == k.world.trace + [Exec(rest[0].argv)];
    var m := FirstRaise(checked, o, k.world, rest, 0);
    assert RanPlanTo(e, s, plan, errors, if m == 0 then 3 else 4);
  }

  /** Which of two guarded commands raises, in terms of their results. */
  lemma TailOracle(checked: bool, o: Oracle, k: World, rest: seq<Guarded>)
    requires |rest| == 2
    ensures FirstRaise(checked, o, k, rest, 0) == 0 <==> checked && !o.exec(k.trace, rest[0].argv).ok
    ensures FirstRaise(checked, o, k, rest, 0) != 0 ==>
              (RunGuarded(checked, o, k, rest).result.Err?
               <==> checked && !o.exec(k.trace + [Exec(rest[0].argv)], rest[1].argv).ok)
  {
    assert Execs(rest[..0]) == [] && k.trace + [] == k.trace;
    assert Execs(rest[..1]) == [Exec(rest[0].argv)];
    RunGuardedOutcome(checked, o, k, rest);
  }

  /** When the refresh does not raise and `uname -r` succeeds, the third command `install`
      runs installs the headers of exactly the kernel that `uname -r` printed, trimmed. */
  lemma InstallHeadersFollowUname(v: Variant, checked: bool, o: Oracle, s: World)
    requires !(checked && !o.exec(s.trace, RefreshStep(v).argv).ok)
    requires o.exec(s.trace + [Exec(RefreshStep(v).argv)], UnameCmd).ok
    ensures var kernel := Trim(o.exec(s.trace + [Exec(RefreshStep(v).argv)], UnameCmd).stdout);
      var t := InstallPackagesEffect(v, checked, o, s).world.trace;
      && |t| >= |s.trace| + 3
      && t[|s.trace| + 2] == Exec(HeadersStep(v, kernel).argv)
      && match v
         case Ubuntu => t[|s.trace| + 2].argv[3..] == ["linux-headers-" + kernel]
         case Centos => t[|s.trace| + 2].argv[3..] == ["kernel-devel-" + kernel, "kernel-headers-" + kernel]
  {
    var kernel := Trim(o.exec(s.trace + [Exec(RefreshStep(v).argv)], UnameCmd).stdout);
    var plan := InstallPlan(v, kernel);
    assert plan[..1] == [Exec(RefreshStep(v).argv)];
    InstallFollowsPlan(v, checked, o, s);
    var t := InstallPackagesEffect(v, checked, o, s).world.trace;
    assert t[|s.trace| + 2] == plan[2] == Exec(HeadersStep(v, kernel).argv);
  }

  /** A single guarded command. */
  lemma SingleGuarded(checked: bool, o: Oracle, w: World, step: Guarded)
    ensures var u := RunGuarded(checked, o, w, [step]);
      && u.world == w.(trace := w.trace + [Exec(step.argv)])
      && (u.result.Err? <==> checked && !o.exec(w.trace, step.argv).ok)
      && (u.result.Err? ==> u.result.failure == OpsError(step.error))
  {
  }

  /** The headers and driver steps, from the world where the first two steps of the plan
      have run: the third step ran and raised, or all four ran. */
  lemma InstallPlanTail(v: Variant, checked: bool, o: Oracle, s: World, uname: string, k: World)
    requires k == s.(trace := s.trace + InstallPlan(v, uname)[..2])
    ensures var rest := [HeadersStep(v, uname), DriverStep(v)];
            var n := if FirstRaise(checked, o, k, rest, 0) == 0 then 3 else 4;
            RanPlanTo(RunGuarded(checked, o, k, rest), s, InstallPlan(v, uname), InstallErrors(v, uname), n)
  {
    var plan := InstallPlan(v, uname);
    var rest := [HeadersStep(v, uname), DriverStep(v)];
    RunGuardedOutcome(checked, o, k, rest);
    var m := FirstRaise(checked, o, k, rest, 0);
    if m == 0 {
      assert Execs(rest[..1]) == plan[2..3];
      TraceShift2(s.trace, plan, 3);
    } else {
      assert Execs(rest) == plan[2..4];
      assert m == 1 ==> rest[..2] == rest;
      TraceShift2(s.trace, plan, 4);
    }
  }

  lemma TraceShift2(t: seq<Action>, plan: seq<Action>, n: nat)
    requires 2 <= n <= |plan|
    ensures t + plan[..2] + plan[2..n] == t + plan[..n]
  {
    assert plan[..2] + plan[2..n] == plan[..n];
  }

  // ---------------------------------------------------------------------------------
  // remove

  /** `remove` erases the driver package, then deletes the repository file if it is there,
      then refreshes the index; a failing erase stops it before any file is touched. */
  lemma RemoveOutcome(v: Variant, checked: bool, o: Oracle, w: World)
    ensures var e := RemoveEffect(v, checked, o, w);
      var dst := RepoFile(v);
      if checked && !o.exec(w.trace, EraseStep(v).argv).ok then
        e == Effect(Err(OpsError(EraseStep(v).error)), w.(trace := w.trace + [Exec(EraseStep(v).argv)]))
      else
        var t := w.trace + [Exec(EraseStep(v).argv)] + (if dst in w.files then [Unlink(dst)] else []);
        && e.world == World(w.files - {dst}, t + [Exec(RefreshStep(v).argv)])
        && (e.result.Ok? <==> !checked || o.exec(t, RefreshStep(v).argv).ok)
        && (e.result.Err? ==> e.result.failure == OpsError(RefreshStep(v).error))
  {
    var e1 := RunGuarded(checked, o, w, [EraseStep(v)]);
    SingleGuarded(checked, o, w, EraseStep(v));
    if e1.result.Ok? {
      var dst := RepoFile(v);
      var w2 := RemoveIfExists(e1.world, dst);
      assert w2.trace == w.trace + [Exec(EraseStep(v).argv)] + (if dst in w.files then [Unlink(dst)] else []);
      SingleGuarded(checked, o, w2, RefreshStep(v));
    }
  }

  /** A missing repository file is not an error: `remove` never raises anything but its two
      step errors, so running it twice in a row is safe, and the second run changes no
      file. */
  lemma RemoveTwice(v: Variant, checked: bool, o: Oracle, w: World)
    ensures RemoveEffect(v, checked, o, w).result.Err? ==>
              RemoveEffect(v, checked, o, w).result.failure in
                {OpsError(EraseStep(v).error), OpsError(RefreshStep(v).error)}
    ensures var w' := RemoveEffect(v, checked, o, w).world;
      RemoveEffect(v, checked, o, w).result.Ok? ==>
        RepoFile(v) !in w'.files && RemoveEffect(v, checked, o, w').world.files == w'.files
  {
    RemoveOutcome(v, checked, o, w);
    var w' := RemoveEffect(v, checked, o, w).world;
    RemoveOutcome(v, checked, o, w');
  }

  // ---------------------------------------------------------------------------------
  // version and is_active

  /** The usual output of `ofed_info -s`: "MLNX_OFED_LINUX-5.8-1.1.2.1:\n" gives
      "5.8-1.1.2.1". */
  lemma VersionOfExample()
    ensures VersionOf("MLNX_OFED_LINUX-5.8-1.1.2.1:\n") == "5.8-1.1.2.1"
  {
    var s := "MLNX_OFED_LINUX-5.8-1.1.2.1:\n";
    assert s[16..27] == "5.8-1.1.2.1";
    assert AllIn(s, 0, 16, VersionChars);
    assert AllIn(s, 27, |s|, VersionChars);
    StripUnique(s, VersionChars, 16, 27);
  }

  /** The strip works on the SET of characters, not on the prefix "MLNX_OFED_LINUX-": a
      prefix spelt differently goes too. */
  lemma VersionOfAnyPrefixOrder()
    ensures VersionOf("OFED-LINUX-5.8\n") == "5.8"
  {
    var a := "OFED-LINUX-5.8\n";
    assert a[11..14] == "5.8" && a[14..] == ['\n'];
    assert AllIn(a, 0, 11, VersionChars);
    StripUnique(a, VersionChars, 11, 14);
  }

  /** A version whose own last characters are in the set loses them. */
  lemma VersionOfEatsVersionSuffix()
    ensures VersionOf("MLNX_OFED_LINUX-5.8-OFED:\n") == "5.8"
  {
    var c := "MLNX_OFED_LINUX-5.8-OFED:\n";
    assert c[16..19] == "5.8";
    assert AllIn(c, 0, 16, VersionChars) && AllIn(c, 19, |c|, VersionChars);
    StripUnique(c, VersionChars, 16, 19);
  }

  /** A version string is a fixed point: stripping what `version()` returned strips
      nothing more. */
  lemma VersionOfIdempotent(out: string)
    ensures VersionOf(VersionOf(out)) == VersionOf(out)
  {
    StripIdempotent(out, VersionChars);
  }

  /** `version()` raises "Cannot return version for package that isn't installed." exactly
      when `ofed_info -s` fails, and otherwise returns the stripped output. */
  lemma VersionOutcome(o: Oracle, w: World)
    ensures var e := VersionEffect(o, w);
      var res := o.exec(w.trace, OfedInfoCmd);
      && e.world == w.(trace := w.trace + [Exec(OfedInfoCmd)])
      && (e.result.Err? <==> !res.ok)
      && (e.result.Err? ==> e.result.failure == OpsError(NotInstalled))
      && (e.result.Ok? ==> e.result.value == VersionOf(res.stdout))
  {
  }

  /** The output of the probe counts as active exactly when, once trimmed, it spells
      "active" in any mix of upper and lower case. */
  lemma ActiveOutputIff(out: string)
    ensures var t := Trim(out);
      ActiveOutput(out) <==> |t| == 6 && forall k :: 0 <= k < 6 ==> t[k] == "active"[k] || t[k] == "ACTIVE"[k]
  {
    ActiveCapitals();
    LowerEqualsWord(Trim(out), "active", "ACTIVE");
  }

  lemma ActiveCapitals()
    ensures |"ACTIVE"| == |"active"|
    ensures forall k :: 0 <= k < |"active"| ==> 'a' <= "active"[k] <= 'z' && "ACTIVE"[k] == ("active"[k] as int - 32) as char
  {
  }

  /** `is_active()` is true exactly when the probe exits zero and its output counts as
      active; a failing probe gives false, never an error. */
  lemma IsActiveOutcome(o: Oracle, w: World)
    ensures var res := o.exec(w.trace, IsActiveCmd);
      && IsActiveEffect(o, w).world == w.(trace := w.trace + [Exec(IsActiveCmd)])
      && (IsActiveEffect(o, w).value <==> res.ok && ActiveOutput(res.stdout))
  {
  }

  /** "active" followed by a newline, as `systemctl is-active` prints it, counts. */
  lemma ActiveOutputAcceptsActive()
    ensures ActiveOutput("active\n")
  {
    var a := "active\n";
    assert '\n' in Whitespace && 'a' !in Whitespace && 'e' !in Whitespace;
    assert a[..0] == [] && a[6..] == ['\n'] && a[0..6] == "active";
    StripUnique(a, Whitespace, 0, 6);
    ActiveOutputIff(a);
  }

  /** "inactive" does not count although it ends with "active". */
  lemma ActiveOutputRejectsInactive()
    ensures !ActiveOutput("inactive\n")
  {
    var c := "inactive\n";
    assert '\n' in Whitespace && 'i' !in Whitespace && 'e' !in Whitespace;
    assert c[..0] == [] && c[8..] == ['\n'] && c[0..8] == "inactive";
    StripUnique(c, Whitespace, 0, 8);
  }

  /** `uname_r()` raises "Error detecting kernel version." exactly when `uname -r` fails. */
  lemma UnameOutcome(o: Oracle, w: World)
    ensures var e := UnameEffect(o, w);
      var res := o.exec(w.trace, UnameCmd);
      && (e.result.Err? <==> !res.ok)
      && (e.result.Err? ==> e.result.failure == OpsError(KernelVersionError))
      && (e.result.Ok? ==> e.result.value == Trim(res.stdout))
  {
  }

  // ---------------------------------------------------------------------------------
  // The manager objects

  /** `InfinibandOpsManagerUbuntu` or `InfinibandOpsManagerCentos`, with the fields their
      `__init__` sets, acting on the machine `host`. */
  class Manager {
    const variant: Variant
    const checked: bool
    const host: Machine
    const driverPackage: string
    const ibSystemdService: string
    const driverRepoFilepath: Path

    ghost predicate Valid()
    {
      driverPackage == DriverPackage && ibSystemdService == SystemdService
      && driverRepoFilepath == RepoFile(variant)
    }

    constructor (variant: Variant, checked: bool, host: Machine)
      ensures Valid() && this.variant == variant && this.checked == checked && this.host == host
    {
      this.variant := variant;
      this.checked := checked;
      this.host := host;
      driverPackage := DriverPackage;
      ibSystemdService := SystemdService;
      driverRepoFilepath := RepoFile(variant);
    }

    /** One guarded `run`. */
    method RunGuardedStep(step: Guarded) returns (r: Result<()>)
      modifies host
      ensures Effect(r, host.State()) == RunGuarded(checked, host.oracle, old(host.State()), [step])
    {
      var raised := host.Run(step.argv, checked);
      r := if raised then Err(OpsError(step.error)) else Ok(());
    }

    method UnameR() returns (r: Result<string>)
      modifies host
      ensures Effect(r, host.State()) == UnameEffect(host.oracle, old(host.State()))
    {
      var out := host.CheckOutput(UnameCmd);
      if out.None? {
        r := Err(OpsError(KernelVersionError));
        return;
      }
      r := Ok(Trim(out.value));
    }

    method SetRepository(repoPath: Option<Path>) returns (r: Result<()>)
      requires Valid()
      modifies host
      ensures Effect(r, host.State()) == SetRepositoryEffect(variant, checked, host.oracle, old(host.State()), repoPath)
    {
      var present := host.Exists(driverRepoFilepath);
      if present {
        host.Unlink(driverRepoFilepath);
      }
      if repoPath.Some? {
        var moved := host.Rename(repoPath.value, driverRepoFilepath);
        if !moved {
          r := Err(Uncaught(FileNotFound));
          return;
        }
        if variant == Ubuntu {
          r := AddGpgKey();
        } else {
          r := Ok(());
        }
      } else if variant == Ubuntu {
        r := Err(OpsError(NoRepository));
      } else {
        var fetched := host.Get(DefaultRepoUrl, checked);
        match fetched {
          case ConnectionError =>
            r := Err(Uncaught(RequestFailed));
          case HttpError =>
            r := Err(OpsError("Error getting InfiniBand repository from " + DefaultRepoUrl));
          case Body(text) =>
            host.WriteText(driverRepoFilepath, text);
            r := Ok(());
        }
      }
    }

    method AddGpgKey() returns (r: Result<()>)
      modifies host
      ensures Effect(r, host.State()) == AddGpgKeyEffect(checked, host.oracle, old(host.State()))
    {
      var fetched := host.Get(GpgKeyUrl, checked);
      match fetched {
        case ConnectionError =>
          r := Err(Uncaught(RequestFailed));
        case HttpError =>
          r := Err(OpsError("Error getting InfiniBand GPG key " + GpgKeyUrl));
        case Body(_) =>
          r := RunGuardedStep(AddKeyStep(host.oracle.tmpDir));
      }
    }

    method Install(repoPath: Option<Path>) returns (r: Result<()>)
      requires Valid()
      modifies host
      ensures Effect(r, host.State()) == InstallEffect(variant, checked, host.oracle, old(host.State()), repoPath)
    {
      r := SetRepository(repoPath);
      if r.Err? {
        return;
      }
      r := RunGuardedStep(RefreshStep(variant));
      if r.Err? {
        return;
      }
      var uname := UnameR();
      if uname.Err? {
        r := Err(uname.failure);
        return;
      }
      r := RunGuardedStep(HeadersStep(variant, uname.value));
      if r.Err? {
        return;
      }
      r := RunGuardedStep(DriverStep(variant));
    }

    method Remove() returns (r: Result<()>)
      requires Valid()
      modifies host
      ensures Effect(r, host.State()) == RemoveEffect(variant, checked, host.oracle, old(host.State()))
    {
      r := RunGuardedStep(EraseStep(variant));
      if r.Err? {
        return;
      }
      var present := host.Exists(driverRepoFilepath);
      if present {
        host.Unlink(driverRepoFilepath);
      }
      r := RunGuardedStep(RefreshStep(variant));
    }

    /** The loop of `modprobe(modules)`. */
    method Modprobe(modules: seq<string>) returns (r: Result<()>)
      modifies host
      ensures Effect(r, host.State()) == ModprobeEffect(checked, host.oracle, old(host.State()), modules)
    {
      var steps := ModprobeSteps(modules);
      var i := 0;
      while i < |modules|
        invariant 0 <= i <= |modules|
        invariant RunGuarded(checked, host.oracle, old(host.State()), steps)
                  == RunGuarded(checked, host.oracle, host.State(), steps[i..])
      {
        assert steps[i..][1..] == steps[i + 1..];
        var raised := host.Run(["modprobe", modules[i]], checked);
        if raised {
          r := Err(OpsError("Error modprobing " + modules[i]));
          return;
        }
        i := i + 1;
      }
      r := Ok(());
    }

    method Version() returns (r: Result<string>)
      modifies host
      ensures Effect(r, host.State()) == VersionEffect(host.oracle, old(host.State()))
    {
      var out := host.CheckOutput(OfedInfoCmd);
      if out.None? {
        r := Err(OpsError(NotInstalled));
        return;
      }
      r := Ok(Strip(out.value, VersionChars));
    }

    method IsActive() returns (active: bool)
      requires Valid()
      modifies host
      ensures Reply(active, host.State()) == IsActiveEffect(host.oracle, old(host.State()))
    {
      var out := host.CheckOutput(["systemctl", "is-active", ibSystemdService]);
      active := false;
      if out.Some? {
        active := "active" == Lower(Trim(out.value));
      }
    }
  }
}
