# InfiniBand operator, modelled in Dafny

This project models the InfiniBand charmed operator. It is a Juju charm that installs the
Mellanox OFED driver stack (`mlnx-ofed-all`) on Ubuntu or CentOS machines, removes it
again, and loads the InfiniBand kernel modules. The model covers the driver manager in
`src/infiniband_ops_manager.py` and the charm's event handlers in `src/charm.py`.

- `text.dfy` (module `Text`) covers the Python string operations the code relies on:
  - `str.split` with a one-character separator, with its round trip through `join`;
  - `str.strip(chars)`, where `chars` is a set of characters;
  - `str.strip()` on Python whitespace;
  - ASCII `str.lower`.
- `os_release.dfy` (module `OsRelease`) covers `os_release()`. The text of `/etc/os-release`
  is a parameter. The parse fails with the unpacking error of the first line that does not
  hold exactly one `=`. Otherwise it gives one key per distinct line key, and the value of a
  key comes from the last line with that key, with its surrounding double quotes stripped.
- `host.dfy` (module `Host`) covers the machine. Its state is the filesystem (a map from
  path to text) and the trace: every subprocess, HTTP request, unlink, rename and write,
  in order. Subprocesses and HTTP requests are answered by an oracle, and the oracle's
  answer may depend on the trace so far. Each library call is a step function, and class
  `Machine` has one method per library call, each proved to have exactly that step's
  effect.
- `ops_manager.dfy` (module `OpsManager`) covers the driver manager.
  - Each operation is a function from the world before to its result or raised error and
    the world after: `_set_repository`, `install` and `remove` of both variants, plus
    `modprobe`, `version`, `is_active` and `uname_r`.
  - Class `Manager` runs the same calls one at a time on a `Machine`. Each of its methods
    is proved equal to its operation's function, and `modprobe` keeps its loop.
  - The lemmas state:
    - the order of the commands;
    - the fail-fast error translation;
    - how the repository file is created, replaced or deleted;
    - what `version()` and `is_active()` make of command output.
- `charm.dfy` (module `Charm`) covers `InfinibandOperator`.
  - It has the choice of manager and resource name from `/etc/os-release`.
  - It has the install, remove and modprobe handlers as functions from the world to the
    statuses shown, the deferral, the workload version and how the handler ends.
  - Class `InfinibandOperator` has the unit status, the list of statuses shown, the
    workload version and `repo_path`, and its handler methods are proved to match those
    functions.

Many `except CalledProcessError` and `except HTTPError` clauses in the manager can never
fire (see "## Findings"). For this reason the manager is parametrised by `checked`:
- `checked == false` is the code as written;
- `checked == true` is the behaviour those `except` clauses were written for.

Every lemma about the manager and the handlers holds for both values, except the lemmas
that are explicitly about one of them.

## Model

| member | source | states |
|---|---|---|
| Text.Split | src/infiniband_ops_manager.py:17 | `str.split` on one character gives one more piece than there are separators, and no piece contains the separator |
| Text.JoinSplit | src/infiniband_ops_manager.py:17 | joining the pieces of a split with the separator gives back the original text |
| Text.SplitJoin | src/infiniband_ops_manager.py:17 | splitting a join of separator-free pieces gives back the pieces |
| Text.LeftEnd | src/infiniband_ops_manager.py:71 | the left scan of `str.strip(chars)` skips only set characters and stops at the first character outside the set, or at the end |
| Text.RightEnd | src/infiniband_ops_manager.py:71 | the right scan skips only set characters, never passes the left scan's position, and stops after the last character outside the set |
| Text.Strip | src/infiniband_ops_manager.py:71 | `str.strip(chars)` returns the infix that starts where the left scan stopped; only characters of the set are dropped at either end, and neither end of the result is in the set |
| Text.StripUnique | src/infiniband_ops_manager.py:71 | those properties determine the result: any infix with only set characters around it and neither end in the set is the stripped string |
| Text.StripIdempotent | src/infiniband_ops_manager.py:19 | stripping twice strips nothing more |
| Text.Lower | src/infiniband_ops_manager.py:98 | lower-casing on ASCII letters maps one character to one, so the length is kept (true of this ASCII model, not of full Unicode `str.lower`) |
| Text.LowerAt | src/infiniband_ops_manager.py:98 | each position of the result is the ASCII lower case of the same position of the input |
| Text.LowerEqualsWord | src/infiniband_ops_manager.py:98 | a text lower-cases to a lower-case word exactly when it spells the word with each letter in either case |
| OsRelease.NonEmpty | src/infiniband_ops_manager.py:17 | the filter keeps exactly the non-empty lines |
| OsRelease.NonEmptyAppend | src/infiniband_ops_manager.py:17 | the filter distributes over concatenation, so the kept lines stay in their order |
| OsRelease.NonEmptySnoc | src/infiniband_ops_manager.py:17 | one more line is kept at the end exactly when it is not empty |
| OsRelease.Lines | src/infiniband_ops_manager.py:17 | the lines the parser looks at are non-empty and contain no newline |
| OsRelease.Unquote | src/infiniband_ops_manager.py:19 | `v.strip('"')`: double quotes are stripped from both ends of the value (its properties are those of `Text.Strip`) |
| OsRelease.Collect | src/infiniband_ops_manager.py:19 | the dict comprehension: rows unpacked one by one, a later row replacing an earlier key, the first row without two fields raising (stated by `CollectOutcome` and `CollectFromEmpty`) |
| OsRelease.Parse | src/infiniband_ops_manager.py:13-19 | `os_release()` on the file text (stated by `ParseFailsIff` and `ParseEntries`) |
| OsRelease.FirstMalformed | src/infiniband_ops_manager.py:19 | the position of the first row that does not unpack into two fields: every row before it has two, and it has not |
| OsRelease.CollectOutcome | src/infiniband_ops_manager.py:19 | the dict comprehension fails exactly when some row does not have two fields, and the error carries the first such row |
| OsRelease.CollectKeys | src/infiniband_ops_manager.py:19 | the keys collected are those of the accumulator and of the rows |
| OsRelease.CollectKeeps | src/infiniband_ops_manager.py:19 | a key no row mentions keeps its earlier value |
| OsRelease.CollectLastWins | src/infiniband_ops_manager.py:19 | the last row with a key decides that key's value, with quotes stripped |
| OsRelease.CollectFromEmpty | src/infiniband_ops_manager.py:19 | from an empty dict, one key per distinct row key, each valued by its last row |
| OsRelease.ParseFailsIff | src/infiniband_ops_manager.py:16-19 | `os_release()` fails exactly when a non-empty line does not hold exactly one `=`, and the error names the first such line |
| OsRelease.ParseEntries | src/infiniband_ops_manager.py:13-19 | on success, one key per distinct line key, valued by the last line with that key, with surrounding double quotes stripped |
| Host.Machine.Exists | src/infiniband_ops_manager.py:115 | `Path.exists` reports whether the file is in the filesystem |
| Host.Machine.Unlink | src/infiniband_ops_manager.py:116 | `Path.unlink` deletes exactly that file and records the step |
| Host.Machine.Rename | src/infiniband_ops_manager.py:122 | `Path.rename` moves the content to the destination and deletes the source, or fails when the source is missing |
| Host.Machine.WriteText | src/infiniband_ops_manager.py:215 | `Path.write_text` sets exactly that file's content |
| Host.Machine.Run | src/infiniband_ops_manager.py:77 | `run` raises only when asked to check and the command fails |
| Host.Machine.CheckOutput | src/infiniband_ops_manager.py:34 | `check_output` returns the output, or raises when the command fails |
| Host.Machine.Get | src/infiniband_ops_manager.py:134 | `requests.get` raises `HTTPError` only when the status is checked and is 4xx or 5xx, and raises a connection error when the host is unreachable |
| Host.RunStep | src/infiniband_ops_manager.py:77 | `subprocess.run(argv)`: records the command; raises `CalledProcessError` only when `check` is set and the command fails (stated by `Host.Machine.Run`) |
| Host.CheckOutputStep | src/infiniband_ops_manager.py:34 | `subprocess.check_output(argv)`: records the command; the output on success, `CalledProcessError` otherwise (stated by `Host.Machine.CheckOutput`) |
| Host.GetStep | src/infiniband_ops_manager.py:134 | `requests.get(url)`, with `raise_for_status()` only when asked: records the request (stated by `Host.Machine.Get`) |
| Host.RemoveIfExists | src/infiniband_ops_manager.py:115-116 | `if p.exists(): p.unlink()` (stated by `Host.Machine.Exists` and `Host.Machine.Unlink`) |
| Host.RenameStep | src/infiniband_ops_manager.py:122 | `src.rename(dst)` (stated by `Host.Machine.Rename`) |
| Host.WriteStep | src/infiniband_ops_manager.py:215 | `p.write_text(text)` (stated by `Host.Machine.WriteText`) |
| OpsManager.VersionCharsAreThoseOfTheLiteral | src/infiniband_ops_manager.py:71 | the stripped set is exactly the characters of `"MLNX_OFED_LINUX-:\n"` |
| OpsManager.RunGuarded | src/infiniband_ops_manager.py:73-79 | a sequence of `run` calls, each inside its own `try/except CalledProcessError` that raises the step's `InfinibandOpsError` (stated by `RunGuardedOutcome` and `RunGuardedUnchecked`) |
| OpsManager.ModprobeEffect | src/infiniband_ops_manager.py:73-79 | `modprobe(modules)` (stated by `ModprobeOutcome`) |
| OpsManager.UnameEffect | src/infiniband_ops_manager.py:31-37 | `uname_r()` (stated by `UnameOutcome`) |
| OpsManager.AddGpgKeyEffect | src/infiniband_ops_manager.py:126-143 | the GPG key block of the Ubuntu `_set_repository` (stated by `AddGpgKeyKeepsFiles`) |
| OpsManager.SetRepositoryEffect | src/infiniband_ops_manager.py:112-145 | `_set_repository` of both variants: delete the old file, then place the new one (CentOS: lines 196-217; stated by `SetRepositoryDeletesFirst` and the `SetRepository...` lemmas) |
| OpsManager.PlaceRepository | src/infiniband_ops_manager.py:118-145 | what `_set_repository` does after the delete: rename the supplied file, or raise on Ubuntu, or fetch and write the default file on CentOS (lines 202-217) |
| OpsManager.InstallPackagesEffect | src/infiniband_ops_manager.py:151-169 | the package steps of `install`: refresh, `uname -r`, headers, driver (CentOS: lines 223-253; stated by `InstallFollowsPlan`) |
| OpsManager.InstallEffect | src/infiniband_ops_manager.py:147-169 | `install(repo_path)`: `_set_repository` and then the package steps, stopping at a raise (CentOS: lines 219-253) |
| OpsManager.RemoveEffect | src/infiniband_ops_manager.py:171-185 | `remove()` (CentOS: lines 255-271; stated by `RemoveOutcome`) |
| OpsManager.VersionOf | src/infiniband_ops_manager.py:71 | `check_output(...).decode().strip("MLNX_OFED_LINUX-:\n")` on the output (stated by the `VersionOf...` lemmas) |
| OpsManager.VersionEffect | src/infiniband_ops_manager.py:63-71 | `version()` (stated by `VersionOutcome`) |
| OpsManager.ActiveOutput | src/infiniband_ops_manager.py:98 | `"active" == output.decode().strip().lower()` (stated by `ActiveOutputIff`) |
| OpsManager.IsActiveEffect | src/infiniband_ops_manager.py:93-102 | `is_active()` (stated by `IsActiveOutcome`) |
| OpsManager.FirstRaise | src/infiniband_ops_manager.py:73-79 | the first command that raises when run after all those before it, or the end of the list |
| OpsManager.RunGuardedOutcome | src/infiniband_ops_manager.py:75-79 | guarded commands run in order up to and including the first that raises, whose own error is raised; files are not touched |
| OpsManager.RunGuardedUnchecked | src/infiniband_ops_manager.py:77 | as written, a guarded sequence never raises and runs every command |
| OpsManager.ModprobeOutcome | src/infiniband_ops_manager.py:73-79 | `modprobe` runs `modprobe m` per module in order and stops at the first that raises, with "Error modprobing m"; later modules are never tried |
| OpsManager.ModprobeStopsAtFailingModule | src/infiniband_ops_manager.py:73-79 | with modules a, b, c and `modprobe b` failing, exactly a and b run, and the error names b |
| OpsManager.AddGpgKeyKeepsFiles | src/infiniband_ops_manager.py:126-143 | fetching and adding the GPG key touches no repository file |
| OpsManager.SetRepositoryDeletesFirst | src/infiniband_ops_manager.py:114-116 | an existing repository file is deleted before anything else happens (CentOS: lines 198-200) |
| OpsManager.SetRepositoryMovesSuppliedFile | src/infiniband_ops_manager.py:120-122 | with a supplied file, the destination holds its content, the supplied path is gone, and nothing else changes (CentOS: lines 204-206) |
| OpsManager.SetRepositoryMissingSource | src/infiniband_ops_manager.py:122 | a missing supplied file, or one at the destination itself, makes the rename raise `FileNotFoundError` and leaves the destination absent |
| OpsManager.UbuntuNeedsRepository | src/infiniband_ops_manager.py:120-124 | Ubuntu without a supplied file raises "No InfiniBand repository provided", and the only change is deleting the previous file |
| OpsManager.CentosFetchesDefaultRepository | src/infiniband_ops_manager.py:207-215 | CentOS without a supplied file writes the body fetched from the pinned URL to the destination |
| OpsManager.ErrorPageBecomesRepository | src/infiniband_ops_manager.py:209-215 | as written, a 404 page from the default URL is written as the repository file |
| OpsManager.ErrorPageRejected | src/infiniband_ops_manager.py:210-213 | with the status checked, a 404 raises "Error getting InfiniBand repository from <url>" and writes nothing |
| OpsManager.PlaceErrorsAsWritten | src/infiniband_ops_manager.py:118-143 | as written, the only `InfinibandOpsError` of `_set_repository` is the missing Ubuntu repository |
| OpsManager.PackagesErrorsAsWritten | src/infiniband_ops_manager.py:151-169 | as written, the only `InfinibandOpsError` of the package steps of `install` is a failing `uname -r` |
| OpsManager.InstallErrorsAsWritten | src/infiniband_ops_manager.py:147-169 | as written, `install` raises `InfinibandOpsError` only for the missing Ubuntu repository or a failing `uname -r` |
| OpsManager.RemoveAsWritten | src/infiniband_ops_manager.py:171-185 | as written, `remove` never raises |
| OpsManager.InstallFollowsPlan | src/infiniband_ops_manager.py:147-169 | after the repository step, `install` runs a prefix of refresh, `uname -r`, headers for the trimmed kernel version, driver, and touches no file. It stops at the refresh exactly when that fails under check, else at `uname -r` exactly when it fails, else at the headers exactly when they fail under check; it raises the error of the step it stopped at, and after all four it raises exactly when the driver step fails under check (CentOS: lines 219-253) |
| OpsManager.InstallHeadersFollowUname | src/infiniband_ops_manager.py:158-163 | when the refresh does not raise and `uname -r` succeeds, the third command installs `linux-headers-<k>`, or `kernel-devel-<k>` and `kernel-headers-<k>` on CentOS (lines 238-242), where `k` is the trimmed output of that `uname -r` |
| OpsManager.SingleGuarded | src/infiniband_ops_manager.py:153-156 | one guarded command runs once and raises its own error exactly when it fails under check |
| OpsManager.InstallPlanTail | src/infiniband_ops_manager.py:158-169 | the headers and driver steps run in order and stop at the first failure |
| OpsManager.RemoveOutcome | src/infiniband_ops_manager.py:171-185 | `remove` erases the package, then deletes the repository file if present, then refreshes. A failing erase stops it before any file is touched (CentOS: lines 255-271) |
| OpsManager.RemoveTwice | src/infiniband_ops_manager.py:179-180 | an absent repository file is not an error. A second `remove` after a successful one changes no file |
| OpsManager.VersionOfExample | src/infiniband_ops_manager.py:71 | "MLNX_OFED_LINUX-5.8-1.1.2.1:\n" gives "5.8-1.1.2.1" |
| OpsManager.VersionOfAnyPrefixOrder | src/infiniband_ops_manager.py:71 | the strip removes a set of characters, not a prefix: "OFED-LINUX-5.8\n" gives "5.8" |
| OpsManager.VersionOfEatsVersionSuffix | src/infiniband_ops_manager.py:71 | set characters at the end of the version go too: "MLNX_OFED_LINUX-5.8-OFED:\n" gives "5.8" |
| OpsManager.VersionOfIdempotent | src/infiniband_ops_manager.py:71 | stripping a returned version again changes nothing |
| OpsManager.VersionOutcome | src/infiniband_ops_manager.py:63-71 | `version()` raises "Cannot return version for package that isn't installed." exactly when `ofed_info -s` fails, and otherwise returns the stripped output |
| OpsManager.ActiveOutputIff | src/infiniband_ops_manager.py:98 | output counts as active exactly when, trimmed, it spells "active" in any mix of cases |
| OpsManager.IsActiveOutcome | src/infiniband_ops_manager.py:93-102 | `is_active()` is true exactly when the probe succeeds and its output counts as active; a failing probe gives false, never an error |
| OpsManager.ActiveOutputAcceptsActive | src/infiniband_ops_manager.py:98 | "active\n" counts as active |
| OpsManager.ActiveOutputRejectsInactive | src/infiniband_ops_manager.py:98 | "inactive\n" does not count, although it ends with "active" |
| OpsManager.UnameOutcome | src/infiniband_ops_manager.py:31-37 | `uname_r()` raises "Error detecting kernel version." exactly when `uname -r` fails, and otherwise returns the trimmed output |
| OpsManager.Manager.constructor | src/infiniband_ops_manager.py:108-110 | the driver package, service name and repository path are fixed per variant (CentOS: lines 191-194) |
| OpsManager.Manager.RunGuardedStep | src/infiniband_ops_manager.py:153-156 | one `run` inside `try/except CalledProcessError`, with exactly the guarded step's effect |
| OpsManager.Manager.UnameR | src/infiniband_ops_manager.py:31-37 | has exactly the effect of `uname_r()` |
| OpsManager.Manager.SetRepository | src/infiniband_ops_manager.py:112-145 | has exactly the effect of `_set_repository` (CentOS: lines 196-217) |
| OpsManager.Manager.AddGpgKey | src/infiniband_ops_manager.py:126-143 | has exactly the effect of the GPG key block |
| OpsManager.Manager.Install | src/infiniband_ops_manager.py:147-169 | has exactly the effect of `install` (CentOS: lines 219-253) |
| OpsManager.Manager.Remove | src/infiniband_ops_manager.py:171-185 | has exactly the effect of `remove` (CentOS: lines 255-271) |
| OpsManager.Manager.Modprobe | src/infiniband_ops_manager.py:73-79 | its loop has exactly the effect of `modprobe(modules)` |
| OpsManager.Manager.Version | src/infiniband_ops_manager.py:63-71 | has exactly the effect of `version()` |
| OpsManager.Manager.IsActive | src/infiniband_ops_manager.py:93-102 | has exactly the effect of `is_active()` |
| Charm.SelectByLastIdLine | src/charm.py:25-30 | the manager is chosen by the last "ID" line: Ubuntu exactly when its unquoted value is "ubuntu", CentOS for any other value |
| Charm.SelectFails | src/charm.py:25 | `__init__` stops with a `KeyError` exactly when the file parses but has no "ID" line, and with the parser's error exactly when a line is malformed |
| Charm.ResourceNameMatchesVariant | src/charm.py:25-30 | resource "apt-repo" goes with ID "ubuntu", and "yum-repo" with every other ID |
| Charm.SelectVariant | src/charm.py:25-30 | the choice of manager and resource name from the os-release text, or the exception `__init__` raises (stated by `SelectByLastIdLine`, `SelectFails` and `ResourceNameMatchesVariant`) |
| Charm.InstallHook | src/charm.py:41-66 | `_on_install` after the resource lookup (stated by `InstallHookOutcome` and `InstallVersionEscapes`) |
| Charm.AfterInstall | src/charm.py:56-66 | the part of `_on_install` after Waiting is shown and `install` has run |
| Charm.RemoveHook | src/charm.py:68-80 | `_on_remove` (stated by `RemoveHookOutcome` and `RemoveHookAsWritten`) |
| Charm.AfterRemove | src/charm.py:74-80 | the part of `_on_remove` after `remove` has run |
| Charm.ModprobeHook | src/charm.py:82-109 | `modprobe_action` (stated by `ModprobeHookOutcome` and `ModprobeHookAsWritten`) |
| Charm.AfterModprobe | src/charm.py:101-109 | the part of `modprobe_action` after `modprobe` has run |
| Charm.InstallHookOutcome | src/charm.py:41-66 | Waiting is shown first. The handler defers exactly when `install` raises `InfinibandOpsError`, and then shows Blocked with its message and sets no version. When `install` and `version()` both succeed it shows exactly Waiting then Active("Ready"), sets the version `version()` returned and defers nothing. Any other exception, from `install` or `version()`, escapes with only Waiting shown and nothing deferred |
| Charm.AfterInstallOutcome | src/charm.py:56-66 | the same statements, for any outcome of `install` |
| Charm.InstallVersionEscapes | src/charm.py:64-65 | a failing `version()` after a successful install escapes the handler: no Blocked, no Active, no deferral |
| Charm.RemoveHookOutcome | src/charm.py:68-80 | Waiting is shown. The handler defers with Blocked exactly when `remove` fails, never shows Active, and the repository file is gone unless the erase failed |
| Charm.ModprobeHookOutcome | src/charm.py:82-109 | the ten modules are loaded in the given order and the handler ends Active("Ready"), or it stops at the first failing module, Blocked with that module named, and defers |
| Charm.ModprobeHookAsWritten | src/charm.py:101-107 | as written, `modprobe_action` always ends Active("Ready") and never defers |
| Charm.RemoveHookAsWritten | src/charm.py:74-80 | as written, `_on_remove` never blocks and never defers |
| Charm.Event.Defer | src/charm.py:61 | `event.defer()` marks the event deferred |
| Charm.InfinibandOperator.constructor | src/charm.py:21-30 | the manager and resource name follow the os-release "ID", and nothing is shown yet |
| Charm.InfinibandOperator.Show | src/charm.py:45 | setting the unit status shows exactly that status |
| Charm.InfinibandOperator.OnInstall | src/charm.py:41-66 | a missing resource becomes `repo_path = None`; the handler shows Waiting and then has exactly the statuses, deferral, version and world that follow from the effect of `install` |
| Charm.InfinibandOperator.StartInstall | src/charm.py:43-57 | Waiting is shown, `repo_path` is set from the resources, and `install` has exactly its effect |
| Charm.InfinibandOperator.FinishInstall | src/charm.py:56-66 | what follows `install`: Blocked plus defer, escape, or version then Active("Ready") |
| Charm.InfinibandOperator.OnRemove | src/charm.py:68-80 | shows Waiting, then has exactly the statuses, deferral and world that follow from the effect of `remove`, and leaves version and `repo_path` alone |
| Charm.InfinibandOperator.ModprobeAction | src/charm.py:82-109 | shows Waiting, then has exactly the statuses, deferral and world that follow from the effect of `modprobe` on the ten modules |
| Charm.InfinibandOperator.Report | src/charm.py:74-80 | an `InfinibandOpsError` shows Blocked with its message and defers, any other exception escapes, and success shows the handler's final status (for `modprobe_action`, lines 101-109) |

## Left out

- Process execution, HTTP and the clock are not modelled. An oracle gives each command's
  exit status and output and each URL's response, as a function of the trace so far.
- Host.Machine.Run, Host.Machine.CheckOutput: a command that cannot be started at all is
  not modelled. Python raises `FileNotFoundError` (an `OSError`) from `subprocess` when the
  binary is missing, for instance `ofed_info` before the driver is installed or
  `systemctl` on a host without it. That exception passes through every `except
  CalledProcessError` in the manager. The oracle only answers with an exit status and
  output, so `VersionOutcome`, `IsActiveOutcome`, `UnameOutcome` and the other outcome
  lemmas describe hosts where every command starts.
- Output decoding is not modelled. `bytes.decode()` is the identity on the model's
  strings, so a decoding error is not modelled.
- The temporary key file of the Ubuntu repository step is not modelled.
  `tempfile.TemporaryDirectory()` is an oracle-supplied directory. The key text written
  into it is not tracked, and only the `apt-key add` of that path is.
- Python `str.lower` is modelled on ASCII letters only. This is exact for the comparison
  with "active": besides the capitals A-Z, only U+0130 LATIN CAPITAL LETTER I WITH DOT
  ABOVE, which lower-cases to "i" followed by U+0307 (two characters), and U+212A KELVIN
  SIGN, which lower-cases to "k", give ASCII letters. The first adds a combining mark
  that "active" does not contain, and "k" is not a letter of "active". Full Unicode
  lower-casing can also change the length, which the ASCII model's `Text.Lower` does not.
- `arch()` is not modelled. It is never called.
- `start`, `enable` and `stop` are not modelled. They are fire-and-forget `run` calls that
  no handler uses.
- The base-class `install` and `remove` stubs are not modelled. They only raise, and both
  variants override them.
- `ibstatus_action` is not modelled. It calls `ibstatus()`, which no manager class defines.
- The ops framework is not modelled: `CharmBase`, `framework.observe`, `main`, logging, and
  the resource store. `model.resources.fetch` is a map from resource name to path.
- Charm.InfinibandOperator.constructor: it requires a usable os-release text. The
  exceptions `__init__` raises otherwise are stated by `SelectVariant` and
  `Charm.SelectFails`, not by constructing an object.
- Only what `os_release()` does is modelled, not the full os-release(5) format: comments,
  escapes and shell quoting are not interpreted.

## Findings

| source | as written | input that shows it | evidently intended | confidence | as-written member | corrected member |
|---|---|---|---|---|---|---|
| src/infiniband_ops_manager.py:77 | `run([...])` is called without `check=True` (also lines 141, 154, 161, 167, 174, 183, 226, 236, 251, 259, 269), so `CalledProcessError` is never raised and every `except CalledProcessError` around a `run` is dead. A failing `modprobe`, `apt-get` or `yum` goes unnoticed: `modprobe_action` reports Active("Ready"), `_on_remove` never blocks, and `_on_install` goes on to `version()` | `modprobe b` exits non-zero while loading modules a, b, c: all three run and no error is raised | the failing command raises its step's `InfinibandOpsError`, the sequence stops there, and the handler shows Blocked and defers | high (not executed) | OpsManager.RunGuardedUnchecked | OpsManager.ModprobeStopsAtFailingModule |
| src/infiniband_ops_manager.py:211 | `requests.get(repo_url)` is not followed by `raise_for_status()` (also line 134), so `HTTPError` is never raised. An error page is written as the yum repository file, or used as the GPG key | the default repository URL answers 404 with an HTML page: that page becomes `/etc/yum.repos.d/infiniband.repo` | a 4xx or 5xx answer raises "Error getting InfiniBand repository from <url>", and no file is written | high (not executed) | OpsManager.ErrorPageBecomesRepository | OpsManager.ErrorPageRejected |

`OpsManager.InstallErrorsAsWritten`, `OpsManager.RemoveAsWritten`,
`Charm.ModprobeHookAsWritten` and `Charm.RemoveHookAsWritten` state further consequences
of the first finding for the code as written. `OpsManager.RunGuardedOutcome`,
`OpsManager.ModprobeOutcome`, `OpsManager.InstallFollowsPlan` and
`OpsManager.RemoveOutcome` state the fail-fast behaviour, which has effect only when the
failures are checked.
