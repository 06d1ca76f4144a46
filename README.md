# huak: virtual-environment orchestration and bytecode cleanup, in Dafny

This project models two pieces of decision logic from the huak Python project manager.

- **`Venv`** (`src/huak/env/venv.rs`) finds a virtual environment in the ancestors of a directory. It also creates one with `python -m venv`, names its scripts directory (`Scripts` on Windows, `bin` elsewhere), and installs or uninstalls packages with the venv's pip. Finally, it runs a module from the scripts directory, installing the module first when it is missing.
- **`clean-pycache`** (`src/bin/huak/commands/clean_pycache.rs`) deletes every `__pycache__` directory and every `.pyc` file below the working directory. It is best effort: it keeps a success flag and only the most recent error.

The machine is abstract (module `Host`):
- a path is a sequence of components, and the root `[]` has no parent;
- a `World` holds the set of existing paths and the log of external commands run;
- an `Oracle` fixes in advance how the outside world answers. It gives the OS name, the working directory (or its absence), which invocations fail and with what cause, and which directories cannot be probed.

A successful `python -m venv n` run from `dir` creates `dir/n`, its scripts directory and `pip` in it. `<bin>/pip install s` adds `<bin>/<name of s>`, and `<bin>/pip uninstall n -y` removes `<bin>/n`.

`create`, `exec_module`, `install_package` and `uninstall_package` are each written twice. The first form is a function from the world before to the result and the world after (`CreateSpec`, `ExecSpec`, ...). The second is a method on the mutable `Host.System` that takes the source's steps and is proved equal to that function. `clean_pycache::run` is a method with two nested loops over a `Filesystem` object. It is proved equal to the fold `Clean`, and the lemmas about the command are stated over `Clean`.

Files: `wrappers.dfy` (Option, Result), `paths.dfy`, `host.dfy`, `venv.dfy`, `venv_findings.dfy`, `clean_pycache.dfy`.

Two consequences of the code's loop structure, both kept in the model:
- `find` loops over the names on the outside (`.venv`, then `venv`) and runs a whole ancestor search for each. A `.venv` several levels up therefore beats a `venv` next door, rather than the nearest hit winning (`Venvs.CandidateOrderBeatsNearness`).
- In `clean_pycache::run`, `success = success && match ...` evaluates the match only while `success` holds. Every pattern after the first one that fails is skipped (`CleanPycache.StoppedCleanDoesNothing`). Within a pattern, every entry is still attempted (`CleanPycache.SweepIgnoresFailures`).

## Model

| member | source | states |
|---|---|---|
| `Paths.Parent` | src/huak/env/venv.rs:64-67 | only the root has no parent; a parent is one component shorter and a prefix of the path |
| `Venvs.Name` | src/huak/env/venv.rs:52-56 | the name exists exactly when the path has a parent, and parent + name gives back the path |
| `Venvs.DefaultVenv` | src/huak/env/venv.rs:85-96 | the default venv is named `.venv` and sits in the working directory, or in `.` when that is unknown |
| `Venvs.BinPath` | src/huak/env/venv.rs:99-105 | the scripts directory lies directly under the venv; it is `Scripts` exactly on Windows and `bin` exactly elsewhere |
| `Venvs.BinPathHoldsVenvPip` | src/huak/env/venv.rs:100-105 | the directory `bin_path` names is the one `python -m venv` creates, and it holds pip |
| `Host.SearchParents` | src/huak/env/venv.rs:38-39 | a hit exists, is called `name`, lies in an ancestor of `from` within the step bound, and no nearer ancestor holds `name` |
| `Host.SearchReachesAncestor` | src/huak/env/venv.rs:38-39 | if an ancestor within the bound holds `name` and every directory on the way is readable, the search hits that ancestor or a nearer one |
| `Venvs.Find` | src/huak/env/venv.rs:33-48 | the `.venv` hit if there is one; else the `venv` hit; else "could not find venv from `from`". A search error counts as a miss |
| `Venvs.CandidateOrderBeatsNearness` | src/huak/env/venv.rs:34-43 | with `/a/.venv` and `/a/b/venv`, searching from `/a/b` hits both names, and by the name order `/a/.venv` wins |
| `Venvs.CreateSpec` | src/huak/env/venv.rs:59-82 | an existing path gives Ok with nothing run or changed; a root path gives "invalid venv path" with nothing run. Otherwise it logs exactly `python -m venv <name>` run in the parent; it fails exactly when that run fails, with the run's cause or else "failed to create venv". On Ok the venv exists. It never removes paths |
| `Venvs.Create` | src/huak/env/venv.rs:59-82 | the method's result and new machine state are those of `CreateSpec` |
| `Venvs.CreateIsIdempotent` | src/huak/env/venv.rs:59-62 | after a successful create, a second create returns Ok and leaves the world identical |
| `Venvs.CreatedVenvIsFound` | src/huak/env/venv.rs:175-184 | a `.venv` created in a readable directory is the `.venv` hit from that directory |
| `Venvs.ExecSpec` | src/huak/env/venv.rs:108-129 | a failing create is returned as it is, with its world; the command log only grows; on Ok, the last command run is `<bin>/<module>` with `args` from `from`. This is the corrected recursion (see Findings) |
| `Venvs.ExecModule` | src/huak/env/venv.rs:108-129 | the method's result and new machine state are those of `ExecSpec` |
| `Venvs.ExecPresentModuleSkipsInstall` | src/huak/env/venv.rs:118-126 | a module present after create is run directly: the only new command is the run; the result is Ok when that run succeeds and otherwise "command failed" with the run's cause |
| `Venvs.ExecMissingModuleInstallsOnce` | src/huak/env/venv.rs:118-126 | a missing module gets exactly one `pip install <module>` from the working directory, followed by the run only if the install succeeded. A failed install gives "command failed" with its cause, a failed run the same with the run's cause, and otherwise Ok |
| `Venvs.ExecWithoutPipStops` | src/huak/env/venv.rs:116-122 | with a known working directory and both the module and pip missing after create, the result is "pip missing" and nothing beyond create has run |
| `Venvs.PinSpec` | src/huak/env/venv.rs:137-140 | for a name without `=`, the install requirement reads back as exactly the package's name and version, and it carries a `==` exactly when a version is pinned. Together these make it the bare name when unpinned and `name==version` when pinned |
| `Venvs.InstallArgs` | src/huak/env/venv.rs:141 | pip's arguments are exactly `install` followed by the package's requirement |
| `Venvs.UninstallArgs` | src/huak/env/venv.rs:153 | pip's arguments are exactly `uninstall`, the name, and the confirmation `-y` |
| `Venvs.UninstallUndoesInstall` | src/huak/env/venv.rs:136-155 | with the venv's pip, installing a package adds exactly its module, and uninstalling it by name removes exactly that module again, whatever version was pinned |
| `Venvs.InstallSpec` | src/huak/env/venv.rs:132-147 | installing only adds to the command log |
| `Venvs.InstallRunsPip` | src/huak/env/venv.rs:136-144 | with pip present, installing runs exactly `<bin>/pip install <requirement>` from the working directory |
| `Venvs.InstallPackage` | src/huak/env/venv.rs:132-147 | the method's result and new machine state are those of `InstallSpec` |
| `Venvs.UninstallSpec` | src/huak/env/venv.rs:150-158 | uninstalling only adds to the command log |
| `Venvs.UninstallRunsPip` | src/huak/env/venv.rs:150-155 | with pip present, uninstalling runs exactly `<bin>/pip uninstall <name> -y` from the working directory |
| `Venvs.UninstallPackage` | src/huak/env/venv.rs:150-158 | the method's result and new machine state are those of `UninstallSpec` |
| `VenvFindings.ExecAsWritten` | src/huak/env/venv.rs:108-129 | `exec_module` as written, bounded by fuel; the command log only grows |
| `VenvFindings.InstallAsWritten` | src/huak/env/venv.rs:132-147 | `install_package` as written, sharing the fuel of `ExecAsWritten`; the command log only grows |
| `VenvFindings.AsWrittenDivergesWithoutPip` | src/huak/env/venv.rs:116-122 | with an existing venv that lacks pip and the module, the as-written recursion runs out of every fuel and changes nothing |
| `VenvFindings.AsWrittenAgreesUnlessDiverged` | src/huak/env/venv.rs:108-147 | for every fuel, the as-written result either ran out of fuel or equals `ExecSpec`'s result and world, the missing-working-directory error included |
| `VenvFindings.ExecSpecNeverDiverges` | src/huak/env/venv.rs:108-147 | the corrected recursion never yields `Diverged`, so that result of the as-written form marks exactly where the two part |
| `VenvFindings.AsWrittenAgreesWhenPipPresent` | src/huak/env/venv.rs:116-126 | whenever create leaves pip in place, the as-written behaviour equals `ExecSpec` |
| `VenvFindings.FreshVenvHasPip` | src/huak/env/venv.rs:64-81 | creating a venv that did not exist either fails or leaves pip in its scripts directory |
| `CleanPycache.DeletePatterns` | src/bin/huak/commands/clean_pycache.rs:77-88 | exactly two patterns, in order: directories matching `**/__pycache__`, then files matching `**/*.pyc` |
| `CleanPycache.Delete` | src/bin/huak/commands/clean_pycache.rs:36-50 | a deletion succeeds only on an existing path of the pattern's declared kind. A file deletion leaves exactly the tree minus that file. A directory deletion removes the directory with everything below it, and keeps every other path with its kind. A missing path is NotFound |
| `CleanPycache.Filesystem.RemoveDirAll` | src/bin/huak/commands/clean_pycache.rs:37-43 | recursive directory removal as `Delete` with kind Directory |
| `CleanPycache.Filesystem.RemoveFile` | src/bin/huak/commands/clean_pycache.rs:44-50 | single-file removal as `Delete` with kind File |
| `CleanPycache.SweepEntries` | src/bin/huak/commands/clean_pycache.rs:33-59 | the inner loop only removes paths; a pattern that succeeded started with success and leaves the recorded error as it was |
| `CleanPycache.CleanFrom` | src/bin/huak/commands/clean_pycache.rs:27-65 | the outer loop only removes paths; success at the end means success all along |
| `CleanPycache.Clean` | src/bin/huak/commands/clean_pycache.rs:67-74 | a failure carries exit code 2; the tree afterwards is a subset of the tree before |
| `CleanPycache.Run` | src/bin/huak/commands/clean_pycache.rs:23-75 | the method's result and final tree are those of `Clean` on the initial tree |
| `CleanPycache.StoppedCleanDoesNothing` | src/bin/huak/commands/clean_pycache.rs:30-31 | once `success` is false, no later pattern changes anything |
| `CleanPycache.FailedPatternStopsLaterPatterns` | src/bin/huak/commands/clean_pycache.rs:30-31 | when the first pattern fails, the outcome does not depend on the second pattern's matches |
| `CleanPycache.SweepIgnoresFailures` | src/bin/huak/commands/clean_pycache.rs:33-57 | within a pattern, what gets deleted does not depend on earlier failures: every entry is attempted |
| `CleanPycache.SweepSnoc` | src/bin/huak/commands/clean_pycache.rs:34-57 | the loop over `es + [e]` is the loop over `es` followed by one more pass |
| `CleanPycache.LatestErrorWins` | src/bin/huak/commands/clean_pycache.rs:39-55 | a failing entry overwrites the recorded error with its own; a successful one keeps the earlier error |
| `CleanPycache.SuccessfulSweepDeletesEveryMatch` | src/bin/huak/commands/clean_pycache.rs:33-59 | a pattern succeeds only if every entry was a match and each is gone afterwards, with its whole subtree for directories |
| `CleanPycache.CleanOkDeletesEveryMatch` | src/bin/huak/commands/clean_pycache.rs:67-74 | Ok only if both patterns expanded, no walk entry was an error, and every match is gone afterwards, subtrees included for `__pycache__` |
| `CleanPycache.SweepSucceedsIff` | src/bin/huak/commands/clean_pycache.rs:33-59 | `file_level_success` ends true exactly when every entry was a match whose deletion succeeded on the tree the earlier entries left |
| `CleanPycache.CleanOkIff` | src/bin/huak/commands/clean_pycache.rs:27-74 | Ok exactly when both patterns expanded and every `__pycache__` deletion, then every `.pyc` deletion, succeeded |
| `CleanPycache.SweepKeepsUncovered` | src/bin/huak/commands/clean_pycache.rs:33-57 | a path that is no match of the pattern, nor below a directory match, survives the pattern's loop |
| `CleanPycache.CleanFromKeepsUncovered` | src/bin/huak/commands/clean_pycache.rs:27-65 | a path that no match of any pattern covers survives the outer loop |
| `CleanPycache.CleanKeepsUncovered` | src/bin/huak/commands/clean_pycache.rs:23-75 | whatever the outcome, a path that is neither below a `__pycache__` match nor a `.pyc` match is still there with its kind |
| `CleanPycache.InvalidPatternFailsWithoutCause` | src/bin/huak/commands/clean_pycache.rs:62-73 | an invalid first pattern fails the run with `error` None and exit code 2, deleting nothing |
| `CleanPycache.NothingToCleanSucceeds` | src/bin/huak/commands/clean_pycache.rs:33-68 | with no matches for either pattern, the run is Ok and the tree is untouched |
| `CleanPycache.NoPycRemains` | src/bin/huak/commands/clean_pycache.rs:107-109 | if the `.pyc` pattern lists every `.pyc` left after the directory pass and the run is Ok, no `.pyc` path remains |
| `CleanPycache.LockedPycFailsAfterCacheRemoved` | src/bin/huak/commands/clean_pycache.rs:23-75 | a deletable `__pycache__` and a locked `.pyc`: the directory is gone, the file stays, and the run fails with the file's error and exit code 2 |

## Findings

| source | as written | input that shows it | evidently intended | confidence | as-written member | corrected member |
|---|---|---|---|---|---|---|
| src/huak/env/venv.rs:116-144 | `exec_module` installs a missing module with `install_package`, which calls `exec_module("pip", ...)`; if pip itself is missing it installs pip with pip, again and again, without end | an existing venv directory without `bin/pip` (for example an empty `.venv`, or one made with `--without-pip`) and any module not in `bin`, with a readable working directory | running a module ends: a venv without pip is reported as an error instead of recursing | not executed; high that the recursion has no exit, medium on the intended fix | `VenvFindings.AsWrittenDivergesWithoutPip` | `Venvs.ExecSpec` |

The corrected `Venvs.ExecSpec` (and `Venvs.ExecModule`) stops where the source would install pip with pip. It first looks up the working directory, as `install_package` does, and then returns `PipMissing`. Termination is proved by its `decreases` clause. `VenvFindings.AsWrittenAgreesUnlessDiverged` shows that this is the only behaviour the correction changes: every as-written result that does not run out of fuel is the corrected one, and `VenvFindings.ExecSpecNeverDiverges` shows the corrected one never runs out. `VenvFindings.AsWrittenAgreesWhenPipPresent` shows the two agree outright whenever create leaves pip in place. `VenvFindings.FreshVenvHasPip` shows that the source ends whenever the venv did not exist before.

## Left out

- Process spawning (`crate::utils::command::run_command`) is I/O and is not part of this model. The oracle decides each invocation's success and cause. The filesystem effects are the fixed ones described above.
- Glob expansion (the `glob` crate) is foreign code. Each pattern's expansion is given in advance as a sequence of matches and walk errors. The model therefore does not capture that the real `.pyc` walk happens after the `__pycache__` deletions. `NoPycRemains` states its premise about the tree after the directory pass for this reason.
- `remove_dir_all` is atomic in the model: a locked entry below the directory makes the whole removal fail and delete nothing. The real call may delete part of the subtree first.
- `search_parents_for_filepath`, `parse_filename` and `path::to_string` are not part of this model. The search is assumed to probe at most `steps` directories starting with `from`, and to fail on an unreadable directory. The failure of `path::to_string` on a non-UTF-8 path is not modelled, and neither is a file name that `parse_filename` rejects.
- Paths are absolute sequences of plain components: no `..`, no `.` except the fallback `.` of `Default`, and no symbolic links. `Path::exists` is membership in the set of existing paths, so it never hides a permission error.
- `PythonPackage::new` is not part of this model. `exec_module` installs a missing module as a package with that name and an empty version (`Package(moduleName, "")`), so the requirement it hands to pip is the bare module name.
- The process working directory is `Oracle.cwd`, read by `install_package`, `uninstall_package` and `Default`. It is never changed.
- The conversion of `anyhow::Error` into `CliError` (with its exit code) is not part of this model. Venv errors stay `Venvs.Error` values.
- Venvs.InstallSpec: its own contract states only that the log grows; the invocation it makes is stated in `InstallRunsPip`, under the premise that pip is present after create.
- Venvs.UninstallSpec: its own contract states only that the log grows; the invocation it makes is stated in `UninstallRunsPip`, under the same premise.
- The command-line definitions (`arg()` in `clean_pycache.rs`, `cmd()` in `fmt.rs`) are interface plumbing.
- `fmt::run` only hands over to a project formatter that is not part of this model.
- `build_system.rs` is a TOML schema whose `Default` returns two constants.
- `test_utils.rs` holds test fixtures.
