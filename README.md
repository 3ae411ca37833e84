# workstation-bootstrap, modelled in Dafny

workstation-bootstrap installs a developer's command-line tools on a Linux
machine. It chooses a package manager: Homebrew when sudo works, otherwise
Miniforge's `mamba` in the user's home. It reads the requested app lists,
keeps the apps whose commands are not yet on the PATH, makes the manager
available, and installs the batch. With Miniforge it also links each
installed binary into the user-local `bin` directory. A separate script
detects the Linux distribution and installs git with that distribution's
package manager.

This project models the decision logic of that core. The outside world is an
oracle:
- The file system is a set of existing absolute paths plus a map of the
  symbolic links made.
- `shutil.which` is a set of commands on the PATH.
- Every external command either exits 0 or not, as given by a set of failing
  commands. Every command started is appended to a log.
- The paths `mamba install` creates when it succeeds are given as an oracle
  on the host (`creates`).
- A Python exception is an `Outcome` value (`Ok` or `Raised(error)`).

Modules:
- `Platform` (platform.dfy) holds paths, the file system, commands, errors
  and outcomes, and the semantics of a series of `run(..., check=True)`
  calls. Its classes are `EnvironmentContext` (the `has_sudo`, `home` and
  `local_bin` record) and `Host` (the machine).
- `Text` (text.dfy) holds the ASCII string operations the code uses: lower,
  replace, strip, startswith, and substring test.
- `OrderedMap` (ordered_map.dfy) is a Python `dict` with insertion order.
- `Manager` (manager.dfy) is core/manager.py. `Homebrew` and `Miniforge` are
  classes whose methods update `isInstalled`, `binPath` and
  `context.hasSudo`, and append to the host's log and file system.
- `SimpleApp` (simple_app.dfy) is app.py: command derivation, the app-list
  line filter, and the `AppRegistry` class.
- `CoreApp` (core_app.dfy) is core/app.py: commands from the
  `commands.json` dictionary, the application registry, and
  `Neovim.install`.
- `Install` (install.dfy) is install.py's `choose_mode` and `main`.
- `CheckGit` (check_git.dfy) is utils/check_git.py.

Two command derivations exist and differ; the model keeps both.
`SimpleApp.CommandName` hyphenates spaces. `CoreApp.DerivedCommands` keeps
them. `CoreApp.DerivedWithoutEntry` proves that the two disagree for every
name with a space and no override.

## Model

| member | source | states |
|---|---|---|
| Platform.Host.Run | core/manager.py:141 | `run(c)` without `check` appends `c` to the log and reports whether it exited 0 |
| Platform.Host.RunChecked | core/manager.py:91 | `run(c, check=True)` appends `c` to the log and raises `CalledProcessError(c)` exactly when `c` fails |
| Platform.Host.RunCheckedCreating | core/manager.py:161 | `run(install_cmd, check=True)` appends the command to the log and raises exactly when it fails; when it succeeds, the paths the `creates` oracle lists for it exist afterwards, and otherwise the file system is unchanged |
| Platform.Host.Symlink | core/manager.py:178 | `symlink_to` adds the link path and its target and changes nothing else |
| Platform.Host.MakeDirs | core/app.py:69 | `mkdir(parents=True, exist_ok=True)` adds the directory and all its ancestors and changes nothing else |
| Platform.Ancestors | core/app.py:69 | the directories `mkdir(parents=True)` makes sure exist are exactly the path and every ancestor of it, down to the root (for `~/.local/bin` this includes `~/.local`) |
| Platform.ParentOfJoin | core/manager.py:173 | `(p / name).parent` is `p` |
| Platform.JoinInjective | core/manager.py:169-173 | two joined paths are equal only when their parents and last components are equal |
| Platform.ReturnsTrue | core/app.py:63-64 | an installer that returns True after its checked commands returns True exactly when none raised, and otherwise lets the same error escape |
| Platform.SeriesStep | core/manager.py:107-111 | in a series of checked commands, the first one runs, and the rest run only if it succeeded |
| Platform.SeriesSucceeds | core/manager.py:107-111 | a checked series raises nothing exactly when none of its commands fails, and then all of them ran |
| Platform.AttemptedPrefix | core/manager.py:107-111 | the commands a checked series starts are a prefix of the series, in order |
| Platform.SeriesStopsAtFailure | core/manager.py:107-111 | a series that raises ends with the failing command it raised for, and every command before it succeeded |
| Platform.SeriesFacts | core/manager.py:107-111 | the three facts above, together |
| Text.Lower | app.py:20 | `str.lower` keeps the length and lower-cases each ASCII letter in place |
| Text.LowerIdempotent | utils/check_git.py:33 | lower-casing twice is lower-casing once |
| Text.ReplaceChar | app.py:20 | `replace(" ", "-")` keeps the length and swaps exactly the matching characters |
| Text.TrimLeft | app.py:38 | the left-stripped text is a suffix of the input that starts with no white space, and everything removed is white space |
| Text.TrimRight | app.py:38 | the right-stripped text is a prefix of the input that ends with no white space, and everything removed is white space |
| Text.TrimRightKeepsLeft | app.py:38 | right-stripping keeps a text that does not start with white space in that state |
| Text.TrimLeftFixed | app.py:38 | left-stripping a text that does not start with white space changes nothing |
| Text.TrimRightFixed | app.py:38 | right-stripping a text that does not end with white space changes nothing |
| Text.StripFacts | app.py:38 | a stripped text neither starts nor ends with white space, and stripping it again changes nothing |
| OrderedMap.Empty | app.py:32 | `{}` is a valid table with no keys |
| OrderedMap.Put | app.py:34-35 | `d[k] = v` makes `k` map to `v` and leaves other keys alone; a new key goes last, and an existing key keeps its position |
| OrderedMap.Values | app.py:48-50 | `values()` yields, in key order, the value stored under each key |
| Manager.BrewInstallCommandShape | core/manager.py:89-90 | the Homebrew argv is `brew install`, then `--force` as the third element exactly when forcing, then the packages in order; a single string is one trailing argument |
| Manager.Homebrew.constructor | core/manager.py:9-12 | a new manager keeps its context and name and is not yet installed |
| Manager.Homebrew.InstallPackageManager | core/manager.py:60-72 | it raises when already installed. Otherwise it runs the bootstrap and then sources the profile, stopping at the first failure. `has_sudo` is set once the bootstrap succeeded, and the manager is installed exactly when both commands succeeded |
| Manager.Homebrew.EnsureAvailable | core/manager.py:74-82 | with `brew` on the PATH it returns True and runs nothing. Otherwise an installed manager raises `RuntimeError` with nothing changed, and a new one runs the bootstrap series, setting `has_sudo` once the script succeeded and leaving it unchanged when the script failed. A successful result is True and leaves the manager installed |
| Manager.Homebrew.InstallPackage | core/manager.py:84-91 | it raises `RuntimeError` and runs nothing before availability; otherwise it runs exactly one checked `brew install` for the whole batch |
| Manager.FirstExistingIsFirst | core/manager.py:128-133 | the probe finds an existing candidate with no existing candidate before it, and finds nothing only when no candidate exists |
| Manager.ResolvedBinPathOrder | core/manager.py:112-136 | an existing custom path wins, then `~/miniforge3/bin/mamba`, then `/opt/miniforge3/bin/mamba`; with none of them, the bootstrap's path in the home |
| Manager.MambaInstallCommandShape | core/manager.py:159-160 | the mamba argv is the binary, `install -n apps -y`, then `--force-reinstall` exactly when forcing, then the packages in order |
| Manager.EnvBinDirOfDefault | core/manager.py:173 | for the home installation, the link sources are in `~/miniforge3/envs/apps/bin` |
| Manager.Linked | core/manager.py:168-178 | `_link_binary` leaves the file system unchanged exactly when the target exists or the source is missing; otherwise it adds exactly the one link target to source. In either case the name is settled afterwards |
| Manager.LinkedKeepsSettled | core/manager.py:164-178 | linking one name never unsettles another |
| Manager.LinkedAllSettles | core/manager.py:164-166 | after the link loop every package name is settled, and so is every name that was settled before |
| Manager.LinkedAllFixed | core/manager.py:164-166 | the link loop changes nothing when every name is already settled |
| Manager.LinkedAllGrows | core/manager.py:164-178 | the link loop only adds paths |
| Manager.LinkedAllLinksSources | core/manager.py:164-178 | after the link loop, every name whose environment binary exists has its link in the local `bin` directory |
| Manager.LinkedAllIdempotent | core/manager.py:164-178 | running the link loop a second time changes nothing |
| Manager.RunBootstrap | core/manager.py:107-111 | the four bootstrap shell lines run in order as a checked series, and the first failure ends it |
| Manager.Miniforge.constructor | core/manager.py:99-102 | a new manager is not installed, and its `bin_path` is the custom path as given |
| Manager.Miniforge.InstallPackageManager | core/manager.py:104-115 | it raises when already installed. Otherwise it runs the bootstrap series. On success `bin_path` is `~/miniforge3/bin/mamba` and the manager is installed; on failure neither changes |
| Manager.Miniforge.EnsureAvailable | core/manager.py:117-136 | an existing custom binary or standard location makes it succeed with nothing run. Otherwise an installed manager raises `RuntimeError` with its state unchanged, and a new one runs the bootstrap. A success leaves the manager installed with `bin_path` the resolved binary |
| Manager.Miniforge.CheckEnvExists | core/manager.py:138-141 | it raises before availability; otherwise it runs the environment query unchecked and reports whether it exited 0 |
| Manager.Miniforge.CreateEnv | core/manager.py:143-148 | it raises before availability; otherwise it runs one checked `create -n apps -y` |
| Manager.Miniforge.LinkBinary | core/manager.py:168-178 | with a known binary the file system becomes `Linked`. With no binary an existing target is still skipped, and a missing one raises `AttributeError` with nothing changed |
| Manager.Miniforge.InstallPackage | core/manager.py:150-166 | it raises before availability. Otherwise it runs the query, the creation only when the query failed, and the install unless the creation failed. The file system changes only after the install succeeded, and then it is the link loop over the package names in order, run on the file system with the install's created paths added |
| Manager.Miniforge.PrepareEnvAndInstall | core/manager.py:153-161 | the commands up to the install, and the outcome of the checked ones among them; the install's created paths exist exactly when it succeeded |
| Manager.Miniforge.LinkAll | core/manager.py:164-166 | the loop links each name in list order |
| Manager.Registry | core/manager.py:53-97 | the manager registry is a valid table |
| Manager.GetManager | core/manager.py:45-48 | `brew` and `miniforge` are found; any other name raises `ValueError` with the source's message |
| Manager.GetAllManagers | core/manager.py:50-51 | the names in registration order are `["brew", "miniforge"]` |
| SimpleApp.CommandNameDerived | app.py:15-23 | without an override, the command is the name with every space turned into `-` and every letter lower-cased, of the same length, with no space and no upper-case letter |
| SimpleApp.NeovimCommand | app.py:17-22 | any spelling of "neovim" runs `nvim` |
| SimpleApp.NewAppInstalled | app.py:25-28 | a new app is installed exactly when its derived command is on the PATH; for Neovim, exactly when `nvim` is |
| SimpleApp.NewApp | app.py:5-13 | constructing an App derives its command from the name |
| SimpleApp.AppNamesComplete | app.py:38 | every line that is not blank and does not start with `#` contributes its stripped text |
| SimpleApp.AppNamesSound | app.py:38 | every name read comes from such a line, stripped |
| SimpleApp.AppNamesTrimmed | app.py:38 | no name read is empty or has surrounding white space |
| SimpleApp.AppNamesAppend | app.py:38 | names keep the order of the file |
| SimpleApp.IndentedCommentKept | app.py:38 | a comment line indented by a blank is not filtered out: it becomes a name that starts with `#` |
| SimpleApp.AppNamesOfOne | app.py:38 | a single line yields its stripped text exactly when it is kept |
| SimpleApp.StripIndented | app.py:38 | stripping removes exactly one leading blank from a text with no surrounding white space |
| SimpleApp.RegisterAll | app.py:39-41 | registering a list of names keeps the table valid |
| SimpleApp.RegisterAllPrefix | app.py:34-41 | registering never moves or drops a key already present |
| SimpleApp.RegisterAllKeySet | app.py:39-41 | afterwards the keys are the old keys and the registered names |
| SimpleApp.RegisterAllLookup | app.py:39-41 | each registered name maps to the App built from it, and other keys keep their value |
| SimpleApp.RegisterAllResult | app.py:34-41 | the three facts above, together |
| SimpleApp.RegisterAllAppend | app.py:39-41 | registering two batches in turn is registering their concatenation |
| SimpleApp.AppRegistry.constructor | app.py:31-32 | a new registry is empty |
| SimpleApp.AppRegistry.Register | app.py:34-35 | `register` stores the app under its name and keeps every app stored under its own name |
| SimpleApp.AppRegistry.RegisterFromTxt | app.py:37-41 | the registry afterwards is the old one with an App registered for each name the filter keeps, in file order |
| SimpleApp.AppRegistry.GetApp | app.py:43-46 | it finds exactly the registered names and returns the stored App; any other name raises `ValueError` with the source's message |
| SimpleApp.AppRegistry.IterateApps | app.py:48-50 | the apps come in registration order, one per key: each is the App stored under that key and has that key as its name |
| CoreApp.DerivedWithEntry | core/app.py:22-25 | with a dictionary entry for the lower-cased name, the commands are exactly that entry |
| CoreApp.DerivedWithoutEntry | core/app.py:22-25 | without a dictionary entry the one command is the lower-cased name with spaces kept, so it differs from app.py's command for a name with a space |
| CoreApp.DerivedCaseInsensitive | core/app.py:24 | two names that agree once lower-cased get the same commands |
| CoreApp.PostInitIdempotent | core/app.py:17-20 | commands are derived only when empty; running the derivation again changes nothing, and the name is kept |
| CoreApp.NewApp | core/app.py:12-20 | constructing an App derives its commands from the name |
| CoreApp.IsInstalled | core/app.py:27-29 | the answer is whether the first command is on the PATH; an empty command list raises `IndexError` |
| CoreApp.IsInstalledFirstOnly | core/app.py:27-29 | commands after the first never matter |
| CoreApp.Registry | core/app.py:50-53 | the application registry is a valid table |
| CoreApp.GetApp | core/app.py:42-45 | "neovim" is found; any other name raises `ValueError` with the source's message |
| CoreApp.GetAllApps | core/app.py:47-52 | the registered names are `["neovim"]` |
| CoreApp.NewNeovim | core/app.py:54-55 | `Neovim()` is named "neovim" and derives its commands from that name |
| CoreApp.NeovimBrewCommand | core/app.py:60-62 | `brew install neovim`, with `--force` appended last exactly when forcing |
| CoreApp.NeovimInstall | core/app.py:57-74 | with brew on the PATH it runs the one checked brew command. Without brew, an existing `~/.local/bin/nvim` and no force returns True with nothing run. Otherwise it creates the directory, then downloads and marks executable as a checked series. Every non-raising result is True |
| CoreApp.DownloadNvim | core/app.py:69-72 | the directory is created, then the download and `chmod` run as a checked series |
| Install.ChooseMode | install.py:18-22 | `brew` exactly when sudo works, `miniforge` exactly when not |
| Install.SelectMode | install.py:28 | an explicit mode is used unchanged; "auto" asks the probe, and always yields a registered manager |
| Install.FindList | install.py:38 | the list file found has the requested stem, and none is found only when no file has it |
| Install.RequestedNames | install.py:31-38 | "full" reads every file in turn; otherwise exactly the file `<stem>.txt`, whose absence raises `FileNotFoundError` |
| Install.PendingMembers | install.py:39-44 | a name is to be installed exactly when an app of that name is not installed or reinstalling is forced |
| Install.PendingExtremes | install.py:39-44 | forcing keeps every app in order; without forcing, nothing is left when everything is installed |
| Install.PendingAppend | install.py:39-44 | the filter keeps iteration order |
| Install.PendingSnoc | install.py:39-44 | one more app adds at most its own name, at the end |
| Install.AppsForNamed | install.py:33-39 | each app iterated is the App of the registered name at that place, and the registered names are exactly the requested ones |
| Install.PendingOfNewApps | install.py:39-44 | for apps built from their names, a name is pending exactly when an app has it and, unless forcing, its derived command is not on the PATH |
| Install.NamesOfApps | install.py:39 | the names of the apps iterated are exactly the requested names |
| Install.ToInstallExactly | install.py:33-44 | `to_install` holds exactly the requested names whose command is not on the PATH, or all of them when forcing |
| Install.CollectToInstall | install.py:39-44 | the loop builds exactly the filtered names in iteration order |
| Install.ChooseManager | install.py:48-52 | the custom binary reaches Miniforge only when it is given and the mode is `miniforge`; an unregistered mode raises |
| Install.HomebrewInstallsAfterAvailable | install.py:54-55 | `brew install` runs exactly when making Homebrew available succeeded, and then it is the last command |
| Install.MiniforgeInstallsAfterAvailable | install.py:54-55 | links change only after a successful install into an available Miniforge; a failed bootstrap changes no file |
| Install.MiniforgeLinksInstalled | install.py:48-55 | a successful Miniforge run links every requested binary that existed before or that `mamba install` created |
| Install.EmptyBatchStillRuns | install.py:39-55 | with nothing left to install and `brew` on the PATH, Homebrew is still asked to install the empty batch: `brew install` alone |
| Install.EmptyMambaBatchStillRuns | install.py:39-55 | with nothing left to install, an available Miniforge whose environment exists or can be created still runs `mamba install -n apps -y` with no package, as its last command |
| Install.DriveHomebrew | install.py:51-55 | availability, then one install of the batch with the force flag, as `HomebrewRun` says; `has_sudo` becomes true exactly when it was, or when `brew` was missing and its bootstrap script succeeded |
| Install.DriveMiniforge | install.py:48-55 | availability, then the install and linking of the batch with the force flag, as `MiniforgeRun` says; linking runs on the file system after the install |
| Install.Drive | install.py:47-55 | the chosen manager runs the batch: Homebrew as `HomebrewRun` says, with `has_sudo` set only by a successful bootstrap script, and Miniforge as `MiniforgeRun` says, with `has_sudo` unchanged |
| Install.RunInstall | install.py:24-55 | a missing app list raises before anything runs, and so does a missing list file or an unregistered mode. Otherwise the manager chosen is made available and installs exactly `to_install`. `has_sudo` changes only when Homebrew is chosen, `brew` is missing and its bootstrap script succeeds |
| Install.LoadRegistry | install.py:33-38 | a new registry holds exactly the requested names, registered in order |
| CheckGit.Classify | utils/check_git.py:33-45 | a classification is always a known distribution, and there is none exactly when no keyword of any group appears |
| CheckGit.ClassifyGroups | utils/check_git.py:36-45 | the Debian, Fedora, Arch, Alpine and SUSE keyword groups yield their own distribution, each only when no earlier group matched |
| CheckGit.ClassifyIgnoresCase | utils/check_git.py:33 | only the lower-cased text matters |
| CheckGit.ClassifyFirstGroupWins | utils/check_git.py:36-41 | groups are tried in order: "ubuntu" makes Debian even beside "arch", and "centos" makes Fedora even beside "manjaro" |
| CheckGit.FromReleaseFiles | utils/check_git.py:27-47 | a distribution found in the release files is a known one |
| CheckGit.Fallback | utils/check_git.py:50-61 | apt-get gives Debian; otherwise dnf or yum gives Fedora; then pacman gives Arch, apk Alpine and zypper SUSE, each exactly when no earlier manager is on the PATH; "unknown" exactly when none of the six is |
| CheckGit.DetectDistro | utils/check_git.py:19-61 | the answer is always a known distribution or "unknown", and a classifiable `/etc/os-release` decides |
| CheckGit.DetectFallsThrough | utils/check_git.py:29-47 | an unreadable or unclassifiable file counts as missing: the second file decides, and when neither file classifies, the fallback decides |
| CheckGit.RunCaught | utils/check_git.py:82-91 | a `try` around checked commands succeeds exactly when none fails; otherwise it stops at the failing command it reached, and every command before it succeeded |
| CheckGit.InstallDebian | utils/check_git.py:74-91 | `apt-get update` runs first and `apt-get install` only after it succeeded; the installer succeeds exactly when both succeed |
| CheckGit.InstallFedora | utils/check_git.py:94-120 | dnf is preferred over yum; with neither, it fails at once with nothing run; it succeeds exactly when the one command ran and did not fail |
| CheckGit.InstallArch | utils/check_git.py:123-137 | one `pacman -Sy --noconfirm git`, and success exactly when it does not fail |
| CheckGit.InstallAlpine | utils/check_git.py:140-154 | one `apk add git`, and success exactly when it does not fail |
| CheckGit.InstallSuse | utils/check_git.py:157-171 | one `zypper install -y git`, and success exactly when it does not fail |
| CheckGit.InstallFor | utils/check_git.py:174-197 | Debian runs update then install, Fedora runs its dnf/yum installer, Arch pacman, Alpine apk and SUSE zypper; any other distribution fails with nothing run; a success means a known distribution whose commands all succeeded |
| CheckGit.DebianUpdatesFirst | utils/check_git.py:82-86 | Debian refreshes its package lists first, and installs only when that succeeded |
| CheckGit.EnsureGitInstalled | utils/check_git.py:200-222 | success exactly when git is present, or the install succeeded and git is present afterwards; `git --version` runs exactly on success |
| CheckGit.EnsureGitCases | utils/check_git.py:194-211 | with git present nothing is installed; on an unknown system nothing runs and the answer is no |

## Left out

- Printing and logging are left out, as are `argparse` and `parse_args`. The argument choices are not enforced: any mode string reaches `SelectMode`, and an unregistered one raises in `get_manager` as it would without `choices`.
- `EnvironmentContext.detect` (the sudo probe and directory creation) is left out. The context is a given record, and `Path.home()` is a parameter.
- Reading `commands.json` is a parameter: the dictionary itself.
- The `*.txt` app lists are given as stems and their lines. The order `glob` yields them in is the order of the given sequence. The `splitlines` of the file text is taken as already done.
- `core/installable.py` and the decorator machinery of both registries are not part of this model. The registries are fixed tables with the registered entries in registration order.
- Commands have no effect on the file system or the PATH seen afterwards, with two exceptions. `CheckGit.EnsureGitInstalled` takes the PATH after the installer as a second parameter. Miniforge's `mamba install` creates the paths the `Host.creates` oracle lists for it, so the link step sees the binaries it installed. Other commands create nothing in the model: the bootstrap's installation directory and `mamba create`'s environment are not added, and `which` answers from one fixed set for the whole run.
- A missing executable (`FileNotFoundError` from `run`) is not modelled. A command either exits 0 or not.
- `symlink_to` is modelled as always succeeding. The source does not catch its failure either.
- Homebrew's `_link_binary` only prints, so it has no member.
- String operations cover ASCII only. Python's `lower` and `isspace` on other characters are not modelled.
- Paths are absolute component lists. Relative paths and `..` are not modelled.
- An empty `to_install` does not end the run: the manager is still made available and asked to install the empty batch (`Install.EmptyBatchStillRuns` for Homebrew, `Install.EmptyMambaBatchStillRuns` for Miniforge).
