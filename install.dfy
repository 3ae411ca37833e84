// install.py: choose the package manager, read the requested app lists into
// the registry, keep the apps that still need installing, then make the
// manager available and hand it the whole batch.
module Install {
  import opened Platform
  import OrderedMap
  import SimpleApp
  import Manager

  /** The parsed command line. `appList` is the stem of a list file or
      "full"; `customBinPath` is already a `Path`. */
  datatype Args = Args(mode: string, force: bool, appList: Option<string>, customBinPath: Option<Path>)

  /** A `*.txt` file of the app-list directory: its stem and its lines. */
  datatype ListFile = ListFile(stem: string, lines: seq<string>)

  const MissingAppList := "Please specify an app list using --app-list."

  /** `choose_mode`: Homebrew needs sudo; without it, Miniforge. */
  function ChooseMode(hasSudo: bool): (mode: string)
    ensures mode == "brew" <==> hasSudo
    ensures mode == "miniforge" <==> !hasSudo
  {
    if hasSudo then "brew" else "miniforge"
  }

  /** An explicit mode wins over the probe; "auto" asks the probe. */
  function SelectMode(requested: string, hasSudo: bool): (mode: string)
    ensures requested != "auto" ==> mode == requested
    ensures requested == "auto" ==> mode == ChooseMode(hasSudo)
    ensures requested == "auto" ==> Manager.GetManager(mode).Ok?
  {
    if requested == "auto" then ChooseMode(hasSudo) else requested
  }

  /** The names read from every list file in turn, as "full" reads them. */
  function AllNames(files: seq<ListFile>): seq<string>
  {
    if files == [] then [] else AllNames(files[..|files| - 1]) + SimpleApp.AppNames(files[|files| - 1].lines)
  }

  /** The first list file with the given stem. */
  function FindList(files: seq<ListFile>, stem: string): (r: Option<ListFile>)
    ensures r.Some? ==> r.value in files && r.value.stem == stem
    ensures r.None? ==> forall f :: f in files ==> f.stem != stem
  {
    if files == [] then None
    else if files[0].stem == stem then Some(files[0])
    else FindList(files[1..], stem)
  }

  /** The names the registry is filled with: every file's names for "full",
      else the names of the file `<stem>.txt`, which must exist. */
  function RequestedNames(appList: string, files: seq<ListFile>): (r: Outcome<seq<string>>)
    ensures appList == "full" ==> r == Ok(AllNames(files))
    ensures appList != "full" ==>
      (r.Ok? <==> exists f :: f in files && f.stem == appList)
    ensures appList != "full" && r.Ok? ==>
      exists f :: f in files && f.stem == appList && r.value == SimpleApp.AppNames(f.lines)
    ensures r.Raised? ==> r.error == FileNotFoundError(appList + ".txt")
  {
    if appList == "full" then Ok(AllNames(files))
    else match FindList(files, appList)
      case Some(f) => Ok(SimpleApp.AppNames(f.lines))
      case None => Raised(FileNotFoundError(appList + ".txt"))
  }

  /** The names of the apps that are to be installed, in iteration order. */
  function Pending(apps: seq<SimpleApp.App>, onPath: set<string>, force: bool): seq<string>
  {
    if apps == [] then []
    else (if SimpleApp.IsInstalled(apps[0], onPath) && !force then [] else [apps[0].name])
         + Pending(apps[1..], onPath, force)
  }

  /** A name is pending exactly when some app of that name is not installed
      or a reinstall is forced. */
  lemma {:induction false} PendingMembers(apps: seq<SimpleApp.App>, onPath: set<string>, force: bool)
    ensures forall n :: n in Pending(apps, onPath, force) <==>
      exists i :: 0 <= i < |apps| && apps[i].name == n && (force || !SimpleApp.IsInstalled(apps[i], onPath))
  {
    if apps != [] {
      PendingMembers(apps[1..], onPath, force);
      forall n
        ensures n in Pending(apps, onPath, force) <==>
          exists i :: 0 <= i < |apps| && apps[i].name == n && (force || !SimpleApp.IsInstalled(apps[i], onPath))
      {
        if n in Pending(apps[1..], onPath, force) {
          var j :| 0 <= j < |apps[1..]| && apps[1..][j].name == n && (force || !SimpleApp.IsInstalled(apps[1..][j], onPath));
          assert apps[j + 1] == apps[1..][j];
        }
        if exists i :: 0 <= i < |apps| && apps[i].name == n && (force || !SimpleApp.IsInstalled(apps[i], onPath)) {
          var i :| 0 <= i < |apps| && apps[i].name == n && (force || !SimpleApp.IsInstalled(apps[i], onPath));
          if i > 0 {
            assert apps[i] == apps[1..][i - 1];
          }
        }
      }
    }
  }

  /** Forcing a reinstall keeps every app; without it, apps whose commands
      are all found leave nothing to do. */
  lemma {:induction false} PendingExtremes(apps: seq<SimpleApp.App>, onPath: set<string>)
    ensures |Pending(apps, onPath, true)| == |apps|
    ensures forall i :: 0 <= i < |apps| ==> Pending(apps, onPath, true)[i] == apps[i].name
    ensures (forall i :: 0 <= i < |apps| ==> SimpleApp.IsInstalled(apps[i], onPath)) ==> Pending(apps, onPath, false) == []
  {
    if apps != [] {
      PendingExtremes(apps[1..], onPath);
      assert forall i :: 1 <= i < |apps| ==> apps[i] == apps[1..][i - 1];
    }
  }

  /** Filtering respects the iteration order of consecutive pieces. */
  lemma {:induction false} PendingAppend(a: seq<SimpleApp.App>, b: seq<SimpleApp.App>, onPath: set<string>, force: bool)
    ensures Pending(a + b, onPath, force) == Pending(a, onPath, force) + Pending(b, onPath, force)
  {
    if a == [] {
      assert a + b == b;
    } else {
      assert (a + b)[0] == a[0] && (a + b)[1..] == a[1..] + b;
      PendingAppend(a[1..], b, onPath, force);
    }
  }

  /** The apps `iterate_apps` yields once the requested names are registered. */
  function AppsFor(names: seq<string>): seq<SimpleApp.App>
  {
    OrderedMap.Values(SimpleApp.RegisterAll(OrderedMap.Empty(), names))
  }

  /** Each app yielded is the `App` of the name at that place in the
      registry, and the registry holds exactly the requested names. */
  lemma AppsForNamed(names: seq<string>)
    ensures var t := SimpleApp.RegisterAll(OrderedMap.Empty(), names);
      && |AppsFor(names)| == |t.keys|
      && (forall i :: 0 <= i < |t.keys| ==> AppsFor(names)[i] == SimpleApp.NewApp(t.keys[i]))
      && (forall k :: k in t.keys <==> k in names)
  {
    var t := SimpleApp.RegisterAll(OrderedMap.Empty(), names);
    SimpleApp.RegisterAllResult(OrderedMap.Empty(), names);
    forall i | 0 <= i < |t.keys| ensures AppsFor(names)[i] == SimpleApp.NewApp(t.keys[i]) {
      assert OrderedMap.Lookup(t, t.keys[i]) == Some(AppsFor(names)[i]);
    }
  }

  /** For apps built from their names alone, a name is pending exactly when
      one of the apps has it and, unless forcing, its command is not found. */
  lemma PendingOfNewApps(apps: seq<SimpleApp.App>, onPath: set<string>, force: bool)
    requires forall i :: 0 <= i < |apps| ==> apps[i] == SimpleApp.NewApp(apps[i].name)
    ensures forall n :: n in Pending(apps, onPath, force) <==>
      (exists i :: 0 <= i < |apps| && apps[i].name == n) && (force || SimpleApp.CommandName(n) !in onPath)
  {
    PendingMembers(apps, onPath, force);
    forall n | (exists i :: 0 <= i < |apps| && apps[i].name == n) && (force || SimpleApp.CommandName(n) !in onPath)
      ensures n in Pending(apps, onPath, force)
    {
      var i :| 0 <= i < |apps| && apps[i].name == n;
      assert force || !SimpleApp.IsInstalled(apps[i], onPath);
    }
  }

  /** The names carried by apps stored under the keys of a table. */
  lemma NamesOfApps(apps: seq<SimpleApp.App>, keys: seq<string>, names: seq<string>)
    requires |apps| == |keys| && forall i :: 0 <= i < |keys| ==> apps[i] == SimpleApp.NewApp(keys[i])
    requires forall k :: k in keys <==> k in names
    ensures forall i :: 0 <= i < |apps| ==> apps[i] == SimpleApp.NewApp(apps[i].name)
    ensures forall n :: (exists i :: 0 <= i < |apps| && apps[i].name == n) <==> n in names
  {
    forall n | n in names
      ensures exists i :: 0 <= i < |apps| && apps[i].name == n
    {
      var i :| 0 <= i < |keys| && keys[i] == n;
      assert apps[i].name == n;
    }
  }

  /** `to_install` for the requested names: a name is in it exactly when it
      was requested and, unless forcing, its command is not on the PATH. */
  lemma ToInstallExactly(names: seq<string>, onPath: set<string>, force: bool)
    ensures forall n :: n in Pending(AppsFor(names), onPath, force) <==>
      n in names && (force || SimpleApp.CommandName(n) !in onPath)
  {
    var apps := AppsFor(names);
    AppsForNamed(names);
    NamesOfApps(apps, SimpleApp.RegisterAll(OrderedMap.Empty(), names).keys, names);
    PendingOfNewApps(apps, onPath, force);
  }

  /** The loop of `main` that collects `to_install`. */
  method CollectToInstall(apps: seq<SimpleApp.App>, onPath: set<string>, force: bool) returns (toInstall: seq<string>)
    ensures toInstall == Pending(apps, onPath, force)
  {
    toInstall := [];
    var i := 0;
    while i < |apps|
      invariant 0 <= i <= |apps|
      invariant toInstall == Pending(apps[..i], onPath, force)
    {
      PendingSnoc(apps[..i], apps[i], onPath, force);
      assert apps[..i + 1] == apps[..i] + [apps[i]];
      if SimpleApp.IsInstalled(apps[i], onPath) && !force {
        i := i + 1;
        continue;
      }
      toInstall := toInstall + [apps[i].name];
      i := i + 1;
    }
    assert apps[..i] == apps;
  }

  /** One more app extends the pending names by at most its own name. */
  lemma PendingSnoc(apps: seq<SimpleApp.App>, app: SimpleApp.App, onPath: set<string>, force: bool)
    ensures Pending(apps + [app], onPath, force) ==
      Pending(apps, onPath, force) + (if SimpleApp.IsInstalled(app, onPath) && !force then [] else [app.name])
  {
    PendingAppend(apps, [app], onPath, force);
    assert [app][1..] == [];
  }

  /** Which manager `main` constructs. */
  datatype ManagerChoice = UseHomebrew | UseMiniforge(custom: Option<Path>)

  /** A custom binary goes to Miniforge only when the mode is "miniforge";
      otherwise the mode is looked up in the manager registry. */
  function ChooseManager(mode: string, custom: Option<Path>): (r: Outcome<ManagerChoice>)
    ensures r.Ok? && r.value.UseMiniforge? && r.value.custom.Some? ==> custom.Some? && mode == "miniforge"
    ensures custom.Some? && mode == "miniforge" ==> r == Ok(UseMiniforge(custom))
    ensures mode == "brew" ==> r == Ok(UseHomebrew)
    ensures custom.None? && mode == "miniforge" ==> r == Ok(UseMiniforge(None))
    ensures r.Raised? <==> Manager.GetManager(mode).Raised?
  {
    if custom.Some? && mode == "miniforge" then Ok(UseMiniforge(custom))
    else match Manager.GetManager(mode)
      case Raised(e) => Raised(e)
      case Ok(kind) => if kind.HomebrewKind? then Ok(UseHomebrew) else Ok(UseMiniforge(None))
  }

  /** What running a manager leaves behind: the commands started after the
      ones before, the result of the run, and the file system. */
  datatype Run = Run(log: seq<Command>, outcome: Outcome<()>, fs: Fs)

  /** The Homebrew bootstrap, needed only when `brew` is not on the PATH. */
  function BrewBoot(onPath: set<string>): seq<Command>
  {
    if "brew" in onPath then [] else [Manager.BrewBootstrap, Manager.SourceProfile]
  }

  /** `ensure_available` then `install_package(to_install, force)` on a new
      Homebrew manager. */
  function HomebrewRun(onPath: set<string>, failing: set<Command>, fs: Fs, toInstall: seq<string>, force: bool): Run
  {
    var boot := BrewBoot(onPath);
    var install := Argv(Manager.BrewInstallCommand(Manager.Many(toInstall), force));
    match SeriesOutcome(boot, failing)
    case Raised(e) => Run(Attempted(boot, failing), Raised(e), fs)
    case Ok(_) => Run(boot + [install], Checked(install, failing), fs)
  }

  /** Whether a new Miniforge manager finds mamba without bootstrapping. */
  predicate MambaFound(custom: Option<Path>, home: Path, paths: set<Path>)
  {
    (custom.Some? && custom.value in paths) || Manager.FirstExisting(Manager.Candidates(home), paths).Some?
  }

  /** `ensure_available` then `install_package(to_install, force)` on a new
      Miniforge manager. Linking sees the binaries the install created. */
  function MiniforgeRun(custom: Option<Path>, home: Path, localBin: Path, failing: set<Command>,
                        creates: map<Command, set<Path>>, fs: Fs, toInstall: seq<string>, force: bool): Run
  {
    var boot := if MambaFound(custom, home, fs.paths) then [] else Manager.MiniforgeBootstrap(home);
    var bin := Manager.ResolvedBinPath(custom, home, fs.paths);
    var steps := Manager.PrepareAndInstall(bin, Manager.Many(toInstall), force, failing);
    match SeriesOutcome(boot, failing)
    case Raised(e) => Run(Attempted(boot, failing), Raised(e), fs)
    case Ok(_) =>
      var o := SeriesOutcome(steps[1..], failing);
      var installed := Manager.Installed(fs, creates, bin, Manager.Many(toInstall), force);
      Run(boot + steps, o, if o.Ok? then Manager.LinkedAll(installed, localBin, bin, toInstall) else fs)
  }

  /** Homebrew installs the batch exactly when its bootstrap, if needed,
      succeeded, and then as the last command of the run. */
  lemma {:induction false} HomebrewInstallsAfterAvailable(onPath: set<string>, failing: set<Command>, fs: Fs, toInstall: seq<string>, force: bool)
    ensures var run := HomebrewRun(onPath, failing, fs, toInstall, force);
      var install := Argv(Manager.BrewInstallCommand(Manager.Many(toInstall), force));
      && (install in run.log <==> SeriesOutcome(BrewBoot(onPath), failing).Ok?)
      && (install in run.log ==> run.log[|run.log| - 1] == install)
  {
    var boot := BrewBoot(onPath);
    var install := Argv(Manager.BrewInstallCommand(Manager.Many(toInstall), force));
    SeriesFacts(boot, failing);
    if SeriesOutcome(boot, failing).Raised? {
      var run := Attempted(boot, failing);
      assert forall i :: 0 <= i < |run| ==> run[i] == boot[i];
      assert install !in boot;
    }
  }

  /** Mamba installs the batch only into an available installation, and the
      links change only once the install command has succeeded. */
  lemma MiniforgeInstallsAfterAvailable(custom: Option<Path>, home: Path, localBin: Path, failing: set<Command>,
                                        creates: map<Command, set<Path>>, fs: Fs, toInstall: seq<string>, force: bool)
    ensures var run := MiniforgeRun(custom, home, localBin, failing, creates, fs, toInstall, force);
      var boot := if MambaFound(custom, home, fs.paths) then [] else Manager.MiniforgeBootstrap(home);
      var bin := Manager.ResolvedBinPath(custom, home, fs.paths);
      && (run.fs != fs ==> SeriesOutcome(boot, failing).Ok? && run.outcome.Ok?
                           && Argv(Manager.MambaInstallCommand(bin, Manager.Many(toInstall), force)) in run.log)
      && (SeriesOutcome(boot, failing).Raised? ==> run.log == Attempted(boot, failing) && run.fs == fs)
  {
  }

  /** A successful Miniforge run links every requested binary that existed
      before it or that the install command created. */
  lemma MiniforgeLinksInstalled(custom: Option<Path>, home: Path, localBin: Path, failing: set<Command>,
                                creates: map<Command, set<Path>>, fs: Fs, toInstall: seq<string>, force: bool)
    ensures var run := MiniforgeRun(custom, home, localBin, failing, creates, fs, toInstall, force);
      var bin := Manager.ResolvedBinPath(custom, home, fs.paths);
      var installed := Manager.Installed(fs, creates, bin, Manager.Many(toInstall), force);
      run.outcome.Ok? ==>
        forall i :: 0 <= i < |toInstall| && Join(Manager.EnvBinDir(bin), toInstall[i]) in installed.paths ==>
          Join(localBin, toInstall[i]) in run.fs.paths
  {
    var bin := Manager.ResolvedBinPath(custom, home, fs.paths);
    Manager.LinkedAllLinksSources(Manager.Installed(fs, creates, bin, Manager.Many(toInstall), force), localBin, bin, toInstall);
  }

  /** With nothing left to install, the manager is still made available and
      asked to install the empty batch: `brew install` with no package. */
  lemma EmptyBatchStillRuns(onPath: set<string>, failing: set<Command>, fs: Fs)
    requires "brew" in onPath
    ensures HomebrewRun(onPath, failing, fs, [], false).log == [Argv(["brew", "install"])]
  {
    assert Manager.BrewInstallCommand(Manager.Many([]), false) == ["brew", "install"];
  }

  /** The same holds for Miniforge: once mamba is available and the
      environment exists or could be created, `mamba install -n apps -y`
      runs with no package. */
  lemma EmptyMambaBatchStillRuns(custom: Option<Path>, home: Path, localBin: Path, failing: set<Command>,
                                 creates: map<Command, set<Path>>, fs: Fs)
    ensures var boot := if MambaFound(custom, home, fs.paths) then [] else Manager.MiniforgeBootstrap(home);
      var bin := Manager.ResolvedBinPath(custom, home, fs.paths);
      SeriesOutcome(boot, failing).Ok? && Manager.CreateEnvCommand(bin) !in failing ==>
        var log := MiniforgeRun(custom, home, localBin, failing, creates, fs, [], false).log;
        log[|log| - 1] == Argv([Str(bin), "install", "-n", "apps", "-y"])
  {
    var bin := Manager.ResolvedBinPath(custom, home, fs.paths);
    assert Manager.MambaInstallCommand(bin, Manager.Many([]), false) == [Str(bin), "install", "-n", "apps", "-y"];
  }

  /** Construct Homebrew, make it available, install the batch. */
  method DriveHomebrew(ctx: EnvironmentContext, host: Host, mode: string, toInstall: seq<string>, force: bool)
    returns (r: Outcome<()>)
    modifies ctx, host`log
    ensures var run := HomebrewRun(host.onPath, host.failing, host.fs, toInstall, force);
      host.log == old(host.log) + run.log && r == run.outcome
    ensures ctx.hasSudo == (old(ctx.hasSudo) || ("brew" !in host.onPath && Manager.BrewBootstrap !in host.failing))
  {
    var manager := new Manager.Homebrew(ctx, mode);
    SeriesFacts(BrewBoot(host.onPath), host.failing);
    var available := manager.EnsureAvailable(host);
    if available.Raised? {
      return Raised(available.error);
    }
    r := manager.InstallPackage(host, Manager.Many(toInstall), force);
  }

  /** A failed bootstrap ends the run with its error and no file changed.
      Once mamba is available, the run is the availability commands, then
      the install steps, and the links on the installed file system. */
  lemma MiniforgeRunCases(custom: Option<Path>, home: Path, localBin: Path, failing: set<Command>,
                              creates: map<Command, set<Path>>, fs: Fs, toInstall: seq<string>, force: bool)
    ensures var boot := if MambaFound(custom, home, fs.paths) then [] else Manager.MiniforgeBootstrap(home);
      var bin := Manager.ResolvedBinPath(custom, home, fs.paths);
      var steps := Manager.PrepareAndInstall(bin, Manager.Many(toInstall), force, failing);
      var o := SeriesOutcome(steps[1..], failing);
      && (SeriesOutcome(boot, failing).Raised? ==>
            MiniforgeRun(custom, home, localBin, failing, creates, fs, toInstall, force)
            == Run(Attempted(boot, failing), SeriesOutcome(boot, failing), fs))
      && (SeriesOutcome(boot, failing).Ok? ==>
        MiniforgeRun(custom, home, localBin, failing, creates, fs, toInstall, force)
        == Run(boot + steps, o, if o.Ok? then Manager.LinkedAll(Manager.Installed(fs, creates, bin, Manager.Many(toInstall), force), localBin, bin, toInstall) else fs))
  {
  }

  /** Construct Miniforge, make it available, install the batch and link it. */
  method DriveMiniforge(ctx: EnvironmentContext, host: Host, mode: string, custom: Option<Path>, toInstall: seq<string>, force: bool)
    returns (r: Outcome<()>)
    modifies host`log, host`fs
    ensures var run := MiniforgeRun(custom, ctx.home, ctx.localBin, host.failing, host.creates, old(host.fs), toInstall, force);
      host.log == old(host.log) + run.log && r == run.outcome && host.fs == run.fs
  {
    var manager := new Manager.Miniforge(ctx, mode, custom);
    ghost var boot := if MambaFound(custom, ctx.home, host.fs.paths) then [] else Manager.MiniforgeBootstrap(ctx.home);
    SeriesSucceeds(boot, host.failing);
    MiniforgeRunCases(custom, ctx.home, ctx.localBin, host.failing, host.creates, host.fs, toInstall, force);
    var available := manager.EnsureAvailable(host);
    if available.Raised? {
      return Raised(available.error);
    }
    assert host.log == old(host.log) + boot;
    r := manager.InstallPackage(host, Manager.Many(toInstall), force);
  }

  /** `main` after argument parsing and environment detection. */
  method RunInstall(args: Args, ctx: EnvironmentContext, files: seq<ListFile>, host: Host) returns (r: Outcome<()>)
    modifies ctx, host`log, host`fs
    ensures args.appList.None? ==>
      r == Raised(ValueError(MissingAppList)) && host.log == old(host.log) && host.fs == old(host.fs)
    ensures args.appList.Some? && RequestedNames(args.appList.value, files).Raised? ==>
      r == Raised(RequestedNames(args.appList.value, files).error) && host.log == old(host.log) && host.fs == old(host.fs)
    ensures args.appList.Some? && RequestedNames(args.appList.value, files).Ok? ==>
      var toInstall := Pending(AppsFor(RequestedNames(args.appList.value, files).value), host.onPath, args.force);
      match ChooseManager(SelectMode(args.mode, old(ctx.hasSudo)), args.customBinPath)
      case Raised(e) => r == Raised(e) && host.log == old(host.log) && host.fs == old(host.fs)
      case Ok(UseHomebrew) =>
        var run := HomebrewRun(host.onPath, host.failing, old(host.fs), toInstall, args.force);
        host.log == old(host.log) + run.log && r == run.outcome && host.fs == old(host.fs)
      case Ok(UseMiniforge(custom)) =>
        var run := MiniforgeRun(custom, ctx.home, ctx.localBin, host.failing, host.creates, old(host.fs), toInstall, args.force);
        host.log == old(host.log) + run.log && r == run.outcome && host.fs == run.fs
    ensures ctx.hasSudo == (old(ctx.hasSudo) ||
      (args.appList.Some? && RequestedNames(args.appList.value, files).Ok?
       && ChooseManager(SelectMode(args.mode, old(ctx.hasSudo)), args.customBinPath) == Ok(UseHomebrew)
       && "brew" !in host.onPath && Manager.BrewBootstrap !in host.failing))
  {
    var mode := SelectMode(args.mode, ctx.hasSudo);
    if args.appList.None? {
      return Raised(ValueError(MissingAppList));
    }
    var registry := LoadRegistry(args.appList.value, files);
    if registry.Raised? {
      return Raised(registry.error);
    }
    var toInstall := CollectToInstall(registry.value.IterateApps(), host.onPath, args.force);
    var choice := ChooseManager(mode, args.customBinPath);
    if choice.Raised? {
      return Raised(choice.error);
    }
    r := Drive(ctx, host, mode, choice.value, toInstall, args.force);
  }

  /** Runs the chosen manager on the batch. */
  method Drive(ctx: EnvironmentContext, host: Host, mode: string, choice: ManagerChoice, toInstall: seq<string>, force: bool)
    returns (r: Outcome<()>)
    modifies ctx, host`log, host`fs
    ensures match choice
      case UseHomebrew =>
        var run := HomebrewRun(host.onPath, host.failing, old(host.fs), toInstall, force);
        && host.log == old(host.log) + run.log && r == run.outcome && host.fs == old(host.fs)
        && ctx.hasSudo == (old(ctx.hasSudo) || ("brew" !in host.onPath && Manager.BrewBootstrap !in host.failing))
      case UseMiniforge(custom) =>
        var run := MiniforgeRun(custom, ctx.home, ctx.localBin, host.failing, host.creates, old(host.fs), toInstall, force);
        && host.log == old(host.log) + run.log && r == run.outcome && host.fs == run.fs
        && ctx.hasSudo == old(ctx.hasSudo)
  {
    match choice {
      case UseHomebrew =>
        r := DriveHomebrew(ctx, host, mode, toInstall, force);
      case UseMiniforge(custom) =>
        r := DriveMiniforge(ctx, host, mode, custom, toInstall, force);
    }
  }

  /** A new registry filled from the requested list files. */
  method LoadRegistry(appList: string, files: seq<ListFile>) returns (r: Outcome<SimpleApp.AppRegistry>)
    ensures RequestedNames(appList, files).Raised? ==> r == Raised(RequestedNames(appList, files).error)
    ensures RequestedNames(appList, files).Ok? ==>
      && r.Ok? && fresh(r.value) && r.value.Valid()
      && r.value.registry == SimpleApp.RegisterAll(OrderedMap.Empty(), RequestedNames(appList, files).value)
  {
    var registry := new SimpleApp.AppRegistry();
    if appList == "full" {
      var i := 0;
      while i < |files|
        invariant 0 <= i <= |files|
        invariant registry.Valid()
        invariant registry.registry == SimpleApp.RegisterAll(OrderedMap.Empty(), AllNames(files[..i]))
      {
        SimpleApp.RegisterAllAppend(OrderedMap.Empty(), AllNames(files[..i]), SimpleApp.AppNames(files[i].lines));
        assert files[..i + 1][..i] == files[..i];
        registry.RegisterFromTxt(files[i].lines);
        i := i + 1;
      }
      assert files[..i] == files;
      return Ok(registry);
    }
    match FindList(files, appList) {
      case None =>
        return Raised(FileNotFoundError(appList + ".txt"));
      case Some(f) =>
        registry.RegisterFromTxt(f.lines);
        return Ok(registry);
    }
  }
}
