// core/manager.py: the two package managers (Homebrew, system-wide, and
// Miniforge's mamba, in the user's home), their availability state, the
// install commands they issue and the step that links a binary installed in
// the mamba environment into the user-local binary directory.
module Manager {
  import opened Platform
  import OrderedMap

  /** `packages_list: list[str] | str` */
  datatype Packages = Many(names: seq<string>) | One(name: string)

  /** The names as a list: a single string is one name, never its characters. */
  function PackageNames(p: Packages): seq<string>
  {
    match p
    case Many(ns) => ns
    case One(n) => [n]
  }

  const HomebrewAlreadyInstalled := "Homebrew is already installed."
  const HomebrewMissing := "Homebrew is not installed. Call ensure_available() first."
  const MiniforgeAlreadyInstalled := "Miniforge is already installed."
  const MambaMissing := "Mamba is not installed. Call ensure_available() first."

  // ---------------------------------------------------------------- Homebrew

  const BrewInstallScript := "NONINTERACTIVE=1 /bin/bash -c \"$(curl -fsSL https://raw.githubusercontent.com/Homebrew/install/HEAD/install.sh)\""
  const BrewBootstrap := ShellLine([BrewInstallScript])
  const SourceProfile := ShellLine(["source ~/.profile"])

  /** The argument vector of `Homebrew.install_package`. */
  function BrewInstallCommand(packages: Packages, force: bool): seq<string>
  {
    (if force then ["brew", "install", "--force"] else ["brew", "install"]) + PackageNames(packages)
  }

  /** `brew install`, `--force` third exactly when forcing, then every
      package in order; a single string is one trailing argument. */
  lemma BrewInstallCommandShape(packages: Packages, force: bool)
    ensures var argv := BrewInstallCommand(packages, force);
      && |argv| == 2 + (if force then 1 else 0) + |PackageNames(packages)|
      && argv[..2] == ["brew", "install"]
      && (force ==> argv[2] == "--force")
      && argv[|argv| - |PackageNames(packages)|..] == PackageNames(packages)
      && ("--force" !in PackageNames(packages) ==> ("--force" in argv <==> force))
      && (packages.One? ==> argv[|argv| - 1] == packages.name && |argv| == (if force then 4 else 3))
  {
    var head := if force then ["brew", "install", "--force"] else ["brew", "install"];
    var argv := BrewInstallCommand(packages, force);
    assert argv[..|head|] == head;
  }

  class Homebrew {
    const context: EnvironmentContext
    const name: string
    var isInstalled: bool

    constructor (context: EnvironmentContext, name: string)
      ensures this.context == context && this.name == name && !isInstalled
    {
      this.context := context;
      this.name := name;
      isInstalled := false;
    }

    /** Runs the bootstrap script, assumes sudo from then on, sources the
        profile; refuses to run when the manager is already available. */
    method InstallPackageManager(host: Host) returns (r: Outcome<bool>)
      modifies this, context, host`log
      ensures old(isInstalled) ==>
        && r == Raised(RuntimeError(HomebrewAlreadyInstalled))
        && host.log == old(host.log) && isInstalled && context.hasSudo == old(context.hasSudo)
      ensures !old(isInstalled) && BrewBootstrap in host.failing ==>
        && r == Raised(CalledProcessError(BrewBootstrap))
        && host.log == old(host.log) + [BrewBootstrap]
        && !isInstalled && context.hasSudo == old(context.hasSudo)
      ensures !old(isInstalled) && BrewBootstrap !in host.failing ==>
        && host.log == old(host.log) + [BrewBootstrap, SourceProfile]
        && context.hasSudo
        && r == ReturnsTrue(Checked(SourceProfile, host.failing))
        && isInstalled == r.Ok?
    {
      if isInstalled {
        return Raised(RuntimeError(HomebrewAlreadyInstalled));
      }
      var ok := host.Run(BrewBootstrap);
      if !ok {
        return Raised(CalledProcessError(BrewBootstrap));
      }
      context.hasSudo := true;
      ok := host.Run(SourceProfile);
      if !ok {
        return Raised(CalledProcessError(SourceProfile));
      }
      isInstalled := true;
      return Ok(true);
    }

    /** Ready at once when `brew` is on the PATH; bootstraps otherwise. */
    method EnsureAvailable(host: Host) returns (r: Outcome<bool>)
      modifies this, context, host`log
      ensures r.Ok? ==> r.value && isInstalled
      ensures "brew" in host.onPath ==>
        r == Ok(true) && host.log == old(host.log) && context.hasSudo == old(context.hasSudo)
      ensures "brew" !in host.onPath && old(isInstalled) ==>
        && r == Raised(RuntimeError(HomebrewAlreadyInstalled)) && host.log == old(host.log)
        && isInstalled && context.hasSudo == old(context.hasSudo)
      ensures "brew" !in host.onPath && !old(isInstalled) ==>
        && host.log == old(host.log) + Attempted([BrewBootstrap, SourceProfile], host.failing)
        && r == ReturnsTrue(SeriesOutcome([BrewBootstrap, SourceProfile], host.failing))
        && isInstalled == r.Ok?
        && (BrewBootstrap !in host.failing ==> context.hasSudo)
        && (BrewBootstrap in host.failing ==> context.hasSudo == old(context.hasSudo))
    {
      if "brew" in host.onPath {
        isInstalled := true;
        return Ok(true);
      }
      SeriesStep(BrewBootstrap, [SourceProfile], host.failing);
      SeriesStep(SourceProfile, [], host.failing);
      assert [BrewBootstrap, SourceProfile] == [BrewBootstrap] + [SourceProfile];
      assert [SourceProfile] == [SourceProfile] + [];
      r := InstallPackageManager(host);
    }

    /** One `brew install` for the whole batch; refused before `EnsureAvailable`. */
    method InstallPackage(host: Host, packages: Packages, force: bool) returns (r: Outcome<()>)
      modifies host`log
      ensures !isInstalled ==> r == Raised(RuntimeError(HomebrewMissing)) && host.log == old(host.log)
      ensures isInstalled ==>
        && host.log == old(host.log) + [Argv(BrewInstallCommand(packages, force))]
        && r == Checked(Argv(BrewInstallCommand(packages, force)), host.failing)
    {
      if !isInstalled {
        return Raised(RuntimeError(HomebrewMissing));
      }
      var cmd := BrewInstallCommand(packages, force);
      r := host.RunChecked(Argv(cmd));
    }
  }

  // --------------------------------------------------------------- Miniforge

  const AppsEnvName := "apps"

  function DefaultBinPath(home: Path): Path
  {
    Join(Join(Join(home, "miniforge3"), "bin"), "mamba")
  }

  const OptBinPath := Path(["opt", "miniforge3", "bin", "mamba"])

  /** `possible_dir`, in the order they are probed. */
  function Candidates(home: Path): seq<Path>
  {
    [DefaultBinPath(home), OptBinPath]
  }

  /** The first candidate that exists. */
  function FirstExisting(cands: seq<Path>, paths: set<Path>): Option<Path>
  {
    if cands == [] then None
    else if cands[0] in paths then Some(cands[0])
    else FirstExisting(cands[1..], paths)
  }

  /** `FirstExisting` finds an existing candidate with none before it, and
      finds nothing only when no candidate exists. */
  lemma {:induction false} FirstExistingIsFirst(cands: seq<Path>, paths: set<Path>)
    ensures var r := FirstExisting(cands, paths);
      r.Some? ==> exists i :: 0 <= i < |cands| && cands[i] == r.value && cands[i] in paths
                               && forall j :: 0 <= j < i ==> cands[j] !in paths
    ensures FirstExisting(cands, paths).None? ==> forall i :: 0 <= i < |cands| ==> cands[i] !in paths
  {
    if cands != [] && cands[0] !in paths {
      FirstExistingIsFirst(cands[1..], paths);
      assert forall i :: 1 <= i < |cands| ==> cands[i] == cands[1..][i - 1];
      var r := FirstExisting(cands, paths);
      if r.Some? {
        var k :| 0 <= k < |cands[1..]| && cands[1..][k] == r.value && cands[1..][k] in paths
                 && forall j :: 0 <= j < k ==> cands[1..][j] !in paths;
        assert cands[k + 1] == r.value;
      }
    }
  }

  /** The mamba binary a successful `Miniforge.ensure_available` settles on. */
  function ResolvedBinPath(custom: Option<Path>, home: Path, paths: set<Path>): Path
  {
    if custom.Some? && custom.value in paths then custom.value
    else match FirstExisting(Candidates(home), paths)
      case Some(p) => p
      case None => DefaultBinPath(home)
  }

  /** An existing custom path wins; then the home installation, then the one
      under /opt; with none of them the bootstrap puts it in the home. */
  lemma ResolvedBinPathOrder(custom: Option<Path>, home: Path, paths: set<Path>)
    ensures custom.Some? && custom.value in paths ==> ResolvedBinPath(custom, home, paths) == custom.value
    ensures !(custom.Some? && custom.value in paths) ==>
      ResolvedBinPath(custom, home, paths) ==
        if DefaultBinPath(home) in paths then DefaultBinPath(home)
        else if OptBinPath in paths then OptBinPath
        else DefaultBinPath(home)
  {
    var c := Candidates(home);
    assert c[0] == DefaultBinPath(home) && c[1..] == [OptBinPath] && [OptBinPath][1..] == [];
    assert FirstExisting(c, paths) == if c[0] in paths then Some(c[0]) else FirstExisting(c[1..], paths);
    assert FirstExisting([OptBinPath], paths) == if OptBinPath in paths then Some(OptBinPath) else None;
  }

  const DownloadLine := "wget -O Miniforge3.sh \"https://github.com/conda-forge/miniforge/releases/latest/download/Miniforge3-$(uname)-$(uname -m).sh\""
  const MakeExecutableLine := "chmod +x Miniforge3.sh"
  const RemoveInstallerLine := "rm Miniforge3.sh"
  const RunInstallerPrefix := "bash Miniforge3.sh -b -p "
  const Download := ShellLine([DownloadLine])
  const MakeExecutable := ShellLine([MakeExecutableLine])
  const RemoveInstaller := ShellLine([RemoveInstallerLine])

  function RunInstaller(home: Path): Command
  {
    ShellLine([RunInstallerPrefix, Str(Join(home, "miniforge3"))])
  }

  /** The four shell lines of the Miniforge bootstrap, in order. */
  function MiniforgeBootstrap(home: Path): seq<Command>
  {
    [Download, MakeExecutable, RunInstaller(home), RemoveInstaller]
  }

  function EnvListCommand(bin: Path): Command
  {
    ShellLine([Str(bin), " env list | grep ", AppsEnvName, " -w"])
  }

  function CreateEnvCommand(bin: Path): Command
  {
    ShellLine([Str(bin), " create -n ", AppsEnvName, " -y"])
  }

  /** The argument vector of `Miniforge.install_package`. */
  function MambaInstallCommand(bin: Path, packages: Packages, force: bool): seq<string>
  {
    [Str(bin), "install", "-n", AppsEnvName, "-y"] + (if force then ["--force-reinstall"] else []) + PackageNames(packages)
  }

  /** The binary, `install -n apps -y`, the reinstall switch exactly when
      forcing, then every package in order. */
  lemma MambaInstallCommandShape(bin: Path, packages: Packages, force: bool)
    ensures var argv := MambaInstallCommand(bin, packages, force);
      && |argv| == 5 + (if force then 1 else 0) + |PackageNames(packages)|
      && argv[..5] == [Str(bin), "install", "-n", AppsEnvName, "-y"]
      && (force ==> argv[5] == "--force-reinstall")
      && argv[|argv| - |PackageNames(packages)|..] == PackageNames(packages)
      && ("--force-reinstall" !in PackageNames(packages) ==> ("--force-reinstall" in argv[1..] <==> force))
  {
    var head := [Str(bin), "install", "-n", AppsEnvName, "-y"] + (if force then ["--force-reinstall"] else []);
    var argv := MambaInstallCommand(bin, packages, force);
    assert argv == head + PackageNames(packages);
    assert argv[..|head|] == head;
    assert argv[1..] == head[1..] + PackageNames(packages);
  }

  /** The commands `install_package` starts before linking: the
      environment query, the creation when the query failed, and the
      install itself unless the creation failed. */
  function PrepareAndInstall(bin: Path, packages: Packages, force: bool, failing: set<Command>): seq<Command>
  {
    var envList := EnvListCommand(bin);
    var create := CreateEnvCommand(bin);
    if envList !in failing then [envList, Argv(MambaInstallCommand(bin, packages, force))]
    else if create in failing then [envList, create]
    else [envList, create, Argv(MambaInstallCommand(bin, packages, force))]
  }

  /** `bin_path.parent.parent / 'envs' / 'apps' / 'bin'` */
  function EnvBinDir(bin: Path): Path
  {
    Join(Join(Join(Parent(Parent(bin)), "envs"), AppsEnvName), "bin")
  }

  /** For the standard layout, the environment's binaries sit beside the
      installation's own `bin` directory. */
  lemma EnvBinDirOfDefault(home: Path)
    ensures EnvBinDir(DefaultBinPath(home)) == Join(Join(Join(Join(home, "miniforge3"), "envs"), "apps"), "bin")
  {
    ParentOfJoin(Join(Join(home, "miniforge3"), "bin"), "mamba");
    ParentOfJoin(Join(home, "miniforge3"), "bin");
  }

  /** The link step for one binary is done: its link exists, or there is
      nothing to link it to. */
  ghost predicate Settled(fs: Fs, localBin: Path, bin: Path, name: string)
  {
    Join(localBin, name) in fs.paths || Join(EnvBinDir(bin), name) !in fs.paths
  }

  /** The file system after `_link_binary(name)`. */
  function Linked(fs: Fs, localBin: Path, bin: Path, name: string): (r: Fs)
    ensures r == fs <==> Settled(fs, localBin, bin, name)
    ensures r != fs ==> r.paths == fs.paths + {Join(localBin, name)}
                        && r.links == fs.links[Join(localBin, name) := Join(EnvBinDir(bin), name)]
    ensures Settled(r, localBin, bin, name)
  {
    var target := Join(localBin, name);
    if target in fs.paths then fs
    else
      var source := Join(EnvBinDir(bin), name);
      if source !in fs.paths then fs
      else Fs(fs.paths + {target}, fs.links[target := source])
  }

  /** The file system once `mamba install` for the batch has exited 0. */
  function Installed(fs: Fs, creates: map<Command, set<Path>>, bin: Path, packages: Packages, force: bool): Fs
  {
    WithPaths(fs, CreatedBy(creates, Argv(MambaInstallCommand(bin, packages, force))))
  }

  /** The file system after linking every name in turn. */
  function LinkedAll(fs: Fs, localBin: Path, bin: Path, names: seq<string>): Fs
    decreases names
  {
    if names == [] then fs else LinkedAll(Linked(fs, localBin, bin, names[0]), localBin, bin, names[1..])
  }

  /** Linking one name never unsettles another: the only path it adds is
      that name's link, which can be another name's source only when the
      link directory is the environment's own, where every name is settled. */
  lemma {:induction false} LinkedKeepsSettled(fs: Fs, localBin: Path, bin: Path, name: string, other: string)
    requires Settled(fs, localBin, bin, other)
    ensures Settled(Linked(fs, localBin, bin, name), localBin, bin, other)
  {
    if Join(EnvBinDir(bin), other) == Join(localBin, name) {
      JoinInjective(EnvBinDir(bin), other, localBin, name);
    }
  }

  lemma {:induction false} LinkedAllSettles(fs: Fs, localBin: Path, bin: Path, names: seq<string>)
    decreases names
    ensures forall n :: Settled(fs, localBin, bin, n) ==> Settled(LinkedAll(fs, localBin, bin, names), localBin, bin, n)
    ensures forall i :: 0 <= i < |names| ==> Settled(LinkedAll(fs, localBin, bin, names), localBin, bin, names[i])
  {
    if names != [] {
      var next := Linked(fs, localBin, bin, names[0]);
      LinkedAllSettles(next, localBin, bin, names[1..]);
      forall n | Settled(fs, localBin, bin, n)
        ensures Settled(next, localBin, bin, n)
      {
        LinkedKeepsSettled(fs, localBin, bin, names[0], n);
      }
      forall i | 1 <= i < |names|
        ensures Settled(LinkedAll(fs, localBin, bin, names), localBin, bin, names[i])
      {
        assert names[i] == names[1..][i - 1];
      }
    }
  }

  lemma {:induction false} LinkedAllFixed(fs: Fs, localBin: Path, bin: Path, names: seq<string>)
    requires forall i :: 0 <= i < |names| ==> Settled(fs, localBin, bin, names[i])
    decreases names
    ensures LinkedAll(fs, localBin, bin, names) == fs
  {
    if names != [] {
      assert Linked(fs, localBin, bin, names[0]) == fs;
      forall i | 0 <= i < |names[1..]| ensures Settled(fs, localBin, bin, names[1..][i]) {
        assert names[1..][i] == names[i + 1];
      }
      LinkedAllFixed(fs, localBin, bin, names[1..]);
    }
  }

  /** Linking only adds paths. */
  lemma {:induction false} LinkedAllGrows(fs: Fs, localBin: Path, bin: Path, names: seq<string>)
    decreases names
    ensures fs.paths <= LinkedAll(fs, localBin, bin, names).paths
  {
    if names != [] {
      LinkedAllGrows(Linked(fs, localBin, bin, names[0]), localBin, bin, names[1..]);
    }
  }

  /** After the loop, every name whose binary exists in the environment has
      its link. */
  lemma LinkedAllLinksSources(fs: Fs, localBin: Path, bin: Path, names: seq<string>)
    ensures forall i :: 0 <= i < |names| && Join(EnvBinDir(bin), names[i]) in fs.paths ==>
              Join(localBin, names[i]) in LinkedAll(fs, localBin, bin, names).paths
  {
    LinkedAllSettles(fs, localBin, bin, names);
    LinkedAllGrows(fs, localBin, bin, names);
  }

  /** Linking a batch a second time changes nothing. */
  lemma LinkedAllIdempotent(fs: Fs, localBin: Path, bin: Path, names: seq<string>)
    ensures LinkedAll(LinkedAll(fs, localBin, bin, names), localBin, bin, names) == LinkedAll(fs, localBin, bin, names)
  {
    LinkedAllSettles(fs, localBin, bin, names);
    LinkedAllFixed(LinkedAll(fs, localBin, bin, names), localBin, bin, names);
  }

  /** The bootstrap's shell lines in order, each checked, so that the
      first one to fail ends the series. */
  method RunBootstrap(host: Host, home: Path) returns (r: Outcome<()>)
    modifies host`log
    ensures host.log == old(host.log) + Attempted(MiniforgeBootstrap(home), host.failing)
    ensures r == SeriesOutcome(MiniforgeBootstrap(home), host.failing)
  {
    ghost var f := host.failing;
    var installer := RunInstaller(home);
    SeriesStep(Download, [MakeExecutable, installer, RemoveInstaller], f);
    SeriesStep(MakeExecutable, [installer, RemoveInstaller], f);
    SeriesStep(installer, [RemoveInstaller], f);
    SeriesStep(RemoveInstaller, [], f);
    assert MiniforgeBootstrap(home) == [Download] + ([MakeExecutable] + ([installer] + ([RemoveInstaller] + [])));
    r := host.RunChecked(Download);
    if r.Raised? {
      return;
    }
    r := host.RunChecked(MakeExecutable);
    if r.Raised? {
      return;
    }
    r := host.RunChecked(installer);
    if r.Raised? {
      return;
    }
    r := host.RunChecked(RemoveInstaller);
  }

  class Miniforge {
    const context: EnvironmentContext
    const name: string
    var isInstalled: bool
    var binPath: Option<Path>

    /** Once available, the manager knows where its binary is. */
    ghost predicate Valid()
      reads this
    {
      isInstalled ==> binPath.Some?
    }

    constructor (context: EnvironmentContext, name: string, customBinPath: Option<Path>)
      ensures Valid()
      ensures this.context == context && this.name == name && !isInstalled && binPath == customBinPath
    {
      this.context := context;
      this.name := name;
      isInstalled := false;
      binPath := customBinPath;
    }

    /** Downloads and runs the installer into the home directory, then
        records the new binary; refuses to run when already available. */
    method InstallPackageManager(host: Host) returns (r: Outcome<bool>)
      requires Valid()
      modifies this, host`log
      ensures Valid()
      ensures old(isInstalled) ==>
        && r == Raised(RuntimeError(MiniforgeAlreadyInstalled))
        && host.log == old(host.log) && isInstalled && binPath == old(binPath)
      ensures !old(isInstalled) ==>
        && host.log == old(host.log) + Attempted(MiniforgeBootstrap(context.home), host.failing)
        && r == ReturnsTrue(SeriesOutcome(MiniforgeBootstrap(context.home), host.failing))
        && (r.Ok? ==> isInstalled && binPath == Some(DefaultBinPath(context.home)))
        && (r.Raised? ==> !isInstalled && binPath == old(binPath))
    {
      if isInstalled {
        return Raised(RuntimeError(MiniforgeAlreadyInstalled));
      }
      var ran := RunBootstrap(host, context.home);
      if ran.Raised? {
        return Raised(ran.error);
      }
      binPath := Some(DefaultBinPath(context.home));
      isInstalled := true;
      return Ok(true);
    }

    /** Keeps an existing custom binary, else takes the first standard
        location that exists, else bootstraps. */
    method EnsureAvailable(host: Host) returns (r: Outcome<bool>)
      requires Valid()
      modifies this, host`log
      ensures Valid()
      ensures r.Ok? ==> r.value && isInstalled
                        && binPath == Some(ResolvedBinPath(old(binPath), context.home, host.fs.paths))
      ensures (old(binPath).Some? && old(binPath).value in host.fs.paths)
              || FirstExisting(Candidates(context.home), host.fs.paths).Some? ==>
        r == Ok(true) && host.log == old(host.log)
      ensures !(old(binPath).Some? && old(binPath).value in host.fs.paths)
              && FirstExisting(Candidates(context.home), host.fs.paths).None? ==>
        if old(isInstalled) then
          && r == Raised(RuntimeError(MiniforgeAlreadyInstalled)) && host.log == old(host.log)
          && isInstalled && binPath == old(binPath)
        else
          && host.log == old(host.log) + Attempted(MiniforgeBootstrap(context.home), host.failing)
          && r == ReturnsTrue(SeriesOutcome(MiniforgeBootstrap(context.home), host.failing))
          && (r.Raised? ==> !isInstalled && binPath == old(binPath))
    {
      if binPath.Some? && binPath.value in host.fs.paths {
        isInstalled := true;
        return Ok(true);
      }
      var possible := Candidates(context.home);
      var i := 0;
      while i < |possible|
        invariant 0 <= i <= |possible|
        invariant FirstExisting(possible[i..], host.fs.paths) == FirstExisting(possible, host.fs.paths)
        invariant binPath == old(binPath) && isInstalled == old(isInstalled) && host.log == old(host.log)
      {
        if possible[i] in host.fs.paths {
          assert FirstExisting(possible[i..], host.fs.paths) == Some(possible[i]);
          binPath := Some(possible[i]);
          isInstalled := true;
          return Ok(true);
        }
        assert possible[i..][1..] == possible[i + 1..];
        i := i + 1;
      }
      assert FirstExisting(possible, host.fs.paths) == None;
      r := InstallPackageManager(host);
    }

    /** Whether the `apps` environment exists, asked of mamba itself. */
    method CheckEnvExists(host: Host) returns (r: Outcome<bool>)
      requires Valid()
      modifies host`log
      ensures !isInstalled ==> r == Raised(RuntimeError(MambaMissing)) && host.log == old(host.log)
      ensures isInstalled ==>
        && host.log == old(host.log) + [EnvListCommand(binPath.value)]
        && r == Ok(EnvListCommand(binPath.value) !in host.failing)
    {
      if !isInstalled {
        return Raised(RuntimeError(MambaMissing));
      }
      var ok := host.Run(EnvListCommand(binPath.value));
      return Ok(ok);
    }

    method CreateEnv(host: Host) returns (r: Outcome<()>)
      requires Valid()
      modifies host`log
      ensures !isInstalled ==> r == Raised(RuntimeError(MambaMissing)) && host.log == old(host.log)
      ensures isInstalled ==>
        && host.log == old(host.log) + [CreateEnvCommand(binPath.value)]
        && r == Checked(CreateEnvCommand(binPath.value), host.failing)
    {
      if !isInstalled {
        return Raised(RuntimeError(MambaMissing));
      }
      r := host.RunChecked(CreateEnvCommand(binPath.value));
    }

    /** Links `local_bin/name` to the environment's binary of that name,
        unless the link exists already or there is nothing to link to. */
    method LinkBinary(host: Host, binName: string) returns (r: Outcome<()>)
      modifies host`fs
      ensures binPath.Some? ==>
        r == Ok(()) && host.fs == Linked(old(host.fs), context.localBin, binPath.value, binName)
      ensures binPath.None? ==>
        && host.fs == old(host.fs)
        && (r.Ok? <==> Join(context.localBin, binName) in host.fs.paths)
        && (r.Raised? ==> r.error == AttributeError)
    {
      var target := Join(context.localBin, binName);
      if target in host.fs.paths {
        return Ok(());
      }
      if binPath.None? {
        return Raised(AttributeError);
      }
      var source := Join(EnvBinDir(binPath.value), binName);
      if source !in host.fs.paths {
        return Ok(());
      }
      host.Symlink(target, source);
      return Ok(());
    }

    /** Creates the environment when mamba says it is missing, installs the
        batch into it, then links each package name in order. */
    method InstallPackage(host: Host, packages: Packages, force: bool) returns (r: Outcome<()>)
      requires Valid()
      modifies host`log, host`fs
      ensures !isInstalled ==>
        r == Raised(RuntimeError(MambaMissing)) && host.log == old(host.log) && host.fs == old(host.fs)
      ensures isInstalled ==>
        host.log == old(host.log) + PrepareAndInstall(binPath.value, packages, force, host.failing)
      ensures isInstalled ==>
        r == SeriesOutcome(PrepareAndInstall(binPath.value, packages, force, host.failing)[1..], host.failing)
      ensures isInstalled && r.Raised? ==> host.fs == old(host.fs)
      ensures isInstalled && r.Ok? ==>
        host.fs == LinkedAll(Installed(old(host.fs), host.creates, binPath.value, packages, force),
                             context.localBin, binPath.value, PackageNames(packages))
    {
      if !isInstalled {
        return Raised(RuntimeError(MambaMissing));
      }
      r := PrepareEnvAndInstall(host, packages, force);
      if r.Raised? {
        return;
      }
      LinkAll(host, PackageNames(packages));
    }

    /** The part of `install_package` before linking: query the environment,
        create it when the query failed, then run the install command, which
        creates the environment's binaries when it succeeds. */
    method PrepareEnvAndInstall(host: Host, packages: Packages, force: bool) returns (r: Outcome<()>)
      requires Valid() && isInstalled
      modifies host`log, host`fs
      ensures host.log == old(host.log) + PrepareAndInstall(binPath.value, packages, force, host.failing)
      ensures r == SeriesOutcome(PrepareAndInstall(binPath.value, packages, force, host.failing)[1..], host.failing)
      ensures host.fs == if r.Ok? then Installed(old(host.fs), host.creates, binPath.value, packages, force) else old(host.fs)
    {
      ghost var bin, f := binPath.value, host.failing;
      var cmd := MambaInstallCommand(binPath.value, packages, force);
      var envFound := CheckEnvExists(host);
      if envFound == Ok(false) {
        var created := CreateEnv(host);
        if created.Raised? {
          SeriesStep(CreateEnvCommand(bin), [], f);
          return created;
        }
        SeriesStep(CreateEnvCommand(bin), [Argv(cmd)], f);
      }
      SeriesStep(Argv(cmd), [], f);
      r := host.RunCheckedCreating(Argv(cmd));
    }

    /** The `for` loop of `install_package`: `_link_binary` for each name,
        in order. */
    method LinkAll(host: Host, names: seq<string>)
      requires binPath.Some?
      modifies host`fs
      ensures host.fs == LinkedAll(old(host.fs), context.localBin, binPath.value, names)
    {
      var i := 0;
      while i < |names|
        invariant 0 <= i <= |names|
        invariant LinkedAll(host.fs, context.localBin, binPath.value, names[i..]) == LinkedAll(old(host.fs), context.localBin, binPath.value, names)
      {
        assert names[i..][1..] == names[i + 1..];
        var _ := LinkBinary(host, names[i]);
        i := i + 1;
      }
      assert names[i..] == [];
    }
  }

  // ---------------------------------------------------------------- registry

  datatype ManagerKind = HomebrewKind | MiniforgeKind

  /** `PACKAGE_MANAGER_REGISTRY` after both class decorators ran. */
  function Registry(): (t: OrderedMap.Table<ManagerKind>)
    ensures OrderedMap.Valid(t)
  {
    OrderedMap.Put(OrderedMap.Put(OrderedMap.Empty(), "brew", HomebrewKind), "miniforge", MiniforgeKind)
  }

  function GetManager(name: string): (r: Outcome<ManagerKind>)
    ensures r.Ok? <==> name == "brew" || name == "miniforge"
    ensures name == "brew" ==> r == Ok(HomebrewKind)
    ensures name == "miniforge" ==> r == Ok(MiniforgeKind)
    ensures r.Raised? ==> r.error == ValueError("Package manager '" + name + "' is not registered.")
  {
    match OrderedMap.Lookup(Registry(), name)
    case Some(kind) => Ok(kind)
    case None => Raised(ValueError("Package manager '" + name + "' is not registered."))
  }

  function GetAllManagers(): (names: seq<string>)
    ensures names == ["brew", "miniforge"]
  {
    Registry().keys
  }
}
