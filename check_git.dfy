// utils/check_git.py: recognise the Linux distribution from os-release text
// or from the package managers present, install git with that
// distribution's package manager, and decide whether git is ready.
module CheckGit {
  import opened Platform
  import opened Text

  /** An os-release file as the probe finds it. `Unreadable` is a file that
      exists but whose reading raised; the probe reports it and moves on. */
  datatype ReleaseFile = Missing | Unreadable | Readable(content: string)

  const KnownDistros: set<string> := {"debian", "fedora", "arch", "alpine", "suse"}

  /** `command_exists` */
  predicate CommandExists(command: string, onPath: set<string>)
  {
    command in onPath
  }

  predicate Mentions(content: string, words: seq<string>)
  {
    exists i :: 0 <= i < |words| && Contains(Lower(content), words[i])
  }

  /** The keyword groups, tested in this order; the first group with a
      keyword in the lower-cased text decides. */
  const DebianWords := ["debian", "ubuntu", "mint"]
  const FedoraWords := ["fedora", "rhel", "centos", "rocky", "alma"]
  const ArchWords := ["arch", "manjaro"]
  const AlpineWords := ["alpine"]
  const SuseWords := ["opensuse", "suse"]

  /** The classification of one readable os-release text. */
  function Classify(content: string): (r: Option<string>)
    ensures r.Some? ==> r.value in KnownDistros
    ensures r.None? <==>
      !Mentions(content, DebianWords) && !Mentions(content, FedoraWords) && !Mentions(content, ArchWords)
      && !Mentions(content, AlpineWords) && !Mentions(content, SuseWords)
  {
    if Mentions(content, DebianWords) then Some("debian")
    else if Mentions(content, FedoraWords) then Some("fedora")
    else if Mentions(content, ArchWords) then Some("arch")
    else if Mentions(content, AlpineWords) then Some("alpine")
    else if Mentions(content, SuseWords) then Some("suse")
    else None
  }

  /** Each keyword group names its distribution, and a group decides only
      when no earlier group matched. */
  lemma ClassifyGroups(content: string)
    ensures Mentions(content, DebianWords) ==> Classify(content) == Some("debian")
    ensures !Mentions(content, DebianWords) && Mentions(content, FedoraWords) ==> Classify(content) == Some("fedora")
    ensures !Mentions(content, DebianWords) && !Mentions(content, FedoraWords) && Mentions(content, ArchWords) ==>
      Classify(content) == Some("arch")
    ensures (!Mentions(content, DebianWords) && !Mentions(content, FedoraWords) && !Mentions(content, ArchWords)
             && Mentions(content, AlpineWords)) ==> Classify(content) == Some("alpine")
    ensures (!Mentions(content, DebianWords) && !Mentions(content, FedoraWords) && !Mentions(content, ArchWords)
             && !Mentions(content, AlpineWords) && Mentions(content, SuseWords)) ==> Classify(content) == Some("suse")
  {
  }

  /** Only the lower-cased text matters. */
  lemma ClassifyIgnoresCase(content: string)
    ensures Classify(content) == Classify(Lower(content))
  {
    LowerIdempotent(content);
  }

  /** Groups are tried in order: a text naming both Ubuntu and Arch is Debian,
      one naming both CentOS and Manjaro is Fedora. */
  lemma ClassifyFirstGroupWins(content: string)
    ensures Contains(Lower(content), "ubuntu") ==> Classify(content) == Some("debian")
    ensures Contains(Lower(content), "centos") && !Mentions(content, DebianWords) ==> Classify(content) == Some("fedora")
    ensures Contains(Lower(content), "manjaro") && !Mentions(content, DebianWords) && !Mentions(content, FedoraWords) ==>
      Classify(content) == Some("arch")
  {
    if Contains(Lower(content), "ubuntu") {
      assert DebianWords[1] == "ubuntu";
    }
    if Contains(Lower(content), "centos") {
      assert FedoraWords[2] == "centos";
    }
    if Contains(Lower(content), "manjaro") {
      assert ArchWords[1] == "manjaro";
    }
  }

  /** The `for` loop over the two os-release paths: the first readable file
      that classifies decides; the others are passed over. */
  function FromReleaseFiles(files: seq<ReleaseFile>): (r: Option<string>)
    ensures r.Some? ==> r.value in KnownDistros
  {
    if files == [] then None
    else match files[0]
      case Readable(content) =>
        if Classify(content).Some? then Classify(content) else FromReleaseFiles(files[1..])
      case _ => FromReleaseFiles(files[1..])
  }

  /** The package-manager fallback, in its order. */
  function Fallback(onPath: set<string>): (r: string)
    ensures r in KnownDistros + {"unknown"}
    ensures r == "unknown" <==> forall c :: c in ["apt-get", "dnf", "yum", "pacman", "apk", "zypper"] ==> c !in onPath
    ensures "apt-get" in onPath ==> r == "debian"
    ensures r == "fedora" <==> "apt-get" !in onPath && ("dnf" in onPath || "yum" in onPath)
    ensures r == "arch" <==> "pacman" in onPath && "apt-get" !in onPath && "dnf" !in onPath && "yum" !in onPath
    ensures r == "alpine" <==>
      "apk" in onPath && "apt-get" !in onPath && "dnf" !in onPath && "yum" !in onPath && "pacman" !in onPath
    ensures r == "suse" <==>
      "zypper" in onPath && "apt-get" !in onPath && "dnf" !in onPath && "yum" !in onPath && "pacman" !in onPath
      && "apk" !in onPath
  {
    if CommandExists("apt-get", onPath) then "debian"
    else if CommandExists("dnf", onPath) || CommandExists("yum", onPath) then "fedora"
    else if CommandExists("pacman", onPath) then "arch"
    else if CommandExists("apk", onPath) then "alpine"
    else if CommandExists("zypper", onPath) then "suse"
    else "unknown"
  }

  /** `detect_distro` given `/etc/os-release` and `/usr/lib/os-release`. */
  function DetectDistro(etc: ReleaseFile, usr: ReleaseFile, onPath: set<string>): (r: string)
    ensures r in KnownDistros + {"unknown"}
    ensures etc.Readable? && Classify(etc.content).Some? ==> r == Classify(etc.content).value
  {
    match FromReleaseFiles([etc, usr])
    case Some(d) => d
    case None => Fallback(onPath)
  }

  /** A file that cannot be read counts as a missing one, and so does a
      readable one that names no known distribution: the probe goes on to
      the second file and then to the package managers. */
  lemma DetectFallsThrough(etc: ReleaseFile, usr: ReleaseFile, onPath: set<string>)
    ensures DetectDistro(Unreadable, usr, onPath) == DetectDistro(Missing, usr, onPath)
    ensures etc.Readable? && Classify(etc.content).None? ==>
      DetectDistro(etc, usr, onPath) == DetectDistro(Missing, usr, onPath)
    ensures (etc.Missing? || etc.Unreadable?) && (usr.Missing? || usr.Unreadable?) ==>
      DetectDistro(etc, usr, onPath) == Fallback(onPath)
    ensures !etc.Readable? && usr.Readable? && Classify(usr.content).Some? ==>
      DetectDistro(etc, usr, onPath) == Classify(usr.content).value
    ensures !(etc.Readable? && Classify(etc.content).Some?) && !(usr.Readable? && Classify(usr.content).Some?) ==>
      DetectDistro(etc, usr, onPath) == Fallback(onPath)
  {
    assert [Unreadable, usr][1..] == [usr] && [Missing, usr][1..] == [usr] && [etc, usr][1..] == [usr];
    assert [usr][0] == usr && [usr][1..] == [];
    var second := FromReleaseFiles([usr]);
    assert FromReleaseFiles([]) == None;
    assert second == if usr.Readable? && Classify(usr.content).Some? then Classify(usr.content) else None by {
      if usr.Readable? && Classify(usr.content).None? {
        assert second == FromReleaseFiles([]);
      }
    }
    assert !etc.Readable? ==> FromReleaseFiles([etc, usr]) == second;
  }

  // -------------------------------------------------------------- installers

  /** What an installer did: whether it reports success, and the commands it
      started. A failing command is caught and turned into `False`. */
  datatype Attempt = Attempt(ok: bool, ran: seq<Command>)

  /** A series of `run(..., check=True)` calls inside `try`/`except
      CalledProcessError`. */
  function RunCaught(cmds: seq<Command>, failing: set<Command>): (r: Attempt)
    ensures r.ok <==> forall i :: 0 <= i < |cmds| ==> cmds[i] !in failing
    ensures r.ok ==> r.ran == cmds
    ensures !r.ok ==> r.ran != [] && |r.ran| <= |cmds| && r.ran == cmds[..|r.ran|] && r.ran[|r.ran| - 1] in failing
    ensures !r.ok ==> forall i :: 0 <= i < |r.ran| - 1 ==> r.ran[i] !in failing
  {
    SeriesFacts(cmds, failing);
    Attempt(FirstFailure(cmds, failing).None?, Attempted(cmds, failing))
  }

  const AptUpdate := Argv(["sudo", "apt-get", "update", "-y"])
  const AptInstall := Argv(["sudo", "apt-get", "install", "-y", "git"])
  const DnfInstall := Argv(["sudo", "dnf", "install", "-y", "git"])
  const YumInstall := Argv(["sudo", "yum", "install", "-y", "git"])
  const PacmanInstall := Argv(["sudo", "pacman", "-Sy", "--noconfirm", "git"])
  const ApkAdd := Argv(["sudo", "apk", "add", "git"])
  const ZypperInstall := Argv(["sudo", "zypper", "install", "-y", "git"])
  const GitVersion := Argv(["git", "--version"])

  /** `install_git_debian`: update the package lists, then install. */
  function InstallDebian(failing: set<Command>): (r: Attempt)
    ensures r.ran == if AptUpdate in failing then [AptUpdate] else [AptUpdate, AptInstall]
    ensures r.ok <==> AptUpdate !in failing && AptInstall !in failing
  {
    var cmds := [AptUpdate, AptInstall];
    assert cmds[0] == AptUpdate && cmds[1] == AptInstall;
    RunCaught(cmds, failing)
  }

  /** `install_git_fedora`: dnf if present, else yum, else give up at once. */
  function InstallFedora(onPath: set<string>, failing: set<Command>): (r: Attempt)
    ensures CommandExists("dnf", onPath) ==> r.ran == [DnfInstall]
    ensures !CommandExists("dnf", onPath) && CommandExists("yum", onPath) ==> r.ran == [YumInstall]
    ensures !CommandExists("dnf", onPath) && !CommandExists("yum", onPath) ==> r == Attempt(false, [])
    ensures r.ok <==> r.ran != [] && r.ran[0] !in failing
  {
    if CommandExists("dnf", onPath) then RunCaught([DnfInstall], failing)
    else if CommandExists("yum", onPath) then RunCaught([YumInstall], failing)
    else Attempt(false, [])
  }

  /** `install_git_arch`: one pacman command. */
  function InstallArch(failing: set<Command>): (r: Attempt)
    ensures r == Attempt(PacmanInstall !in failing, [PacmanInstall])
  {
    RunCaught([PacmanInstall], failing)
  }

  /** `install_git_alpine`: one apk command. */
  function InstallAlpine(failing: set<Command>): (r: Attempt)
    ensures r == Attempt(ApkAdd !in failing, [ApkAdd])
  {
    RunCaught([ApkAdd], failing)
  }

  /** `install_git_suse`: one zypper command. */
  function InstallSuse(failing: set<Command>): (r: Attempt)
    ensures r == Attempt(ZypperInstall !in failing, [ZypperInstall])
  {
    RunCaught([ZypperInstall], failing)
  }

  /** The dispatch of `install_git` on the detected distribution. */
  function InstallFor(distro: string, onPath: set<string>, failing: set<Command>): (r: Attempt)
    ensures distro !in KnownDistros ==> r == Attempt(false, [])
    ensures r.ok ==> distro in KnownDistros && r.ran != [] && forall i :: 0 <= i < |r.ran| ==> r.ran[i] !in failing
    ensures distro == "debian" ==>
      (r.ran == (if AptUpdate in failing then [AptUpdate] else [AptUpdate, AptInstall])
       && (r.ok <==> AptUpdate !in failing && AptInstall !in failing))
    ensures distro == "fedora" ==> r == InstallFedora(onPath, failing)
    ensures distro == "arch" ==> r == Attempt(PacmanInstall !in failing, [PacmanInstall])
    ensures distro == "alpine" ==> r == Attempt(ApkAdd !in failing, [ApkAdd])
    ensures distro == "suse" ==> r == Attempt(ZypperInstall !in failing, [ZypperInstall])
  {
    if distro == "debian" then InstallDebian(failing)
    else if distro == "fedora" then InstallFedora(onPath, failing)
    else if distro == "arch" then InstallArch(failing)
    else if distro == "alpine" then InstallAlpine(failing)
    else if distro == "suse" then InstallSuse(failing)
    else Attempt(false, [])
  }

  /** Debian refreshes its package lists first and installs only after
      that succeeded. */
  lemma DebianUpdatesFirst(failing: set<Command>)
    ensures var r := InstallFor("debian", {}, failing);
      && r.ran[0] == AptUpdate
      && (AptInstall in r.ran <==> AptUpdate !in failing)
  {
    SeriesStep(AptUpdate, [AptInstall], failing);
    SeriesStep(AptInstall, [], failing);
    assert [AptUpdate, AptInstall] == [AptUpdate] + [AptInstall];
    assert [AptInstall] == [AptInstall] + [];
  }

  /** `install_git`: detect, then dispatch. */
  function InstallGit(etc: ReleaseFile, usr: ReleaseFile, onPath: set<string>, failing: set<Command>): Attempt
  {
    InstallFor(DetectDistro(etc, usr, onPath), onPath, failing)
  }

  /** `ensure_git_installed`. `onPathAfter` is what `which` finds once the
      installer has run. */
  function EnsureGitInstalled(etc: ReleaseFile, usr: ReleaseFile, onPath: set<string>, onPathAfter: set<string>,
                              failing: set<Command>): (r: Attempt)
    ensures r.ok <==>
      CommandExists("git", onPath) || (InstallGit(etc, usr, onPath, failing).ok && CommandExists("git", onPathAfter))
    ensures CommandExists("git", onPath) ==> r.ran == [GitVersion]
    ensures r.ok && !CommandExists("git", onPath) ==> r.ran == InstallGit(etc, usr, onPath, failing).ran + [GitVersion]
    ensures !r.ok ==> r.ran == InstallGit(etc, usr, onPath, failing).ran
  {
    if CommandExists("git", onPath) then Attempt(true, [GitVersion])
    else
      var installed := InstallGit(etc, usr, onPath, failing);
      if installed.ok && CommandExists("git", onPathAfter) then Attempt(true, installed.ran + [GitVersion])
      else Attempt(false, installed.ran)
  }

  /** With git already present nothing is installed; on an unrecognised
      system nothing is run and the answer is no. */
  lemma EnsureGitCases(etc: ReleaseFile, usr: ReleaseFile, onPath: set<string>, onPathAfter: set<string>, failing: set<Command>)
    ensures CommandExists("git", onPath) ==> EnsureGitInstalled(etc, usr, onPath, onPathAfter, failing) == Attempt(true, [GitVersion])
    ensures !CommandExists("git", onPath) && DetectDistro(etc, usr, onPath) == "unknown" ==>
      EnsureGitInstalled(etc, usr, onPath, onPathAfter, failing) == Attempt(false, [])
  {
  }
}
