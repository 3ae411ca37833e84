// core/app.py: applications whose commands come from a dictionary loaded from
// `commands.json`, the registry of application classes, and the Neovim
// installer.
module CoreApp {
  import opened Platform
  import opened Text
  import OrderedMap
  import SimpleApp

  /** `COMMANDS_DICT`, the contents of `commands.json`: lower-cased app name
      to the commands the app provides. */
  type CommandsDict = map<string, seq<string>>

  /** `_get_commands`: the dictionary entry for the lower-cased name, or the
      lower-cased name alone. Spaces are kept as they are. */
  function DerivedCommands(name: string, dict: CommandsDict): seq<string>
  {
    if Lower(name) in dict then dict[Lower(name)] else [Lower(name)]
  }

  /** With a dictionary entry the commands are exactly that entry. */
  lemma DerivedWithEntry(name: string, dict: CommandsDict)
    requires Lower(name) in dict
    ensures DerivedCommands(name, dict) == dict[Lower(name)]
  {
  }

  /** Without a dictionary entry the one command is the lower-cased name,
      spaces included; so for a name with a space and no override in either
      file, the command of app.py (hyphenated) is not the command here. */
  lemma DerivedWithoutEntry(name: string, dict: CommandsDict)
    requires Lower(name) !in dict
    ensures var commands := DerivedCommands(name, dict);
      && |commands| == 1
      && |commands[0]| == |name|
      && (forall i :: 0 <= i < |name| ==> commands[0][i] == LowerChar(name[i]))
      && (' ' in name ==> ' ' in commands[0])
    ensures ' ' in name && Lower(name) !in SimpleApp.CommandOverrides ==>
      DerivedCommands(name, dict)[0] != SimpleApp.CommandName(name)
  {
    var command := DerivedCommands(name, dict)[0];
    if ' ' in name {
      var i :| 0 <= i < |name| && name[i] == ' ';
      assert command[i] == ' ';
      if Lower(name) !in SimpleApp.CommandOverrides {
        SimpleApp.CommandNameDerived(name);
        assert SimpleApp.CommandName(name)[i] == '-';
      }
    }
  }

  /** Case does not matter to the lookup. */
  lemma DerivedCaseInsensitive(a: string, b: string, dict: CommandsDict)
    requires Lower(a) == Lower(b)
    ensures DerivedCommands(a, dict) == DerivedCommands(b, dict)
  {
  }

  /** `App(name=...)`: `commands` is not an argument and starts empty. */
  datatype App = App(name: string, commands: seq<string>)

  /** `__post_init__`: derive the commands only when there are none. */
  function PostInit(app: App, dict: CommandsDict): App
  {
    if app.commands == [] then app.(commands := DerivedCommands(app.name, dict)) else app
  }

  /** Running the derivation again changes nothing, even when the dictionary
      maps the name to an empty list. */
  lemma PostInitIdempotent(app: App, dict: CommandsDict)
    ensures PostInit(PostInit(app, dict), dict) == PostInit(app, dict)
    ensures PostInit(app, dict).name == app.name
    ensures app.commands != [] ==> PostInit(app, dict) == app
  {
  }

  function NewApp(name: string, dict: CommandsDict): (app: App)
    ensures app.name == name && app.commands == DerivedCommands(name, dict)
  {
    PostInit(App(name, []), dict)
  }

  /** `is_installed`: `which(commands[0])`; an empty list raises. */
  function IsInstalled(app: App, onPath: set<string>): (r: Outcome<bool>)
    ensures r.Raised? <==> app.commands == []
    ensures r.Raised? ==> r.error == IndexError
    ensures r.Ok? ==> (r.value <==> app.commands[0] in onPath)
  {
    if app.commands == [] then Raised(IndexError) else Ok(app.commands[0] in onPath)
  }

  /** Only the first command is looked at: the others may be missing. */
  lemma IsInstalledFirstOnly(a: App, b: App, onPath: set<string>)
    requires a.commands != [] && b.commands != [] && a.commands[0] == b.commands[0]
    ensures IsInstalled(a, onPath) == IsInstalled(b, onPath)
  {
  }

  /** The registered application classes. */
  datatype AppKind = NeovimKind

  /** `APP_REGISTRY` after the class decorators ran. */
  function Registry(): (t: OrderedMap.Table<AppKind>)
    ensures OrderedMap.Valid(t)
  {
    OrderedMap.Put(OrderedMap.Empty(), "neovim", NeovimKind)
  }

  function GetApp(name: string): (r: Outcome<AppKind>)
    ensures r.Ok? <==> name == "neovim"
    ensures r.Ok? ==> r.value == NeovimKind
    ensures r.Raised? ==> r.error == ValueError("App '" + name + "' is not registered.")
  {
    match OrderedMap.Lookup(Registry(), name)
    case Some(kind) => Ok(kind)
    case None => Raised(ValueError("App '" + name + "' is not registered."))
  }

  function GetAllApps(): (names: seq<string>)
    ensures names == ["neovim"]
  {
    Registry().keys
  }

  // ------------------------------------------------------------------ Neovim

  /** `Neovim()`: the name defaults to "neovim". */
  function NewNeovim(dict: CommandsDict): (app: App)
    ensures app.name == "neovim" && app.commands == DerivedCommands("neovim", dict)
  {
    NewApp("neovim", dict)
  }

  function NeovimBrewCommand(force: bool): (argv: seq<string>)
    ensures |argv| == if force then 4 else 3
    ensures argv[..3] == ["brew", "install", "neovim"]
    ensures force ==> argv[3] == "--force"
  {
    ["brew", "install", "neovim"] + (if force then ["--force"] else [])
  }

  /** `Path.home() / '.local' / 'bin' / 'nvim'` */
  function NvimPath(home: Path): Path
  {
    Join(Join(Join(home, ".local"), "bin"), "nvim")
  }

  const DownloadPrefix := "curl -L https://github.com/neovim/neovim/releases/latest/download/nvim-linux-$(uname -m).appimage -o "

  /** The download of the AppImage to the binary's place. */
  function Download(binPath: Path): Command
  {
    ShellLine([DownloadPrefix, Str(binPath)])
  }

  function MakeExecutable(binPath: Path): Command
  {
    ShellLine(["chmod +x ", Str(binPath)])
  }

  /** The commands of a download into `binPath`, in order. */
  function DownloadSteps(binPath: Path): seq<Command>
  {
    [Download(binPath), MakeExecutable(binPath)]
  }

  /** `Neovim.install`: through Homebrew when `brew` is on the PATH; else,
      unless a binary is already in `~/.local/bin` and no reinstall is forced,
      download it there and make it executable. */
  method NeovimInstall(host: Host, home: Path, force: bool) returns (r: Outcome<bool>)
    modifies host`log, host`fs
    ensures r.Ok? ==> r.value
    ensures "brew" in host.onPath ==>
      var install := Argv(NeovimBrewCommand(force));
      && host.fs == old(host.fs)
      && host.log == old(host.log) + [install]
      && r == ReturnsTrue(Checked(install, host.failing))
    ensures "brew" !in host.onPath && NvimPath(home) in old(host.fs.paths) && !force ==>
      r == Ok(true) && host.fs == old(host.fs) && host.log == old(host.log)
    ensures "brew" !in host.onPath && (NvimPath(home) !in old(host.fs.paths) || force) ==>
      && host.fs == Fs(old(host.fs.paths) + Ancestors(Join(Join(home, ".local"), "bin")), old(host.fs.links))
      && host.log == old(host.log) + Attempted(DownloadSteps(NvimPath(home)), host.failing)
      && r == ReturnsTrue(SeriesOutcome(DownloadSteps(NvimPath(home)), host.failing))
  {
    if "brew" in host.onPath {
      var install := Argv(NeovimBrewCommand(force));
      var ran := host.RunChecked(install);
      r := ReturnsTrue(ran);
    } else if NvimPath(home) in host.fs.paths && !force {
      r := Ok(true);
    } else {
      r := DownloadNvim(host, home);
    }
  }

  /** Make `~/.local/bin`, download the AppImage into it and make it
      executable, stopping at the first command that fails. */
  method DownloadNvim(host: Host, home: Path) returns (r: Outcome<bool>)
    modifies host`log, host`fs
    ensures host.fs == Fs(old(host.fs.paths) + Ancestors(Join(Join(home, ".local"), "bin")), old(host.fs.links))
    ensures host.log == old(host.log) + Attempted(DownloadSteps(NvimPath(home)), host.failing)
    ensures r == ReturnsTrue(SeriesOutcome(DownloadSteps(NvimPath(home)), host.failing))
  {
    var binPath := NvimPath(home);
    ParentOfJoin(Join(Join(home, ".local"), "bin"), "nvim");
    host.MakeDirs(Parent(binPath));
    SeriesStep(Download(binPath), [MakeExecutable(binPath)], host.failing);
    SeriesStep(MakeExecutable(binPath), [], host.failing);
    var downloaded := host.RunChecked(Download(binPath));
    if downloaded.Raised? {
      return Raised(downloaded.error);
    }
    var made := host.RunChecked(MakeExecutable(binPath));
    r := ReturnsTrue(made);
  }
}
