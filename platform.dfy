// The outside world the installer talks to: absolute paths, an abstract file
// system, external commands with an oracle for their exit status, Python's
// exceptions as values, and the shared environment record.
module Platform {

  datatype Option<T> = None | Some(value: T)

  /** An absolute path, as the list of its components below the root. */
  datatype Path = Path(parts: seq<string>)

  const Root: Path := Path([])

  /** `p / name` */
  function Join(p: Path, name: string): Path
  {
    Path(p.parts + [name])
  }

  /** `p.parent`; the parent of the root is the root itself. */
  function Parent(p: Path): Path
  {
    if p.parts == [] then p else Path(p.parts[..|p.parts| - 1])
  }

  lemma {:induction false} JoinInjective(a: Path, x: string, b: Path, y: string)
    requires Join(a, x) == Join(b, y)
    ensures a == b && x == y
  {
    var s, t := a.parts + [x], b.parts + [y];
    assert |a.parts| == |b.parts|;
    assert a.parts == s[..|a.parts|];
    assert b.parts == t[..|b.parts|];
    assert x == s[|a.parts|] && y == t[|b.parts|];
  }

  lemma ParentOfJoin(p: Path, name: string)
    ensures Parent(Join(p, name)) == p
  {
    assert (p.parts + [name])[..|p.parts|] == p.parts;
  }

  /** `str(p)`: components separated by '/', and "/" for the root. */
  function Str(p: Path): string
  {
    if p.parts == [] then "/" else JoinParts(p.parts)
  }

  function JoinParts(parts: seq<string>): string
  {
    if parts == [] then "" else "/" + parts[0] + JoinParts(parts[1..])
  }

  /** Every directory `mkdir(parents=True)` makes sure exists for `p`. */
  function Ancestors(p: Path): (r: set<Path>)
    ensures p in r && Root in r
    ensures forall i :: 0 <= i <= |p.parts| ==> Path(p.parts[..i]) in r
    ensures forall q :: q in r ==> |q.parts| <= |p.parts| && q.parts == p.parts[..|q.parts|]
  {
    assert p.parts[..|p.parts|] == p.parts && p.parts[..0] == [];
    set i | 0 <= i <= |p.parts| :: Path(p.parts[..i])
  }

  /** The part of the file system the installer observes: which paths exist,
      and the symbolic links it has made (link path -> what it points to). */
  datatype Fs = Fs(paths: set<Path>, links: map<Path, Path>)

  /** The file system with `created` added to the paths that exist. */
  function WithPaths(fs: Fs, created: set<Path>): Fs
  {
    Fs(fs.paths + created, fs.links)
  }

  /** The paths a command creates when it exits 0, as the oracle `creates`
      records them; a command it does not list creates nothing. */
  function CreatedBy(creates: map<Command, set<Path>>, c: Command): set<Path>
  {
    if c in creates then creates[c] else {}
  }

  /** An external command: an argument vector, or a line given to the shell.
      A shell line is kept as the pieces of the f-string that builds it (its
      text is their concatenation), so that two lines built from the same
      template compare piece by piece. */
  datatype Command = Argv(args: seq<string>) | ShellLine(pieces: seq<string>)

  /** The exceptions the source raises or lets escape. */
  datatype Error =
    | RuntimeError(message: string)
    | ValueError(message: string)
    | CalledProcessError(cmd: Command)
    | FileNotFoundError(file: string)
    | AttributeError          // a member access on `None`
    | IndexError              // `commands[0]` on an empty list

  /** A Python call either returns a value or raises. */
  datatype Outcome<T> = Ok(value: T) | Raised(error: Error)

  /** `run(c, check=True)` given the set of commands that exit nonzero. */
  function Checked(c: Command, failing: set<Command>): (r: Outcome<()>)
  {
    if c in failing then Raised(CalledProcessError(c)) else Ok(())
  }

  /** The commands a straight-line series of `run(..., check=True)` calls
      starts: all of them up to and including the first one that fails. */
  function Attempted(cmds: seq<Command>, failing: set<Command>): seq<Command>
  {
    if cmds == [] then []
    else if cmds[0] in failing then [cmds[0]]
    else [cmds[0]] + Attempted(cmds[1..], failing)
  }

  /** The first command of the series that exits nonzero, if any. */
  function FirstFailure(cmds: seq<Command>, failing: set<Command>): Option<Command>
  {
    if cmds == [] then None
    else if cmds[0] in failing then Some(cmds[0])
    else FirstFailure(cmds[1..], failing)
  }

  /** What the series raises: the first failure, or nothing. */
  function SeriesOutcome(cmds: seq<Command>, failing: set<Command>): Outcome<()>
  {
    match FirstFailure(cmds, failing)
    case None => Ok(())
    case Some(c) => Raised(CalledProcessError(c))
  }

  /** `Outcome<()>` of a command series, as the `-> bool` of an installer that returns True once its commands succeed. */
  function ReturnsTrue(o: Outcome<()>): (r: Outcome<bool>)
    ensures r.Ok? <==> o.Ok?
    ensures r.Ok? ==> r.value
    ensures r.Raised? ==> r.error == o.error
  {
    match o
    case Ok(_) => Ok(true)
    case Raised(e) => Raised(e)
  }

  /** One step of a series: the first command runs; the rest only if it succeeded. */
  lemma SeriesStep(c: Command, rest: seq<Command>, failing: set<Command>)
    ensures Attempted([c] + rest, failing) == if c in failing then [c] else [c] + Attempted(rest, failing)
    ensures FirstFailure([c] + rest, failing) == if c in failing then Some(c) else FirstFailure(rest, failing)
  {
    assert ([c] + rest)[0] == c && ([c] + rest)[1..] == rest;
  }

  /** A series raises nothing exactly when none of its commands fails, and
      then every command was started. */
  lemma {:induction false} SeriesSucceeds(cmds: seq<Command>, failing: set<Command>)
    ensures FirstFailure(cmds, failing) == None <==> forall i :: 0 <= i < |cmds| ==> cmds[i] !in failing
    ensures FirstFailure(cmds, failing) == None ==> Attempted(cmds, failing) == cmds
  {
    if cmds != [] && cmds[0] !in failing {
      SeriesSucceeds(cmds[1..], failing);
      if FirstFailure(cmds, failing) == None {
        forall i | 0 <= i < |cmds| ensures cmds[i] !in failing {
          if i > 0 { assert cmds[i] == cmds[1..][i - 1]; }
        }
      }
    }
  }

  /** A series starts its commands in order, from the first. */
  lemma {:induction false} AttemptedPrefix(cmds: seq<Command>, failing: set<Command>)
    ensures |Attempted(cmds, failing)| <= |cmds|
    ensures Attempted(cmds, failing) == cmds[..|Attempted(cmds, failing)|]
  {
    if cmds != [] && cmds[0] !in failing {
      AttemptedPrefix(cmds[1..], failing);
      var rest := Attempted(cmds[1..], failing);
      assert cmds[..1 + |rest|] == [cmds[0]] + cmds[1..][..|rest|];
    }
  }

  /** A series that raises stops at its first failing command. */
  lemma {:induction false} SeriesStopsAtFailure(cmds: seq<Command>, failing: set<Command>)
    ensures FirstFailure(cmds, failing).Some? ==>
              var run := Attempted(cmds, failing);
              && run != []
              && run[|run| - 1] == FirstFailure(cmds, failing).value && run[|run| - 1] in failing
              && forall i :: 0 <= i < |run| - 1 ==> run[i] !in failing
  {
    if cmds != [] && cmds[0] !in failing && FirstFailure(cmds, failing).Some? {
      SeriesStopsAtFailure(cmds[1..], failing);
      var rest := Attempted(cmds[1..], failing);
      var run := Attempted(cmds, failing);
      assert run == [cmds[0]] + rest;
      assert run[|run| - 1] == rest[|rest| - 1];
      forall i | 0 <= i < |run| - 1
        ensures run[i] !in failing
      {
        if i > 0 {
          assert run[i] == rest[i - 1];
        }
      }
    }
  }

  lemma SeriesFacts(cmds: seq<Command>, failing: set<Command>)
    ensures FirstFailure(cmds, failing) == None <==> forall i :: 0 <= i < |cmds| ==> cmds[i] !in failing
    ensures FirstFailure(cmds, failing) == None ==> Attempted(cmds, failing) == cmds
    ensures FirstFailure(cmds, failing).Some? ==>
              var run := Attempted(cmds, failing);
              && run != [] && |run| <= |cmds| && run == cmds[..|run|]
              && run[|run| - 1] == FirstFailure(cmds, failing).value && run[|run| - 1] in failing
              && forall i :: 0 <= i < |run| - 1 ==> run[i] !in failing
  {
    SeriesSucceeds(cmds, failing);
    AttemptedPrefix(cmds, failing);
    SeriesStopsAtFailure(cmds, failing);
  }

  /** The record produced by probing the machine: whether sudo works, the
      home directory and the user-local binary directory. Bootstrapping
      Homebrew sets `hasSudo`, so it is a field the installer updates. */
  class EnvironmentContext {
    var hasSudo: bool
    const home: Path
    const localBin: Path

    constructor (hasSudo: bool, home: Path, localBin: Path)
      ensures this.hasSudo == hasSudo && this.home == home && this.localBin == localBin
    {
      this.hasSudo := hasSudo;
      this.home := home;
      this.localBin := localBin;
    }
  }

  /** The machine: its file system, the log of commands started so far, the
      commands `shutil.which` resolves, which commands exit nonzero, and
      the paths an installing command creates when it succeeds. */
  class Host {
    var fs: Fs
    var log: seq<Command>
    const onPath: set<string>
    const failing: set<Command>
    const creates: map<Command, set<Path>>

    constructor (fs: Fs, onPath: set<string>, failing: set<Command>, creates: map<Command, set<Path>>)
      ensures this.fs == fs && log == [] && this.onPath == onPath && this.failing == failing
      ensures this.creates == creates
    {
      this.fs := fs;
      this.log := [];
      this.onPath := onPath;
      this.failing := failing;
      this.creates := creates;
    }

    /** `run(c)` without `check`: reports whether the exit status was 0. */
    method Run(c: Command) returns (ok: bool)
      modifies this`log
      ensures log == old(log) + [c]
      ensures ok == (c !in failing)
    {
      log := log + [c];
      ok := c !in failing;
    }

    /** `run(c, check=True)`. */
    method RunChecked(c: Command) returns (r: Outcome<()>)
      modifies this`log
      ensures log == old(log) + [c]
      ensures r == Checked(c, failing)
    {
      log := log + [c];
      r := Checked(c, failing);
    }

    /** `run(c, check=True)` for a command that installs files: once it
        exits 0, the paths `creates` lists for it exist. */
    method RunCheckedCreating(c: Command) returns (r: Outcome<()>)
      modifies this`log, this`fs
      ensures log == old(log) + [c]
      ensures r == Checked(c, failing)
      ensures fs == if r.Ok? then WithPaths(old(fs), CreatedBy(creates, c)) else old(fs)
    {
      r := RunChecked(c);
      if r.Ok? {
        fs := WithPaths(fs, CreatedBy(creates, c));
      }
    }

    /** `target.symlink_to(source)`. */
    method Symlink(target: Path, source: Path)
      modifies this`fs
      ensures fs == Fs(old(fs).paths + {target}, old(fs).links[target := source])
    {
      fs := Fs(fs.paths + {target}, fs.links[target := source]);
    }

    /** `p.mkdir(parents=True, exist_ok=True)`. */
    method MakeDirs(p: Path)
      modifies this`fs
      ensures fs == Fs(old(fs).paths + Ancestors(p), old(fs).links)
    {
      fs := Fs(fs.paths + Ancestors(p), fs.links);
    }
  }
}
