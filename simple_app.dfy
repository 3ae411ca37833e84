// app.py: an application known by its name, the one command derived from that
// name, the filter that reads names out of an app-list file, and the registry
// the installer fills from those files.
module SimpleApp {
  import opened Platform
  import opened Text
  import OrderedMap

  /** `command_dict`: names whose command differs from the name. */
  const CommandOverrides: map<string, string> := map["neovim" := "nvim"]

  /** `_get_command_name`: the lower-cased name with spaces turned into
      hyphens, unless the lower-cased name has an override. */
  function CommandName(name: string): string
  {
    if Lower(name) in CommandOverrides then CommandOverrides[Lower(name)]
    else ReplaceChar(Lower(name), ' ', '-')
  }

  /** Without an override the command is the name, lower-cased, with every
      space a hyphen: same length, no space, no upper-case letter. */
  lemma CommandNameDerived(name: string)
    requires Lower(name) !in CommandOverrides
    ensures var command := CommandName(name);
      && |command| == |name|
      && (forall i :: 0 <= i < |name| ==> command[i] == if name[i] == ' ' then '-' else LowerChar(name[i]))
      && ' ' !in command
      && (forall i :: 0 <= i < |command| ==> !('A' <= command[i] <= 'Z'))
  {
    var command := CommandName(name);
    forall i | 0 <= i < |name|
      ensures command[i] == if name[i] == ' ' then '-' else LowerChar(name[i])
    {
      assert Lower(name)[i] == ' ' <==> name[i] == ' ';
    }
  }

  /** Every spelling of "neovim" runs `nvim`. */
  lemma NeovimCommand(name: string)
    requires Lower(name) == "neovim"
    ensures CommandName(name) == "nvim"
  {
  }

  /** `App(name=...)`: `command` is not an argument; `__post_init__` finds it
      empty and derives it from the name. */
  datatype App = App(name: string, command: string)

  function PostInit(app: App): App
  {
    if app.command == "" then app.(command := CommandName(app.name)) else app
  }

  function NewApp(name: string): (app: App)
    ensures app.name == name && app.command == CommandName(name)
  {
    PostInit(App(name, ""))
  }

  /** `App.is_installed`: its command resolves on the PATH. */
  predicate IsInstalled(app: App, onPath: set<string>)
  {
    app.command in onPath
  }

  /** A new app counts as installed exactly when its derived command is on
      the PATH; for Neovim that command is `nvim`. */
  lemma NewAppInstalled(name: string, onPath: set<string>)
    ensures IsInstalled(NewApp(name), onPath) <==> CommandName(name) in onPath
    ensures Lower(name) == "neovim" ==> (IsInstalled(NewApp(name), onPath) <==> "nvim" in onPath)
  {
    if Lower(name) == "neovim" {
      NeovimCommand(name);
    }
  }

  /** A line of an app list names an app when it is not blank and does not
      itself start with '#'; the check is on the raw line. */
  predicate Keep(line: string)
  {
    Strip(line) != "" && !StartsWith(line, "#")
  }

  /** The names `register_from_txt` takes from the lines of a file. */
  function AppNames(lines: seq<string>): seq<string>
  {
    if lines == [] then []
    else (if Keep(lines[0]) then [Strip(lines[0])] else []) + AppNames(lines[1..])
  }

  /** Every kept line contributes its stripped text. */
  lemma {:induction false} AppNamesComplete(lines: seq<string>)
    ensures forall i :: 0 <= i < |lines| && Keep(lines[i]) ==> Strip(lines[i]) in AppNames(lines)
  {
    if lines != [] {
      AppNamesComplete(lines[1..]);
      forall i | 1 <= i < |lines| && Keep(lines[i])
        ensures Strip(lines[i]) in AppNames(lines)
      {
        assert lines[i] == lines[1..][i - 1];
      }
    }
  }

  /** Every name comes from a kept line of the file. */
  lemma {:induction false} AppNamesSound(lines: seq<string>)
    ensures forall n :: n in AppNames(lines) ==>
              exists i :: 0 <= i < |lines| && Keep(lines[i]) && Strip(lines[i]) == n
  {
    if lines != [] {
      AppNamesSound(lines[1..]);
      forall n | n in AppNames(lines)
        ensures exists i :: 0 <= i < |lines| && Keep(lines[i]) && Strip(lines[i]) == n
      {
        if !(Keep(lines[0]) && n == Strip(lines[0])) {
          assert n in AppNames(lines[1..]);
          var j :| 0 <= j < |lines[1..]| && Keep(lines[1..][j]) && Strip(lines[1..][j]) == n;
          assert lines[j + 1] == lines[1..][j];
        }
      }
    }
  }

  /** No name is empty or carries surrounding blanks. */
  lemma AppNamesTrimmed(lines: seq<string>)
    ensures forall n :: n in AppNames(lines) ==> n != "" && Strip(n) == n
  {
    AppNamesSound(lines);
    forall n | n in AppNames(lines)
      ensures n != "" && Strip(n) == n
    {
      var i :| 0 <= i < |lines| && Keep(lines[i]) && Strip(lines[i]) == n;
      StripFacts(lines[i]);
    }
  }

  /** Names keep the order of the file: the names of two consecutive pieces
      are the names of the first followed by those of the second. */
  lemma {:induction false} AppNamesAppend(a: seq<string>, b: seq<string>)
    ensures AppNames(a + b) == AppNames(a) + AppNames(b)
  {
    if a != [] {
      assert (a + b)[1..] == a[1..] + b;
      AppNamesAppend(a[1..], b);
    } else {
      assert a + b == b;
    }
  }

  /** A comment indented by a blank is not recognised: the line is kept,
      as a name that starts with '#'. */
  lemma IndentedCommentKept(comment: string)
    requires |comment| >= 1 && comment[0] == '#' && !IsSpace(comment[|comment| - 1])
    ensures AppNames([" " + comment]) == [comment]
  {
    var line := " " + comment;
    StripIndented(comment);
    assert !StartsWith(line, "#") by {
      assert line[..1] != "#";
    }
    AppNamesOfOne(line);
  }

  /** A single line yields its stripped text exactly when it is kept. */
  lemma AppNamesOfOne(line: string)
    ensures AppNames([line]) == if Keep(line) then [Strip(line)] else []
  {
    assert [line][0] == line && [line][1..] == [];
  }

  /** One leading blank before a text without surrounding white space is
      all that stripping removes. */
  lemma StripIndented(text: string)
    requires |text| >= 1 && !IsSpace(text[0]) && !IsSpace(text[|text| - 1])
    ensures Strip(" " + text) == text
  {
    var line := " " + text;
    assert line[0] == ' ' && line[1..] == text;
    assert TrimLeft(line) == TrimLeft(text);
    TrimLeftFixed(text);
    TrimRightFixed(text);
  }

  /** The table after `register(App(name))` for every name in turn. */
  function RegisterAll(t: OrderedMap.Table<App>, names: seq<string>): (r: OrderedMap.Table<App>)
    requires OrderedMap.Valid(t)
    ensures OrderedMap.Valid(r)
    decreases names
  {
    if names == [] then t else RegisterAll(OrderedMap.Put(t, names[0], NewApp(names[0])), names[1..])
  }

  /** Registering never moves or drops a key already there. */
  lemma {:induction false} RegisterAllPrefix(t: OrderedMap.Table<App>, names: seq<string>)
    requires OrderedMap.Valid(t)
    ensures |t.keys| <= |RegisterAll(t, names).keys|
    ensures forall i :: 0 <= i < |t.keys| ==> RegisterAll(t, names).keys[i] == t.keys[i]
    decreases names
  {
    if names != [] {
      var next := OrderedMap.Put(t, names[0], NewApp(names[0]));
      RegisterAllPrefix(next, names[1..]);
      forall i | 0 <= i < |t.keys|
        ensures next.keys[i] == t.keys[i]
      {
        assert next.keys[..|t.keys|][i] == next.keys[i];
      }
    }
  }

  /** The keys afterwards are the old keys and the registered names. */
  lemma {:induction false} RegisterAllKeySet(t: OrderedMap.Table<App>, names: seq<string>)
    requires OrderedMap.Valid(t)
    ensures forall k :: k in RegisterAll(t, names).keys <==> k in t.keys || k in names
    decreases names
  {
    if names != [] {
      var next := OrderedMap.Put(t, names[0], NewApp(names[0]));
      RegisterAllKeySet(next, names[1..]);
      assert forall k :: k in names <==> k == names[0] || k in names[1..];
    }
  }

  /** Each registered name maps to its App; other keys keep their value. */
  lemma {:induction false} RegisterAllLookup(t: OrderedMap.Table<App>, names: seq<string>)
    requires OrderedMap.Valid(t)
    ensures var r := RegisterAll(t, names);
      && (forall k :: k in names ==> OrderedMap.Lookup(r, k) == Some(NewApp(k)))
      && (forall k :: k !in names ==> OrderedMap.Lookup(r, k) == OrderedMap.Lookup(t, k))
    decreases names
  {
    if names != [] {
      var next := OrderedMap.Put(t, names[0], NewApp(names[0]));
      RegisterAllLookup(next, names[1..]);
      assert forall k :: k in names <==> k == names[0] || k in names[1..];
    }
  }

  lemma RegisterAllResult(t: OrderedMap.Table<App>, names: seq<string>)
    requires OrderedMap.Valid(t)
    ensures var r := RegisterAll(t, names);
      && |t.keys| <= |r.keys| && (forall i :: 0 <= i < |t.keys| ==> r.keys[i] == t.keys[i])
      && (forall k :: k in r.keys <==> k in t.keys || k in names)
      && (forall k :: k in names ==> OrderedMap.Lookup(r, k) == Some(NewApp(k)))
      && (forall k :: k !in names ==> OrderedMap.Lookup(r, k) == OrderedMap.Lookup(t, k))
  {
    RegisterAllPrefix(t, names);
    RegisterAllKeySet(t, names);
    RegisterAllLookup(t, names);
  }

  /** Registering two batches one after the other is registering both. */
  lemma {:induction false} RegisterAllAppend(t: OrderedMap.Table<App>, a: seq<string>, b: seq<string>)
    requires OrderedMap.Valid(t)
    ensures RegisterAll(t, a + b) == RegisterAll(RegisterAll(t, a), b)
    decreases a
  {
    if a == [] {
      assert a + b == b;
    } else {
      assert (a + b)[0] == a[0] && (a + b)[1..] == a[1..] + b;
      RegisterAllAppend(OrderedMap.Put(t, a[0], NewApp(a[0])), a[1..], b);
    }
  }

  /** `AppRegistry`: the dict of apps by name, in registration order. */
  class AppRegistry {
    var registry: OrderedMap.Table<App>

    /** Each app is stored under its own name. */
    ghost predicate Valid()
      reads this
    {
      && OrderedMap.Valid(registry)
      && forall k :: k in registry.entries ==> registry.entries[k].name == k
    }

    constructor ()
      ensures Valid() && registry == OrderedMap.Empty()
    {
      registry := OrderedMap.Empty();
    }

    method Register(app: App)
      requires Valid()
      modifies this
      ensures Valid()
      ensures registry == OrderedMap.Put(old(registry), app.name, app)
    {
      registry := OrderedMap.Put(registry, app.name, app);
    }

    method RegisterFromTxt(lines: seq<string>)
      requires Valid()
      modifies this
      ensures Valid()
      ensures registry == RegisterAll(old(registry), AppNames(lines))
    {
      var names := AppNames(lines);
      var i := 0;
      while i < |names|
        invariant 0 <= i <= |names|
        invariant Valid()
        invariant RegisterAll(registry, names[i..]) == RegisterAll(old(registry), names)
      {
        assert names[i..][0] == names[i] && names[i..][1..] == names[i + 1..];
        Register(NewApp(names[i]));
        i := i + 1;
      }
    }

    function GetApp(name: string): (r: Outcome<App>)
      reads this
      requires Valid()
      ensures r.Ok? <==> name in registry.keys
      ensures r.Ok? ==> r.value.name == name && OrderedMap.Lookup(registry, name) == Some(r.value)
      ensures r.Raised? ==> r.error == ValueError("App '" + name + "' is not registered.")
    {
      if name !in registry.entries then Raised(ValueError("App '" + name + "' is not registered."))
      else Ok(registry.entries[name])
    }

    /** `iterate_apps`: the apps in registration order. */
    function IterateApps(): (apps: seq<App>)
      reads this
      requires Valid()
      ensures |apps| == |registry.keys|
      ensures forall i :: 0 <= i < |apps| ==> apps[i].name == registry.keys[i]
      ensures forall i :: 0 <= i < |apps| ==> OrderedMap.Lookup(registry, registry.keys[i]) == Some(apps[i])
    {
      OrderedMap.Values(registry)
    }
  }
}
