/** Global flags: parsing them at the head of an argument list, and the argument
    list start hands to the daemon it spawns. */
module Flags {
  import opened Text

  datatype Settings = Settings(dbPath: string, pidFile: string, json: bool, ignorePaths: seq<string>)

  datatype FlagError = InvalidBool(value: string) | NeedsArgument(name: string)

  datatype Outcome = Done(settings: Settings, rest: seq<string>) | Failed(settings: Settings, error: FlagError)

  // ---- one argument ----

  datatype Flag = Flag(name: string, value: Option<string>)

  /** "-name" or "--name", with or without "=value"; the empty name for anything else. */
  function SplitFlag(arg: string): Flag {
    if "--" <= arg then CutAtEquals(arg[2..])
    else if "-" <= arg && arg != "-" then CutAtEquals(arg[1..])
    else Flag("", None)
  }

  function CutAtEquals(arg: string): Flag {
    if arg == "" then Flag("", None) else
      var i := IndexFrom(arg, "=", 0);
      if i.Some? then Flag(arg[..i.value], Some(arg[i.value + 1..])) else Flag(arg, None)
  }

  /** One dash or two. */
  predicate Dashes(dash: string, name: string) {
    name != "" && '=' !in name && (dash == "--" || (dash == "-" && name[0] != '-'))
  }

  lemma PlainFlag(dash: string, name: string)
    requires Dashes(dash, name)
    ensures SplitFlag(dash + name) == Flag(name, None)
  {
    DashIsDropped(dash, name);
    forall k: nat | k < |name|
      ensures !OccursAt(name, "=", k)
    {
      assert name[k..k + 1][0] == name[k] != '=';
    }
  }

  lemma DashIsDropped(dash: string, arg: string)
    requires arg != "" && (dash == "--" || (dash == "-" && arg[0] != '-'))
    ensures SplitFlag(dash + arg) == CutAtEquals(arg)
  {
    var whole := dash + arg;
    assert whole[|dash|..] == arg && dash <= whole;
    assert dash == "-" ==> whole[1] == arg[0] && !("--" <= whole);
  }

  /** Everything after the first equals sign is the value, equals signs included. */
  lemma InlineFlag(dash: string, name: string, v: string)
    requires Dashes(dash, name)
    ensures SplitFlag(dash + name + "=" + v) == Flag(name, Some(v))
  {
    var arg := name + "=" + v;
    assert dash + name + "=" + v == dash + arg && arg[0] == name[0];
    DashIsDropped(dash, arg);
    assert arg[|name|..|name| + 1] == "=" && arg[..|name|] == name && arg[|name| + 1..] == v;
    forall k: nat | k < |name|
      ensures !OccursAt(arg, "=", k)
    {
      assert arg[k..k + 1][0] == arg[k] == name[k] != '=';
    }
    FirstAt(arg, "=", 0, |name|);
  }

  /** What does not begin with a dash is no flag, and neither is a bare "-" or "--". */
  lemma NoFlag(arg: string)
    requires arg == "" || arg[0] != '-' || arg == "-" || arg == "--"
    ensures SplitFlag(arg) == Flag("", None)
  {
    assert arg != "" && arg[0] != '-' ==> !("-" <= arg) && !("--" <= arg);
  }

  /** strconv.ParseBool */
  function ParseBool(v: string): Option<bool> {
    if v in ["1", "t", "T", "true", "TRUE", "True"] then Some(true)
    else if v in ["0", "f", "F", "false", "FALSE", "False"] then Some(false)
    else None
  }

  predicate TakesValue(name: string) { name == "db" || name == "pidfile" || name == "ignore-path" }

  function Assign(s: Settings, name: string, v: string): Settings
    requires TakesValue(name)
  {
    if name == "db" then s.(dbPath := v)
    else if name == "pidfile" then s.(pidFile := v)
    else s.(ignorePaths := s.ignorePaths + [v])
  }

  // ---- the whole list ----

  /** Flags are taken from the head of the list, up to the first argument that is
      not a global flag; a value may be any argument, however it looks. */
  function Parse(args: seq<string>, s: Settings): Outcome
    decreases |args|
  {
    if args == [] then Done(s, []) else
      var f := SplitFlag(args[0]);
      if f.name == "json" then
        if f.value.None? then Parse(args[1..], s.(json := true))
        else
          var b := ParseBool(f.value.value);
          if b.None? then Failed(s, InvalidBool(f.value.value)) else Parse(args[1..], s.(json := b.value))
      else if TakesValue(f.name) then
        if f.value.Some? then Parse(args[1..], Assign(s, f.name, f.value.value))
        else if |args| == 1 then Failed(s, NeedsArgument(f.name))
        else Parse(args[2..], Assign(s, f.name, args[1]))
      else Done(s, args)
  }

  /** What is left is a suffix of the input, and parsing it again changes nothing. */
  lemma {:induction false} RestIsStable(args: seq<string>, s: Settings)
    ensures var r := Parse(args, s);
            r.Done? ==>
              && |r.rest| <= |args| && r.rest == args[|args| - |r.rest|..]
              && forall t :: Parse(r.rest, t) == Done(t, r.rest)
    decreases |args|
  {
    if args != [] {
      var f := SplitFlag(args[0]);
      if f.name == "json" {
        if f.value.None? {
          RestIsStable(args[1..], s.(json := true));
        } else if ParseBool(f.value.value).Some? {
          RestIsStable(args[1..], s.(json := ParseBool(f.value.value).value));
        }
      } else if TakesValue(f.name) {
        if f.value.Some? {
          RestIsStable(args[1..], Assign(s, f.name, f.value.value));
        } else if |args| > 1 {
          RestIsStable(args[2..], Assign(s, f.name, args[1]));
        }
      }
    }
  }

  // ---- what each flag does ----

  lemma JsonAlone(arg: string, tail: seq<string>, s: Settings)
    requires SplitFlag(arg) == Flag("json", None)
    ensures Parse([arg] + tail, s) == Parse(tail, s.(json := true))
  {
    assert ([arg] + tail)[1..] == tail;
  }

  lemma JsonGiven(arg: string, v: string, tail: seq<string>, s: Settings)
    requires SplitFlag(arg) == Flag("json", Some(v))
    ensures Parse([arg] + tail, s) ==
            if v in {"1", "t", "T", "true", "TRUE", "True"} then Parse(tail, s.(json := true))
            else if v in {"0", "f", "F", "false", "FALSE", "False"} then Parse(tail, s.(json := false))
            else Failed(s, InvalidBool(v))
  {
    assert ([arg] + tail)[1..] == tail;
  }

  /** The one flag that needs no value, and takes one behind an equals sign only. */
  lemma JsonMeans(dash: string, v: string, tail: seq<string>, s: Settings)
    requires dash == "-" || dash == "--"
    ensures Parse([dash + "json"] + tail, s) == Parse(tail, s.(json := true))
    ensures Parse([dash + "json" + "=" + v] + tail, s) ==
            if v in {"1", "t", "T", "true", "TRUE", "True"} then Parse(tail, s.(json := true))
            else if v in {"0", "f", "F", "false", "FALSE", "False"} then Parse(tail, s.(json := false))
            else Failed(s, InvalidBool(v))
  {
    PlainFlag(dash, "json");
    InlineFlag(dash, "json", v);
    JsonAlone(dash + "json", tail, s);
    JsonGiven(dash + "json" + "=" + v, v, tail, s);
  }

  /** A value stands behind an equals sign or is the next argument, however it looks;
      without either the list is refused. */
  lemma OneFlag(dash: string, name: string, v: string, tail: seq<string>, s: Settings)
    requires TakesValue(name) && (dash == "-" || dash == "--")
    ensures Parse([dash + name, v] + tail, s) == Parse(tail, Assign(s, name, v))
    ensures Parse([dash + name + "=" + v] + tail, s) == Parse(tail, Assign(s, name, v))
    ensures Parse([dash + name], s) == Failed(s, NeedsArgument(name))
  {
    PlainFlag(dash, name);
    InlineFlag(dash, name, v);
    var apart, joined := [dash + name, v] + tail, [dash + name + "=" + v] + tail;
    assert apart[2..] == tail && apart[0] == dash + name && apart[1] == v;
    assert joined[1..] == tail && joined[0] == dash + name + "=" + v;
  }

  /** Each of the three sets its own field and no other; ignore paths add up. */
  lemma AssignMeans(s: Settings, v: string)
    ensures Assign(s, "db", v) == Settings(v, s.pidFile, s.json, s.ignorePaths)
    ensures Assign(s, "pidfile", v) == Settings(s.dbPath, v, s.json, s.ignorePaths)
    ensures Assign(s, "ignore-path", v) == Settings(s.dbPath, s.pidFile, s.json, s.ignorePaths + [v])
  {
    assert "db" != "pidfile" && "db" != "ignore-path" && "pidfile" != "ignore-path";
  }

  /** Parsing stops at the end, at what is no flag, and at a flag of another name. */
  lemma ParsingStops(args: seq<string>, s: Settings)
    requires args == [] || NotGlobal(args[0])
    ensures Parse(args, s) == Done(s, args)
  {
    if args != [] {
      if args[0] == "" || args[0][0] != '-' || args[0] == "-" || args[0] == "--" {
        NoFlag(args[0]);
      } else {
        var dash, name :| Foreign(args[0], dash, name);
        if args[0] == dash + name {
          PlainFlag(dash, name);
        } else {
          var v := args[0][|dash + name| + 1..];
          assert args[0] == dash + name + "=" + v;
          InlineFlag(dash, name, v);
        }
      }
    }
  }

  ghost predicate NotGlobal(arg: string) {
    || arg == "" || arg[0] != '-' || arg == "-" || arg == "--"
    || exists dash, name :: Foreign(arg, dash, name)
  }

  predicate Foreign(arg: string, dash: string, name: string) {
    && Dashes(dash, name) && dash + name <= arg && (arg != dash + name ==> arg[|dash + name|] == '=')
    && name != "json" && name != "db" && name != "pidfile" && name != "ignore-path"
  }

  class Config {
    var dbPath: string
    var pidFile: string
    var json: bool
    var ignorePaths: seq<string>

    constructor (s: Settings)
      ensures Value() == s
    {
      dbPath, pidFile, json, ignorePaths := s.dbPath, s.pidFile, s.json, s.ignorePaths;
    }

    function Value(): Settings
      reads this
    {
      Settings(dbPath, pidFile, json, ignorePaths)
    }
  }

  /** Updates cfg flag by flag; also what was set before an error stays set. */
  method ParseGlobalFlags(args: seq<string>, cfg: Config) returns (rest: seq<string>, error: Option<FlagError>)
    modifies cfg
    ensures var r := Parse(args, old(cfg.Value()));
            && cfg.Value() == r.settings
            && (r.Done? ==> error == None && rest == r.rest)
            && (r.Failed? ==> error == Some(r.error))
  {
    rest := [];
    var i := 0;
    while i < |args|
      invariant i <= |args|
      invariant Parse(args[i..], cfg.Value()) == Parse(args, old(cfg.Value()))
    {
      var f := SplitFlag(args[i]);
      assert args[i..][1..] == args[i + 1..];
      if f.name == "json" {
        if f.value.Some? {
          var b := ParseBool(f.value.value);
          if b.None? {
            return [], Some(InvalidBool(f.value.value));
          }
          cfg.json := b.value;
        } else {
          cfg.json := true;
        }
      } else if TakesValue(f.name) {
        var v;
        if f.value.Some? {
          v := f.value.value;
        } else {
          if i + 1 >= |args| {
            return [], Some(NeedsArgument(f.name));
          }
          assert args[i..][2..] == args[i + 2..];
          i := i + 1;
          v := args[i];
        }
        if f.name == "db" {
          cfg.dbPath := v;
        } else if f.name == "pidfile" {
          cfg.pidFile := v;
        } else {
          cfg.ignorePaths := cfg.ignorePaths + [v];
        }
      } else {
        break;
      }
      i := i + 1;
    }
    return args[i..], None;
  }

  // ---- the daemon's arguments ----

  /** The configured paths that are not defaults, in order. */
  function Custom(paths: seq<string>, defaults: seq<string>): seq<string> {
    if paths == [] then [] else
      var before := Custom(paths[..|paths| - 1], defaults);
      if paths[|paths| - 1] in defaults then before else before + [paths[|paths| - 1]]
  }

  /** Custom filters and reorders nothing: it is settled path by path. */
  lemma {:induction false} CustomMeans(paths: seq<string>, more: seq<string>, path: string, defaults: seq<string>)
    ensures Custom(paths + more, defaults) == Custom(paths, defaults) + Custom(more, defaults)
    ensures Custom([], defaults) == []
    ensures Custom([path], defaults) == if path in defaults then [] else [path]
  {
    assert Custom([path][..0], defaults) == [];
    if more == [] {
      assert paths + more == paths;
    } else {
      var n := |more| - 1;
      assert (paths + more)[..|paths + more| - 1] == paths + more[..n];
      CustomMeans(paths, more[..n], path, defaults);
    }
  }

  method CustomIgnorePaths(paths: seq<string>, defaults: seq<string>) returns (out: seq<string>)
    ensures out == Custom(paths, defaults)
  {
    var defaultSet := set p | p in defaults;
    out := [];
    for i := 0 to |paths|
      invariant out == Custom(paths[..i], defaults)
    {
      assert paths[..i + 1][..i] == paths[..i];
      if paths[i] !in defaultSet {
        out := out + [paths[i]];
      }
    }
    assert paths[..|paths|] == paths;
  }

  function IgnoreArgs(paths: seq<string>): seq<string> {
    if paths == [] then [] else IgnoreArgs(paths[..|paths| - 1]) + ["--ignore-path", paths[|paths| - 1]]
  }

  function DaemonArgs(cfg: Settings, defaults: seq<string>): seq<string> {
    ["--db", cfg.dbPath, "--pidfile", cfg.pidFile] + IgnoreArgs(Custom(cfg.ignorePaths, defaults)) +
    ["daemon", "--foreground"]
  }

  method BuildDaemonArgs(cfg: Settings, defaults: seq<string>) returns (args: seq<string>)
    ensures args == DaemonArgs(cfg, defaults)
  {
    args := ["--db", cfg.dbPath, "--pidfile", cfg.pidFile];
    var custom := CustomIgnorePaths(cfg.ignorePaths, defaults);
    for i := 0 to |custom|
      invariant args == ["--db", cfg.dbPath, "--pidfile", cfg.pidFile] + IgnoreArgs(custom[..i])
    {
      assert custom[..i + 1][..i] == custom[..i];
      args := args + ["--ignore-path", custom[i]];
    }
    assert custom[..|custom|] == custom;
    args := args + ["daemon", "--foreground"];
  }

  function IgnoreArg(path: string, tail: seq<string>): seq<string> { ["--ignore-path", path] + tail }

  lemma OneIgnorePath(path: string, tail: seq<string>, s: Settings)
    ensures Parse(IgnoreArg(path, tail), s) == Parse(tail, s.(ignorePaths := s.ignorePaths + [path]))
  {
    assert "--" + "ignore-path" == "--ignore-path";
    OneFlag("--", "ignore-path", path, tail, s);
  }

  lemma IgnoreArgsSplit(paths: seq<string>, last: string, tail: seq<string>)
    ensures IgnoreArgs(paths + [last]) + tail == IgnoreArgs(paths) + IgnoreArg(last, tail)
  {
    assert (paths + [last])[..|paths|] == paths;
  }

  lemma {:induction false} IgnoreArgsParse(paths: seq<string>, tail: seq<string>, s: Settings)
    ensures Parse(IgnoreArgs(paths) + tail, s) == Parse(tail, s.(ignorePaths := s.ignorePaths + paths))
    decreases |paths|
  {
    if paths == [] {
      assert IgnoreArgs(paths) + tail == tail;
      assert s.ignorePaths + paths == s.ignorePaths;
    } else {
      var before, last := paths[..|paths| - 1], paths[|paths| - 1];
      assert paths == before + [last];
      IgnoreArgsSplit(before, last, tail);
      IgnoreArgsParse(before, IgnoreArg(last, tail), s);
      OneIgnorePath(last, tail, s.(ignorePaths := s.ignorePaths + before));
      assert s.ignorePaths + before + [last] == s.ignorePaths + paths;
    }
  }

  /** The daemon reads back what start was configured with: both paths verbatim,
      even when they look like flags, and the ignore paths that are not defaults
      after the defaults; its own command is left untouched. */
  lemma DaemonReadsBackItsArguments(cfg: Settings, initial: Settings)
    ensures Parse(DaemonArgs(cfg, initial.ignorePaths), initial) ==
            Done(Settings(cfg.dbPath, cfg.pidFile, initial.json,
                          initial.ignorePaths + Custom(cfg.ignorePaths, initial.ignorePaths)),
                 ["daemon", "--foreground"])
  {
    var custom := Custom(cfg.ignorePaths, initial.ignorePaths);
    var command := ["daemon", "--foreground"];
    var ignore := IgnoreArgs(custom) + command;
    var pid := ["--pidfile", cfg.pidFile] + ignore;
    assert DaemonArgs(cfg, initial.ignorePaths) == ["--db", cfg.dbPath] + pid;
    assert "--" + "db" == "--db" && "--" + "pidfile" == "--pidfile";
    OneFlag("--", "db", cfg.dbPath, pid, initial);
    OneFlag("--", "pidfile", cfg.pidFile, ignore, initial.(dbPath := cfg.dbPath));
    var s := initial.(dbPath := cfg.dbPath, pidFile := cfg.pidFile);
    IgnoreArgsParse(custom, command, s);
    ParsingStops(command, s.(ignorePaths := s.ignorePaths + custom));
  }
}
