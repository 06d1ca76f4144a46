/**
 * Python virtual environments (`Venv`): finding one in the ancestors of a
 * directory, creating one with the system interpreter, and running a module from
 * its scripts directory, installing the module with pip first when it is missing.
 *
 * Each operation is a function from the world before to the result and the world
 * after (`...Spec`), and a method on `Host.System` that performs it step by step
 * and is proved to agree with that function.
 */
module Venvs {
  import opened Wrappers
  import opened Paths
  import opened Host

  const DefaultSearchSteps: nat := 5
  const DefaultVenvName := ".venv"
  const BinName := "bin"
  const WindowsBinName := "Scripts"
  const Pip := "pip"
  /** The names `find` tries, in order. */
  const CandidateNames: seq<string> := [DefaultVenvName, "venv"]

  datatype Venv = Venv(path: Path)

  /** A package to install; an empty version means "any version". */
  datatype Package = Package(name: string, version: string)

  datatype Error =
    | CouldNotFindVenv(from: Path)       // "could not find venv from ..."
    | InvalidVenvPath                    // the venv path has no parent
    | FailedToCreateVenv                 // venv creation failed without a cause
    | Cause(message: string)             // the cause reported by a failed venv creation
    | CommandFailed(cause: Option<string>) // a failed run of a module, passed on as it came
    | CurrentDirUnavailable              // `env::current_dir` failed
    | PipMissing(path: Path)             // the venv has no pip to install with
    | Diverged                           // the unbounded install recursion (see VenvFindings)

  /** `Venv::default`: `.venv` in the working directory, or in `.` when that is unknown. */
  function DefaultVenv(cwd: Option<Path>): (v: Venv)
    ensures FileName(v.path) == Some(DefaultVenvName)
    ensures Parent(v.path) == Some(if cwd.Some? then cwd.value else ["."])
  {
    var dir := match cwd
      case Some(p) => p
      case None => ["."];
    Venv(dir + [DefaultVenvName])
  }

  /** `Venv::name`: the final component of the venv path. */
  function Name(v: Venv): (r: Result<string, Error>)
    ensures r.Ok? <==> Parent(v.path).Some?
    ensures r.Ok? ==> Parent(v.path).value + [r.value] == v.path
  {
    match FileName(v.path)
    case Some(n) => Ok(n)
    case None => Err(InvalidVenvPath)
  }

  /** `bin_path`: `Scripts` below the venv on Windows, `bin` below it elsewhere. */
  function BinPath(v: Venv, os: string): (r: Path)
    ensures Parent(r) == Some(v.path)
    ensures FileName(r) == Some(WindowsBinName) <==> os == "windows"
    ensures FileName(r) == Some(BinName) <==> os != "windows"
  {
    match os
    case "windows" => v.path + [WindowsBinName]
    case _ => v.path + [BinName]
  }

  /**
   * The requirement string `install_package` hands to pip: `name`, or `name==version`
   * when pinned. pip reads back from it exactly the package's name and version.
   */
  function PinSpec(p: Package): (r: string)
    ensures '=' !in p.name ==> ModuleOf(r) == p.name && VersionOf(r) == p.version
    ensures '=' !in p.name ==> (PinIndex(r) == |r| <==> p.version == "")
  {
    if p.version == "" then
      assert '=' !in p.name ==> PinIndex(p.name) == |p.name|;
      p.name
    else
      var s := p.name + "==" + p.version;
      assert '=' !in p.name ==>
        s[|p.name|] == '=' && s[|p.name| + 1] == '=' && PinIndex(s) == |p.name| &&
        s[..|p.name|] == p.name && s[|p.name| + 2..] == p.version;
      s
  }

  /** The arguments of `pip install`: an install of `p`'s requirement, which pip reads back as `p`. */
  function InstallArgs(p: Package): (r: seq<string>)
    ensures |r| == 2 && r[0] == "install" && r[1] == PinSpec(p)
  {
    ["install", PinSpec(p)]
  }

  /** The arguments of `pip uninstall`: a confirmed (`-y`) uninstall of exactly `name`. */
  function UninstallArgs(name: string): (r: seq<string>)
    ensures |r| == 3 && r[0] == "uninstall" && r[1] == name && r[2] == "-y"
  {
    ["uninstall", name, "-y"]
  }

  /** The command `create` runs for a venv path that has a parent: `python -m venv <name>` in that parent. */
  function CreateInvocation(v: Venv): Invocation
    requires Parent(v.path).Some?
  {
    Invocation(OnPath("python"), ["-m", "venv", Name(v).value], Parent(v.path).value)
  }

  /** The hit of the bounded ancestor search for `name`; a search error counts as a miss. */
  function Hit(paths: set<Path>, unreadable: set<Path>, from: Path, name: string): Option<Path>
  {
    match SearchParents(paths, unreadable, from, name, DefaultSearchSteps)
    case Ok(Some(p)) => Some(p)
    case _ => None
  }

  /** `Venv::create`. */
  function CreateSpec(o: Oracle, w: World, v: Venv): (r: (Result<(), Error>, World))
    ensures v.path in w.paths ==> r == (Ok(()), w)
    ensures v.path !in w.paths && v.path == [] ==> r == (Err(InvalidVenvPath), w)
    ensures v.path !in w.paths && v.path != [] ==>
      r.1.log == w.log + [CreateInvocation(v)] &&
      (r.0.Err? <==> CreateInvocation(v) in o.failures) &&
      (r.0.Err? ==> r.0.error == match o.failures[CreateInvocation(v)]
                                  case Some(cause) => Cause(cause)
                                  case None => FailedToCreateVenv)
    ensures r.0.Ok? ==> v.path in r.1.paths
    ensures w.paths <= r.1.paths && w.log <= r.1.log
  {
    if v.path in w.paths then (Ok(()), w)
    else match Parent(v.path)
      case None => (Err(InvalidVenvPath), w)
      case Some(_) =>
        var (ran, w') := Run(o, w, CreateInvocation(v));
        match ran
        case Ok(_) => (Ok(()), w')
        case Err(Some(cause)) => (Err(Cause(cause)), w')
        case Err(None) => (Err(FailedToCreateVenv), w')
  }

  /**
   * `exec_module`: create the venv, install `module` when it is missing from the
   * scripts directory, then run it with `args` from `from`. A missing pip is not
   * installed with itself: once the working directory has been looked up, as
   * `install_package` does first, it is reported as `PipMissing` (see VenvFindings).
   */
  function ExecSpec(o: Oracle, w: World, v: Venv, moduleName: string, args: seq<string>, from: Path)
    : (r: (Result<(), Error>, World))
    ensures w.log <= r.1.log
    ensures CreateSpec(o, w, v).0.Err? ==> r == CreateSpec(o, w, v)
    ensures r.0.Ok? ==>
      |r.1.log| > |w.log| &&
      r.1.log[|r.1.log| - 1] == Invocation(AtPath(BinPath(v, o.os) + [moduleName]), args, from)
    decreases if moduleName == Pip then 0 else 1, 1
  {
    var (created, w1) := CreateSpec(o, w, v);
    if created.Err? then (created, w1)
    else
      var modulePath := BinPath(v, o.os) + [moduleName];
      if modulePath !in w1.paths && moduleName == Pip then
        (if o.cwd.None? then Err(CurrentDirUnavailable) else Err(PipMissing(modulePath)), w1)
      else
        var (installed, w2) :=
          if modulePath in w1.paths then (Ok(()), w1) else InstallSpec(o, w1, v, Package(moduleName, ""));
        if installed.Err? then (installed, w2)
        else
          var (ran, w3) := Run(o, w2, Invocation(AtPath(modulePath), args, from));
          (if ran.Err? then Err(CommandFailed(ran.error)) else Ok(()), w3)
  }

  /** `install_package`: `pip install <name>[==<version>]` from the working directory. */
  function InstallSpec(o: Oracle, w: World, v: Venv, p: Package): (r: (Result<(), Error>, World))
    ensures w.log <= r.1.log
    decreases 1, 0
  {
    match o.cwd
    case None => (Err(CurrentDirUnavailable), w)
    case Some(cwd) => ExecSpec(o, w, v, Pip, InstallArgs(p), cwd)
  }

  /** `uninstall_package`: `pip uninstall <name> -y` from the working directory. */
  function UninstallSpec(o: Oracle, w: World, v: Venv, name: string): (r: (Result<(), Error>, World))
    ensures w.log <= r.1.log
  {
    match o.cwd
    case None => (Err(CurrentDirUnavailable), w)
    case Some(cwd) => ExecSpec(o, w, v, Pip, UninstallArgs(name), cwd)
  }

  // ---------------------------------------------------------------------------
  // Properties of the specification functions.

  /** Creating a venv that was created successfully is a no-op, so creating twice equals creating once. */
  lemma CreateIsIdempotent(o: Oracle, w: World, v: Venv)
    requires CreateSpec(o, w, v).0.Ok?
    ensures CreateSpec(o, CreateSpec(o, w, v).1, v) == (Ok(()), CreateSpec(o, w, v).1)
  {
  }

  /** A venv created as `.venv` in a readable directory is what `find` then reports from that directory. */
  lemma CreatedVenvIsFound(o: Oracle, w: World, dir: Path)
    requires dir !in o.unreadable
    requires CreateSpec(o, w, Venv(dir + [DefaultVenvName])).0.Ok?
    ensures Hit(CreateSpec(o, w, Venv(dir + [DefaultVenvName])).1.paths, o.unreadable, dir, DefaultVenvName)
            == Some(dir + [DefaultVenvName])
  {
  }

  /**
   * The candidate order beats nearness: with `/a/.venv` and `/a/b/venv` present,
   * the search from `/a/b` hits `.venv` one level up, so `find` returns `/a/.venv`
   * even though `/a/b/venv` is nearer.
   */
  lemma CandidateOrderBeatsNearness()
    ensures var paths := {["a", DefaultVenvName], ["a", "b", "venv"]};
      Hit(paths, {}, ["a", "b"], DefaultVenvName) == Some(["a", DefaultVenvName]) &&
      Hit(paths, {}, ["a", "b"], "venv") == Some(["a", "b", "venv"])
  {
    var paths := {["a", DefaultVenvName], ["a", "b", "venv"]};
    assert DefaultVenvName != "venv" by { assert |DefaultVenvName| != |"venv"|; }
    assert ["a", "b"] + [DefaultVenvName] == ["a", "b", DefaultVenvName];
    assert ["a", "b"] + ["venv"] == ["a", "b", "venv"];
    assert ["a"] + [DefaultVenvName] == ["a", DefaultVenvName];
    assert ["a", "b", DefaultVenvName] != ["a", "b", "venv"] by {
      assert ["a", "b", DefaultVenvName][2] != ["a", "b", "venv"][2];
    }
    assert ["a", "b"][..1] == ["a"];
    assert SearchParents(paths, {}, ["a", "b"], DefaultVenvName, DefaultSearchSteps)
        == SearchParents(paths, {}, ["a"], DefaultVenvName, DefaultSearchSteps - 1);
  }

  /** The scripts directory `bin_path` names is the one `python -m venv` fills, pip included. */
  lemma BinPathHoldsVenvPip(v: Venv, os: string)
    ensures BinPath(v, os) == v.path + [ScriptsDir(os)]
    ensures BinPath(v, os) + [Pip] in VenvLayout(v.path, os)
  {
    assert v.path + [ScriptsDir(os)] + [Pip] == v.path + [ScriptsDir(os), Pip];
  }

  /**
   * Uninstalling a package with the venv's pip removes exactly the module that
   * installing it added, whatever version was pinned.
   */
  lemma UninstallUndoesInstall(os: string, paths: set<Path>, bin: Path, dir: Path, p: Package)
    requires '=' !in p.name
    requires bin + [p.name] !in paths
    ensures var pip := AtPath(bin + [Pip]);
      var installed := Effect(os, paths, Invocation(pip, InstallArgs(p), dir));
      installed == paths + {bin + [p.name]} &&
      Effect(os, installed, Invocation(pip, UninstallArgs(p.name), dir)) == paths
  {
    var pipPath := bin + [Pip];
    assert pipPath[..|pipPath| - 1] == bin;
  }

  /** A module already present after `create` is run directly: zero installs. */
  lemma ExecPresentModuleSkipsInstall(o: Oracle, w: World, v: Venv, moduleName: string, args: seq<string>, from: Path)
    requires CreateSpec(o, w, v).0.Ok?
    requires BinPath(v, o.os) + [moduleName] in CreateSpec(o, w, v).1.paths
    ensures var run := Invocation(AtPath(BinPath(v, o.os) + [moduleName]), args, from);
      var r := ExecSpec(o, w, v, moduleName, args, from);
      r.1.log == CreateSpec(o, w, v).1.log + [run] &&
      r.0 == (if run in o.failures then Err(CommandFailed(o.failures[run])) else Ok(()))
  {
  }

  /** A module missing after `create` is installed by exactly one `pip install`, then run if that succeeded. */
  lemma ExecMissingModuleInstallsOnce(o: Oracle, w: World, v: Venv, moduleName: string, args: seq<string>, from: Path)
    requires moduleName != Pip && o.cwd.Some?
    requires CreateSpec(o, w, v).0.Ok?
    requires BinPath(v, o.os) + [moduleName] !in CreateSpec(o, w, v).1.paths
    requires BinPath(v, o.os) + [Pip] in CreateSpec(o, w, v).1.paths
    ensures var install := Invocation(AtPath(BinPath(v, o.os) + [Pip]), ["install", moduleName], o.cwd.value);
      var run := Invocation(AtPath(BinPath(v, o.os) + [moduleName]), args, from);
      var r := ExecSpec(o, w, v, moduleName, args, from);
      r.1.log == CreateSpec(o, w, v).1.log + [install] + (if install in o.failures then [] else [run]) &&
      r.0 == (if install in o.failures then Err(CommandFailed(o.failures[install]))
              else if run in o.failures then Err(CommandFailed(o.failures[run]))
              else Ok(()))
  {
    var w1 := CreateSpec(o, w, v).1;
    ExecPresentModuleSkipsInstall(o, w1, v, Pip, InstallArgs(Package(moduleName, "")), o.cwd.value);
  }

  /** Without pip, a missing module is reported as `PipMissing` and nothing beyond `create` runs. */
  lemma ExecWithoutPipStops(o: Oracle, w: World, v: Venv, moduleName: string, args: seq<string>, from: Path)
    requires o.cwd.Some?
    requires CreateSpec(o, w, v).0.Ok?
    requires BinPath(v, o.os) + [moduleName] !in CreateSpec(o, w, v).1.paths
    requires BinPath(v, o.os) + [Pip] !in CreateSpec(o, w, v).1.paths
    ensures ExecSpec(o, w, v, moduleName, args, from) ==
      (Err(PipMissing(BinPath(v, o.os) + [Pip])), CreateSpec(o, w, v).1)
  {
    if moduleName != Pip {
      var w1 := CreateSpec(o, w, v).1;
      var pipMissing := (Err(PipMissing(BinPath(v, o.os) + [Pip])), w1);
      assert CreateSpec(o, w1, v) == (Ok(()), w1);
      assert ExecSpec(o, w1, v, Pip, InstallArgs(Package(moduleName, "")), o.cwd.value) == pipMissing;
      assert InstallSpec(o, w1, v, Package(moduleName, "")) == pipMissing;
    }
  }

  /** Installing runs the venv's pip with `install` and the (possibly pinned) requirement, from the working directory. */
  lemma InstallRunsPip(o: Oracle, w: World, v: Venv, p: Package)
    requires o.cwd.Some?
    requires CreateSpec(o, w, v).0.Ok?
    requires BinPath(v, o.os) + [Pip] in CreateSpec(o, w, v).1.paths
    ensures InstallSpec(o, w, v, p).1.log ==
      CreateSpec(o, w, v).1.log + [Invocation(AtPath(BinPath(v, o.os) + [Pip]), ["install", PinSpec(p)], o.cwd.value)]
  {
  }

  /** Uninstalling runs the venv's pip with `uninstall <name> -y`, from the working directory. */
  lemma UninstallRunsPip(o: Oracle, w: World, v: Venv, name: string)
    requires o.cwd.Some?
    requires CreateSpec(o, w, v).0.Ok?
    requires BinPath(v, o.os) + [Pip] in CreateSpec(o, w, v).1.paths
    ensures UninstallSpec(o, w, v, name).1.log ==
      CreateSpec(o, w, v).1.log + [Invocation(AtPath(BinPath(v, o.os) + [Pip]), ["uninstall", name, "-y"], o.cwd.value)]
  {
  }

  // ---------------------------------------------------------------------------
  // Methods: the operations as the source performs them, on a mutable machine.

  /** `Venv::find`: the first candidate name, in order, whose bounded search hits. */
  method Find(sys: System, from: Path) returns (r: Result<Venv, Error>)
    ensures Hit(sys.paths, sys.oracle.unreadable, from, DefaultVenvName).Some? ==>
      r == Ok(Venv(Hit(sys.paths, sys.oracle.unreadable, from, DefaultVenvName).value))
    ensures Hit(sys.paths, sys.oracle.unreadable, from, DefaultVenvName).None? &&
            Hit(sys.paths, sys.oracle.unreadable, from, "venv").Some? ==>
      r == Ok(Venv(Hit(sys.paths, sys.oracle.unreadable, from, "venv").value))
    ensures Hit(sys.paths, sys.oracle.unreadable, from, DefaultVenvName).None? &&
            Hit(sys.paths, sys.oracle.unreadable, from, "venv").None? ==>
      r == Err(CouldNotFindVenv(from))
  {
    var names := CandidateNames;
    assert names == [DefaultVenvName, "venv"];
    for i := 0 to |names|
      invariant forall j :: 0 <= j < i ==> Hit(sys.paths, sys.oracle.unreadable, from, names[j]).None?
    {
      var found := SearchParents(sys.paths, sys.oracle.unreadable, from, names[i], DefaultSearchSteps);
      if found.Ok? && found.value.Some? {
        assert Hit(sys.paths, sys.oracle.unreadable, from, names[i]) == found.value;
        assert i > 0 ==> Hit(sys.paths, sys.oracle.unreadable, from, names[0]).None?;
        return Ok(Venv(found.value.value));
      }
    }
    assert Hit(sys.paths, sys.oracle.unreadable, from, names[0]).None?;
    assert Hit(sys.paths, sys.oracle.unreadable, from, names[1]).None?;
    return Err(CouldNotFindVenv(from));
  }

  /** `Venv::create`: nothing to do when the path exists, otherwise `python -m venv <name>` in the parent. */
  method Create(sys: System, v: Venv) returns (r: Result<(), Error>)
    modifies sys
    ensures (r, sys.State()) == CreateSpec(sys.oracle, old(sys.State()), v)
  {
    if v.path in sys.paths {
      return Ok(());
    }
    var parent := Parent(v.path);
    if parent.None? {
      return Err(InvalidVenvPath);
    }
    var ran := sys.RunCommand(CreateInvocation(v));
    if ran.Err? {
      return Err(match ran.error case Some(cause) => Cause(cause) case None => FailedToCreateVenv);
    }
    return Ok(());
  }

  /** `exec_module`. */
  method ExecModule(sys: System, v: Venv, moduleName: string, args: seq<string>, from: Path) returns (r: Result<(), Error>)
    modifies sys
    ensures (r, sys.State()) == ExecSpec(sys.oracle, old(sys.State()), v, moduleName, args, from)
    decreases if moduleName == Pip then 0 else 1, 1
  {
    var created := Create(sys, v);
    if created.Err? {
      return created;
    }
    var modulePath := BinPath(v, sys.oracle.os) + [moduleName];
    if modulePath !in sys.paths {
      if moduleName == Pip {
        if sys.oracle.cwd.None? {
          return Err(CurrentDirUnavailable);
        }
        return Err(PipMissing(modulePath));
      }
      var installed := InstallPackage(sys, v, Package(moduleName, ""));
      if installed.Err? {
        return installed;
      }
    }
    var ran := sys.RunCommand(Invocation(AtPath(modulePath), args, from));
    if ran.Err? {
      return Err(CommandFailed(ran.error));
    }
    return Ok(());
  }

  /** `install_package`. */
  method InstallPackage(sys: System, v: Venv, p: Package) returns (r: Result<(), Error>)
    modifies sys
    ensures (r, sys.State()) == InstallSpec(sys.oracle, old(sys.State()), v, p)
    decreases 1, 0
  {
    if sys.oracle.cwd.None? {
      return Err(CurrentDirUnavailable);
    }
    r := ExecModule(sys, v, Pip, InstallArgs(p), sys.oracle.cwd.value);
  }

  /** `uninstall_package`. */
  method UninstallPackage(sys: System, v: Venv, name: string) returns (r: Result<(), Error>)
    modifies sys
    ensures (r, sys.State()) == UninstallSpec(sys.oracle, old(sys.State()), v, name)
  {
    if sys.oracle.cwd.None? {
      return Err(CurrentDirUnavailable);
    }
    r := ExecModule(sys, v, Pip, UninstallArgs(name), sys.oracle.cwd.value);
  }
}
