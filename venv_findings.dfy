/**
 * `exec_module` and `install_package` exactly as written: a missing module is
 * installed with `exec_module("pip", ...)`, which installs a missing pip with
 * itself again, with no bound. `fuel` counts the nested install calls allowed;
 * running out of it yields `Diverged`, so a result of `Diverged` for every fuel
 * means the source recurses without end.
 */
module VenvFindings {
  import opened Wrappers
  import opened Paths
  import opened Host
  import opened Venvs

  function ExecAsWritten(o: Oracle, w: World, v: Venv, moduleName: string, args: seq<string>, from: Path, fuel: nat)
    : (r: (Result<(), Error>, World))
    ensures w.log <= r.1.log
    decreases fuel, 0
  {
    if fuel == 0 then (Err(Diverged), w)
    else
      var (created, w1) := CreateSpec(o, w, v);
      if created.Err? then (created, w1)
      else
        var modulePath := BinPath(v, o.os) + [moduleName];
        var (installed, w2) :=
          if modulePath in w1.paths then (Ok(()), w1)
          else InstallAsWritten(o, w1, v, Package(moduleName, ""), fuel - 1);
        if installed.Err? then (installed, w2)
        else
          var (ran, w3) := Run(o, w2, Invocation(AtPath(modulePath), args, from));
          (if ran.Err? then Err(CommandFailed(ran.error)) else Ok(()), w3)
  }

  function InstallAsWritten(o: Oracle, w: World, v: Venv, p: Package, fuel: nat): (r: (Result<(), Error>, World))
    ensures w.log <= r.1.log
    decreases fuel, 1
  {
    match o.cwd
    case None => (Err(CurrentDirUnavailable), w)
    case Some(cwd) => ExecAsWritten(o, w, v, Pip, InstallArgs(p), cwd, fuel)
  }

  /**
   * An existing venv directory without `pip` in its scripts directory (an empty
   * `.venv`, say): running any module that is not there never finishes, whatever
   * the fuel, and runs no command at all.
   */
  lemma {:induction false} AsWrittenDivergesWithoutPip(
    o: Oracle, w: World, v: Venv, moduleName: string, args: seq<string>, from: Path, fuel: nat)
    requires o.cwd.Some?
    requires v.path in w.paths
    requires BinPath(v, o.os) + [Pip] !in w.paths
    requires BinPath(v, o.os) + [moduleName] !in w.paths
    ensures ExecAsWritten(o, w, v, moduleName, args, from, fuel) == (Err(Diverged), w)
    decreases fuel
  {
    if fuel > 0 {
      AsWrittenDivergesWithoutPip(o, w, v, Pip, InstallArgs(Package(moduleName, "")), o.cwd.value, fuel - 1);
    }
  }

  /** The venv has pip once `create` is done with it (or `create` failed). */
  ghost predicate PipAfterCreate(o: Oracle, w: World, v: Venv)
  {
    var (created, w1) := CreateSpec(o, w, v);
    created.Err? || BinPath(v, o.os) + [Pip] in w1.paths
  }

  /** Whenever `create` leaves pip in place, the corrected `ExecSpec` is the source's behaviour. */
  lemma AsWrittenAgreesWhenPipPresent(
    o: Oracle, w: World, v: Venv, moduleName: string, args: seq<string>, from: Path, fuel: nat)
    requires fuel >= 2
    requires PipAfterCreate(o, w, v)
    ensures ExecAsWritten(o, w, v, moduleName, args, from, fuel) == ExecSpec(o, w, v, moduleName, args, from)
  {
    var (created, w1) := CreateSpec(o, w, v);
    var modulePath := BinPath(v, o.os) + [moduleName];
    if created.Ok? && modulePath !in w1.paths && o.cwd.Some? {
      var pipArgs := InstallArgs(Package(moduleName, ""));
      assert CreateSpec(o, w1, v) == (Ok(()), w1);
      assert ExecAsWritten(o, w1, v, Pip, pipArgs, o.cwd.value, fuel - 1) == ExecSpec(o, w1, v, Pip, pipArgs, o.cwd.value);
    }
  }

  /**
   * Apart from the unbounded recursion, the source and the corrected `ExecSpec`
   * agree: every as-written result that is not `Diverged` is the corrected one.
   */
  lemma {:induction false} AsWrittenAgreesUnlessDiverged(
    o: Oracle, w: World, v: Venv, moduleName: string, args: seq<string>, from: Path, fuel: nat)
    ensures var r := ExecAsWritten(o, w, v, moduleName, args, from, fuel);
      r.0 == Err(Diverged) || r == ExecSpec(o, w, v, moduleName, args, from)
    decreases fuel
  {
    var (created, w1) := CreateSpec(o, w, v);
    var modulePath := BinPath(v, o.os) + [moduleName];
    if fuel > 0 && created.Ok? && modulePath !in w1.paths && o.cwd.Some? {
      var pipArgs := InstallArgs(Package(moduleName, ""));
      if moduleName == Pip {
        AsWrittenDivergesWithoutPip(o, w1, v, Pip, pipArgs, o.cwd.value, fuel - 1);
      } else {
        var pkg := Package(moduleName, "");
        assert CreateSpec(o, w1, v) == (Ok(()), w1);
        assert InstallAsWritten(o, w1, v, pkg, fuel - 1) == ExecAsWritten(o, w1, v, Pip, pipArgs, o.cwd.value, fuel - 1);
        assert InstallSpec(o, w1, v, pkg) == ExecSpec(o, w1, v, Pip, pipArgs, o.cwd.value);
        AsWrittenAgreesUnlessDiverged(o, w1, v, Pip, pipArgs, o.cwd.value, fuel - 1);
      }
    }
  }

  /** The corrected recursion always ends on its own: `Diverged` is never its result. */
  lemma {:induction false} ExecSpecNeverDiverges(
    o: Oracle, w: World, v: Venv, moduleName: string, args: seq<string>, from: Path)
    ensures ExecSpec(o, w, v, moduleName, args, from).0 != Err(Diverged)
    decreases if moduleName == Pip then 0 else 1
  {
    var (created, w1) := CreateSpec(o, w, v);
    if moduleName != Pip && created.Ok? && o.cwd.Some? {
      ExecSpecNeverDiverges(o, w1, v, Pip, InstallArgs(Package(moduleName, "")), o.cwd.value);
    }
  }

  /** A venv that does not exist yet is created with pip, so the source's recursion ends there. */
  lemma FreshVenvHasPip(o: Oracle, w: World, v: Venv)
    requires v.path !in w.paths
    ensures PipAfterCreate(o, w, v)
  {
    var (created, w1) := CreateSpec(o, w, v);
    if created.Ok? {
      BinPathHoldsVenvPip(v, o.os);
      var inv := CreateInvocation(v);
      assert inv.dir + [inv.args[2]] == v.path;
    }
  }
}
