/**
 * The machine the venv code runs on, reduced to what the code observes: which
 * paths exist, which external commands have been run, and an oracle that fixes
 * in advance how each command, each directory probe and the working-directory
 * lookup turn out.
 */
module Host {
  import opened Wrappers
  import opened Paths

  /** A program found on the `PATH` (such as `python`) or one named by its path. */
  datatype Program = OnPath(command: string) | AtPath(path: Path)

  /** One call of `run_command`: program, arguments and the working directory of the child. */
  datatype Invocation = Invocation(program: Program, args: seq<string>, dir: Path)

  /**
   * How the outside world answers.
   * - `os`: the target operating system (`std::env::consts::OS`).
   * - `cwd`: the process working directory, `None` when `env::current_dir` fails.
   * - `failures`: the invocations that exit non-zero or cannot be spawned, each with
   *   the optional cause that `run_command` reports.
   * - `unreadable`: directories that the ancestor search cannot probe.
   */
  datatype Oracle = Oracle(
    os: string,
    cwd: Option<Path>,
    failures: map<Invocation, Option<string>>,
    unreadable: set<Path>)

  /** The observable state: the existing paths and every command run so far, oldest first. */
  datatype World = World(paths: set<Path>, log: seq<Invocation>)

  /** The scripts directory that `python -m venv` lays out: `Scripts` on Windows, `bin` elsewhere. */
  function ScriptsDir(os: string): string
  {
    if os == "windows" then "Scripts" else "bin"
  }

  /** What a fresh virtual environment at `root` contains, as far as this model looks. */
  function VenvLayout(root: Path, os: string): set<Path>
  {
    {root, root + [ScriptsDir(os)], root + [ScriptsDir(os), "pip"]}
  }

  /**
   * Where pip's requirement `name==version` splits: the index of the first `==`,
   * or the length of the string when there is none.
   */
  function PinIndex(s: string): (k: nat)
    ensures k <= |s|
    ensures k < |s| ==> k + 1 < |s| && s[k] == '=' && s[k + 1] == '='
    ensures forall j :: 0 <= j < k && j + 1 < |s| ==> !(s[j] == '=' && s[j + 1] == '=')
  {
    if |s| < 2 then |s|
    else if s[0] == '=' && s[1] == '=' then 0
    else 1 + PinIndex(s[1..])
  }

  /** The package name pip reads from a requirement. */
  function ModuleOf(spec: string): string
  {
    spec[..PinIndex(spec)]
  }

  /** The pinned version pip reads from a requirement, empty when unpinned. */
  function VersionOf(spec: string): string
  {
    var k := PinIndex(spec);
    if k < |spec| then spec[k + 2..] else ""
  }

  /**
   * The paths after a successful invocation: `python -m venv n` lays out `dir/n`;
   * `<bin>/pip install s` adds the package's script to `<bin>`; `<bin>/pip uninstall n -y`
   * removes it. Every other command leaves the paths alone.
   */
  function Effect(os: string, paths: set<Path>, inv: Invocation): set<Path>
  {
    match inv.program
    case OnPath(command) =>
      if command == "python" && |inv.args| == 3 && inv.args[0] == "-m" && inv.args[1] == "venv"
      then paths + VenvLayout(inv.dir + [inv.args[2]], os)
      else paths
    case AtPath(p) =>
      if p == [] || p[|p| - 1] != "pip" then paths
      else if |inv.args| == 2 && inv.args[0] == "install" then paths + {p[..|p| - 1] + [ModuleOf(inv.args[1])]}
      else if |inv.args| == 3 && inv.args[0] == "uninstall" && inv.args[2] == "-y" then paths - {p[..|p| - 1] + [inv.args[1]]}
      else paths
  }

  /**
   * `run_command`: the invocation is always logged; it fails with the oracle's cause
   * when the oracle says so, and otherwise has its effect on the paths.
   */
  function Run(o: Oracle, w: World, inv: Invocation): (r: (Result<(), Option<string>>, World))
    ensures r.1.log == w.log + [inv]
    ensures r.0.Err? <==> inv in o.failures
    ensures r.0.Err? ==> r.0.error == o.failures[inv] && r.1.paths == w.paths
  {
    if inv in o.failures then (Err(o.failures[inv]), w.(log := w.log + [inv]))
    else (Ok(()), World(Effect(o.os, w.paths, inv), w.log + [inv]))
  }

  /**
   * `search_parents_for_filepath(from, name, steps)`: probes `from` and then each parent
   * in turn, at most `steps` directories, for an entry called `name`. Probing an
   * unreadable directory is an error, reported with that directory.
   */
  function SearchParents(paths: set<Path>, unreadable: set<Path>, from: Path, name: string, steps: nat)
    : (r: Result<Option<Path>, Path>)
    ensures r.Ok? && r.value.Some? ==>
      var q := r.value.value;
      q in paths && |q| >= 1 && q[|q| - 1] == name && q[..|q| - 1] <= from &&
      |from| + 1 - |q| < steps &&
      forall j :: 0 <= j < |from| + 1 - |q| ==> Ancestor(from, j) + [name] !in paths
    decreases steps
  {
    if steps == 0 then Ok(None)
    else if from in unreadable then Err(from)
    else if from + [name] in paths then Ok(Some(from + [name]))
    else if from == [] then Ok(None)
    else
      var r := SearchParents(paths, unreadable, from[..|from| - 1], name, steps - 1);
      assert Ancestor(from, 0) == from;
      assert forall j :: 1 <= j <= |from| ==> Ancestor(from, j) == Ancestor(from[..|from| - 1], j - 1);
      r
  }

  /**
   * The search finds `name` no farther up than the nearest ancestor that holds it,
   * provided every directory on the way can be probed and it lies within the bound.
   */
  lemma {:induction false} SearchReachesAncestor(paths: set<Path>, unreadable: set<Path>, from: Path, name: string, steps: nat, k: nat)
    requires k < steps && k <= |from|
    requires Ancestor(from, k) + [name] in paths
    requires forall j :: 0 <= j <= k ==> Ancestor(from, j) !in unreadable
    ensures var r := SearchParents(paths, unreadable, from, name, steps);
      r.Ok? && r.value.Some? && |r.value.value| + k >= |from| + 1
    decreases steps
  {
    assert Ancestor(from, 0) == from;
    if from + [name] !in paths && from != [] {
      var up := from[..|from| - 1];
      forall j | 0 <= j <= k - 1
        ensures Ancestor(up, j) !in unreadable
      {
        assert Ancestor(up, j) == Ancestor(from, j + 1);
      }
      assert Ancestor(up, k - 1) == Ancestor(from, k);
      SearchReachesAncestor(paths, unreadable, up, name, steps - 1, k - 1);
    }
  }

  /** The machine as a mutable object: its paths and command log change as commands run. */
  class System {
    const oracle: Oracle
    var paths: set<Path>
    var log: seq<Invocation>

    function State(): World
      reads this
    {
      World(paths, log)
    }

    constructor (oracle: Oracle, paths: set<Path>)
      ensures this.oracle == oracle && State() == World(paths, [])
    {
      this.oracle := oracle;
      this.paths := paths;
      this.log := [];
    }

    /** `crate::utils::command::run_command`, answered by the oracle. */
    method RunCommand(inv: Invocation) returns (r: Result<(), Option<string>>)
      modifies this
      ensures (r, State()) == Run(oracle, old(State()), inv)
    {
      log := log + [inv];
      if inv in oracle.failures {
        r := Err(oracle.failures[inv]);
      } else {
        paths := Effect(oracle.os, paths, inv);
        r := Ok(());
      }
    }
  }
}
