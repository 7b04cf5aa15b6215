/** The analysis step of the command: each selected ecosystem's analyzer
    on the project, their outputs concatenated, the first error ending it. */
module Analysis {
  import opened Wrappers
  import opened Models
  import opened Detector
  import Dedup
  import RustAnalyzer
  import PythonAnalyzer
  import JavaAnalyzer
  import NodeAnalyzer
  import DotNetAnalyzer


  /** What the analyzers read in the project directory. The Cargo cache and
      the installed `node_modules` licenses are lookups into the file
      system. */
  datatype Project = Project(
    dir: Directory,
    cargoLock: RustAnalyzer.CargoLock,
    cargoCache: RustAnalyzer.CacheLookup,
    python: PythonAnalyzer.Manifests,
    java: JavaAnalyzer.Manifests,
    node: NodeAnalyzer.Manifests,
    installed: string -> Option<string>,
    dotnet: DotNetAnalyzer.Manifests)

  /** The analyzer of one ecosystem on the project. Only the Rust analyzer
      can fail: the others skip files they cannot read or parse. */
  function AnalyzerOutput(p: Project, e: Ecosystem): (r: Result<seq<Dependency>, string>)
    ensures r.Err? ==> e == Rust && p.cargoLock.Unreadable?
  {
    match e
    case Rust => RustAnalyzer.Analyze(p.cargoLock, p.cargoCache)
    case Python => Ok(PythonAnalyzer.Merged(p.python))
    case Java => Ok(Dedup.MergeAll(JavaAnalyzer.Sources(p.java), Dedup.NameColonVersion))
    case Node => Ok(NodeAnalyzer.Merged(p.node, p.installed))
    case DotNet => Ok(Dedup.MergeAll(DotNetAnalyzer.Sources(p.dotnet), Dedup.NameColonVersion))
  }

  /** The analyzers applied to a project. */
  type Analyzers = Ecosystem -> Result<seq<Dependency>, string>

  function AnalyzersOf(p: Project): Analyzers {
    e => AnalyzerOutput(p, e)
  }

  /** The outputs of the analyzers of `ecosystems`, one after another; the
      first failure is the result. */
  function AllDeps(run: Analyzers, ecosystems: seq<Ecosystem>): (r: Result<seq<Dependency>, string>)
    ensures ecosystems == [] ==> r == Ok([])
    ensures |ecosystems| == 1 ==> r == run(ecosystems[0])
    decreases |ecosystems|
  {
    if ecosystems == [] then Ok([])
    else
      var front := AllDeps(run, ecosystems[..|ecosystems| - 1]);
      assert |ecosystems| == 1 ==> ecosystems[..0] == [] && front == Ok([]);
      if front.Err? then front
      else
        match run(ecosystems[|ecosystems| - 1])
        case Err(message) => Err(message)
        case Ok(deps) =>
          assert front.value == [] ==> front.value + deps == deps;
          Ok(front.value + deps)
  }

  /** The analysis fails exactly when some analyzer fails. */
  lemma {:induction false} AllDepsFailsIffSomeFails(run: Analyzers, ecosystems: seq<Ecosystem>)
    ensures AllDeps(run, ecosystems).Err? <==> exists i :: 0 <= i < |ecosystems| && run(ecosystems[i]).Err?
    decreases |ecosystems|
  {
    if ecosystems != [] {
      var front := ecosystems[..|ecosystems| - 1];
      var last := |ecosystems| - 1;
      AllDepsFailsIffSomeFails(run, front);
      if AllDeps(run, front).Err? {
        var i :| 0 <= i < |front| && run(front[i]).Err?;
        assert ecosystems[i] == front[i];
      } else if run(ecosystems[last]).Err? {
      } else {
        forall i | 0 <= i < |ecosystems| ensures run(ecosystems[i]).Ok? {
          if i < last {
            assert ecosystems[i] == front[i];
          }
        }
      }
    }
  }

  /** A failed analysis reports the error of the first analyzer that
      fails. */
  lemma {:induction false} AllDepsIsFirstFailure(run: Analyzers, ecosystems: seq<Ecosystem>)
    requires AllDeps(run, ecosystems).Err?
    ensures exists i :: 0 <= i < |ecosystems| && AllDeps(run, ecosystems) == run(ecosystems[i]) &&
                        forall j :: 0 <= j < i ==> run(ecosystems[j]).Ok?
    decreases |ecosystems|
  {
    var front := ecosystems[..|ecosystems| - 1];
    var last := |ecosystems| - 1;
    if AllDeps(run, front).Err? {
      AllDepsIsFirstFailure(run, front);
      var i :| 0 <= i < |front| && AllDeps(run, front) == run(front[i]) &&
               forall j :: 0 <= j < i ==> run(front[j]).Ok?;
      assert forall j :: 0 <= j <= i ==> ecosystems[j] == front[j];
    } else {
      AllDepsFailsIffSomeFails(run, front);
      assert forall j :: 0 <= j < last ==> ecosystems[j] == front[j];
      assert AllDeps(run, ecosystems) == run(ecosystems[last]);
    }
  }

  /** Only an unreadable `Cargo.lock` can stop the analysis. */
  lemma OnlyCargoLockFails(p: Project, ecosystems: seq<Ecosystem>)
    requires AllDeps(AnalyzersOf(p), ecosystems).Err?
    ensures Rust in ecosystems && p.cargoLock.Unreadable?
  {
    AllDepsFailsIffSomeFails(AnalyzersOf(p), ecosystems);
  }

  /** One analyzer, run as `main` runs it. */
  method RunAnalyzer(p: Project, e: Ecosystem) returns (r: Result<seq<Dependency>, string>)
    ensures r == AnalyzerOutput(p, e)
  {
    match e {
      case Rust =>
        r := RustAnalyzer.Analyze(p.cargoLock, p.cargoCache);
      case Python =>
        var deps := PythonAnalyzer.Analyze(p.python);
        r := Ok(deps);
      case Java =>
        var deps := JavaAnalyzer.Analyze(p.java);
        r := Ok(deps);
      case Node =>
        var deps := NodeAnalyzer.Analyze(p.node, p.installed);
        r := Ok(deps);
      case DotNet =>
        var deps := DotNetAnalyzer.Analyze(p.dotnet);
        r := Ok(deps);
    }
  }

  /** The loop that extends `all_deps` with each analyzer's output and
      returns the first error. */
  method CollectDependencies(p: Project, ecosystems: seq<Ecosystem>) returns (r: Result<seq<Dependency>, string>)
    ensures r == AllDeps(AnalyzersOf(p), ecosystems)
  {
    ghost var run := AnalyzersOf(p);
    var all: seq<Dependency> := [];
    for i := 0 to |ecosystems|
      invariant AllDeps(run, ecosystems[..i]) == Ok(all)
    {
      assert ecosystems[..i + 1][..i] == ecosystems[..i];
      var deps := RunAnalyzer(p, ecosystems[i]);
      if deps.Err? {
        AllDepsPrefixFails(run, ecosystems, i + 1);
        assert ecosystems[..|ecosystems|] == ecosystems;
        return Err(deps.error);
      }
      all := all + deps.value;
    }
    assert ecosystems[..|ecosystems|] == ecosystems;
    r := Ok(all);
  }

  /** Once a prefix fails, the whole list fails with the same error. */
  lemma {:induction false} AllDepsPrefixFails(run: Analyzers, ecosystems: seq<Ecosystem>, n: nat)
    requires n <= |ecosystems| && AllDeps(run, ecosystems[..n]).Err?
    ensures AllDeps(run, ecosystems) == AllDeps(run, ecosystems[..n])
    decreases |ecosystems| - n
  {
    if n < |ecosystems| {
      assert ecosystems[..n + 1][..n] == ecosystems[..n];
      AllDepsPrefixFails(run, ecosystems, n + 1);
    } else {
      assert ecosystems[..n] == ecosystems;
    }
  }
}
