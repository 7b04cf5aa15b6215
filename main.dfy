/** The command's pipeline: detect the ecosystems, drop the excluded ones,
    run their analyzers, optionally enrich the dependencies from the
    registries in batches, classify them, and decide the exit status. */
module Pipeline {
  import opened Wrappers
  import opened Models
  import opened Detector
  import opened Configuration
  import opened Analysis
  import opened Enrichment
  import opened Verdicts

  // ---------------------------------------------------------------------
  // Ecosystem selection

  /** The detected ecosystems that are not excluded, in detection order. */
  function Scanned(detected: seq<Ecosystem>, excluded: seq<Ecosystem>): (r: seq<Ecosystem>)
    ensures forall e :: e in r <==> e in detected && e !in excluded
    ensures InDetectionOrder(detected) ==> InDetectionOrder(r)
    ensures |r| <= |detected|
  {
    if detected == [] then []
    else
      var init, last := detected[..|detected| - 1], detected[|detected| - 1];
      var front := Scanned(init, excluded);
      SplitLast(detected);
      if last in excluded then front
      else
        assert InDetectionOrder(detected) ==> InDetectionOrder(front + [last]) by {
          if InDetectionOrder(detected) {
            OrderedSnoc(front, last);
          }
        }
        front + [last]
  }

  /** A sequence is its front and its last element; in detection order the
      front is too, and every one of its elements ranks below the last. */
  lemma SplitLast(es: seq<Ecosystem>)
    requires es != []
    ensures forall e :: e in es <==> e in es[..|es| - 1] || e == es[|es| - 1]
    ensures InDetectionOrder(es) ==> InDetectionOrder(es[..|es| - 1])
    ensures InDetectionOrder(es) ==> forall e :: e in es[..|es| - 1] ==> Rank(e) < Rank(es[|es| - 1])
  {
    assert es == es[..|es| - 1] + [es[|es| - 1]];
    if InDetectionOrder(es) {
      forall e | e in es[..|es| - 1] ensures Rank(e) < Rank(es[|es| - 1]) {
        var i :| 0 <= i < |es| - 1 && es[i] == e;
      }
    }
  }

  /** Appending an ecosystem that ranks above all the others keeps the
      detection order. */
  lemma OrderedSnoc(es: seq<Ecosystem>, last: Ecosystem)
    requires InDetectionOrder(es)
    requires forall e :: e in es ==> Rank(e) < Rank(last)
    ensures InDetectionOrder(es + [last])
  {
    var t := es + [last];
    forall i, j | 0 <= i < j < |t| ensures Rank(t[i]) < Rank(t[j]) {
      if j == |es| {
        assert t[i] == es[i] && es[i] in es;
      }
    }
  }

  // ---------------------------------------------------------------------
  // The whole run

  datatype RunOutcome =
    /** No ecosystem left to scan: exit status 1 before any analysis. */
    | NoManifests
    /** An analyzer error, which ends the program with an error. */
    | AnalysisFailed(message: string)
    /** The classified dependencies and the exit status. */
    | Completed(deps: seq<Dependency>, exitStatus: nat)

  /** What follows a successful analysis: the dependencies enriched when
      online, then classified, and the exit status they give. */
  function Finished(deps: seq<Dependency>, config: Config, online: bool, reg: Registries): (r: RunOutcome)
    ensures r.Completed? && |r.deps| == |deps|
    ensures r.exitStatus == ExitStatus(r.deps)
    ensures !online ==> r.deps == ClassifiedAll(deps, config)
    ensures online ==> r.deps == ClassifiedAll(Enriched(deps, reg), config)
  {
    var enriched := if online then Enriched(deps, reg) else deps;
    var classified := ClassifiedAll(enriched, config);
    Completed(classified, ExitStatus(classified))
  }

  /** What the run yields for the ecosystems it scans. */
  function Outcome(p: Project, scanned: seq<Ecosystem>, config: Config, online: bool, reg: Registries): (r: RunOutcome)
    ensures scanned == [] <==> r.NoManifests?
    ensures r.AnalysisFailed? <==> scanned != [] && AllDeps(AnalyzersOf(p), scanned).Err?
    ensures r.AnalysisFailed? ==> Err(r.message) == AllDeps(AnalyzersOf(p), scanned)
    ensures r.Completed? ==> r.exitStatus == ExitStatus(r.deps)
  {
    if scanned == [] then NoManifests
    else
      match AllDeps(AnalyzersOf(p), scanned)
      case Err(message) => AnalysisFailed(message)
      case Ok(deps) => Finished(deps, config, online, reg)
  }

  /** The steps after the analysis, on the dependencies in a buffer. */
  method Finish(all: seq<Dependency>, config: Config, online: bool, reg: Registries) returns (outcome: RunOutcome)
    ensures outcome == Finished(all, config, online, reg)
  {
    var deps := new Dependency[|all|](i requires 0 <= i < |all| => all[i]);
    assert deps[..] == all;
    if online {
      var _, _ := EnrichOnline(deps, reg);
    }
    ClassifyAll(deps, config);
    outcome := Completed(deps[..], ExitStatus(deps[..]));
  }

  /** The run once the ecosystems to scan are known. */
  method RunScanned(p: Project, scanned: seq<Ecosystem>, config: Config, online: bool, reg: Registries)
    returns (outcome: RunOutcome)
    ensures outcome == Outcome(p, scanned, config, online, reg)
  {
    if scanned == [] {
      return NoManifests;
    }
    var all := CollectDependencies(p, scanned);
    if all.Err? {
      return AnalysisFailed(all.error);
    }
    outcome := Finish(all.value, config, online, reg);
  }

  /** `main` without the report: `scanned` are the ecosystems analyzed. */
  method Run(p: Project, excluded: seq<Ecosystem>, config: Config, online: bool, reg: Registries)
    returns (scanned: seq<Ecosystem>, outcome: RunOutcome)
    ensures forall e :: e in scanned <==> Detected(p.dir, e) && e !in excluded
    ensures InDetectionOrder(scanned)
    ensures outcome == Outcome(p, scanned, config, online, reg)
  {
    var detected := DetectEcosystems(p.dir);
    scanned := Scanned(detected, excluded);
    outcome := RunScanned(p, scanned, config, online, reg);
  }
}
