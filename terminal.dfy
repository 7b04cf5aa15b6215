/** The terminal report's counting and selection: the verdict tallies, the
    dependencies listed in a verdict's table, and the per-license summary
    shown for a verdict. */
module TerminalReport {
  import opened Text
  import opened Models

  // ---------------------------------------------------------------------
  // Verdict counts

  /** `deps.iter().filter(|d| d.verdict == v)`: the dependencies with
      verdict `v`, in input order. */
  function Having(deps: seq<Dependency>, v: PolicyVerdict): (r: seq<Dependency>)
    ensures |r| <= |deps|
    ensures forall d :: d in r <==> d in deps && d.verdict == v
  {
    if deps == [] then []
    else
      assert deps == [deps[0]] + deps[1..];
      (if deps[0].verdict == v then [deps[0]] else []) + Having(deps[1..], v)
  }

  /** The filter works piece by piece, so the kept dependencies keep their
      input order. */
  lemma {:induction false} HavingConcat(a: seq<Dependency>, b: seq<Dependency>, v: PolicyVerdict)
    ensures Having(a + b, v) == Having(a, v) + Having(b, v)
  {
    if a == [] {
      assert a + b == b;
    } else {
      assert (a + b)[0] == a[0];
      assert (a + b)[1..] == a[1..] + b;
      HavingConcat(a[1..], b, v);
    }
  }

  /** Every dependency is counted under exactly one of the three verdicts. */
  lemma {:induction false} VerdictCountsSumToTotal(deps: seq<Dependency>)
    ensures |Having(deps, Pass)| + |Having(deps, Warn)| + |Having(deps, PolicyVerdict.Error)| == |deps|
  {
    if deps != [] {
      VerdictCountsSumToTotal(deps[1..]);
    }
  }

  /** The four numbers of the summary line. */
  datatype Tally = Tally(total: nat, pass: nat, warn: nat, error: nat)

  /** `render`'s `total`, `pass_count`, `warn_count` and `error_count`. */
  function TallyOf(deps: seq<Dependency>): (t: Tally)
    ensures t.total == |deps|
    ensures t.pass + t.warn + t.error == t.total
    ensures t.pass == |Having(deps, Pass)| && t.warn == |Having(deps, Warn)| &&
            t.error == |Having(deps, PolicyVerdict.Error)|
  {
    VerdictCountsSumToTotal(deps);
    Tally(|deps|, |Having(deps, Pass)|, |Having(deps, Warn)|, |Having(deps, PolicyVerdict.Error)|)
  }

  /** `render_workspace` counts over the dependencies of every project, one
      project after another. */
  function Flatten(projects: seq<seq<Dependency>>): (all: seq<Dependency>)
    decreases |projects|
  {
    if projects == [] then [] else projects[0] + Flatten(projects[1..])
  }

  /** The workspace counts are the sums of the projects' counts. */
  lemma {:induction false} WorkspaceTallyAddsUp(first: seq<Dependency>, others: seq<seq<Dependency>>)
    ensures var all := TallyOf(Flatten([first] + others));
            var rest := TallyOf(Flatten(others));
            all.total == |first| + rest.total &&
            all.pass == TallyOf(first).pass + rest.pass &&
            all.warn == TallyOf(first).warn + rest.warn &&
            all.error == TallyOf(first).error + rest.error
  {
    assert ([first] + others)[1..] == others;
    var flat := Flatten(others);
    HavingConcat(first, flat, Pass);
    HavingConcat(first, flat, Warn);
    HavingConcat(first, flat, PolicyVerdict.Error);
  }

  // ---------------------------------------------------------------------
  // render_table

  /** One table row, as the cells show it. */
  datatype Row = Row(name: string, version: string, ecosystem: string, license: string, risk: string, verdict: string)

  function VerdictMark(v: PolicyVerdict): string {
    match v
    case Pass => "✓ pass"
    case Warn => "⚠ warn"
    case Error => "✗ error"
  }

  function RowOf(d: Dependency): Row {
    Row(d.name, d.version, EcosystemDisplay(d.ecosystem), EffectiveLicense(d), RiskDisplay(d.risk), VerdictMark(d.verdict))
  }

  /** The rows of the table for `verdict`: one per dependency with that
      verdict, in input order, each showing the effective license. */
  function TableRows(deps: seq<Dependency>, verdict: PolicyVerdict): (rows: seq<Row>)
    ensures |rows| == |Having(deps, verdict)|
    ensures forall i :: 0 <= i < |rows| ==> rows[i] == RowOf(Having(deps, verdict)[i])
    ensures forall i :: 0 <= i < |rows| ==> rows[i].verdict == VerdictMark(verdict)
  {
    var listed := Having(deps, verdict);
    assert forall i :: 0 <= i < |listed| ==> listed[i] in listed;
    seq(|listed|, i requires 0 <= i < |listed| => RowOf(listed[i]))
  }

  /** The three tables list every dependency once. */
  lemma TablesPartitionTheDependencies(deps: seq<Dependency>)
    ensures |TableRows(deps, Pass)| + |TableRows(deps, Warn)| + |TableRows(deps, PolicyVerdict.Error)| == |deps|
  {
    VerdictCountsSumToTotal(deps);
  }

  /** Which of the three tables `render` prints, always in the order error,
      warning, passing. */
  datatype Shown = Shown(error: bool, warn: bool, pass: bool)

  function Shows(s: Shown, v: PolicyVerdict): bool {
    match v
    case Error => s.error
    case Warn => s.warn
    case Pass => s.pass
  }

  /** The tables `render` prints: none in quiet mode; otherwise the error
      table when some dependency fails, the warning table when some warns,
      and the passing table only in verbose mode when some passes. */
  function ShownTables(deps: seq<Dependency>, verbose: bool, quiet: bool): (s: Shown)
    ensures s.error <==> !quiet && Having(deps, PolicyVerdict.Error) != []
    ensures s.warn <==> !quiet && Having(deps, Warn) != []
    ensures s.pass <==> !quiet && verbose && Having(deps, Pass) != []
  {
    var t := TallyOf(deps);
    Shown(!quiet && t.error > 0, !quiet && t.warn > 0, !quiet && verbose && t.pass > 0)
  }

  /** Outside quiet mode every failing or warning dependency is a row of a
      printed table, and in verbose mode every dependency is. */
  lemma ShownTablesListProblems(deps: seq<Dependency>, verbose: bool, quiet: bool)
    ensures forall d :: !quiet && d in deps && (verbose || d.verdict != Pass) ==>
              Shows(ShownTables(deps, verbose, quiet), d.verdict) && RowOf(d) in TableRows(deps, d.verdict)
  {
    forall d | !quiet && d in deps && (verbose || d.verdict != Pass)
      ensures Shows(ShownTables(deps, verbose, quiet), d.verdict) && RowOf(d) in TableRows(deps, d.verdict)
    {
      var listed := Having(deps, d.verdict);
      assert d in listed;
      var i :| 0 <= i < |listed| && listed[i] == d;
      assert TableRows(deps, d.verdict)[i] == RowOf(d);
    }
  }

  // ---------------------------------------------------------------------
  // summarize_licenses

  /** How many dependencies with verdict `v` have the effective license
      `lic`. */
  function Count(deps: seq<Dependency>, v: PolicyVerdict, lic: string): nat
    decreases |deps|
  {
    if deps == [] then 0
    else
      var last := deps[|deps| - 1];
      Count(deps[..|deps| - 1], v, lic) + (if last.verdict == v && EffectiveLicense(last) == lic then 1 else 0)
  }

  /** The counter map the loop builds: `*counts.entry(lic).or_insert(0) += 1`
      for each dependency with the verdict. */
  function LicenseCounts(deps: seq<Dependency>, v: PolicyVerdict): (counts: map<string, nat>)
    ensures forall lic :: lic in counts ==> 0 < counts[lic] <= |deps|
    decreases |deps|
  {
    if deps == [] then map[]
    else
      var counts := LicenseCounts(deps[..|deps| - 1], v);
      var last := deps[|deps| - 1];
      if last.verdict != v then counts
      else
        var lic := EffectiveLicense(last);
        counts[lic := (if lic in counts then counts[lic] else 0) + 1]
  }

  /** The map holds exactly the licenses that occur, each with its count. */
  lemma {:induction false} CountsAreCounts(deps: seq<Dependency>, v: PolicyVerdict)
    ensures forall lic :: lic in LicenseCounts(deps, v) <==> Count(deps, v, lic) > 0
    ensures forall lic :: lic in LicenseCounts(deps, v) ==> LicenseCounts(deps, v)[lic] == Count(deps, v, lic)
    decreases |deps|
  {
    if deps != [] {
      CountsAreCounts(deps[..|deps| - 1], v);
    }
  }

  /** The map is empty exactly when no dependency has the verdict. */
  lemma {:induction false} NoCountsIffNoDependency(deps: seq<Dependency>, v: PolicyVerdict)
    ensures LicenseCounts(deps, v) == map[] <==> Having(deps, v) == []
    decreases |deps|
  {
    if deps != [] {
      var front := deps[..|deps| - 1];
      var last := deps[|deps| - 1];
      NoCountsIffNoDependency(front, v);
      assert deps == front + [last];
      HavingConcat(front, [last], v);
      assert Having([last], v) == (if last.verdict == v then [last] else []) + Having([], v);
      if last.verdict == v {
        assert EffectiveLicense(last) in LicenseCounts(deps, v);
      }
    }
  }

  /** Counts in non-increasing order. */
  predicate NonIncreasing(ps: seq<(string, nat)>) {
    forall i, j :: 0 <= i < j < |ps| ==> ps[j].1 <= ps[i].1
  }

  /** `ps` lists the entries of `m`, each once. */
  ghost predicate Lists(ps: seq<(string, nat)>, m: map<string, nat>) {
    (forall p :: p in ps ==> p.0 in m && p.1 == m[p.0]) &&
    (forall k :: k in m ==> (k, m[k]) in ps) &&
    (forall p :: multiset(ps)[p] <= 1)
  }

  /** The order the summary is taken from: the entries of the map sorted by
      descending count, ties in any order. */
  ghost predicate Ranking(ranked: seq<(string, nat)>, counts: map<string, nat>) {
    NonIncreasing(ranked) && Lists(ranked, counts)
  }

  lemma ListsOfPermutation(a: seq<(string, nat)>, b: seq<(string, nat)>, m: map<string, nat>)
    requires multiset(a) == multiset(b) && Lists(a, m)
    ensures Lists(b, m)
  {
    forall p | p in b ensures p in a {
      assert p in multiset(b);
    }
    forall k | k in m ensures (k, m[k]) in b {
      assert (k, m[k]) in multiset(a);
    }
  }

  /** `s` with `p` placed after every entry whose count is at least `p`'s. */
  function InsertByCount(s: seq<(string, nat)>, p: (string, nat)): (r: seq<(string, nat)>)
    ensures multiset(r) == multiset(s) + multiset{p}
  {
    if s == [] then [p]
    else if s[0].1 >= p.1 then
      assert s == [s[0]] + s[1..];
      [s[0]] + InsertByCount(s[1..], p)
    else [p] + s
  }

  /** Inserting into a sorted list keeps it sorted. */
  lemma {:induction false} InsertKeepsOrder(s: seq<(string, nat)>, p: (string, nat))
    requires NonIncreasing(s)
    ensures NonIncreasing(InsertByCount(s, p))
  {
    if s != [] && s[0].1 >= p.1 {
      var tail := InsertByCount(s[1..], p);
      InsertKeepsOrder(s[1..], p);
      forall x | x in tail ensures x.1 <= s[0].1 {
        assert x in multiset(tail);
        assert x in multiset(s[1..]) || x == p;
      }
      assert InsertByCount(s, p) == [s[0]] + tail;
    }
  }

  /** `pairs.sort_by(|a, b| b.1.cmp(&a.1))`, a stable sort by descending
      count. */
  method SortByCount(pairs: seq<(string, nat)>) returns (sorted: seq<(string, nat)>)
    ensures NonIncreasing(sorted)
    ensures multiset(sorted) == multiset(pairs)
  {
    sorted := [];
    for i := 0 to |pairs|
      invariant NonIncreasing(sorted)
      invariant multiset(sorted) == multiset(pairs[..i])
    {
      assert pairs[..i + 1] == pairs[..i] + [pairs[i]];
      InsertKeepsOrder(sorted, pairs[i]);
      sorted := InsertByCount(sorted, pairs[i]);
    }
    assert pairs[..|pairs|] == pairs;
  }

  /** `format!("{} ({})", lic, cnt)`. */
  function Entry(p: (string, nat)): string {
    p.0 + " (" + DecimalString(p.1) + ")"
  }

  function Entries(ps: seq<(string, nat)>): (r: seq<string>)
    ensures |r| == |ps|
    ensures forall i :: 0 <= i < |ps| ==> r[i] == Entry(ps[i])
  {
    seq(|ps|, i requires 0 <= i < |ps| => Entry(ps[i]))
  }

  /** The first three entries, or fewer. */
  function Top(ranked: seq<(string, nat)>): (top: seq<(string, nat)>)
    ensures |top| <= 3
    ensures |top| == if |ranked| <= 3 then |ranked| else 3
    ensures top == ranked[..|top|]
  {
    if |ranked| <= 3 then ranked else ranked[..3]
  }

  /** The summary text: `[lic (n), ...]` over the top entries, or nothing. */
  function Summary(ranked: seq<(string, nat)>): (text: string)
    ensures text == "" <==> ranked == []
    ensures text != "" ==> text[0] == '[' && text[|text| - 1] == ']'
  {
    var top := Top(ranked);
    if top == [] then "" else "[" + Join(Entries(top), ", ") + "]"
  }

  /** The counting loop of `summarize_licenses`. */
  method CountLicenses(deps: seq<Dependency>, verdict: PolicyVerdict) returns (counts: map<string, nat>)
    ensures counts == LicenseCounts(deps, verdict)
  {
    counts := map[];
    for i := 0 to |deps|
      invariant counts == LicenseCounts(deps[..i], verdict)
    {
      assert deps[..i + 1][..i] == deps[..i];
      if deps[i].verdict == verdict {
        var lic := EffectiveLicense(deps[i]);
        counts := counts[lic := (if lic in counts then counts[lic] else 0) + 1];
      }
    }
    assert deps[..|deps|] == deps;
  }

  /** `counts.into_iter().collect()`: the entries of the map, each once. The
      map's iteration order is not defined, so each step takes any entry not
      yet taken. */
  method EntriesOf(counts: map<string, nat>) returns (pairs: seq<(string, nat)>)
    ensures Lists(pairs, counts)
  {
    pairs := [];
    var rest := counts;
    while rest.Keys != {}
      invariant rest.Keys <= counts.Keys
      invariant forall k :: k in rest ==> rest[k] == counts[k]
      invariant forall p :: p in pairs ==> p.0 in counts && p.1 == counts[p.0] && p.0 !in rest
      invariant forall k :: k in counts ==> k in rest || (k, counts[k]) in pairs
      invariant forall p :: multiset(pairs)[p] <= 1
      decreases |rest.Keys|
    {
      var k :| k in rest.Keys;
      assert (k, rest[k]) !in pairs;
      pairs := pairs + [(k, rest[k])];
      rest := rest - {k};
    }
  }

  /** `summarize_licenses`, and `summarize_licenses_refs`, which runs the
      same code over references: count, list the entries, sort them by
      descending count and format the first three. `ranked` is the sorted
      list the summary is taken from. */
  method SummarizeLicenses(deps: seq<Dependency>, verdict: PolicyVerdict)
    returns (summary: string, ghost ranked: seq<(string, nat)>)
    ensures Ranking(ranked, LicenseCounts(deps, verdict))
    ensures summary == Summary(ranked)
  {
    var counts := CountLicenses(deps, verdict);
    var pairs := EntriesOf(counts);
    var sorted := SortByCount(pairs);
    ListsOfPermutation(pairs, sorted, counts);
    ranked := sorted;
    var top := if |sorted| <= 3 then sorted else sorted[..3];
    var shown := Entries(top);
    summary := if shown == [] then "" else "[" + Join(shown, ", ") + "]";
  }

  // ---------------------------------------------------------------------
  // Properties of the summary

  /** The summary is empty exactly when no dependency has the verdict. */
  lemma SummaryEmptyIffNoDependency(deps: seq<Dependency>, v: PolicyVerdict, ranked: seq<(string, nat)>)
    requires Ranking(ranked, LicenseCounts(deps, v))
    ensures Summary(ranked) == "" <==> Having(deps, v) == []
  {
    var counts := LicenseCounts(deps, v);
    NoCountsIffNoDependency(deps, v);
    if counts != map[] {
      var k :| k in counts;
      assert (k, counts[k]) in ranked;
    }
    if ranked != [] {
      assert ranked[0] in ranked;
      assert ranked[0].0 in counts;
      assert Summary(ranked)[0] == '[';
    }
  }

  /** Each shown entry is a license with its count of dependencies. */
  lemma ShownEntriesAreCounts(deps: seq<Dependency>, v: PolicyVerdict, ranked: seq<(string, nat)>, i: nat)
    requires Ranking(ranked, LicenseCounts(deps, v)) && i < |Top(ranked)|
    ensures Top(ranked)[i].1 == Count(deps, v, Top(ranked)[i].0) > 0
  {
    CountsAreCounts(deps, v);
    assert Top(ranked)[i] == ranked[i];
    assert ranked[i] in ranked;
  }

  /** No license left out of the summary has a larger count than one shown:
      the summary shows the three most frequent licenses, up to ties. */
  lemma ShownAreTheMostFrequent(deps: seq<Dependency>, v: PolicyVerdict, ranked: seq<(string, nat)>, i: nat, lic: string)
    requires Ranking(ranked, LicenseCounts(deps, v)) && i < |Top(ranked)|
    requires forall j :: 0 <= j < |Top(ranked)| ==> Top(ranked)[j].0 != lic
    requires Count(deps, v, lic) > 0
    ensures Count(deps, v, lic) <= Top(ranked)[i].1
  {
    CountsAreCounts(deps, v);
    RankedAboveMissing(LicenseCounts(deps, v), ranked, i, lic);
  }

  /** In a ranking of any counter map, an entry shown counts at least as
      much as a key left out. */
  lemma RankedAboveMissing(counts: map<string, nat>, ranked: seq<(string, nat)>, i: nat, lic: string)
    requires Ranking(ranked, counts) && i < |Top(ranked)| && lic in counts
    requires forall j :: 0 <= j < |Top(ranked)| ==> Top(ranked)[j].0 != lic
    ensures counts[lic] <= Top(ranked)[i].1
  {
    assert (lic, counts[lic]) in ranked;
    var j :| 0 <= j < |ranked| && ranked[j] == (lic, counts[lic]);
    assert forall j' :: 0 <= j' < |Top(ranked)| ==> ranked[j'].0 != lic;
    assert Top(ranked)[i] == ranked[i];
  }
}
