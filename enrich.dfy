/** The online enrichment step: each dependency looked up in its
    ecosystem's registry, in batches, and the license found written back. */
module Enrichment {
  import opened Wrappers
  import opened Models
  import opened Http
  import opened Json
  import opened Xml
  import MavenRegistry
  import NpmRegistry
  import PypiRegistry


  /** The registry clients. crates.io is a lookup whose client is not part
      of this model. */
  datatype Registries = Registries(
    cratesIo: (string, string) -> FetchResult,
    pypi: string -> Response<Json>,
    maven: string -> Response<seq<Event>>,
    npm: string -> Response<Json>)

  /** The lookup each dependency gets: the client of its ecosystem, and
      none at all for .NET. */
  function Fetch(reg: Registries, d: Dependency): (r: FetchResult)
    ensures d.ecosystem == DotNet ==> r == Ok(None)
  {
    match d.ecosystem
    case Rust => reg.cratesIo(d.name, d.version)
    case Python => PypiRegistry.FetchLicense(d.name, d.version, reg.pypi)
    case Java => MavenRegistry.FetchLicense(d.name, d.version, reg.maven)
    case Node => NpmRegistry.FetchLicense(d.name, d.version, reg.npm)
    case DotNet => Ok(None)
  }

  /** The write-back of one result: a license found sets both license
      fields and marks the source as the registry; anything else, a lookup
      error included, leaves the dependency as it was. */
  function WriteBack(d: Dependency, result: FetchResult): (d': Dependency)
    ensures d'.name == d.name && d'.version == d.version && d'.ecosystem == d.ecosystem
    ensures d'.risk == d.risk && d'.verdict == d.verdict
    ensures result.Ok? && result.value.Some? ==>
              d'.licenseRaw == result.value && d'.licenseSpdx == result.value && d'.source == Registry
    ensures !(result.Ok? && result.value.Some?) ==> d' == d
  {
    match result
    case Ok(Some(license)) => d.(licenseRaw := Some(license), licenseSpdx := Some(license), source := Registry)
    case _ => d
  }

  /** Every dependency after enrichment. */
  function Enriched(deps: seq<Dependency>, reg: Registries): (r: seq<Dependency>)
    ensures |r| == |deps|
    ensures forall i :: 0 <= i < |deps| ==> r[i] == WriteBack(deps[i], Fetch(reg, deps[i]))
  {
    seq(|deps|, i requires 0 <= i < |deps| => WriteBack(deps[i], Fetch(reg, deps[i])))
  }

  /** .NET dependencies are never enriched. */
  lemma DotNetIsNeverEnriched(deps: seq<Dependency>, reg: Registries, i: nat)
    requires i < |deps| && deps[i].ecosystem == DotNet
    ensures Enriched(deps, reg)[i] == deps[i]
  {
  }

  const BatchSize: nat := 75

  /** `chunks_mut(size)` from `start`: consecutive index ranges of `size`
      elements, the last one possibly shorter. */
  function Chunks(start: nat, n: nat, size: nat): (r: seq<(nat, nat)>)
    requires size > 0
    ensures forall k :: 0 <= k < |r| ==> r[k].0 < r[k].1 <= n && r[k].1 - r[k].0 <= size
    decreases n - start
  {
    if start >= n then []
    else
      var end := if start + size <= n then start + size else n;
      [(start, end)] + Chunks(end, n, size)
  }

  /** The indices from `a` up to, not including, `b`. */
  function Range(a: nat, b: nat): (r: seq<nat>)
    requires a <= b
    ensures |r| == b - a && forall i :: 0 <= i < |r| ==> r[i] == a + i
  {
    seq(b - a, i => a + i)
  }

  lemma RangeConcat(a: nat, b: nat, c: nat)
    requires a <= b <= c
    ensures Range(a, b) + Range(b, c) == Range(a, c)
  {
    var x, y := Range(a, b) + Range(b, c), Range(a, c);
    forall i | 0 <= i < |y| ensures x[i] == y[i] {
      if i < b - a {
        assert x[i] == Range(a, b)[i];
      } else {
        assert x[i] == Range(b, c)[i - (b - a)];
      }
    }
    assert x == y;
  }

  /** The indices of the ranges, one range after another. */
  function Indices(chunks: seq<(nat, nat)>): seq<nat>
    requires forall k :: 0 <= k < |chunks| ==> chunks[k].0 <= chunks[k].1
  {
    if chunks == [] then []
    else Range(chunks[0].0, chunks[0].1) + Indices(chunks[1..])
  }

  /** The batches visit every index from `start` to `n` exactly once, in
      increasing order, and all but the last are full. */
  lemma {:induction false} ChunksCoverInOrder(start: nat, n: nat, size: nat)
    requires size > 0 && start <= n
    ensures Indices(Chunks(start, n, size)) == Range(start, n)
    ensures forall k :: 0 <= k < |Chunks(start, n, size)| - 1 ==> Chunks(start, n, size)[k].1 - Chunks(start, n, size)[k].0 == size
    decreases n - start
  {
    if start < n {
      var end := if start + size <= n then start + size else n;
      var rest := Chunks(end, n, size);
      ChunksCoverInOrder(end, n, size);
      assert Chunks(start, n, size) == [(start, end)] + rest;
      assert ([(start, end)] + rest)[1..] == rest;
      assert Indices(Chunks(start, n, size)) == Range(start, end) + Range(end, n);
      RangeConcat(start, end, n);
      if end < n {
        assert end == start + size;
      }
    }
  }

  /** `before` with its first `j` elements enriched. */
  function PartlyEnriched(before: seq<Dependency>, reg: Registries, j: nat): (r: seq<Dependency>)
    requires j <= |before|
    ensures |r| == |before|
  {
    seq(|before|, k requires 0 <= k < |before| => if k < j then WriteBack(before[k], Fetch(reg, before[k])) else before[k])
  }

  /** Nothing is enriched yet at 0, and everything is at the end. */
  lemma PartlyEnrichedEnds(before: seq<Dependency>, reg: Registries)
    ensures PartlyEnriched(before, reg, 0) == before
    ensures PartlyEnriched(before, reg, |before|) == Enriched(before, reg)
  {
  }

  /** Writing the result back into element `j` enriches one more. */
  lemma PartlyEnrichedStep(before: seq<Dependency>, reg: Registries, j: nat)
    requires j < |before|
    ensures PartlyEnriched(before, reg, j)[j := WriteBack(before[j], Fetch(reg, before[j]))] ==
            PartlyEnriched(before, reg, j + 1)
  {
  }

  /** `batches` are the ranges before `start`: with the ranges from
      `start` on they make up every batch of `n` elements. */
  ghost predicate BatchesBefore(batches: seq<(nat, nat)>, start: nat, n: nat) {
    batches + Chunks(start, n, BatchSize) == Chunks(0, n, BatchSize)
  }

  /** The end of the batch that begins at `start`. */
  function BatchEnd(start: nat, n: nat): (end: nat)
    requires start < n
    ensures start < end <= n && end - start <= BatchSize
  {
    if start + BatchSize <= n then start + BatchSize else n
  }

  /** Recording the batch at `start` moves on to its end. */
  lemma BatchesStep(batches: seq<(nat, nat)>, start: nat, n: nat)
    requires start < n && BatchesBefore(batches, start, n)
    ensures BatchesBefore(batches + [(start, BatchEnd(start, n))], BatchEnd(start, n), n)
  {
    var end := BatchEnd(start, n);
    assert Chunks(start, n, BatchSize) == [(start, end)] + Chunks(end, n, BatchSize);
  }

  /** At the end every batch has been recorded. */
  lemma BatchesDone(batches: seq<(nat, nat)>, n: nat)
    requires BatchesBefore(batches, n, n)
    ensures batches == Chunks(0, n, BatchSize)
  {
    assert Chunks(n, n, BatchSize) == [];
  }

  /** One batch of `enrich_online`: each element of `start..end` is looked
      up and its result written back into it. */
  method EnrichBatch(deps: array<Dependency>, reg: Registries, start: nat, end: nat, ghost before: seq<Dependency>)
    returns (handled: nat)
    requires start <= end <= deps.Length == |before| && deps[..] == PartlyEnriched(before, reg, start)
    modifies deps
    ensures deps[..] == PartlyEnriched(before, reg, end)
    ensures handled == end - start
  {
    handled := 0;
    for j := start to end
      invariant handled == j - start
      invariant deps[..] == PartlyEnriched(before, reg, j)
    {
      PartlyEnrichedStep(before, reg, j);
      var d := deps[j];
      var result := Fetch(reg, d);
      if result.Ok? && result.value.Some? {
        var license := result.value.value;
        deps[j] := d.(licenseRaw := Some(license), licenseSpdx := Some(license), source := Registry);
      }
      assert d == before[j];
      handled := handled + 1;
    }
  }

  /** `enrich_online`: the dependencies are looked up batch by batch and
      each result is written back into its own element. `progress` counts
      the elements handled and `batches` records the ranges visited. */
  method EnrichOnline(deps: array<Dependency>, reg: Registries) returns (progress: nat, ghost batches: seq<(nat, nat)>)
    modifies deps
    ensures deps[..] == Enriched(old(deps[..]), reg)
    ensures progress == deps.Length
    ensures batches == Chunks(0, deps.Length, BatchSize)
  {
    ghost var before := deps[..];
    PartlyEnrichedEnds(before, reg);
    var n := deps.Length;
    progress := 0;
    batches := [];
    var start := 0;
    while start < n
      invariant start <= n && progress == start
      invariant BatchesBefore(batches, start, n)
      invariant deps[..] == PartlyEnriched(before, reg, start)
      decreases n - start
    {
      var end := BatchEnd(start, n);
      BatchesStep(batches, start, n);
      var handled := EnrichBatch(deps, reg, start, end, before);
      progress := progress + handled;
      batches := batches + [(start, end)];
      start := end;
    }
    BatchesDone(batches, n);
  }
}
