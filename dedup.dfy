/** The `seen`-set merge every analyzer uses to combine its sources: an entry
    is appended only when its key has not been seen before. */
module Dedup {
  import opened Text
  import opened Models

  /** The lower-casing of the Python key: the ASCII capitals and the Kelvin
      sign U+212A, which `char::to_lowercase` maps to `k`. It is the one
      character outside ASCII whose lower case is ASCII; every other
      character is kept as it is. */
  function FoldChar(c: char): char {
    if c == '\U{212A}' then 'k' else AsciiLowerChar(c)
  }

  function FoldName(s: string): (r: string)
    ensures |r| == |s|
    ensures forall i :: 0 <= i < |s| ==> r[i] == FoldChar(s[i])
  {
    seq(|s|, i requires 0 <= i < |s| => FoldChar(s[i]))
  }

  predicate IsAscii(s: string) {
    forall i :: 0 <= i < |s| ==> s[i] as int < 0x80
  }

  /** On an ASCII name the fold is `to_ascii_lowercase`. */
  lemma FoldOfAscii(s: string)
    requires IsAscii(s)
    ensures FoldName(s) == Lower(s)
  {
    assert forall i :: 0 <= i < |s| ==> FoldName(s)[i] == Lower(s)[i];
  }

  /** A name that folds to the key of an ASCII name holds only ASCII
      characters and Kelvin signs: any other character is kept by the fold,
      so it cannot meet an ASCII key. */
  lemma FoldMatchesOnlyAsciiOrKelvin(s: string, a: string)
    requires IsAscii(a) && FoldName(s) == FoldName(a)
    ensures forall i :: 0 <= i < |s| ==> s[i] as int < 0x80 || s[i] == '\U{212A}'
  {
    forall i | 0 <= i < |s| ensures s[i] as int < 0x80 || s[i] == '\U{212A}' {
      assert FoldName(s)[i] == FoldName(a)[i];
    }
  }

  /** The three keys the analyzers deduplicate on. */
  datatype KeyKind =
    | LowerName         // Python: the lower-cased name, as `FoldName`
    | NameAtVersion     // Node: `name@version`
    | NameColonVersion  // Java and .NET: `name:version`

  function Key(d: Dependency, kind: KeyKind): string {
    match kind
    case LowerName => FoldName(d.name)
    case NameAtVersion => d.name + "@" + d.version
    case NameColonVersion => d.name + ":" + d.version
  }

  /** The keys of a sequence of dependencies. */
  function KeySet(ds: seq<Dependency>, kind: KeyKind): set<string> {
    if ds == [] then {} else {Key(ds[0], kind)} + KeySet(ds[1..], kind)
  }

  lemma {:induction false} KeySetMembers(ds: seq<Dependency>, kind: KeyKind)
    ensures forall i :: 0 <= i < |ds| ==> Key(ds[i], kind) in KeySet(ds, kind)
    ensures forall k :: k in KeySet(ds, kind) ==> exists i :: 0 <= i < |ds| && Key(ds[i], kind) == k
  {
    if ds != [] {
      KeySetMembers(ds[1..], kind);
      assert forall i :: 1 <= i < |ds| ==> ds[i] == ds[1..][i - 1];
    }
  }

  lemma {:induction false} KeySetSnoc(ds: seq<Dependency>, d: Dependency, kind: KeyKind)
    ensures KeySet(ds + [d], kind) == KeySet(ds, kind) + {Key(d, kind)}
    decreases |ds|
  {
    if ds == [] {
      assert [d][1..] == [];
    } else {
      assert (ds + [d])[1..] == ds[1..] + [d];
      KeySetSnoc(ds[1..], d, kind);
    }
  }

  /** The entries of `ds` a merge admits when the keys in `seen` are already
      taken: each entry whose key is new at its turn, in order. */
  function Fresh(ds: seq<Dependency>, seen: set<string>, kind: KeyKind): (r: seq<Dependency>)
    ensures |r| <= |ds|
    decreases |ds|
  {
    if ds == [] then []
    else if Key(ds[0], kind) in seen then Fresh(ds[1..], seen, kind)
    else [ds[0]] + Fresh(ds[1..], seen + {Key(ds[0], kind)}, kind)
  }

  predicate DistinctKeys(ds: seq<Dependency>, kind: KeyKind) {
    forall i, j :: 0 <= i < j < |ds| ==> Key(ds[i], kind) != Key(ds[j], kind)
  }

  /** Every admitted entry has a key outside `seen`, no two admitted entries
      share a key, and each one comes from the input. */
  lemma {:induction false} FreshIsNewAndDistinct(ds: seq<Dependency>, seen: set<string>, kind: KeyKind)
    ensures forall i :: 0 <= i < |Fresh(ds, seen, kind)| ==> Key(Fresh(ds, seen, kind)[i], kind) !in seen
    ensures DistinctKeys(Fresh(ds, seen, kind), kind)
    ensures forall i :: 0 <= i < |Fresh(ds, seen, kind)| ==> Fresh(ds, seen, kind)[i] in ds
    decreases |ds|
  {
    if ds != [] {
      var k := Key(ds[0], kind);
      if k in seen {
        FreshIsNewAndDistinct(ds[1..], seen, kind);
      } else {
        FreshIsNewAndDistinct(ds[1..], seen + {k}, kind);
      }
    }
  }

  /** The first entry with a given key is admitted, unless `seen` already
      held that key. */
  lemma {:induction false} FreshKeepsFirst(ds: seq<Dependency>, seen: set<string>, kind: KeyKind, i: nat)
    requires i < |ds| && Key(ds[i], kind) !in seen
    requires forall j :: 0 <= j < i ==> Key(ds[j], kind) != Key(ds[i], kind)
    ensures ds[i] in Fresh(ds, seen, kind)
    decreases i
  {
    var k := Key(ds[0], kind);
    if i > 0 {
      if k in seen {
        FreshKeepsFirst(ds[1..], seen, kind, i - 1);
      } else {
        FreshKeepsFirst(ds[1..], seen + {k}, kind, i - 1);
      }
    }
  }

  /** Every key of the input ends up taken: in `seen` or by an admitted
      entry. */
  lemma {:induction false} FreshCoversKeys(ds: seq<Dependency>, seen: set<string>, kind: KeyKind)
    ensures seen + KeySet(Fresh(ds, seen, kind), kind) == seen + KeySet(ds, kind)
    decreases |ds|
  {
    if ds != [] {
      var k := Key(ds[0], kind);
      if k in seen {
        FreshCoversKeys(ds[1..], seen, kind);
      } else {
        FreshCoversKeys(ds[1..], seen + {k}, kind);
        var f := Fresh(ds[1..], seen + {k}, kind);
        assert ([ds[0]] + f)[1..] == f;
      }
    }
  }

  /** A merge into a list whose keys are distinct and all taken keeps the
      keys distinct, and every key of the result is taken afterwards. */
  lemma MergeKeepsKeysDistinct(deps: seq<Dependency>, seen: set<string>, incoming: seq<Dependency>, kind: KeyKind)
    requires DistinctKeys(deps, kind)
    requires forall i :: 0 <= i < |deps| ==> Key(deps[i], kind) in seen
    ensures DistinctKeys(deps + Fresh(incoming, seen, kind), kind)
    ensures forall i :: 0 <= i < |deps + Fresh(incoming, seen, kind)| ==>
              Key((deps + Fresh(incoming, seen, kind))[i], kind) in seen + KeySet(incoming, kind)
  {
    var f := Fresh(incoming, seen, kind);
    FreshIsNewAndDistinct(incoming, seen, kind);
    KeySetMembers(incoming, kind);
    var all := deps + f;
    forall i, j | 0 <= i < j < |all| ensures Key(all[i], kind) != Key(all[j], kind) {
      if j >= |deps| {
        assert all[j] == f[j - |deps|];
        if i >= |deps| {
          assert all[i] == f[i - |deps|];
        }
      }
    }
    forall i | 0 <= i < |all| ensures Key(all[i], kind) in seen + KeySet(incoming, kind) {
      if i >= |deps| {
        assert all[i] == f[i - |deps|];
        var k :| 0 <= k < |incoming| && incoming[k] == f[i - |deps|];
      }
    }
  }

  /** One step of a merge loop at index `i`, for an entry whose key is new:
      it is appended, and its key is taken from then on. */
  lemma MergeStepNew(acc: seq<Dependency>, seen: set<string>, ds: seq<Dependency>, i: nat, kind: KeyKind)
    requires i < |ds| && Key(ds[i], kind) !in seen
    ensures acc + Fresh(ds[i..], seen, kind) == (acc + [ds[i]]) + Fresh(ds[i + 1..], seen + {Key(ds[i], kind)}, kind)
  {
    assert ds[i..][1..] == ds[i + 1..];
    var rest := Fresh(ds[i + 1..], seen + {Key(ds[i], kind)}, kind);
    assert Fresh(ds[i..], seen, kind) == [ds[i]] + rest;
    assert acc + ([ds[i]] + rest) == (acc + [ds[i]]) + rest;
  }

  /** One step of a merge loop at index `i`, for an entry whose key is
      taken: it is skipped, and inserting its key again changes nothing. */
  lemma MergeStepSeen(seen: set<string>, ds: seq<Dependency>, i: nat, kind: KeyKind)
    requires i < |ds| && Key(ds[i], kind) in seen
    ensures Fresh(ds[i..], seen, kind) == Fresh(ds[i + 1..], seen + {Key(ds[i], kind)}, kind)
  {
    assert ds[i..][1..] == ds[i + 1..];
    assert seen + {Key(ds[i], kind)} == seen;
  }

  /** The keys of a prefix one entry longer. */
  lemma KeySetPrefix(ds: seq<Dependency>, i: nat, kind: KeyKind)
    requires i < |ds|
    ensures KeySet(ds[..i + 1], kind) == KeySet(ds[..i], kind) + {Key(ds[i], kind)}
  {
    assert ds[..i + 1] == ds[..i] + [ds[i]];
    KeySetSnoc(ds[..i], ds[i], kind);
  }

  /** One merge loop of an analyzer: each incoming entry is appended when
      inserting its key into `seen` succeeds. */
  method Merge(deps: seq<Dependency>, seen: set<string>, incoming: seq<Dependency>, kind: KeyKind)
    returns (deps': seq<Dependency>, seen': set<string>)
    ensures deps' == deps + Fresh(incoming, seen, kind)
    ensures seen' == seen + KeySet(incoming, kind)
  {
    deps', seen' := deps, seen;
    for i := 0 to |incoming|
      invariant deps' + Fresh(incoming[i..], seen', kind) == deps + Fresh(incoming, seen, kind)
      invariant seen' == seen + KeySet(incoming[..i], kind)
    {
      var key := Key(incoming[i], kind);
      if key in seen' {
        MergeStepSeen(seen', incoming, i, kind);
      } else {
        MergeStepNew(deps', seen', incoming, i, kind);
      }
      KeySetPrefix(incoming, i, kind);
      var isNew := key !in seen';
      seen' := seen' + {key};
      if isNew {
        deps' := deps' + [incoming[i]];
      }
    }
    assert incoming[..|incoming|] == incoming;
  }

  /** The unconditional loop that takes every entry of the first source and
      records its key. */
  method AppendAll(deps: seq<Dependency>, seen: set<string>, incoming: seq<Dependency>, kind: KeyKind)
    returns (deps': seq<Dependency>, seen': set<string>)
    ensures deps' == deps + incoming
    ensures seen' == seen + KeySet(incoming, kind)
  {
    deps', seen' := deps, seen;
    for i := 0 to |incoming|
      invariant deps' == deps + incoming[..i]
      invariant seen' == seen + KeySet(incoming[..i], kind)
    {
      KeySetPrefix(incoming, i, kind);
      seen' := seen' + {Key(incoming[i], kind)};
      deps' := deps' + [incoming[i]];
    }
    assert incoming[..|incoming|] == incoming;
  }

  /** Merging the sources one after another, each entry admitted when its key
      is new. */
  function MergeAll(sources: seq<seq<Dependency>>, kind: KeyKind): (r: seq<Dependency>)
    ensures |r| <= TotalLength(sources)
  {
    if sources == [] then []
    else
      var front := sources[..|sources| - 1];
      var last := sources[|sources| - 1];
      MergeAll(front, kind) + Fresh(last, KeysOf(front, kind), kind)
  }

  /** The number of entries the sources offer together. */
  function TotalLength(sources: seq<seq<Dependency>>): nat {
    if sources == [] then 0 else TotalLength(sources[..|sources| - 1]) + |sources[|sources| - 1]|
  }

  /** All keys of a sequence of sources. */
  function KeysOf(sources: seq<seq<Dependency>>, kind: KeyKind): set<string> {
    if sources == [] then {} else KeysOf(sources[..|sources| - 1], kind) + KeySet(sources[|sources| - 1], kind)
  }

  /** Merging keeps keys distinct, and every key of the result is a key of
      some source. */
  lemma {:induction false} MergeAllIsDistinct(sources: seq<seq<Dependency>>, kind: KeyKind)
    ensures DistinctKeys(MergeAll(sources, kind), kind)
    ensures forall i :: 0 <= i < |MergeAll(sources, kind)| ==> Key(MergeAll(sources, kind)[i], kind) in KeysOf(sources, kind)
    decreases |sources|
  {
    if sources != [] {
      var front := sources[..|sources| - 1];
      MergeAllIsDistinct(front, kind);
      MergeKeepsKeysDistinct(MergeAll(front, kind), KeysOf(front, kind), sources[|sources| - 1], kind);
    }
  }

  /** Merging one more source extends the result by that source's new
      entries. */
  lemma MergeAllSnoc(sources: seq<seq<Dependency>>, last: seq<Dependency>, kind: KeyKind)
    ensures MergeAll(sources + [last], kind) == MergeAll(sources, kind) + Fresh(last, KeysOf(sources, kind), kind)
    ensures KeysOf(sources + [last], kind) == KeysOf(sources, kind) + KeySet(last, kind)
  {
    assert (sources + [last])[..|sources|] == sources;
  }

  /** The same, for the prefixes of one sequence of sources. */
  lemma MergeAllPrefix(sources: seq<seq<Dependency>>, k: nat, kind: KeyKind)
    requires k < |sources|
    ensures MergeAll(sources[..k + 1], kind) == MergeAll(sources[..k], kind) + Fresh(sources[k], KeysOf(sources[..k], kind), kind)
    ensures KeysOf(sources[..k + 1], kind) == KeysOf(sources[..k], kind) + KeySet(sources[k], kind)
  {
    assert sources[..k + 1][..k] == sources[..k];
  }

  /** The merge loops of an analyzer that reads several sources in turn,
      all sharing one `seen` set. */
  method MergeInOrder(sources: seq<seq<Dependency>>, kind: KeyKind) returns (deps: seq<Dependency>)
    ensures deps == MergeAll(sources, kind)
  {
    deps := [];
    var seen: set<string> := {};
    for k := 0 to |sources|
      invariant deps == MergeAll(sources[..k], kind) && seen == KeysOf(sources[..k], kind)
    {
      MergeAllPrefix(sources, k, kind);
      deps, seen := Merge(deps, seen, sources[k], kind);
    }
    assert sources[..|sources|] == sources;
  }
}
