/** The identifier table and the alias table of the license classifier. */
module Spdx {
  import opened Text
  import opened Models

  const PermissiveIds: set<string> := {
    "MIT", "Apache-2.0", "BSD-2-Clause", "BSD-3-Clause", "BSD-4-Clause", "ISC", "0BSD",
    "Unlicense", "Zlib", "CC0-1.0", "WTFPL", "CC-BY-4.0", "CC-BY-3.0", "PSF-2.0",
    "Python-2.0", "MIT-0", "BlueOak-1.0.0", "Artistic-2.0"
  }

  const WeakCopyleftIds: set<string> := {
    "LGPL-2.0", "LGPL-2.0-only", "LGPL-2.0-or-later", "LGPL-2.1", "LGPL-2.1-only",
    "LGPL-2.1-or-later", "LGPL-3.0", "LGPL-3.0-only", "LGPL-3.0-or-later", "MPL-2.0",
    "EUPL-1.2", "CDDL-1.0", "EPL-1.0", "EPL-2.0", "APSL-2.0", "OSL-3.0"
  }

  const StrongCopyleftIds: set<string> := {
    "GPL-2.0", "GPL-2.0-only", "GPL-2.0-or-later", "GPL-3.0", "GPL-3.0-only",
    "GPL-3.0-or-later", "AGPL-3.0", "AGPL-3.0-only", "AGPL-3.0-or-later", "EUPL-1.1"
  }

  const KnownIds: set<string> := PermissiveIds + WeakCopyleftIds + StrongCopyleftIds

  /** The risk tier of an already trimmed identifier, matched exactly and
      case-sensitively. The table never yields Proprietary. */
  function Tier(t: string): (r: LicenseRisk)
    ensures r != Proprietary
    ensures r == Permissive <==> t in PermissiveIds
    ensures r == WeakCopyleft ==> t in WeakCopyleftIds
    ensures r == StrongCopyleft ==> t in StrongCopyleftIds
    ensures r == LicenseRisk.Unknown <==> t !in KnownIds
  {
    if t in PermissiveIds then Permissive
    else if t in WeakCopyleftIds then WeakCopyleft
    else if t in StrongCopyleftIds then StrongCopyleft
    else LicenseRisk.Unknown
  }

  /** `classify_spdx_id`: the tier of the trimmed identifier; never Proprietary. */
  function ClassifySpdxId(id: string): (r: LicenseRisk)
    ensures r != Proprietary
  {
    Tier(Trim(id))
  }

  /** The identifier is trimmed before the lookup, so surrounding whitespace
      never matters. */
  lemma ClassifySpdxIdTrims(id: string, c: char)
    requires IsWhitespace(c)
    ensures ClassifySpdxId(id) == ClassifySpdxId(Trim(id))
    ensures ClassifySpdxId([c] + id) == ClassifySpdxId(id)
    ensures ClassifySpdxId(id + [c]) == ClassifySpdxId(id)
  {
    TrimIdempotent(id);
    TrimPadding(id, c);
  }

  /** An identifier without surrounding whitespace is looked up as it is. */
  lemma TrimmedLookup(id: string)
    requires Trim(id) == id
    ensures ClassifySpdxId(id) == Tier(id)
  {
  }

  lemma TestIdsAreTrimmed(id: string)
    requires id in {"MIT", "Apache-2.0", "BSD-3-Clause", "LGPL-2.1", "MPL-2.0",
                    "EUPL-1.2", "GPL-3.0", "AGPL-3.0", "EUPL-1.1", "mit"}
    ensures Trim(id) == id
  {
    TrimNoEdges(id);
  }

  lemma PermissiveTier(t: string)
    requires t in {"MIT", "Apache-2.0", "BSD-3-Clause"}
    ensures Tier(t) == Permissive
  {
  }

  lemma WeakTier(t: string)
    requires t in {"LGPL-2.1", "MPL-2.0", "EUPL-1.2"}
    ensures Tier(t) == WeakCopyleft
  {
    assert t !in PermissiveIds;
  }

  lemma StrongTier(t: string)
    requires t in {"GPL-3.0", "AGPL-3.0", "EUPL-1.1"}
    ensures Tier(t) == StrongCopyleft
  {
    assert t !in PermissiveIds;
    assert t !in WeakCopyleftIds;
  }

  lemma LowerCaseTier(t: string)
    requires t == "mit"
    ensures Tier(t) == LicenseRisk.Unknown
  {
  }

  /** The unit tests of the permissive tier. */
  lemma PermissiveExamples(id: string)
    requires id in {"MIT", "Apache-2.0", "BSD-3-Clause"}
    ensures ClassifySpdxId(id) == Permissive
  {
    TestIdsAreTrimmed(id);
    PermissiveTier(id);
    TrimmedLookup(id);
  }

  /** The unit tests of the weak-copyleft tier, and EUPL-1.2 on the weak side. */
  lemma WeakCopyleftExamples(id: string)
    requires id in {"LGPL-2.1", "MPL-2.0", "EUPL-1.2"}
    ensures ClassifySpdxId(id) == WeakCopyleft
  {
    TestIdsAreTrimmed(id);
    WeakTier(id);
    TrimmedLookup(id);
  }

  /** The unit tests of the strong-copyleft tier, and EUPL-1.1 on the strong side. */
  lemma StrongCopyleftExamples(id: string)
    requires id in {"GPL-3.0", "AGPL-3.0", "EUPL-1.1"}
    ensures ClassifySpdxId(id) == StrongCopyleft
  {
    TestIdsAreTrimmed(id);
    StrongTier(id);
    TrimmedLookup(id);
  }

  /** Matching is case-sensitive: `mit` is not MIT. */
  lemma CaseSensitiveExample(id: string)
    requires id == "mit"
    ensures ClassifySpdxId(id) == LicenseRisk.Unknown
  {
    TestIdsAreTrimmed(id);
    LowerCaseTier(id);
    TrimmedLookup(id);
  }

  // The arms of the alias table, one per canonical identifier they produce.
  const ApacheAliases: set<string> := {"Apache 2.0", "Apache License 2.0", "Apache License, Version 2.0"}
  const MitAliases: set<string> := {"MIT License", "The MIT License"}
  const BsdAliases: set<string> := {"BSD", "BSD License"}
  const Bsd2Aliases: set<string> := {"BSD 2-Clause", "Simplified BSD"}
  const Bsd3Aliases: set<string> := {"BSD 3-Clause", "New BSD", "Modified BSD"}
  const Gpl2Aliases: set<string> := {"GNU GPL v2", "GNU General Public License v2", "GPL v2", "GPLv2"}
  const Gpl3Aliases: set<string> := {"GNU GPL v3", "GNU General Public License v3", "GPL v3", "GPLv3"}
  const Lgpl21Aliases: set<string> := {"GNU LGPL v2.1", "LGPL v2.1", "LGPLv2.1"}
  const Lgpl3Aliases: set<string> := {"GNU LGPL v3", "LGPL v3", "LGPLv3"}
  const MplAliases: set<string> := {"Mozilla Public License 2.0", "MPL 2.0", "MPLv2"}
  const IscAliases: set<string> := {"ISC License"}
  const Cc0Aliases: set<string> := {"CC0", "Public Domain"}
  const AgplAliases: set<string> := {"AGPL v3", "AGPLv3", "GNU AGPL v3"}

  const AllAliases: set<string> :=
    ApacheAliases + MitAliases + BsdAliases + Bsd2Aliases + Bsd3Aliases + Gpl2Aliases
    + Gpl3Aliases + Lgpl21Aliases + Lgpl3Aliases + MplAliases + IscAliases + Cc0Aliases + AgplAliases

  /** The canonical identifiers the alias table produces. */
  const AliasTargets: set<string> := {
    "Apache-2.0", "MIT", "BSD-3-Clause", "BSD-2-Clause", "GPL-2.0", "GPL-3.0",
    "LGPL-2.1", "LGPL-3.0", "MPL-2.0", "ISC", "CC0-1.0", "AGPL-3.0"
  }

  /** The alias table on an already trimmed string: the canonical identifier of
      a listed alias, or the string itself. */
  function CanonicalOf(t: string): (r: string)
    ensures t in AllAliases ==> r in AliasTargets
    ensures t !in AllAliases ==> r == t
  {
    if t in ApacheAliases then "Apache-2.0"
    else if t in MitAliases then "MIT"
    else if t in BsdAliases then "BSD-3-Clause"
    else if t in Bsd2Aliases then "BSD-2-Clause"
    else if t in Bsd3Aliases then "BSD-3-Clause"
    else if t in Gpl2Aliases then "GPL-2.0"
    else if t in Gpl3Aliases then "GPL-3.0"
    else if t in Lgpl21Aliases then "LGPL-2.1"
    else if t in Lgpl3Aliases then "LGPL-3.0"
    else if t in MplAliases then "MPL-2.0"
    else if t in IscAliases then "ISC"
    else if t in Cc0Aliases then "CC0-1.0"
    else if t in AgplAliases then "AGPL-3.0"
    else t
  }

  /** Trims, then maps a listed alias to its canonical identifier; any other
      string is returned trimmed. */
  function Normalize(raw: string): (r: string)
    ensures Trim(raw) in AllAliases ==> r in AliasTargets
    ensures Trim(raw) !in AllAliases ==> r == Trim(raw)
  {
    CanonicalOf(Trim(raw))
  }

  lemma MitAliasesAreTrimmed(raw: string)
    requires raw in MitAliases + ApacheAliases
    ensures Trim(raw) == raw
  {
    TrimNoEdges(raw);
  }

  lemma MitArm(t: string)
    requires t in MitAliases
    ensures CanonicalOf(t) == "MIT"
  {
  }

  lemma ApacheArm(t: string)
    requires t in ApacheAliases
    ensures CanonicalOf(t) == "Apache-2.0"
  {
  }

  /** The first unit test of the alias table, for both spellings of the MIT arm. */
  lemma NormalizeMitAliases(raw: string)
    requires raw in MitAliases
    ensures Normalize(raw) == "MIT"
  {
    MitAliasesAreTrimmed(raw);
    MitArm(raw);
  }

  /** The second unit test of the alias table, for every spelling of the Apache arm. */
  lemma NormalizeApacheAliases(raw: string)
    requires raw in ApacheAliases
    ensures Normalize(raw) == "Apache-2.0"
  {
    MitAliasesAreTrimmed(raw);
    ApacheArm(raw);
  }

  lemma TargetsAreNotAliasesA(c: string)
    requires c in AliasTargets
    ensures c !in ApacheAliases + MitAliases + BsdAliases
  {
  }

  lemma TargetsAreNotAliasesB(c: string)
    requires c in AliasTargets
    ensures c !in Bsd2Aliases + Bsd3Aliases + AgplAliases
  {
  }

  lemma TargetsAreNotAliasesC(c: string)
    requires c in AliasTargets
    ensures c !in Gpl2Aliases + Gpl3Aliases
  {
  }

  lemma TargetsAreNotAliasesD(c: string)
    requires c in AliasTargets
    ensures c !in Lgpl21Aliases + Lgpl3Aliases
  {
  }

  lemma TargetsAreNotAliasesE(c: string)
    requires c in AliasTargets
    ensures c !in MplAliases + IscAliases + Cc0Aliases
  {
  }

  /** The canonical identifiers have no surrounding whitespace. */
  lemma TargetsAreTrimmed(c: string)
    requires c in AliasTargets
    ensures Trim(c) == c
  {
    TrimNoEdges(c);
  }

  /** No canonical identifier is itself an alias. */
  lemma TargetsAreNotAliases(c: string)
    requires c in AliasTargets
    ensures c !in AllAliases
  {
    TargetsAreNotAliasesA(c);
    TargetsAreNotAliasesB(c);
    TargetsAreNotAliasesC(c);
    TargetsAreNotAliasesD(c);
    TargetsAreNotAliasesE(c);
  }

  /** Normalising twice is normalising once: an alias goes to a canonical
      identifier, which has no surrounding whitespace and is not an alias. */
  lemma NormalizeIdempotent(raw: string)
    ensures Normalize(Normalize(raw)) == Normalize(raw)
  {
    var r := Normalize(raw);
    if Trim(raw) in AllAliases {
      TargetsAreTrimmed(r);
      TargetsAreNotAliases(r);
      assert Normalize(r) == CanonicalOf(r);
    } else {
      TrimIdempotent(raw);
    }
  }

  /** A character that occurs in some alias: every character but a slash and
      the capitals R, E and W. */
  predicate AliasChar(c: char) {
    c != '/' && c != 'R' && c != 'E' && c != 'W'
  }

  /** The shape every alias has: only alias characters, and never a capital A
      together with a capital D. */
  predicate AliasShaped(t: string) {
    (forall i :: 0 <= i < |t| ==> AliasChar(t[i])) && ('A' !in t || 'D' !in t)
  }

  lemma ApacheAliasesAreShaped(t: string)
    requires t in ApacheAliases
    ensures AliasShaped(t)
  {
    assert forall i :: 0 <= i < |t| ==> AliasChar(t[i]) && t[i] != 'D';
  }

  lemma MitAliasesAreShaped(t: string)
    requires t in MitAliases
    ensures AliasShaped(t)
  {
    assert forall i :: 0 <= i < |t| ==> AliasChar(t[i]) && t[i] != 'D';
  }

  lemma BsdAliasesAreShaped(t: string)
    requires t in BsdAliases
    ensures AliasShaped(t)
  {
    assert forall i :: 0 <= i < |t| ==> AliasChar(t[i]) && t[i] != 'A';
  }

  lemma Bsd2AliasesAreShaped(t: string)
    requires t in Bsd2Aliases
    ensures AliasShaped(t)
  {
    assert forall i :: 0 <= i < |t| ==> AliasChar(t[i]) && t[i] != 'A';
  }

  lemma Bsd3AliasesAreShaped(t: string)
    requires t in Bsd3Aliases
    ensures AliasShaped(t)
  {
    assert forall i :: 0 <= i < |t| ==> AliasChar(t[i]) && t[i] != 'A';
  }

  lemma Gpl2AliasesAreShaped(t: string)
    requires t in Gpl2Aliases
    ensures AliasShaped(t)
  {
    assert forall i :: 0 <= i < |t| ==> AliasChar(t[i]) && t[i] != 'D';
  }

  lemma Gpl3AliasesAreShaped(t: string)
    requires t in Gpl3Aliases
    ensures AliasShaped(t)
  {
    assert forall i :: 0 <= i < |t| ==> AliasChar(t[i]) && t[i] != 'D';
  }

  lemma Lgpl21AliasesAreShaped(t: string)
    requires t in Lgpl21Aliases
    ensures AliasShaped(t)
  {
    assert forall i :: 0 <= i < |t| ==> AliasChar(t[i]) && t[i] != 'D';
  }

  lemma Lgpl3AliasesAreShaped(t: string)
    requires t in Lgpl3Aliases
    ensures AliasShaped(t)
  {
    assert forall i :: 0 <= i < |t| ==> AliasChar(t[i]) && t[i] != 'D';
  }

  lemma MplAliasesAreShaped(t: string)
    requires t in MplAliases
    ensures AliasShaped(t)
  {
    assert forall i :: 0 <= i < |t| ==> AliasChar(t[i]) && t[i] != 'D';
  }

  lemma IscAliasesAreShaped(t: string)
    requires t in IscAliases
    ensures AliasShaped(t)
  {
    assert forall i :: 0 <= i < |t| ==> AliasChar(t[i]) && t[i] != 'D';
  }

  lemma Cc0AliasesAreShaped(t: string)
    requires t in Cc0Aliases
    ensures AliasShaped(t)
  {
    assert forall i :: 0 <= i < |t| ==> AliasChar(t[i]) && t[i] != 'A';
  }

  lemma AgplAliasesAreShaped(t: string)
    requires t in AgplAliases
    ensures AliasShaped(t)
  {
    assert forall i :: 0 <= i < |t| ==> AliasChar(t[i]) && t[i] != 'D';
  }

  /** Every alias has that shape. */
  lemma AliasesAreAliasShaped(t: string)
    ensures t in AllAliases ==> AliasShaped(t)
  {
    if t in ApacheAliases {
      ApacheAliasesAreShaped(t);
    } else if t in MitAliases {
      MitAliasesAreShaped(t);
    } else if t in BsdAliases {
      BsdAliasesAreShaped(t);
    } else if t in Bsd2Aliases {
      Bsd2AliasesAreShaped(t);
    } else if t in Bsd3Aliases {
      Bsd3AliasesAreShaped(t);
    } else if t in Gpl2Aliases {
      Gpl2AliasesAreShaped(t);
    } else if t in Gpl3Aliases {
      Gpl3AliasesAreShaped(t);
    } else if t in Lgpl21Aliases {
      Lgpl21AliasesAreShaped(t);
    } else if t in Lgpl3Aliases {
      Lgpl3AliasesAreShaped(t);
    } else if t in MplAliases {
      MplAliasesAreShaped(t);
    } else if t in IscAliases {
      IscAliasesAreShaped(t);
    } else if t in Cc0Aliases {
      Cc0AliasesAreShaped(t);
    } else if t in AgplAliases {
      AgplAliasesAreShaped(t);
    }
  }

  /** So a string with a slash, an ` OR ` (its capital R), an ` AND ` (its
      capitals A and D), a capital E or a capital W is left as it is by the
      alias table. */
  lemma OperatorsAreNotAliases(t: string)
    requires !AliasShaped(t)
    ensures t !in AllAliases
    ensures CanonicalOf(t) == t
  {
    AliasesAreAliasShaped(t);
  }

  /** Every canonical identifier the alias table produces is in one of the three tiers. */
  lemma AliasTargetsAreKnown(c: string)
    requires c in AliasTargets
    ensures ClassifySpdxId(c) != LicenseRisk.Unknown
  {
    TargetsAreTrimmed(c);
  }
}
