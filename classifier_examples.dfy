/** The classifier's unit tests, as lemmas about the model. Each example is
    split into its keyword facts, its parts, and the general lemma it is an
    instance of. */
module ClassifierExamples {
  import opened Text
  import opened Models
  import opened Spdx
  import opened Classifier

  /** A string without a `y` and without some letter of `commercial`, in
      either case, carries no proprietary keyword. */
  lemma KeywordFree(t: string, c: char)
    requires c in "commercial" && 'a' <= c <= 'z'
    requires forall i :: 0 <= i < |t| ==>
               t[i] != 'y' && t[i] != 'Y' && t[i] != c && t[i] != (c as int - 32) as char
    ensures !HasProprietaryKeyword(t)
  {
    var k :| 0 <= k < 10 && "commercial"[k] == c;
    LowerLacks(t, 'y');
    LowerLacks(t, c);
    NotContainsMissingChar(Lower(t), "proprietary", 10);
    NotContainsMissingChar(Lower(t), "commercial", k);
  }

  /** A string that starts with `p` contains `p`. */
  lemma ContainsPrefix(p: string, rest: string)
    requires p != []
    ensures Contains(p + rest, p)
  {
    IndexOfAfter([], p, rest);
    assert [] + p + rest == p + rest;
  }

  lemma IdsArePlain(x: string)
    requires x in {"MIT", "GPL-3.0", "Apache-2.0", "LGPL-3.0", "GPL-2.0", "Classpath-exception-2.0"}
    ensures PlainId(x)
  {
    assert forall i :: 0 <= i < |x| ==> !IsWhitespace(x[i]) && x[i] != '/';
  }

  lemma ExtraIdsAreTrimmed(id: string)
    requires id in {"GPL-2.0", "LGPL-3.0", "CUSTOM-LICENSE-42"}
    ensures Trim(id) == id
  {
    TrimNoEdges(id);
  }

  lemma Gpl2Tier(id: string)
    requires id == "GPL-2.0"
    ensures ClassifySpdxId(id) == StrongCopyleft
  {
    ExtraIdsAreTrimmed(id);
    assert Tier(id) == StrongCopyleft;
    TrimmedLookup(id);
  }

  lemma Lgpl3Tier(id: string)
    requires id == "LGPL-3.0"
    ensures ClassifySpdxId(id) == WeakCopyleft
  {
    ExtraIdsAreTrimmed(id);
    assert Tier(id) == WeakCopyleft;
    TrimmedLookup(id);
  }

  lemma MitGplParts(xs: seq<string>)
    requires xs == ["MIT", "GPL-3.0"]
    ensures PlainList(xs)
    ensures Tiers(xs) == [Permissive, StrongCopyleft]
  {
    IdsArePlain(xs[0]);
    IdsArePlain(xs[1]);
    PermissiveExamples(xs[0]);
    StrongCopyleftExamples(xs[1]);
  }

  lemma MitApacheParts(xs: seq<string>)
    requires xs == ["MIT", "Apache-2.0"]
    ensures PlainList(xs)
    ensures Tiers(xs) == [Permissive, Permissive]
  {
    IdsArePlain(xs[0]);
    IdsArePlain(xs[1]);
    PermissiveExamples(xs[0]);
    PermissiveExamples(xs[1]);
  }

  lemma GplLgplParts(xs: seq<string>)
    requires xs == ["GPL-3.0", "LGPL-3.0"]
    ensures PlainList(xs)
    ensures Tiers(xs) == [StrongCopyleft, WeakCopyleft]
  {
    IdsArePlain(xs[0]);
    IdsArePlain(xs[1]);
    StrongCopyleftExamples(xs[0]);
    Lgpl3Tier(xs[1]);
  }

  /** Neither expression holds a `c`, so neither holds a keyword. */
  lemma CFreeKeywords(t: string)
    requires t == "MIT OR GPL-3.0" || t == "GPL-3.0/LGPL-3.0"
    ensures !HasProprietaryKeyword(t)
  {
    KeywordFree(t, 'c');
  }

  lemma OrJoin(t: string, xs: seq<string>)
    requires t == "MIT OR GPL-3.0" && xs == ["MIT", "GPL-3.0"]
    ensures Join(xs, " OR ") == t
  {
  }

  /** `MIT OR GPL-3.0` is permissive: the permissive alternative wins. */
  lemma OrExpressionExample(t: string)
    requires t == "MIT OR GPL-3.0"
    ensures Classify(t) == Permissive
  {
    var xs := ["MIT", "GPL-3.0"];
    CFreeKeywords(t);
    OrJoin(t, xs);
    MitGplParts(xs);
    OrListIsMostPermissive(xs);
  }

  /** Neither slash list of the tests holds a letter `o`, so neither holds
      `proprietary` or `commercial`. */
  lemma SlashListKeywords(t: string)
    requires t == "MIT/Apache-2.0" || t == "MIT/GPL-3.0"
    ensures !HasProprietaryKeyword(t)
  {
    KeywordFree(t, 'o');
  }

  lemma SlashMitApacheJoin(t: string, xs: seq<string>)
    requires t == "MIT/Apache-2.0" && xs == ["MIT", "Apache-2.0"]
    ensures Join(xs, "/") == t
  {
  }

  /** `MIT/Apache-2.0` is permissive. */
  lemma SlashMitApacheExample(t: string)
    requires t == "MIT/Apache-2.0"
    ensures Classify(t) == Permissive
  {
    var xs := ["MIT", "Apache-2.0"];
    SlashListKeywords(t);
    SlashMitApacheJoin(t, xs);
    MitApacheParts(xs);
    SlashListIsDisjunction(xs);
  }

  lemma SlashMitGplJoin(t: string, xs: seq<string>)
    requires t == "MIT/GPL-3.0" && xs == ["MIT", "GPL-3.0"]
    ensures Join(xs, "/") == t
  {
  }

  /** `MIT/GPL-3.0` is permissive: a slash means OR. */
  lemma SlashMitGplExample(t: string)
    requires t == "MIT/GPL-3.0"
    ensures Classify(t) == Permissive
  {
    var xs := ["MIT", "GPL-3.0"];
    SlashListKeywords(t);
    SlashMitGplJoin(t, xs);
    MitGplParts(xs);
    SlashListIsDisjunction(xs);
  }

  lemma SlashGplLgplJoin(t: string, xs: seq<string>)
    requires t == "GPL-3.0/LGPL-3.0" && xs == ["GPL-3.0", "LGPL-3.0"]
    ensures Join(xs, "/") == t
  {
  }

  /** `GPL-3.0/LGPL-3.0` is weak copyleft: the more permissive alternative. */
  lemma SlashGplLgplExample(t: string)
    requires t == "GPL-3.0/LGPL-3.0"
    ensures Classify(t) == WeakCopyleft
  {
    var xs := ["GPL-3.0", "LGPL-3.0"];
    CFreeKeywords(t);
    SlashGplLgplJoin(t, xs);
    GplLgplParts(xs);
    SlashListIsDisjunction(xs);
  }

  lemma AndKeywords(t: string)
    requires t == "MIT AND GPL-3.0"
    ensures !HasProprietaryKeyword(t)
  {
    KeywordFree(t, 'c');
  }

  lemma AndJoin(t: string, xs: seq<string>)
    requires t == "MIT AND GPL-3.0" && xs == ["MIT", "GPL-3.0"]
    ensures Join(xs, " AND ") == t
  {
  }

  lemma AndLacksOr(t: string)
    requires t == "MIT AND GPL-3.0"
    ensures !Contains(t, " OR ")
  {
    NotContainsMissingChar(t, " OR ", 2);
  }

  /** `MIT AND GPL-3.0` is strong copyleft: every conjunct binds. */
  lemma AndExpressionExample(t: string)
    requires t == "MIT AND GPL-3.0"
    ensures Classify(t) == StrongCopyleft
  {
    var xs := ["MIT", "GPL-3.0"];
    AndKeywords(t);
    AndJoin(t, xs);
    AndLacksOr(t);
    MitGplParts(xs);
    AndListIsMostRestrictive(xs);
  }

  lemma WithParts(xs: seq<string>)
    requires xs == ["GPL-2.0", "Classpath-exception-2.0"]
    ensures PlainList(xs)
    ensures ClassifySpdxId(xs[0]) == StrongCopyleft
  {
    IdsArePlain(xs[0]);
    IdsArePlain(xs[1]);
    Gpl2Tier(xs[0]);
  }

  lemma WithKeywords(t: string)
    requires t == "GPL-2.0 WITH Classpath-exception-2.0"
    ensures !HasProprietaryKeyword(t)
  {
    KeywordFree(t, 'm');
  }

  lemma WithJoin(t: string, xs: seq<string>)
    requires t == "GPL-2.0 WITH Classpath-exception-2.0" && xs == ["GPL-2.0", "Classpath-exception-2.0"]
    ensures Join(xs, " WITH ") == t
  {
  }

  lemma WithLacksOr(t: string)
    requires t == "GPL-2.0 WITH Classpath-exception-2.0"
    ensures !Contains(t, " OR ")
  {
    NotContainsMissingChar(t, " OR ", 2);
  }

  lemma WithLacksAnd(t: string)
    requires t == "GPL-2.0 WITH Classpath-exception-2.0"
    ensures !Contains(t, " AND ")
  {
    NotContainsMissingChar(t, " AND ", 1);
  }

  /** `GPL-2.0 WITH Classpath-exception-2.0` is strong copyleft: the exception clause is ignored. */
  lemma WithExceptionExample(t: string)
    requires t == "GPL-2.0 WITH Classpath-exception-2.0"
    ensures Classify(t) == StrongCopyleft
  {
    var xs := ["GPL-2.0", "Classpath-exception-2.0"];
    WithKeywords(t);
    WithJoin(t, xs);
    WithLacksOr(t);
    WithLacksAnd(t);
    WithParts(xs);
    WithExceptionIgnored(xs);
  }

  /** A trimmed keyword-marked string that is not the unknown marker is
      proprietary. */
  lemma MarkedProprietary(t: string)
    requires Trim(t) == t && !IsUnknownMarker(t) && HasProprietaryKeyword(t)
    ensures Classify(t) == Proprietary
  {
  }

  lemma ProprietaryKeyword(t: string)
    requires t == "Proprietary"
    ensures HasProprietaryKeyword(t)
  {
    assert Lower(t) == "proprietary" + [];
    ContainsPrefix("proprietary", []);
  }

  lemma CommercialKeyword(t: string)
    requires t == "commercial license"
    ensures HasProprietaryKeyword(t)
  {
    assert Lower(t) == "commercial" + " license";
    ContainsPrefix("commercial", " license");
  }

  lemma KeywordStringsAreTrimmed(t: string)
    requires t in {"Proprietary", "commercial license"}
    ensures Trim(t) == t
  {
    TrimNoEdges(t);
  }

  lemma KeywordStringsAreMarked(t: string)
    requires t in {"Proprietary", "commercial license"}
    ensures !IsUnknownMarker(t)
  {
    assert |Lower(t)| != |Lower("unknown")|;
  }

  /** `Proprietary` is proprietary. */
  lemma ProprietaryExample(t: string)
    requires t == "Proprietary"
    ensures Classify(t) == Proprietary
  {
    KeywordStringsAreTrimmed(t);
    KeywordStringsAreMarked(t);
    ProprietaryKeyword(t);
    MarkedProprietary(t);
  }

  /** `commercial license` is proprietary. */
  lemma CommercialExample(t: string)
    requires t == "commercial license"
    ensures Classify(t) == Proprietary
  {
    KeywordStringsAreTrimmed(t);
    KeywordStringsAreMarked(t);
    CommercialKeyword(t);
    MarkedProprietary(t);
  }

  /** The empty string and `unknown` are Unknown. */
  lemma UnknownMarkerExamples(t: string)
    requires t == "" || t == "unknown"
    ensures Classify(t) == LicenseRisk.Unknown
  {
    if t != "" {
      TrimNoEdges(t);
    }
  }

  lemma CustomIsPlain(t: string)
    requires t == "CUSTOM-LICENSE-42"
    ensures PlainId(t)
  {
    assert forall i :: 0 <= i < |t| ==> !IsWhitespace(t[i]) && t[i] != '/';
  }

  lemma CustomIsNotAlias(t: string)
    requires t == "CUSTOM-LICENSE-42"
    ensures t !in AllAliases
  {
    assert !AliasChar(t[10]);
    OperatorsAreNotAliases(t);
  }

  lemma CustomIsNotMarker(t: string)
    requires t == "CUSTOM-LICENSE-42"
    ensures !IsUnknownMarker(t)
  {
    assert |Lower(t)| != |Lower("unknown")|;
  }

  lemma CustomKeywords(t: string)
    requires t == "CUSTOM-LICENSE-42"
    ensures !HasProprietaryKeyword(t)
  {
    KeywordFree(t, 'r');
  }

  lemma CustomIsNotPermissive(t: string)
    requires t == "CUSTOM-LICENSE-42"
    ensures t !in PermissiveIds
  {
  }

  lemma CustomIsNotWeak(t: string)
    requires t == "CUSTOM-LICENSE-42"
    ensures t !in WeakCopyleftIds
  {
  }

  lemma CustomIsNotStrong(t: string)
    requires t == "CUSTOM-LICENSE-42"
    ensures t !in StrongCopyleftIds
  {
  }

  lemma CustomTier(t: string)
    requires t == "CUSTOM-LICENSE-42"
    ensures ClassifySpdxId(t) == LicenseRisk.Unknown
  {
    ExtraIdsAreTrimmed(t);
    CustomIsNotPermissive(t);
    CustomIsNotWeak(t);
    CustomIsNotStrong(t);
    TrimmedLookup(t);
  }

  /** An identifier the table does not list is Unknown. */
  lemma UnlistedExample(t: string)
    requires t == "CUSTOM-LICENSE-42"
    ensures Classify(t) == LicenseRisk.Unknown
  {
    CustomIsPlain(t);
    CustomIsNotAlias(t);
    CustomIsNotMarker(t);
    CustomKeywords(t);
    BareIdentifier(t);
    CustomTier(t);
  }
}
