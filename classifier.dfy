/**
 * The license risk classifier: a raw license string to one of the five tiers.
 * Expressions are split flatly on ` OR ` (the most permissive part wins) or
 * else on ` AND ` (the most restrictive part wins); there is no parenthesis
 * handling and no operator precedence.
 */
module Classifier {
  import opened Text
  import opened Models
  import opened Spdx

  /** The order `most_permissive` prefers: Permissive > Weak > Strong > Proprietary,
      with Unknown below all of them. */
  function PermissiveRank(r: LicenseRisk): nat {
    match r
    case Permissive => 4
    case WeakCopyleft => 3
    case StrongCopyleft => 2
    case Proprietary => 1
    case Unknown => 0
  }

  /** The order `most_restrictive` prefers: Proprietary > Strong > Weak > Permissive,
      with Unknown below all of them. */
  function RestrictiveRank(r: LicenseRisk): nat {
    match r
    case Proprietary => 4
    case StrongCopyleft => 3
    case WeakCopyleft => 2
    case Permissive => 1
    case Unknown => 0
  }

  /** `most_permissive`: the tier present in `risks` that is highest in the
      permissive order; Unknown only when no known tier is present. */
  function MostPermissive(risks: seq<LicenseRisk>): (r: LicenseRisk)
    ensures r in risks || r == LicenseRisk.Unknown
    ensures forall x :: x in risks ==> PermissiveRank(x) <= PermissiveRank(r)
    ensures r == LicenseRisk.Unknown <==> forall x :: x in risks ==> x == LicenseRisk.Unknown
  {
    if Permissive in risks then Permissive
    else if WeakCopyleft in risks then WeakCopyleft
    else if StrongCopyleft in risks then StrongCopyleft
    else if Proprietary in risks then Proprietary
    else LicenseRisk.Unknown
  }

  /** `most_restrictive`: the tier present in `risks` that is highest in the
      restrictive order; Unknown only when no known tier is present. */
  function MostRestrictive(risks: seq<LicenseRisk>): (r: LicenseRisk)
    ensures r in risks || r == LicenseRisk.Unknown
    ensures forall x :: x in risks ==> RestrictiveRank(x) <= RestrictiveRank(r)
    ensures r == LicenseRisk.Unknown <==> forall x :: x in risks ==> x == LicenseRisk.Unknown
  {
    if Proprietary in risks then Proprietary
    else if StrongCopyleft in risks then StrongCopyleft
    else if WeakCopyleft in risks then WeakCopyleft
    else if Permissive in risks then Permissive
    else LicenseRisk.Unknown
  }

  /** The permissive join of two tiers. */
  function PermissiveJoin(a: LicenseRisk, b: LicenseRisk): LicenseRisk {
    if PermissiveRank(a) >= PermissiveRank(b) then a else b
  }

  /** The restrictive join of two tiers. */
  function RestrictiveJoin(a: LicenseRisk, b: LicenseRisk): LicenseRisk {
    if RestrictiveRank(a) >= RestrictiveRank(b) then a else b
  }

  /** Both combinators depend only on which tiers are present, not on order
      or repetition, and distribute over concatenation as the binary join. */
  lemma CombinatorsAreLattices(a: seq<LicenseRisk>, b: seq<LicenseRisk>)
    ensures (forall x :: x in a <==> x in b) ==> MostPermissive(a) == MostPermissive(b)
    ensures (forall x :: x in a <==> x in b) ==> MostRestrictive(a) == MostRestrictive(b)
    ensures MostPermissive(a + b) == PermissiveJoin(MostPermissive(a), MostPermissive(b))
    ensures MostRestrictive(a + b) == RestrictiveJoin(MostRestrictive(a), MostRestrictive(b))
  {
  }

  /** `classify_single`: the identifier before the first ` WITH `, trimmed,
      looked up in the identifier table. */
  function ClassifySingle(id: string): (r: LicenseRisk)
    ensures r != Proprietary
    ensures !Contains(id, " WITH ") ==> r == ClassifySpdxId(id)
  {
    var base := Trim(Split(id, " WITH ")[0]);
    assert !Contains(id, " WITH ") ==> Split(id, " WITH ") == [id];
    TrimIdempotent(id);
    ClassifySpdxId(base)
  }

  /** A ` WITH ` exception clause after a space-free identifier is ignored. */
  lemma WithClauseIgnored(base: string, exception: string)
    requires ' ' !in base
    ensures ClassifySingle(base + " WITH " + exception) == ClassifySpdxId(base)
  {
    var s := base + " WITH " + exception;
    IndexOfAfter(base, " WITH ", exception);
    assert s[..|base|] == base;
    TrimIdempotent(base);
  }

  /** The tiers of the trimmed parts of a split expression. */
  function ClassifyParts(parts: seq<string>): (rs: seq<LicenseRisk>)
    ensures |rs| == |parts|
    ensures forall i :: 0 <= i < |parts| ==> rs[i] == ClassifySingle(Trim(parts[i]))
    ensures Proprietary !in rs
  {
    seq(|parts|, i requires 0 <= i < |parts| => ClassifySingle(Trim(parts[i])))
  }

  /** The expression the operators are looked for in: the alias table applied
      to the whole string, then every `/` rewritten to ` OR `. */
  function Expression(trimmed: string): string {
    ReplaceChar(Normalize(trimmed), '/', " OR ")
  }

  /** The operator stage of `classify`: ` OR ` first, then ` AND `, then a
      single identifier. It never yields Proprietary. */
  function ClassifyExpression(e: string): (r: LicenseRisk)
    ensures r != Proprietary
    ensures Contains(e, " OR ") ==> r == MostPermissive(ClassifyParts(Split(e, " OR ")))
    ensures !Contains(e, " OR ") && Contains(e, " AND ") ==> r == MostRestrictive(ClassifyParts(Split(e, " AND ")))
    ensures !Contains(e, " OR ") && !Contains(e, " AND ") ==> r == ClassifySingle(e)
  {
    if Contains(e, " OR ") then MostPermissive(ClassifyParts(Split(e, " OR ")))
    else if Contains(e, " AND ") then MostRestrictive(ClassifyParts(Split(e, " AND ")))
    else ClassifySingle(e)
  }

  /** Empty input, or `unknown` in any ASCII case. */
  predicate IsUnknownMarker(t: string) {
    t == [] || EqIgnoreAsciiCase(t, "unknown")
  }

  /** The keywords that mark a license as proprietary, looked for in lower case. */
  predicate HasProprietaryKeyword(t: string) {
    Contains(Lower(t), "proprietary") || Contains(Lower(t), "commercial")
  }

  /** `classify`: Unknown for an empty or `unknown` string, Proprietary exactly
      when a keyword occurs, otherwise the operator stage on the normalised
      expression. */
  function Classify(license: string): (r: LicenseRisk)
    ensures IsUnknownMarker(Trim(license)) ==> r == LicenseRisk.Unknown
    ensures !IsUnknownMarker(Trim(license)) ==>
              (r == Proprietary <==> HasProprietaryKeyword(Trim(license)))
    ensures !IsUnknownMarker(Trim(license)) && !HasProprietaryKeyword(Trim(license)) ==>
              r == ClassifyExpression(Expression(Trim(license)))
  {
    var trimmed := Trim(license);
    if IsUnknownMarker(trimmed) then LicenseRisk.Unknown
    else if HasProprietaryKeyword(trimmed) then Proprietary
    else ClassifyExpression(Expression(trimmed))
  }

  /** Proprietary comes only from the keyword check. */
  lemma ProprietaryOnlyFromKeywords(license: string)
    ensures Classify(license) == Proprietary <==>
              !IsUnknownMarker(Trim(license)) && HasProprietaryKeyword(Trim(license))
  {
  }

  /** A bare identifier: non-empty, no whitespace, no slash. */
  predicate PlainId(x: string) {
    IsWord(x) && '/' !in x
  }

  /** Two or more bare identifiers: the lists the operator lemmas are about. */
  predicate PlainList(xs: seq<string>) {
    |xs| >= 2 && forall k :: 0 <= k < |xs| ==> PlainId(xs[k])
  }

  /** The tiers of a list of identifiers, by the identifier table. */
  function Tiers(xs: seq<string>): (rs: seq<LicenseRisk>)
    ensures |rs| == |xs|
    ensures forall i :: 0 <= i < |xs| ==> rs[i] == ClassifySpdxId(xs[i])
  {
    seq(|xs|, i requires 0 <= i < |xs| => ClassifySpdxId(xs[i]))
  }

  /** A bare identifier classifies as its table entry. */
  lemma ClassifySingleOfId(x: string)
    requires IsWord(x)
    ensures Trim(x) == x
    ensures ClassifySingle(Trim(x)) == ClassifySpdxId(x)
  {
    TrimNoWhitespace(x);
    NoWhitespaceNoSpace(x);
    NotContainsWithoutHead(x, " WITH ");
  }

  /** Splitting a join of bare identifiers and classifying the parts gives
      the identifiers' tiers. */
  lemma PartsOfJoin(xs: seq<string>, sep: string)
    requires |xs| >= 1 && sep != [] && sep[0] == ' '
    requires forall k :: 0 <= k < |xs| ==> IsWord(xs[k])
    ensures ClassifyParts(Split(Join(xs, sep), sep)) == Tiers(xs)
  {
    forall k | 0 <= k < |xs| ensures sep[0] !in xs[k] {
      NoWhitespaceNoSpace(xs[k]);
    }
    SplitJoin(xs, sep);
    forall k | 0 <= k < |xs| ensures ClassifySingle(Trim(xs[k])) == ClassifySpdxId(xs[k]) {
      ClassifySingleOfId(xs[k]);
    }
  }

  /** A join of bare identifiers has no surrounding whitespace to trim. */
  lemma JoinIsTrimmed(xs: seq<string>, sep: string)
    requires |xs| >= 1 && forall k :: 0 <= k < |xs| ==> IsWord(xs[k])
    ensures Trim(Join(xs, sep)) == Join(xs, sep)
  {
    JoinEdges(xs, sep);
    var last := xs[|xs| - 1];
    assert !IsWhitespace(xs[0][0]);
    assert !IsWhitespace(last[|last| - 1]);
    TrimNoEdges(Join(xs, sep));
  }

  /** A bare identifier that is not an alias, not the unknown marker and not
      marked proprietary is classified by the identifier table alone. */
  lemma BareIdentifier(t: string)
    requires PlainId(t) && t !in AllAliases
    requires !IsUnknownMarker(t) && !HasProprietaryKeyword(t)
    ensures Classify(t) == ClassifySpdxId(t)
  {
    TrimNoWhitespace(t);
    NoWhitespaceNoSpace(t);
    NotContainsWithoutHead(t, " OR ");
    NotContainsWithoutHead(t, " AND ");
    NotContainsWithoutHead(t, " WITH ");
  }

  /** A string holding a character that `unknown` lacks in every case is
      not the unknown marker. */
  lemma ForeignCharIsNotUnknown(t: string, c: char)
    requires c in t && c in " /"
    ensures !IsUnknownMarker(t)
  {
    var i :| 0 <= i < |t| && t[i] == c;
    assert Lower(t)[i] == c;
    var u := "unknown";
    forall k | 0 <= k < |u| ensures Lower(u)[k] != c {
    }
  }

  /** A trimmed string with a space, no slash, and a letter no alias has: the
      shape of an ` OR `, ` AND ` or ` WITH ` join of bare identifiers. */
  predicate OperatorShaped(j: string) {
    Trim(j) == j && ' ' in j && '/' !in j && !AliasShaped(j)
  }

  /** Such a string is not the unknown marker and is its own expression. */
  lemma OperatorStringExpression(j: string)
    requires OperatorShaped(j)
    ensures !IsUnknownMarker(j)
    ensures Expression(j) == j
  {
    ForeignCharIsNotUnknown(j, ' ');
    OperatorsAreNotAliases(j);
  }

  /** Unless marked proprietary, such a string goes straight to the operator stage. */
  lemma ClassifyOperatorString(j: string)
    requires OperatorShaped(j) && !HasProprietaryKeyword(j)
    ensures Classify(j) == ClassifyExpression(j)
  {
    OperatorStringExpression(j);
  }

  /** A join of bare identifiers with a slash-free separator that starts with
      a space is trimmed, has a space and has no slash. */
  lemma SpacedJoin(xs: seq<string>, op: string)
    requires PlainList(xs) && op != [] && op[0] == ' ' && '/' !in op
    ensures Trim(Join(xs, op)) == Join(xs, op)
    ensures ' ' in Join(xs, op) && '/' !in Join(xs, op)
  {
    JoinIsTrimmed(xs, op);
    JoinHasSeparator(xs, op, 0);
    JoinLacks(xs, op, '/');
  }

  /** An ` OR ` join of bare identifiers has the operator shape, contains
      ` OR `, and splits back into the identifiers. */
  lemma OrJoinFacts(xs: seq<string>)
    requires PlainList(xs)
    ensures OperatorShaped(Join(xs, " OR "))
    ensures Contains(Join(xs, " OR "), " OR ")
    ensures ClassifyParts(Split(Join(xs, " OR "), " OR ")) == Tiers(xs)
  {
    SpacedJoin(xs, " OR ");
    JoinHasSeparator(xs, " OR ", 2);
    OperatorJoinParts(xs, " OR ");
  }

  /** The same for an ` AND ` join. */
  lemma AndJoinFacts(xs: seq<string>)
    requires PlainList(xs)
    ensures OperatorShaped(Join(xs, " AND "))
    ensures Contains(Join(xs, " AND "), " AND ")
    ensures ClassifyParts(Split(Join(xs, " AND "), " AND ")) == Tiers(xs)
  {
    SpacedJoin(xs, " AND ");
    JoinHasSeparator(xs, " AND ", 1);
    JoinHasSeparator(xs, " AND ", 3);
    OperatorJoinParts(xs, " AND ");
  }

  /** The same join contains its operator, and its parts are the identifiers. */
  lemma OperatorJoinParts(xs: seq<string>, op: string)
    requires PlainList(xs) && op != [] && op[0] == ' '
    ensures Contains(Join(xs, op), op)
    ensures ClassifyParts(Split(Join(xs, op), op)) == Tiers(xs)
  {
    NoWhitespaceNoSpace(xs[0]);
    ContainsJoin(xs, op);
    PartsOfJoin(xs, op);
  }

  /** `a OR b OR ...` over bare identifiers, when not marked proprietary:
      the most permissive tier. */
  lemma OrListIsMostPermissive(xs: seq<string>)
    requires PlainList(xs)
    requires !HasProprietaryKeyword(Join(xs, " OR "))
    ensures Classify(Join(xs, " OR ")) == MostPermissive(Tiers(xs))
  {
    OrJoinFacts(xs);
    ClassifyOperatorString(Join(xs, " OR "));
  }

  /** `a AND b AND ...` over bare identifiers, when not marked proprietary and
      without an ` OR ` (which would take precedence): the most restrictive tier. */
  lemma AndListIsMostRestrictive(xs: seq<string>)
    requires PlainList(xs)
    requires !HasProprietaryKeyword(Join(xs, " AND "))
    requires !Contains(Join(xs, " AND "), " OR ")
    ensures Classify(Join(xs, " AND ")) == MostRestrictive(Tiers(xs))
  {
    AndJoinFacts(xs);
    ClassifyOperatorString(Join(xs, " AND "));
  }

  /** A list of plain identifiers joined by ` WITH ` has the shape of an
      operator string: spaced around, with the separator present. */
  lemma WithJoinFacts(xs: seq<string>)
    requires PlainList(xs)
    ensures OperatorShaped(Join(xs, " WITH "))
  {
    SpacedJoin(xs, " WITH ");
    JoinHasSeparator(xs, " WITH ", 1);
  }

  /** `id WITH exception` as a single part: the text before ` WITH `
      decides, so its tier is the identifier's. */
  lemma WithJoinSingle(xs: seq<string>)
    requires PlainList(xs) && |xs| == 2
    ensures ClassifySingle(Join(xs, " WITH ")) == ClassifySpdxId(xs[0])
  {
    assert Join(xs, " WITH ") == xs[0] + " WITH " + xs[1];
    NoWhitespaceNoSpace(xs[0]);
    WithClauseIgnored(xs[0], xs[1]);
  }

  /** `id WITH exception`: when no other operator occurs and no keyword marks
      it proprietary, the exception is ignored and the identifier decides. */
  lemma WithExceptionIgnored(xs: seq<string>)
    requires PlainList(xs) && |xs| == 2
    requires !HasProprietaryKeyword(Join(xs, " WITH "))
    requires !Contains(Join(xs, " WITH "), " OR ")
    requires !Contains(Join(xs, " WITH "), " AND ")
    ensures Classify(Join(xs, " WITH ")) == ClassifySpdxId(xs[0])
  {
    WithJoinFacts(xs);
    ClassifyOperatorString(Join(xs, " WITH "));
    WithJoinSingle(xs);
  }

  /** A slash-separated list of at least two bare identifiers is trimmed, is
      not the unknown marker, and its expression is the ` OR ` join. */
  lemma SlashJoinExpression(xs: seq<string>)
    requires PlainList(xs)
    ensures Trim(Join(xs, "/")) == Join(xs, "/")
    ensures !IsUnknownMarker(Join(xs, "/"))
    ensures Expression(Join(xs, "/")) == Join(xs, " OR ")
  {
    var j := Join(xs, "/");
    JoinIsTrimmed(xs, "/");
    JoinHasSeparator(xs, "/", 0);
    ForeignCharIsNotUnknown(j, '/');
    OperatorsAreNotAliases(j);
    ReplaceCharJoin(xs, '/', " OR ");
  }

  /** `a/b/...`: a slash-separated list of at least two bare identifiers that
      is not marked proprietary classifies as the most permissive of the
      identifiers' tiers. */
  lemma SlashListIsDisjunction(xs: seq<string>)
    requires PlainList(xs)
    requires !HasProprietaryKeyword(Join(xs, "/"))
    ensures Classify(Join(xs, "/")) == MostPermissive(Tiers(xs))
  {
    SlashJoinExpression(xs);
    OperatorJoinParts(xs, " OR ");
  }
}
