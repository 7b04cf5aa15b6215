/** The text the PDF report lays out: truncated labels, greedily wrapped
    descriptions, the dependency-name lists of the risk summary rows with
    their count line, and the rows of the workspace cover table. */
module PdfReport {
  import opened Wrappers
  import opened Text
  import opened Models
  import opened TerminalReport

  // ---------------------------------------------------------------------
  // truncate

  /** `truncate`: at most `max` characters, an ellipsis marking a cut. The
      source subtracts one from `max` only when the text is too long, so a
      zero `max` is an underflow exactly then. */
  function Truncate(s: string, max: nat): (r: string)
    requires |s| <= max || max >= 1
    ensures |r| <= max
    ensures |s| <= max ==> r == s
    ensures |s| > max ==> |r| == max && r[..max - 1] == s[..max - 1] && r[max - 1] == '…'
  {
    if |s| > max then s[..max - 1] + ['…'] else s
  }

  /** Truncating again changes nothing. */
  lemma TruncateIdempotent(s: string, max: nat)
    requires |s| <= max || max >= 1
    ensures Truncate(Truncate(s, max), max) == Truncate(s, max)
  {
  }

  // ---------------------------------------------------------------------
  // Greedy line filling, shared by wrap_text and format_dep_count_list

  /** The lines the filling loops produce from the line being built,
      `current`, and the items still to place: an item goes on the current
      line, after `sep`, unless the line's byte length would then exceed
      `max`; a line is never left empty, so an item longer than `max`
      gets a line of its own. */
  function Greedy(current: string, items: seq<string>, sep: string, max: nat): (lines: seq<string>)
    ensures |lines| <= |items| + (if current == [] then 0 else 1)
    decreases |items|
  {
    if items == [] then (if current == [] then [] else [current])
    else if current == [] then Greedy(items[0], items[1..], sep, max)
    else if ByteLen(current) + ByteLen(sep) + ByteLen(items[0]) > max then
      [current] + Greedy(items[0], items[1..], sep, max)
    else Greedy(current + sep + items[0], items[1..], sep, max)
  }

  lemma {:induction false} GreedyNonEmpty(current: string, items: seq<string>, sep: string, max: nat)
    requires current != []
    ensures Greedy(current, items, sep, max) != []
    decreases |items|
  {
    if items != [] {
      if ByteLen(current) + ByteLen(sep) + ByteLen(items[0]) <= max {
        GreedyNonEmpty(current + sep + items[0], items[1..], sep, max);
      }
    }
  }

  /** Joining the lines with the separator gives the items joined with it:
      nothing is lost, reordered or added. */
  lemma {:induction false} GreedyJoin(current: string, items: seq<string>, sep: string, max: nat)
    requires forall k :: 0 <= k < |items| ==> items[k] != []
    ensures current != [] ==> Join(Greedy(current, items, sep, max), sep) == Join([current] + items, sep)
    ensures current == [] ==> Join(Greedy(current, items, sep, max), sep) == Join(items, sep)
    decreases |items|
  {
    if items == [] {
      assert [current] + items == [current];
    } else {
      var item := items[0];
      var rest := items[1..];
      assert items == [item] + rest;
      if current == [] {
        GreedyJoin(item, rest, sep, max);
      } else if ByteLen(current) + ByteLen(sep) + ByteLen(item) > max {
        var tail := Greedy(item, rest, sep, max);
        GreedyJoin(item, rest, sep, max);
        GreedyNonEmpty(item, rest, sep, max);
        assert ([current] + tail)[1..] == tail;
        assert ([current] + items)[1..] == items;
      } else {
        var joined := current + sep + item;
        GreedyJoin(joined, rest, sep, max);
        assert ([current] + items)[1..] == items;
        if rest != [] {
          assert ([joined] + rest)[1..] == rest;
          assert ([item] + rest)[1..] == rest;
        } else {
          assert [joined] + rest == [joined];
          assert items == [item];
        }
      }
    }
  }

  /** Every line is non-empty, and fits in `max` bytes unless it is one of
      the items (a single item too long for any line). */
  lemma {:induction false} GreedyLines(current: string, items: seq<string>, sep: string, max: nat, pool: seq<string>)
    requires forall k :: 0 <= k < |items| ==> items[k] != [] && items[k] in pool
    requires current == [] || ByteLen(current) <= max || current in pool
    ensures forall k :: 0 <= k < |Greedy(current, items, sep, max)| ==>
              Greedy(current, items, sep, max)[k] != [] &&
              (ByteLen(Greedy(current, items, sep, max)[k]) <= max || Greedy(current, items, sep, max)[k] in pool)
    decreases |items|
  {
    if items != [] {
      var item := items[0];
      var rest := items[1..];
      assert item in pool;
      if current == [] {
        GreedyLines(item, rest, sep, max, pool);
      } else if ByteLen(current) + ByteLen(sep) + ByteLen(item) > max {
        GreedyLines(item, rest, sep, max, pool);
      } else {
        ByteLenConcat(current, sep);
        ByteLenConcat(current + sep, item);
        GreedyLines(current + sep + item, rest, sep, max, pool);
      }
    }
  }

  // ---------------------------------------------------------------------
  // wrap_text

  /** The lines `wrap_text` returns: the text itself when it fits in `max`
      bytes, else its whitespace-separated words filled greedily. */
  function Wrapped(text: string, max: nat): (lines: seq<string>)
    ensures ByteLen(text) <= max ==> lines == [text]
    ensures ByteLen(text) > max ==> |lines| <= |SplitWhitespace(text)|
  {
    if ByteLen(text) <= max then [text] else Greedy("", SplitWhitespace(text), " ", max)
  }

  /** The three steps of the fill loop at word `i`: the first word of a
      line, a word that does not fit, and a word that joins the line. */
  lemma GreedyStartsLine(words: seq<string>, i: nat, max: nat)
    requires i < |words|
    ensures Greedy("", words[i..], " ", max) == Greedy(words[i], words[i + 1..], " ", max)
  {
    assert words[i..][1..] == words[i + 1..];
  }

  lemma GreedyBreaksLine(lines: seq<string>, current: string, words: seq<string>, i: nat, max: nat)
    requires i < |words| && current != [] && ByteLen(current) + 1 + ByteLen(words[i]) > max
    ensures lines + Greedy(current, words[i..], " ", max) == (lines + [current]) + Greedy(words[i], words[i + 1..], " ", max)
  {
    assert ByteLen(" ") == 1;
    assert words[i..][1..] == words[i + 1..];
  }

  lemma GreedyExtendsLine(current: string, words: seq<string>, i: nat, max: nat)
    requires i < |words| && current != [] && ByteLen(current) + 1 + ByteLen(words[i]) <= max
    ensures Greedy(current, words[i..], " ", max) == Greedy(current + " " + words[i], words[i + 1..], " ", max)
  {
    assert ByteLen(" ") == 1;
    assert words[i..][1..] == words[i + 1..];
  }

  method WrapText(text: string, maxChars: nat) returns (lines: seq<string>)
    ensures lines == Wrapped(text, maxChars)
  {
    if ByteLen(text) <= maxChars {
      return [text];
    }
    var words := SplitWhitespace(text);
    lines := [];
    var current := "";
    for i := 0 to |words|
      invariant lines + Greedy(current, words[i..], " ", maxChars) == Greedy("", words, " ", maxChars)
    {
      var word := words[i];
      if current == [] {
        GreedyStartsLine(words, i, maxChars);
        current := word;
      } else if ByteLen(current) + 1 + ByteLen(word) > maxChars {
        GreedyBreaksLine(lines, current, words, i, maxChars);
        lines := lines + [current];
        current := word;
      } else {
        GreedyExtendsLine(current, words, i, maxChars);
        current := current + " " + word;
      }
    }
    assert words[|words|..] == [];
    if current != [] {
      lines := lines + [current];
    }
  }

  /** A text that fits is one line, unchanged. */
  lemma ShortTextIsOneLine(text: string, max: nat)
    requires ByteLen(text) <= max
    ensures Wrapped(text, max) == [text]
  {
  }

  /** A wrapped text's lines, joined by single spaces, are its words joined
      by single spaces; each line is non-empty and fits unless it is a
      single word longer than `max`. */
  lemma WrappedLines(text: string, max: nat)
    requires ByteLen(text) > max
    ensures Join(Wrapped(text, max), " ") == Join(SplitWhitespace(text), " ")
    ensures forall k :: 0 <= k < |Wrapped(text, max)| ==>
              Wrapped(text, max)[k] != [] && (ByteLen(Wrapped(text, max)[k]) <= max || IsWord(Wrapped(text, max)[k]))
  {
    var words := SplitWhitespace(text);
    assert forall k :: 0 <= k < |words| ==> words[k] in words;
    GreedyJoin("", words, " ", max);
    GreedyLines("", words, " ", max, words);
  }

  /** A text with no words gives no lines once it is too long to keep. */
  lemma BlankTextHasNoLines(text: string, max: nat)
    requires ByteLen(text) > max
    requires forall i :: 0 <= i < |text| ==> IsWhitespace(text[i])
    ensures Wrapped(text, max) == []
  {
    TrimStartOfBlank(text);
  }

  // ---------------------------------------------------------------------
  // format_dep_count_list

  /** The last line: `"{n} package"` with an `s` unless `n` is one. */
  function CountLine(n: nat): (line: string)
    ensures n == 1 ==> line == "1 package"
    ensures n != 1 ==> line == DecimalString(n) + " packages"
  {
    DecimalString(n) + " package" + (if n == 1 then "" else "s")
  }

  /** The lines `format_dep_count_list` returns: a dash for no names, else
      the names filled greedily with `", "` between them, then the count
      line. */
  function DepCountList(names: seq<string>, max: nat): (lines: seq<string>)
    ensures names == [] ==> lines == ["—"]
    ensures names != [] ==> 1 <= |lines| <= |names| + 1 && lines[|lines| - 1] == CountLine(|names|)
  {
    if names == [] then ["—"] else Greedy("", names, ", ", max) + [CountLine(|names|)]
  }

  method FormatDepCountList(names: seq<string>, maxChars: nat) returns (lines: seq<string>)
    ensures lines == DepCountList(names, maxChars)
  {
    if names == [] {
      return ["—"];
    }
    lines := [];
    var current := "";
    for i := 0 to |names|
      invariant lines + Greedy(current, names[i..], ", ", maxChars) == Greedy("", names, ", ", maxChars)
    {
      var name := names[i];
      assert names[i..] == [name] + names[i + 1..];
      var sep := if current == [] then "" else ", ";
      var candidate := sep + name;
      ByteLenConcat(sep, name);
      if current != [] && ByteLen(current) + ByteLen(candidate) > maxChars {
        assert lines + [current] + Greedy(name, names[i + 1..], ", ", maxChars) ==
               lines + ([current] + Greedy(name, names[i + 1..], ", ", maxChars));
        lines := lines + [current];
        current := name;
      } else {
        assert current + candidate == if current == [] then name else current + ", " + name;
        current := current + candidate;
      }
    }
    assert names[|names|..] == [];
    if current != [] {
      lines := lines + [current];
    }
    lines := lines + [CountLine(|names|)];
  }

  /** For non-empty names: the count line comes last, the lines before it
      joined by `", "` are the names joined by `", "`, and each of them is
      non-empty and fits unless it is a single name too long to fit. */
  lemma DepCountListLines(names: seq<string>, max: nat)
    requires names != [] && forall k :: 0 <= k < |names| ==> names[k] != []
    ensures var lines := DepCountList(names, max);
            |lines| >= 2 && lines[|lines| - 1] == CountLine(|names|) &&
            Join(lines[..|lines| - 1], ", ") == Join(names, ", ") &&
            forall k :: 0 <= k < |lines| - 1 ==> lines[k] != [] && (ByteLen(lines[k]) <= max || lines[k] in names)
  {
    var filled := Greedy("", names, ", ", max);
    assert names == [names[0]] + names[1..];
    GreedyNonEmpty(names[0], names[1..], ", ", max);
    GreedyJoin("", names, ", ", max);
    GreedyLines("", names, ", ", max, names);
    assert (filled + [CountLine(|names|)])[..|filled|] == filled;
  }

  // ---------------------------------------------------------------------
  // The risk summary rows

  const DescWrap: nat := 36
  const DepsWrap: nat := 28
  const DepsMaxLines: nat := 4

  /** The cap on a row's name lines: over four lines, the first three are
      kept and the count line after them. */
  function Capped(lines: seq<string>): (r: seq<string>)
    ensures |r| <= DepsMaxLines
    ensures |lines| <= DepsMaxLines ==> r == lines
    ensures lines != [] ==> r != [] && r[|r| - 1] == lines[|lines| - 1]
    ensures r != [] ==> r[..|r| - 1] == lines[..|r| - 1]
  {
    if |lines| > DepsMaxLines then lines[..DepsMaxLines - 1] + [lines[|lines| - 1]] else lines
  }

  /** The `dep_lines` block of a row. */
  method RowDepLines(names: seq<string>) returns (lines: seq<string>)
    ensures lines == Capped(DepCountList(names, DepsWrap))
  {
    lines := FormatDepCountList(names, DepsWrap);
    if |lines| > DepsMaxLines {
      var countLine := lines[|lines| - 1];
      lines := lines[..DepsMaxLines - 1];
      lines := lines + [countLine];
    }
  }

  /** A row never shows more than four lines, and a row with names always
      ends with their count. */
  lemma RowKeepsCountLine(names: seq<string>)
    requires names != []
    ensures |Capped(DepCountList(names, DepsWrap))| <= DepsMaxLines
    ensures var lines := Capped(DepCountList(names, DepsWrap));
            lines[|lines| - 1] == CountLine(|names|)
  {
  }

  /** A row of the risk summary: its label, the risk it lists and the
      description shown beside it. */
  datatype RowDef = RowDef(name: string, risk: LicenseRisk, description: string)

  const RowDefs: seq<RowDef> := [
    RowDef("Permissive", Permissive,
           "Minimal restrictions — use freely in any project, commercial or otherwise."),
    RowDef("Weak Copyleft", WeakCopyleft,
           "Share-alike applies only to modifications of the library itself."),
    RowDef("Strong Copyleft", StrongCopyleft,
           "Your project may need to be released as open source if you use this."),
    RowDef("Proprietary", Proprietary,
           "Source is closed; a commercial agreement is required for use."),
    RowDef("Unknown", LicenseRisk.Unknown,
           "License could not be determined. Use --online to resolve it.")]

  /** The `desc_lines` block of a row: its description wrapped at 36 bytes. */
  method RowDescLines(def: RowDef) returns (lines: seq<string>)
    ensures lines == Wrapped(def.description, DescWrap)
  {
    lines := WrapText(def.description, DescWrap);
  }

  /** A row's height in lines: that of its taller cell, and at least two. */
  function RowLineCount(descLines: seq<string>, depLines: seq<string>): (n: nat)
    ensures n >= 2 && n >= |descLines| && n >= |depLines|
    ensures n == 2 || n == |descLines| || n == |depLines|
  {
    var m := if |descLines| >= |depLines| then |descLines| else |depLines|;
    if m >= 2 then m else 2
  }

  /** `deps.iter().filter(|dep| dep.risk == d.risk)`: the dependencies with
      risk `risk`, in input order. */
  function WithRisk(deps: seq<Dependency>, risk: LicenseRisk): (r: seq<Dependency>)
    ensures |r| <= |deps|
    ensures forall d :: d in r <==> d in deps && d.risk == risk
  {
    if deps == [] then []
    else
      assert deps == [deps[0]] + deps[1..];
      (if deps[0].risk == risk then [deps[0]] else []) + WithRisk(deps[1..], risk)
  }

  /** The filter works piece by piece, so it keeps the input order. */
  lemma {:induction false} WithRiskConcat(a: seq<Dependency>, b: seq<Dependency>, risk: LicenseRisk)
    ensures WithRisk(a + b, risk) == WithRisk(a, risk) + WithRisk(b, risk)
  {
    if a == [] {
      assert a + b == b;
    } else {
      assert (a + b)[0] == a[0];
      assert (a + b)[1..] == a[1..] + b;
      WithRiskConcat(a[1..], b, risk);
    }
  }

  /** The names listed in the row for `risk`: the names of the filtered
      dependencies, one each. */
  function RowNames(deps: seq<Dependency>, risk: LicenseRisk): (names: seq<string>)
    ensures |names| == |WithRisk(deps, risk)| <= |deps|
  {
    var kept := WithRisk(deps, risk);
    seq(|kept|, i requires 0 <= i < |kept| => kept[i].name)
  }

  /** A name is in the row exactly when a dependency with the row's risk
      has it. */
  lemma RowNamesMembers(deps: seq<Dependency>, risk: LicenseRisk)
    ensures forall n :: n in RowNames(deps, risk) <==> exists d :: d in deps && d.risk == risk && d.name == n
  {
    var kept, names := WithRisk(deps, risk), RowNames(deps, risk);
    forall n | n in names ensures exists d :: d in deps && d.risk == risk && d.name == n {
      var i :| 0 <= i < |names| && names[i] == n;
      assert kept[i] in kept;
    }
    forall d | d in deps && d.risk == risk ensures d.name in names {
      var i :| 0 <= i < |kept| && kept[i] == d;
      assert names[i] == d.name;
    }
  }

  /** The names of a concatenation are the names of the two pieces. */
  lemma RowNamesConcat(a: seq<Dependency>, b: seq<Dependency>, risk: LicenseRisk)
    ensures RowNames(a + b, risk) == RowNames(a, risk) + RowNames(b, risk)
  {
    WithRiskConcat(a, b, risk);
    var ka, kb := WithRisk(a, risk), WithRisk(b, risk);
    var na, nb, n := RowNames(a, risk), RowNames(b, risk), RowNames(a + b, risk);
    forall i | 0 <= i < |n| ensures n[i] == (na + nb)[i] {
      if i < |ka| {
        assert (ka + kb)[i] == ka[i];
      } else {
        assert (ka + kb)[i] == kb[i - |ka|];
      }
    }
    assert n == na + nb;
  }

  /** Each risk is the risk of exactly one row, so each dependency is
      listed in exactly one row. */
  lemma EveryRiskHasOneRow(risk: LicenseRisk)
    ensures exists k :: 0 <= k < |RowDefs| && RowDefs[k].risk == risk
    ensures forall j, k :: 0 <= j < k < |RowDefs| ==> RowDefs[j].risk != RowDefs[k].risk
  {
    var k := match risk
      case Permissive => 0
      case WeakCopyleft => 1
      case StrongCopyleft => 2
      case Proprietary => 3
      case Unknown => 4;
    assert RowDefs[k].risk == risk;
  }

  /** The five rows' dependencies, as one multiset. */
  function RowsMultiset(deps: seq<Dependency>): multiset<Dependency> {
    multiset(WithRisk(deps, Permissive)) + multiset(WithRisk(deps, WeakCopyleft)) +
    multiset(WithRisk(deps, StrongCopyleft)) + multiset(WithRisk(deps, Proprietary)) +
    multiset(WithRisk(deps, LicenseRisk.Unknown))
  }

  /** The filter keeps every copy of a dependency with the row's risk and
      no copy of any other. */
  lemma {:induction false} WithRiskCount(deps: seq<Dependency>, risk: LicenseRisk, d: Dependency)
    ensures multiset(WithRisk(deps, risk))[d] == if d.risk == risk then multiset(deps)[d] else 0
  {
    if deps != [] {
      WithRiskCount(deps[1..], risk, d);
      assert deps == [deps[0]] + deps[1..];
    }
  }

  /** The five rows' dependencies are the dependencies, each once: as
      multisets the five filters add up to the input. */
  lemma RowsCoverAllDependencies(deps: seq<Dependency>)
    ensures RowsMultiset(deps) == multiset(deps)
  {
    forall d | true
      ensures RowsMultiset(deps)[d] == multiset(deps)[d]
    {
      WithRiskCount(deps, Permissive, d);
      WithRiskCount(deps, WeakCopyleft, d);
      WithRiskCount(deps, StrongCopyleft, d);
      WithRiskCount(deps, Proprietary, d);
      WithRiskCount(deps, LicenseRisk.Unknown, d);
    }
  }

  /** So the five rows' names number exactly the dependencies. */
  lemma RowCountsSumToTotal(deps: seq<Dependency>)
    ensures |RowNames(deps, Permissive)| + |RowNames(deps, WeakCopyleft)| + |RowNames(deps, StrongCopyleft)| +
            |RowNames(deps, Proprietary)| + |RowNames(deps, LicenseRisk.Unknown)| == |deps|
  {
    RowsCoverAllDependencies(deps);
    assert |RowsMultiset(deps)| == |deps|;
  }

  // ---------------------------------------------------------------------
  // The workspace cover table

  const MaxRows: nat := 12

  /** A row of the projects table. */
  datatype WorkspaceRow = WorkspaceRow(name: string, total: nat, pass: nat, warn: nat, error: nat)

  /** A project's row: its name cut to 32 characters, its size and its
      verdict counts. */
  function WorkspaceRowOf(project: (string, seq<Dependency>)): (row: WorkspaceRow)
    ensures |row.name| <= 32 && (|project.0| <= 32 ==> row.name == project.0)
    ensures row.total == |project.1|
    ensures row.pass == |Having(project.1, Pass)| && row.warn == |Having(project.1, Warn)| &&
            row.error == |Having(project.1, PolicyVerdict.Error)|
    ensures row.pass + row.warn + row.error == row.total
  {
    var t := TallyOf(project.1);
    WorkspaceRow(Truncate(project.0, 32), t.total, t.pass, t.warn, t.error)
  }

  /** The table shows the first twelve projects, each by its truncated name
      and verdict counts. */
  function WorkspaceRows(projects: seq<(string, seq<Dependency>)>): (rows: seq<WorkspaceRow>)
    ensures |rows| <= MaxRows
    ensures |rows| == if |projects| <= MaxRows then |projects| else MaxRows
    ensures forall i :: 0 <= i < |rows| ==> rows[i] == WorkspaceRowOf(projects[i])
  {
    var show := if |projects| <= MaxRows then |projects| else MaxRows;
    seq(show, i requires 0 <= i < show => WorkspaceRowOf(projects[i]))
  }

  /** The line under the table, for the projects not shown. */
  function MoreLine(projects: seq<(string, seq<Dependency>)>): (line: Option<string>)
    ensures line.Some? <==> |projects| > MaxRows
  {
    if |projects| > MaxRows then Some("+ " + DecimalString(|projects| - MaxRows) + " more…") else None
  }

  /** Every project is either in the table or counted by the line under
      it. */
  lemma EveryProjectIsAccounted(projects: seq<(string, seq<Dependency>)>)
    ensures |WorkspaceRows(projects)| + (if MoreLine(projects).Some? then |projects| - MaxRows else 0) == |projects|
  {
  }
}
