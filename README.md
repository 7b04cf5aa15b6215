# license-checkr, modelled in Dafny

license-checkr scans a project directory for dependency manifests of five
ecosystems (Rust, Python, Java, Node and .NET). It extracts every declared or
locked dependency. With `--online` it can look up missing licenses in the
package registries. It then classifies each license into a risk tier
(permissive, weak copyleft, strong copyleft, proprietary, unknown), applies
a policy that maps each tier to a verdict (pass, warn, error), reports the
result on the terminal or in a PDF, and exits with status 1 when any
dependency has the verdict error.

This project models that core in Dafny. The modules follow the program's
source files:

- `Models` holds the dependency record and its four enumerations.
- `Detector` decides which ecosystems a directory holds.
- `Configuration` holds the policy and `Verdicts` applies it.
- The analyzers are `RustAnalyzer`, `PythonAnalyzer`, `JavaAnalyzer`,
  `NodeAnalyzer` and `DotNetAnalyzer`. `Dedup` holds the seen-set merge
  they share.
- The registry clients are `NpmRegistry`, `PypiRegistry` and
  `MavenRegistry`, with `Http` for their shared response handling.
- The license classifier is split into `Spdx` (the identifier table and the
  alias table) and `Classifier` (the expression rules).
- `Analysis` and `Enrichment` are the scanning and online-lookup stages of
  `main`, and `Pipeline` is `main` itself.
- The report logic is in `TerminalReport` and `PdfReport`: the counts,
  tables, license summaries, text wrapping and row layout.

Each unit test of the source is restated as a lemma in an `…Examples`
module.

Two kinds of data are handled differently:

- Data the source reads from files enters the model as an argument in
  already parsed form: TOML and JSON values, lines of text, XML reader
  events, directory listings.
- The registries and the cargo cache enter as functions passed in.

Loops that change state are methods. Each method is proved equal to a
function that states the result, and the properties are lemmas about those
functions. Examples:

- `Dedup.Merge` and `Dedup.MergeAll` model the seen-set merge.
- `MavenRegistry.ExtractLicenseFromPom` and `MavenRegistry.LicenseRun`
  model the POM event loop.
- `TerminalReport.SortByCount` is proved sorted and a permutation.
- `Enrichment.EnrichOnline` and `Verdicts.ClassifyAll` work in place on
  the dependency buffer.

This model follows the code:

- The license expression is split on ` OR `, then ` AND `, then ` WITH `.
  It is not parsed with precedence or parentheses.
- The ecosystems of one project are analyzed in sequence. The first
  analyzer error ends the run.
- `Ecosystem` has a `DotNet` variant and `LicenseSource` a `Cache` variant
  that the enum declarations in `src/models.rs` lack but the analyzers use.
  Their display strings here (`DotNet`, `cache`) are this model's choice.

## Model

| member | source | states |
|---|---|---|
| `Configuration.ParseAction` | src/config.rs:26-32 | an action read from the configuration is the one whose lower-case name was written |
| `Configuration.ParseActionName` | src/config.rs:26-32 | every action's lower-case name reads back as that action |
| `Configuration.ToVerdict` | src/config.rs:34-42 | each action becomes the verdict of the same name |
| `Configuration.ToVerdictIsBijective` | src/config.rs:34-42 | distinct actions give distinct verdicts and every verdict is reached |
| `Configuration.DefaultPolicyAction` | src/config.rs:22-24 | the default action is Warn |
| `Configuration.FromRaw` | src/config.rs:14-20 | a missing `default` reads as Warn and a missing `licenses` table as empty; present fields are kept |
| `Configuration.Lookup` | src/config.rs:96 | a rule is found exactly when the key is in the table, and it is that key's action |
| `Configuration.ApplyPolicy` | src/config.rs:93-107 | a license with a rule gets that rule's verdict, any other gets the default's; a missing license is looked up as `unknown` |
| `Configuration.MissingLicenseIsUnknown` | src/config.rs:94 | no license and the license `unknown` are judged alike |
| `Configuration.DefaultTableVerdicts` | src/config.rs:44-65 | the verdicts of the ten built-in rules, and Warn for no license |
| `Configuration.DefaultKeysHaveNoSpace` | src/config.rs:46-56 | no built-in key contains a space |
| `Configuration.SpacedLicenseGetsDefault` | src/config.rs:93-107 | under the built-in table every license string containing a space, such as a compound expression, gets Warn |
| `Configuration.LookupIsCaseSensitive` | src/config.rs:96 | the lookup is case-sensitive: `mit` gets the default while `MIT` passes |
| `Detector.LastIndexOf` | src/detector.rs:55 | the index found holds the character and no later index does; none means the character is absent |
| `Detector.Extension` | src/detector.rs:55 | an extension is the text after the last dot, when that dot is not the name's first character; none means no dot after the first character |
| `Detector.LastIndexAfter` | src/detector.rs:55 | the last occurrence is the one before a tail free of the character |
| `Detector.ExtensionOfDottedName` | src/detector.rs:55-56 | a non-empty stem, a dot and a dot-free suffix give that suffix as extension |
| `Detector.HiddenNameHasNoExtension` | src/detector.rs:55-56 | a name whose only dot is its first character, such as `.csproj`, has no extension |
| `Detector.AnyProjectFile` | src/detector.rs:52-58 | true exactly when some listed name has extension `csproj` or `fsproj` |
| `Detector.HasDotnetProjectFile` | src/detector.rs:48-59 | true exactly when the directory can be listed and lists a project file |
| `Detector.DetectionStep` | src/detector.rs:12-42 | each test keeps the list exactly the detected ecosystems tested so far, in the fixed order |
| `Detector.AllRanksBelowFive` | src/detector.rs:12-44 | after the five tests the list holds exactly the detected ecosystems |
| `Detector.DetectOne` | src/detector.rs:12-42 | one marker test pushes its ecosystem exactly when it is detected, keeping the list the detected ecosystems tested so far in the fixed order |
| `Detector.DetectEcosystems` | src/detector.rs:9-45 | the result holds exactly the ecosystems whose marker files are present, at most five, in the order Rust, Python, Java, Node, .NET |
| `Detector.LockfilesAloneAreNotEnough` | src/detector.rs:23-42 | a lone `gradle.lockfile` or `paket.lock` detects neither Java nor .NET |
| `Detector.UnreadableDirectoryHasNoProjectFile` | src/detector.rs:49-51 | an unreadable directory detects .NET only through `packages.config` or `paket.dependencies` |
| `Detector.ProjectFileDetectsDotNet` | src/detector.rs:37-42 | a `.csproj` entry is enough to detect .NET |
| `Detector.EmptyDirectoryDetectsNothing` | src/detector.rs:9-45 | an empty directory detects no ecosystem |
| `Dedup.FoldName` | src/analyzer/python.rs:34 | the lower-cased key has the name's length and folds each character: ASCII capitals and the Kelvin sign to lower case, every other character kept |
| `Dedup.FoldOfAscii` | src/analyzer/python.rs:45-46 | on an ASCII name the key is `to_ascii_lowercase` |
| `Dedup.FoldMatchesOnlyAsciiOrKelvin` | src/analyzer/python.rs:45-46 | a name whose key equals an ASCII name's key is made of ASCII characters and Kelvin signs |
| `Dedup.KeySetMembers` | src/analyzer/java.rs:34-35 | the key set holds exactly the keys of the entries |
| `Dedup.Fresh` | src/analyzer/java.rs:33-38 | a merge never admits more entries than it is offered |
| `Dedup.FreshIsNewAndDistinct` | src/analyzer/java.rs:33-38 | every admitted entry comes from the input, has a key not seen before, and no two admitted entries share a key |
| `Dedup.FreshKeepsFirst` | src/analyzer/java.rs:33-38 | the first entry with a key not yet seen is admitted |
| `Dedup.FreshCoversKeys` | src/analyzer/java.rs:33-38 | afterwards every key of the input is taken, by `seen` or by an admitted entry |
| `Dedup.MergeKeepsKeysDistinct` | src/analyzer/java.rs:33-38 | merging into a list of distinct, taken keys keeps the keys distinct and taken |
| `Dedup.Merge` | src/analyzer/java.rs:33-38 | the loop appends exactly the fresh entries, in order, and `seen` gains the input's keys |
| `Dedup.AppendAll` | src/analyzer/python.rs:32-37 | the unconditional loop appends every entry and records every key |
| `Dedup.MergeAllIsDistinct` | src/analyzer/node.rs:23-60 | a merge of several sources has distinct keys, each a key of some source |
| `Dedup.MergeAllSnoc` | src/analyzer/java.rs:25-71 | merging one more source appends that source's fresh entries against all earlier keys |
| `Dedup.MergeAll` | src/analyzer/java.rs:25-71 | the sources merged one after another, an entry admitted when its key is new; never more entries than the sources offer together |
| `Dedup.MergeInOrder` | src/analyzer/java.rs:25-71 | the merge loops over the sources in turn, sharing one `seen` set, produce exactly `MergeAll` |
| `Xml.LastValueSkips` | src/analyzer/dotnet.rs:112-121 | attributes with other keys do not change the value kept |
| `Xml.LastValueOfLast` | src/analyzer/dotnet.rs:112-121 | the last attribute with the key gives the value |
| `Xml.UntilStop` | src/analyzer/dotnet.rs:127-128 | the events handled are those before the first end of input or read error |
| `Xml.UntilStopIsFirst` | src/analyzer/dotnet.rs:127-128 | the loop stops exactly at the first stopping event |
| `Xml.UntilStopAppend` | src/analyzer/dotnet.rs:127-128 | a stretch without stopping events followed by a stop is handled whole |
| `Http.Outcome` | src/registry/npm.rs:15-26 | a transport failure or an unreadable body is an error, a status outside 2xx is no license, and otherwise the license is read from the body |
| `Models.Unlicensed` | src/analyzer/python.rs:70-81 | a freshly extracted dependency has no license fields, risk Unknown, verdict Warn and source Unknown |
| `Models.EffectiveLicense` | src/main.rs:94-98 | the license evaluated is the SPDX field, else the raw field, else `unknown` |
| `Models.DisplaysAreInjective` | src/models.rs:24-87 | distinct variants of each of the four enums display as distinct strings |
| `Models.VerdictDisplayLowercase` | src/models.rs:43-51 | verdicts display in lower case |
| `Analysis.AnalyzerOutput` | src/main.rs:67-73 | only the Rust analyzer can fail, and only on an unreadable `Cargo.lock` |
| `Analysis.AllDepsFailsIffSomeFails` | src/main.rs:66-85 | the analysis fails if and only if some selected analyzer fails |
| `Analysis.AllDepsIsFirstFailure` | src/main.rs:66-85 | a failed analysis carries the error of the first failing analyzer, every earlier one having succeeded |
| `Analysis.OnlyCargoLockFails` | src/main.rs:68 | a failed analysis means Rust was selected and its `Cargo.lock` is unreadable |
| `Analysis.RunAnalyzer` | src/main.rs:67-73 | dispatches each ecosystem to its analyzer and returns that analyzer's output |
| `Analysis.AllDeps` | src/main.rs:66-85 | the selected analyzers' outputs one after another, the first failure being the result: no ecosystem gives nothing, one ecosystem its analyzer's output |
| `Analysis.CollectDependencies` | src/main.rs:64-85 | the loop's result is the concatenation of the outputs in ecosystem order, or the first error |
| `Analysis.AllDepsPrefixFails` | src/main.rs:66-85 | once a prefix of the ecosystems fails, the rest are never run and the error stands |
| `Enrichment.Fetch` | src/main.rs:170-184 | a .NET dependency is never looked up |
| `Enrichment.WriteBack` | src/main.rs:191-196 | a found license sets both license fields and the source Registry; a miss or an error leaves the dependency unchanged; name, version, ecosystem, risk and verdict are kept |
| `Enrichment.Enriched` | src/main.rs:161-201 | each dependency receives exactly its own lookup's result, order and length kept |
| `Enrichment.DotNetIsNeverEnriched` | src/main.rs:183 | .NET dependencies leave enrichment unchanged |
| `Enrichment.Chunks` | src/main.rs:141-161 | the batches are non-empty index ranges of at most 75 elements inside the buffer |
| `Enrichment.ChunksCoverInOrder` | src/main.rs:161 | the batches visit every index exactly once, in increasing order, all but the last full |
| `Enrichment.EnrichBatch` | src/main.rs:161-202 | one batch leaves every element before its end enriched and every later element untouched, counting each element of the batch once |
| `Enrichment.EnrichOnline` | src/main.rs:138-208 | the buffer ends as the enrichment of its old contents, every element counted once by the progress bar, the batches being `chunks_mut(75)` |
| `Verdicts.Classified` | src/main.rs:93-102 | risk is the classification of the effective license, verdict the policy's answer for it; every other field is kept |
| `Verdicts.ClassifiedIsIdempotent` | src/main.rs:93-102 | classifying twice is classifying once |
| `Verdicts.ClassifiedIgnoresPlaceholders` | src/main.rs:93-102 | the risk and verdict a dependency carries before classification do not influence the result |
| `Verdicts.ClassifiedAll` | src/main.rs:93-102 | every dependency is classified, in order, length kept |
| `Verdicts.Classification` | src/main.rs:93-102 | the per-dependency step of the classification loop: each dependency keeps its name, version and ecosystem and gets the risk and verdict of its effective license |
| `Verdicts.ClassifyAll` | src/main.rs:93-102 | the buffer ends as the classification of its old contents |
| `Verdicts.ExitStatus` | src/main.rs:126-135 | the exit status is 1 exactly when some dependency has the verdict error, else 0 |
| `Verdicts.GplFailsTheBuiltInPolicy` | src/config.rs:44-65 | under the built-in policy a GPL-3.0 dependency makes the run exit with 1 |
| `Pipeline.Scanned` | src/main.rs:48-53 | the scanned ecosystems are the detected ones not excluded, in detection order |
| `Pipeline.Finished` | src/main.rs:87-135 | after analysis: enrichment only when online, then classification of every dependency, and the exit status of the result |
| `Pipeline.Finish` | src/main.rs:87-135 | the buffer steps produce exactly `Finished` |
| `Pipeline.Outcome` | src/main.rs:55-136 | the run's outcome: no manifests exactly when nothing is scanned, an analysis failure exactly when the analysis of the scanned ecosystems fails and with its error, and otherwise the classified dependencies with their exit status |
| `Pipeline.RunScanned` | src/main.rs:55-136 | no ecosystem to scan stops before analysis; otherwise the first analyzer error, or the enriched, classified dependencies, as `Outcome` defines |
| `Pipeline.Run` | src/main.rs:35-136 | scans exactly the detected, non-excluded ecosystems in detection order; no manifests, an analysis error, or the completed result, as `Outcome` defines |
| `JavaAnalyzer.MakeDep` | src/analyzer/java.rs:74-91 | the name is `group:artifact`, or the artifact alone without a group; no license, placeholder risk and verdict |
| `JavaAnalyzer.MakeDepIsJavaDep` | src/analyzer/java.rs:74-91 | a dependency built from a non-empty artifact is a Java dependency in its initial state |
| `JavaAnalyzer.TagOf` | src/analyzer/java.rs:120-132 | each element name the loop reacts to is recognised exactly |
| `JavaAnalyzer.AssignField` | src/analyzer/java.rs:150-159 | a text node inside a dependency sets only the coordinate field its element names |
| `JavaAnalyzer.PomStep` | src/analyzer/java.rs:113-164 | one event of the POM loop: the emitted dependencies are only ever extended, by at most one |
| `JavaAnalyzer.PomRun` | src/analyzer/java.rs:112-166 | the POM loop up to the end of input or the first read error: it keeps what was emitted before and emits at most one dependency per event |
| `JavaAnalyzer.ParsePom` | src/analyzer/java.rs:94-169 | the loop returns the dependencies the event-by-event state machine emits |
| `JavaAnalyzer.PomRunAppend` | src/analyzer/java.rs:112-166 | running over two stretches of events is running over one, then the other |
| `JavaAnalyzer.PomRunEmitsJavaDeps` | src/analyzer/java.rs:138-141 | every emitted dependency has a non-empty artifact and the initial license, risk, verdict and source |
| `JavaAnalyzer.DependencyOpensEmpty` | src/analyzer/java.rs:125-130 | opening `<dependency>` inside `<dependencies>` clears the three coordinates |
| `JavaAnalyzer.DependenciesCloseAtTheirDepth` | src/analyzer/java.rs:143-145 | `</dependencies>` leaves the region exactly when it closes at the depth the region opened at |
| `JavaAnalyzer.DepthSaturates` | src/analyzer/java.rs:147 | the depth never goes below zero |
| `JavaAnalyzer.TextOutsideDependencyIsIgnored` | src/analyzer/java.rs:150-151 | text outside a dependency changes nothing |
| `JavaAnalyzer.ElementRun` | src/analyzer/java.rs:114-159 | a coordinate element inside a dependency assigns its text to that field |
| `JavaAnalyzer.OpenRun` | src/analyzer/java.rs:125-130 | a `<dependency>` start inside the region opens an empty dependency |
| `JavaAnalyzer.CloseRun` | src/analyzer/java.rs:138-142 | a `</dependency>` emits the dependency when its artifact is non-empty |
| `JavaAnalyzer.DependencyElementRun` | src/analyzer/java.rs:114-159 | a whole `<dependency>` element emits its coordinates exactly when its artifact is non-empty, whatever came before |
| `JavaAnalyzer.NothingOutsideDependencies` | src/analyzer/java.rs:121-125 | no dependency is emitted before a `<dependencies>` element opens |
| `JavaAnalyzer.CoordinatesDep` | src/analyzer/java.rs:181-195 | every captured coordinate yields one Java dependency at its version, named `group:artifact` or the artifact alone without a group, with no license and source Unknown |
| `JavaAnalyzer.ParseBuildGradle` | src/analyzer/java.rs:172-198 | one dependency per pattern match, in match order |
| `JavaAnalyzer.Field` | src/analyzer/java.rs:203 | a field is non-empty, colon-free and followed by `:` in the input |
| `JavaAnalyzer.MatchLockLine` | src/analyzer/java.rs:203 | the three captures satisfy the pattern's classes: non-empty, colon-free group and artifact, a version free of `=` and white space |
| `JavaAnalyzer.FieldOfShape` | src/analyzer/java.rs:203 | a colon-free field followed by `:` is captured exactly |
| `JavaAnalyzer.LockLineOfShape` | src/analyzer/java.rs:203 | a line `group:artifact:version` followed by `=`, white space or nothing yields exactly those coordinates |
| `JavaAnalyzer.LockfileDep` | src/analyzer/java.rs:206-214 | blank lines yield nothing; whatever is yielded is a Java dependency |
| `JavaAnalyzer.ParseGradleLockfile` | src/analyzer/java.rs:201-217 | the loop yields each line's dependency, in line order |
| `JavaAnalyzer.Analyze` | src/analyzer/java.rs:25-71 | the POM, the two build scripts and the lockfile, read in turn and merged on `name:version`, the first occurrence kept |
| `JavaAnalyzer.MergedKeysAreDistinct` | src/analyzer/java.rs:14 | no two dependencies of the result share `name:version` |
| `JavaExamples.DependencyElementDoesNotStop` | src/analyzer/java.rs:161-162 | a dependency element contains no event that stops the loop |
| `JavaExamples.DependencyElementThen` | src/analyzer/java.rs:112-166 | a dependency element followed by more events emits its coordinates, then runs on |
| `JavaExamples.HeadRun` | src/analyzer/java.rs:227-229 | after the declaration, `<project>` and `<dependencies>` the loop is in the region at depth 2 |
| `JavaExamples.TailRun` | src/analyzer/java.rs:240-241 | the closing tags and the end of input emit nothing |
| `JavaExamples.TestName` | src/analyzer/java.rs:247 | the coordinate `org.apache.commons` / `commons-lang3` is named `org.apache.commons:commons-lang3` |
| `JavaExamples.PomTest` | src/analyzer/java.rs:225-249 | the test POM gives two dependencies, the first `org.apache.commons:commons-lang3` at `3.12.0` |
| `JavaExamples.LockfileLineTest` | src/analyzer/java.rs:203-212 | `com.google.guava:guava:31.1-jre=compileClasspath` captures `com.google.guava`, `guava`, `31.1-jre` |
| `DotNetAnalyzer.MakeDep` | src/analyzer/dotnet.rs:83-94 | a NuGet package with the given name and version, no license, placeholder risk and verdict, source Unknown |
| `DotNetAnalyzer.ReadAttributes` | src/analyzer/dotnet.rs:110-121 | the loop keeps, for each of the two attribute names, the value of its last occurrence, "" when absent |
| `DotNetAnalyzer.ReferenceDep` | src/analyzer/dotnet.rs:107-125 | an opening or self-closing reference element yields a dependency exactly when its name attribute is non-empty, with the version attribute (possibly empty) |
| `DotNetAnalyzer.ParseReferences` | src/analyzer/dotnet.rs:97-176 | the loop yields the references of the events before the end of input or the first read error, in document order |
| `DotNetAnalyzer.OtherElementsAreIgnored` | src/analyzer/dotnet.rs:109 | elements other than the reference element contribute nothing |
| `DotNetAnalyzer.ReferenceIsRead` | src/analyzer/dotnet.rs:150-165 | a reference with both attributes is read as written, other attributes such as `targetFramework` ignored |
| `DotNetAnalyzer.VersionInParens` | src/analyzer/dotnet.rs:182 | a captured version is non-empty and free of `)` |
| `DotNetAnalyzer.PaketEntry` | src/analyzer/dotnet.rs:182 | an entry line begins with four white-space characters and its name is non-empty and free of white space |
| `DotNetAnalyzer.VersionInParensOfShape` | src/analyzer/dotnet.rs:182 | white space then `(version)` yields exactly that version |
| `DotNetAnalyzer.PaketEntryOfShape` | src/analyzer/dotnet.rs:182 | `    Name (version)` yields that name and version, whatever follows |
| `DotNetAnalyzer.PaketEntryNeedsFourBlanks` | src/analyzer/dotnet.rs:182 | an entry line has exactly four leading blanks: fewer, or a fifth, is no entry |
| `DotNetAnalyzer.PaketLineDep` | src/analyzer/dotnet.rs:186-199 | only a non-header line inside the NUGET section can yield a dependency, and it is the line's entry |
| `DotNetAnalyzer.NextInNuget` | src/analyzer/dotnet.rs:187-194 | the section flag after a line: blank and indented lines keep it; it turns on only at a `NUGET` header and off only at another header |
| `DotNetAnalyzer.PaketRun` | src/analyzer/dotnet.rs:186-199 | the line-by-line section machine over the lockfile: at most one dependency per line |
| `DotNetAnalyzer.ParsePaketLock` | src/analyzer/dotnet.rs:179-203 | the loop yields what the line-by-line section machine yields |
| `DotNetAnalyzer.NothingOutsideNuget` | src/analyzer/dotnet.rs:184-199 | a lockfile without a NUGET header yields nothing |
| `DotNetAnalyzer.OtherHeaderEndsNuget` | src/analyzer/dotnet.rs:191-194 | any other non-blank, non-indented line ends the NUGET section |
| `DotNetAnalyzer.EntryInsideNuget` | src/analyzer/dotnet.rs:195-198 | an entry line inside the section is collected and the section goes on |
| `DotNetAnalyzer.ProjectSources` | src/analyzer/dotnet.rs:34-51 | one source per directory entry, in directory order, each its project file's references |
| `DotNetAnalyzer.Analyze` | src/analyzer/dotnet.rs:29-80 | project files in directory order, then `packages.config`, then `paket.lock`, merged on `name:version`, the first occurrence kept |
| `DotNetAnalyzer.MergedKeysAreDistinct` | src/analyzer/dotnet.rs:43-45 | no two dependencies of the result share `name:version` |
| `DotNetExamples.ProjectFileTest` | src/analyzer/dotnet.rs:211-227 | the test project file yields `Newtonsoft.Json` 13.0.1 then `Serilog` 2.12.0 |
| `DotNetExamples.PackageIsRead` | src/analyzer/dotnet.rs:150-165 | a `<package>` with a non-empty id is read as that id and version |
| `DotNetExamples.PackagesConfigTest` | src/analyzer/dotnet.rs:229-242 | the test `packages.config` yields two packages, the first `Newtonsoft.Json` 13.0.1 |
| `DotNetExamples.PaketCons` | src/analyzer/dotnet.rs:186-199 | one step of the lockfile loop |
| `DotNetExamples.IndentedNonEntry` | src/analyzer/dotnet.rs:192-198 | an indented line that is not an entry changes nothing |
| `DotNetExamples.EntryLine` | src/analyzer/dotnet.rs:182 | four blanks, a name, a blank and `(version)` is an entry with that name and version |
| `DotNetExamples.OtherSection` | src/analyzer/dotnet.rs:192-194 | a non-NUGET section whose lines are blank or indented yields nothing |
| `DotNetExamples.TwoEntries` | src/analyzer/dotnet.rs:195-198 | two entries inside NUGET are both collected, in order |
| `DotNetExamples.NugetSection` | src/analyzer/dotnet.rs:248-252 | a NUGET section with a `remote:` line, two entries and a blank line yields the two entries |
| `DotNetExamples.OpenNuget` | src/analyzer/dotnet.rs:187-190 | a header, a blank line and `NUGET` open the section |
| `DotNetExamples.RemoteIsNoEntry` | src/analyzer/dotnet.rs:246-256 | a line indented by two blanks, such as the `remote:` line, is not an entry |
| `DotNetExamples.NugetThenGithub` | src/analyzer/dotnet.rs:246-256 | the test lockfile after its NUGET header, through the GITHUB section, yields exactly its two entries |
| `DotNetExamples.PaketLockLayout` | src/analyzer/dotnet.rs:246-256 | the test lockfile's layout yields exactly its two NUGET entries |
| `DotNetExamples.TestRemote` | src/analyzer/dotnet.rs:249 | the `remote:` line is indented by two blanks only, so it is not an entry |
| `DotNetExamples.EntryShape` | src/analyzer/dotnet.rs:250-251 | a line written as the lockfile writes an entry has the entry shape |
| `DotNetExamples.TestEntry` | src/analyzer/dotnet.rs:250-251 | a visible-ASCII name and a dotted numeric version in entry layout have the entry shape |
| `DotNetExamples.TestNewtonsoft` | src/analyzer/dotnet.rs:250 | `    Newtonsoft.Json (13.0.1)` has the entry shape |
| `DotNetExamples.TestSerilog` | src/analyzer/dotnet.rs:251 | `    Serilog (2.12.0)` has the entry shape |
| `DotNetExamples.TestGithub` | src/analyzer/dotnet.rs:246-255 | `REFERENCES` and `GITHUB` are other headers and the GITHUB lines are indented |
| `DotNetExamples.PaketLockTest` | src/analyzer/dotnet.rs:244-263 | the test `paket.lock` yields `Newtonsoft.Json` then `Serilog` |
| `PythonAnalyzer.MakeDep` | src/analyzer/python.rs:70-81 | a Python dependency with the given name and version, no raw or SPDX license, risk Unknown, verdict Warn and source Unknown |
| `PythonAnalyzer.AfterOperator` | src/analyzer/python.rs:86 | what follows `\s*==\s*` is no longer than the input and does not start with white space |
| `PythonAnalyzer.OperatorOfShape` | src/analyzer/python.rs:86 | white space, `==` and white space are consumed, and nothing more |
| `PythonAnalyzer.NoOperator` | src/analyzer/python.rs:86 | text starting with neither white space nor `=` has no operator |
| `PythonAnalyzer.PinAfterName` | src/analyzer/python.rs:86 | a captured pin is non-empty and free of white space and `;` |
| `PythonAnalyzer.MatchPin` | src/analyzer/python.rs:86 | the captured name is a non-empty prefix of name characters and the captured version a non-empty run of pin characters; no match without a leading name character |
| `PythonAnalyzer.MatchPinAfterName` | src/analyzer/python.rs:86 | once the name is matched, the result is decided by what follows it |
| `PythonAnalyzer.PinAfterNameOfShape` | src/analyzer/python.rs:86 | `ws == ws version` followed by a non-pin character yields exactly the version |
| `PythonAnalyzer.PinnedLineMatches` | src/analyzer/python.rs:86 | a line `name ws == ws version tail` captures exactly that name and version |
| `PythonAnalyzer.UnpinnedLineDoesNotMatch` | src/analyzer/python.rs:86 | a name followed by another operator, such as `flask>=2.0.0`, is not a pin |
| `PythonAnalyzer.RequirementDep` | src/analyzer/python.rs:89-98 | blank lines yield nothing; a kept line is a Python dependency with a non-empty version and an ASCII name |
| `PythonAnalyzer.ParseRequirements` | src/analyzer/python.rs:84-102 | the loop yields each line's pin, in line order |
| `PythonAnalyzer.PipfileVersion` | src/analyzer/python.rs:113-118 | the version defaults to `*` and never starts with `==` |
| `PythonAnalyzer.PipfileDep` | src/analyzer/python.rs:112-119 | every entry yields a dependency with its key as name and its version |
| `PythonAnalyzer.ParsePipfileLock` | src/analyzer/python.rs:105-125 | the entries of `default`, then of `develop`, in order; a missing or non-object section yields nothing |
| `PythonAnalyzer.OptionalPin` | src/analyzer/python.rs:143 | the version is `*` or a non-empty run of pyproject pin characters |
| `PythonAnalyzer.MatchRequirement` | src/analyzer/python.rs:143 | a match exactly when the text starts with a name character; the name is a prefix and the version a pin or `*` |
| `PythonAnalyzer.MatchRequirementAfterName` | src/analyzer/python.rs:143 | after the name the version is the optional pin |
| `PythonAnalyzer.UnpinnedRequirementIsStar` | src/analyzer/python.rs:150-153 | a requirement without a `==` pin gets version `*` |
| `PythonAnalyzer.PinnedRequirementMatches` | src/analyzer/python.rs:143 | a pinned requirement captures its name and pinned version |
| `PythonAnalyzer.PyprojectDep` | src/analyzer/python.rs:147-155 | a matched requirement yields a Python dependency with a non-empty ASCII name |
| `PythonAnalyzer.ParsePyproject` | src/analyzer/python.rs:139-160 | no `[project]` table yields nothing; otherwise one dependency per matching requirement, in order |
| `PythonAnalyzer.Merged` | src/analyzer/python.rs:25-67 | the merged result: all `Pipfile.lock` entries, then the new names of the two other files; at least the first and at most all three files' entries |
| `PythonAnalyzer.Analyze` | src/analyzer/python.rs:25-67 | the three merge loops produce `Pipfile.lock` whole, then the new names of `requirements.txt`, then those of `pyproject.toml` |
| `PythonAnalyzer.PipfileEntriesComeFirst` | src/analyzer/python.rs:29-38 | every `Pipfile.lock` entry comes first, in order, repeated names included |
| `PythonAnalyzer.ScannedNamesAreAscii` | src/analyzer/python.rs:45-46 | names from `requirements.txt` and `pyproject.toml` are ASCII, so their `to_lowercase` key is their ASCII lower case |
| `PythonAnalyzer.RequirementsAreDeduplicated` | src/analyzer/python.rs:43-50 | the kept `requirements.txt` entries are requirements whose lower-cased name no `Pipfile.lock` entry has, differ in lower-cased name, include the first requirement of every new name, and take every lower-cased name of the file |
| `PythonAnalyzer.CollectedAreUnlicensed` | src/analyzer/python.rs:70-81 | collecting from a function that yields only fresh Python dependencies yields only those |
| `PythonAnalyzer.MergedAreUnlicensed` | src/analyzer/python.rs:70-81 | every dependency of the result is a Python dependency with no license, risk Unknown, verdict Warn and source Unknown |
| `PythonExamples.KelvinSignTakesKeras` | src/analyzer/python.rs:34 | a `Pipfile.lock` entry spelt with the Kelvin sign takes the name `keras`, so the `keras` pin of `requirements.txt` is dropped |
| `PythonExamples.CommentIsSkipped` | src/analyzer/python.rs:171 | `# comment` yields nothing |
| `PythonExamples.RequestsIsPinned` | src/analyzer/python.rs:172 | `requests==2.28.1` yields `requests` at `2.28.1` |
| `PythonExamples.LowerBoundIsNotAPin` | src/analyzer/python.rs:173 | `flask>=2.0.0` yields nothing |
| `PythonExamples.MarkerIsNotPartOfVersion` | src/analyzer/python.rs:174 | the environment marker is cut off: `numpy` at `1.24.0` |
| `PythonExamples.RequirementsTestFile` | src/analyzer/python.rs:168-181 | the test file yields `requests` then `numpy` |
| `NodeAnalyzer.MakeDep` | src/analyzer/node.rs:66-83 | the license, when present, is both the raw and the SPDX license and the source is Manifest; otherwise both are none and the source Unknown |
| `NodeAnalyzer.LockName` | src/analyzer/node.rs:107-110 | a key starting with `node_modules/` loses exactly that prefix; any other key is the name |
| `NodeAnalyzer.LockNameStripsOnce` | src/analyzer/node.rs:107-110 | only one leading `node_modules/` is removed |
| `NodeAnalyzer.LockEntry` | src/analyzer/node.rs:93-127 | the root entry is skipped and only it; the name is the derived one, the version defaults to `*`, and the lock's license wins over the installed package's |
| `NodeAnalyzer.ParsePackageLock` | src/analyzer/node.rs:87-131 | the loop yields each entry of `packages`, in order |
| `NodeAnalyzer.YarnDep` | src/analyzer/node.rs:179-181 | a block yields a dependency exactly when it has a version, and it carries no license |
| `NodeAnalyzer.ParseYarnLock` | src/analyzer/node.rs:179-186 | one dependency per block with a version line, in order |
| `NodeAnalyzer.DeclaredVersion` | src/analyzer/node.rs:198-202 | a non-string range is `*`; a string loses exactly its leading characters that are neither digits nor `*` |
| `NodeAnalyzer.OperatorsAreStripped` | src/analyzer/node.rs:201 | operators before a version are removed and the version kept |
| `NodeAnalyzer.PackageJsonDep` | src/analyzer/node.rs:197-203 | every entry yields a dependency with its declared version and no license |
| `NodeAnalyzer.ParsePackageJson` | src/analyzer/node.rs:190-209 | the loop yields the entries of `dependencies`, then `devDependencies` |
| `NodeAnalyzer.DependenciesBeforeDevDependencies` | src/analyzer/node.rs:195 | `dependencies` is read before `devDependencies` |
| `NodeAnalyzer.PackageJsonKeepsEveryEntry` | src/analyzer/node.rs:197-204 | every member of the two sections becomes a dependency |
| `NodeAnalyzer.Merged` | src/analyzer/node.rs:19-63 | the merged result of the two lockfiles, with `package.json` as fallback: never more entries than the files offer, and no more than the lockfiles' without a `package.json` |
| `NodeAnalyzer.Analyze` | src/analyzer/node.rs:19-63 | `package-lock.json`, then `yarn.lock`, merged on `name@version`; `package.json` only when those gave nothing |
| `NodeAnalyzer.PackageJsonIsAFallback` | src/analyzer/node.rs:51 | any lockfile entry makes the result the lockfiles' alone |
| `NodeAnalyzer.MergedKeysAreDistinct` | src/analyzer/node.rs:28-31 | no two dependencies of the result share `name@version` |
| `NodeExamples.PackageJsonTestSections` | src/analyzer/node.rs:218-228 | the test `package.json` has two `dependencies` members and one `devDependencies` member |
| `NodeExamples.PackageJsonTest` | src/analyzer/node.rs:217-233 | the test `package.json` yields three dependencies |
| `NodeExamples.CaretIsStripped` | src/analyzer/node.rs:222 | `^4.18.2` is declared as `4.18.2` |
| `NodeExamples.ExpressEntry` | src/analyzer/node.rs:242-245 | `node_modules/express` is `express` 4.18.2 under MIT from the manifest |
| `NodeExamples.LodashEntry` | src/analyzer/node.rs:246-249 | `node_modules/lodash` is `lodash` 4.17.21 under MIT from the manifest |
| `NodeExamples.PackageLockTest` | src/analyzer/node.rs:235-258 | the test lockfile yields `express` then `lodash`, the root skipped, the lock's license used |
| `RustAnalyzer.CrateDep` | src/analyzer/rust.rs:93-110 | a package becomes a dependency exactly when it has a `source`; its license is the cache's, raw and SPDX alike, from Cache when found and Unknown otherwise, with risk Unknown and verdict Warn |
| `RustAnalyzer.Analyze` | src/analyzer/rust.rs:79-114 | no `Cargo.lock` gives no dependencies, an unreadable one the error, a readable one a list |
| `RustAnalyzer.OnePerExternal` | src/analyzer/rust.rs:88-111 | the dependencies are the external packages, one each and in lockfile order |
| `RustAnalyzer.ExternalsAreTheSourcedPackages` | src/analyzer/rust.rs:92 | a package is kept if and only if it has a `source` |
| `RustAnalyzer.WorkspaceMembersContributeNothing` | src/analyzer/rust.rs:91-92 | a workspace member contributes nothing wherever it stands in the lockfile |
| `RustExamples.CargoLockTest` | src/analyzer/rust.rs:121-147 | the test lockfile keeps `serde` and `tokio`, in that order, and drops `my-app` |
| `MavenRegistry.SplitCoordinate` | src/registry/maven.rs:10-16 | a name splits if and only if it has a colon, into the text before the first colon and the rest |
| `MavenRegistry.SplitJoinedCoordinate` | src/registry/maven.rs:10-16 | splitting `group:artifact` gives back the group and the artifact |
| `MavenRegistry.GroupPath` | src/registry/maven.rs:19 | the group path has no dots and an undotted group is its own path |
| `MavenRegistry.GroupPathOfSegments` | src/registry/maven.rs:19 | a dotted group becomes its segments joined by slashes |
| `MavenRegistry.PomUrl` | src/registry/maven.rs:20-23 | the URL is Maven Central's followed by group path, artifact, version and `artifact-version.pom` |
| `MavenRegistry.TagOf` | src/registry/maven.rs:57-85 | the extractor tells `licenses`, `license` and `name` apart from every other element |
| `MavenRegistry.LicenseStep` | src/registry/maven.rs:52-88 | one event of the extractor: a license is found only from a text event inside a license's `<name>`, and the loop is left only at the end of input, a read error or a closing tag |
| `MavenRegistry.LicenseRun` | src/registry/maven.rs:51-90 | the extractor's loop: a license it returns is the content of one of the events |
| `MavenRegistry.ExtractLicenseFromPom` | src/registry/maven.rs:40-97 | the loop returns what the event-by-event definition of the extractor returns |
| `MavenRegistry.FoundIsText` | src/registry/maven.rs:71-75 | any license returned is the content of one of the text events |
| `MavenRegistry.NoLicensesNoLicense` | src/registry/maven.rs:58-67 | without a `<licenses>` start tag no license is found, whatever `<name>` elements appear |
| `MavenRegistry.LicensesEndStops` | src/registry/maven.rs:82-84 | the `</licenses>` at the depth it opened at ends the search with none |
| `MavenRegistry.NestedLicensesEndGoesOn` | src/registry/maven.rs:82-87 | a `</licenses>` at another depth only lowers the depth |
| `MavenRegistry.NameTextIsTheLicense` | src/registry/maven.rs:71-73 | text inside the license's `<name>` is returned at once |
| `MavenRegistry.BadTextIsSkipped` | src/registry/maven.rs:72 | text that cannot be unescaped is passed over |
| `MavenRegistry.FetchLicense` | src/registry/maven.rs:9-37 | a name without a colon is not looked up; otherwise the POM at the coordinate's URL is fetched and its first license name read |
| `MavenExamples.OpenFour` | src/registry/maven.rs:105-109 | the declaration, `<project>`, `<licenses>`, `<license>` and `<name>` leave the extractor inside the name at depth 4 with `<licenses>` at depth 2 |
| `MavenExamples.PomLicenseTest` | src/registry/maven.rs:103-116 | the test POM yields `Apache License, Version 2.0`, whatever follows the name |
| `MavenExamples.ProjectNameIsIgnored` | src/registry/maven.rs:65 | the project's own `<name>` leaves the extractor outside any license |
| `NpmRegistry.Encode` | src/registry/npm.rs:7-8 | the encoded name holds no `@` and no `/`, and a name without them is unchanged |
| `NpmRegistry.EncodeConcat` | src/registry/npm.rs:8 | encoding a concatenation concatenates the encodings |
| `NpmRegistry.EncodeSingle` | src/registry/npm.rs:8 | `@` becomes `%40`, `/` becomes `%2F` and every other character itself |
| `NpmRegistry.EncodeIsCharwise` | src/registry/npm.rs:8 | the encoding works character by character |
| `NpmRegistry.EncodeScoped` | src/registry/npm.rs:7 | `@scope/pkg` becomes `%40scope%2Fpkg` |
| `NpmRegistry.PackageUrl` | src/registry/npm.rs:9-13 | `*` asks for the package document, any other version for that version's |
| `NpmRegistry.NameIsOneSegment` | src/registry/npm.rs:7-13 | the encoded name is one path segment: the first `/` after the registry is the one before the version |
| `NpmRegistry.ReplyLicense` | src/registry/npm.rs:28-48 | for `*` the license of the release `dist-tags.latest` names, none without that tag; for a version the top-level `license`; a non-string is none |
| `NpmRegistry.FetchLicense` | src/registry/npm.rs:5-51 | for the reply to the package URL: a transport failure is that error, a status outside 2xx (such as 404) no license, a 2xx reply whose body cannot be read an error, and a readable body the license the reply rule reads from it |
| `PypiRegistry.ProjectUrl` | src/registry/pypi.rs:6-10 | `*` asks for the project document, any other version for the release's |
| `PypiRegistry.ReplyLicense` | src/registry/pypi.rs:23-28 | the license is `info.license` when that is a string, and only when it is non-empty |
| `PypiRegistry.FetchLicense` | src/registry/pypi.rs:5-31 | the reply to the project URL, read by the reply rule; a license found is never empty |
| `RegistryExamples.NpmLatestRelease` | src/registry/npm.rs:30-47 | with `*` the latest release's license is read, with a pinned version the top level's |
| `RegistryExamples.NpmNoLatestTag` | src/registry/npm.rs:41-43 | a document without `dist-tags.latest` gives no license for `*` |
| `RegistryExamples.NpmScopedUrl` | src/registry/npm.rs:7-10 | `@types/node` is requested as `%40types%2Fnode` |
| `RegistryExamples.PypiEmptyLicense` | src/registry/pypi.rs:27 | an empty `info.license` is no license |
| `RegistryExamples.PypiLicense` | src/registry/pypi.rs:23-28 | a non-empty `info.license` is the license |
| `RegistryExamples.NotFoundIsNoLicense` | src/registry/npm.rs:22-24 | a 404 from npm or PyPI means no license rather than an error |
| `Spdx.Tier` | src/license/spdx.rs:5-57 | an identifier is Permissive exactly when it is in the permissive list and Unknown exactly when it is in no list; weak and strong copyleft come only from their lists; never Proprietary |
| `Spdx.ClassifySpdxId` | src/license/spdx.rs:4-58 | the identifier's tier is never Proprietary |
| `Spdx.ClassifySpdxIdTrims` | src/license/spdx.rs:5 | surrounding whitespace never changes the tier |
| `Spdx.TrimmedLookup` | src/license/spdx.rs:5-57 | an identifier without surrounding whitespace is looked up as it is |
| `Spdx.PermissiveExamples` | src/license/spdx.rs:92-96 | MIT, Apache-2.0 and BSD-3-Clause are permissive |
| `Spdx.StrongCopyleftExamples` | src/license/spdx.rs:99-102 | GPL-3.0 and AGPL-3.0, and EUPL-1.1, are strong copyleft |
| `Spdx.WeakCopyleftExamples` | src/license/spdx.rs:105-108 | LGPL-2.1 and MPL-2.0, and EUPL-1.2, are weak copyleft |
| `Spdx.CaseSensitiveExample` | src/license/spdx.rs:5-7 | `mit` is not MIT: the lookup is case-sensitive |
| `Spdx.CanonicalOf` | src/license/spdx.rs:63-84 | a listed alias maps to one of the canonical identifiers; any other string is kept |
| `Spdx.Normalize` | src/license/spdx.rs:61-85 | the trimmed input maps to a canonical identifier when it is an alias, and is returned trimmed otherwise |
| `Spdx.NormalizeMitAliases` | src/license/spdx.rs:111-114 | `MIT License` and `The MIT License` become `MIT` |
| `Spdx.NormalizeApacheAliases` | src/license/spdx.rs:111-114 | each spelling of the Apache alias becomes `Apache-2.0` |
| `Spdx.TargetsAreTrimmed` | src/license/spdx.rs:64-82 | the canonical identifiers have no surrounding whitespace |
| `Spdx.TargetsAreNotAliases` | src/license/spdx.rs:64-83 | no canonical identifier is itself an alias |
| `Spdx.NormalizeIdempotent` | src/license/spdx.rs:61-85 | normalising twice is normalising once |
| `Spdx.AliasesAreAliasShaped` | src/license/spdx.rs:64-82 | no alias holds a slash, a capital R, E or W, or both capitals A and D |
| `Spdx.OperatorsAreNotAliases` | src/license/spdx.rs:83 | a string of another shape, such as one with an operator, is left as it is |
| `Spdx.AliasTargetsAreKnown` | src/license/spdx.rs:64-82 | every canonical identifier the alias table produces has a known tier |
| `Classifier.MostPermissive` | src/license/classifier.rs:55-69 | the result is present in the list or Unknown, ranks at least as permissive as every element, and is Unknown exactly when every element is |
| `Classifier.MostRestrictive` | src/license/classifier.rs:71-85 | the result is present in the list or Unknown, ranks at least as restrictive as every element, and is Unknown exactly when every element is |
| `Classifier.CombinatorsAreLattices` | src/license/classifier.rs:55-85 | both combinators depend only on which tiers occur, and split over concatenation as a binary join |
| `Classifier.ClassifySingle` | src/license/classifier.rs:49-53 | never Proprietary; without ` WITH ` it is the identifier's tier |
| `Classifier.WithClauseIgnored` | src/license/classifier.rs:50-52 | an exception after ` WITH ` does not change the tier |
| `Classifier.ClassifyParts` | src/license/classifier.rs:30-33 | one tier per part, of the trimmed part, and none Proprietary |
| `Classifier.ClassifyExpression` | src/license/classifier.rs:28-46 | ` OR ` takes the most permissive part, else ` AND ` the most restrictive, else the single identifier; never Proprietary |
| `Classifier.Classify` | src/license/classifier.rs:12-47 | Unknown for an empty or `unknown` string; otherwise Proprietary exactly when a keyword occurs, and the operator stage on the normalised expression when none does |
| `Classifier.ProprietaryOnlyFromKeywords` | src/license/classifier.rs:19-22 | Proprietary if and only if a keyword occurs in a string that is not the unknown marker |
| `Classifier.Tiers` | src/license/spdx.rs:4-58 | the tiers of a list of identifiers, one each |
| `Classifier.ClassifySingleOfId` | src/license/classifier.rs:49-53 | a word classifies as its table entry |
| `Classifier.PartsOfJoin` | src/license/classifier.rs:30-33 | splitting a join of words and classifying the parts gives the words' tiers |
| `Classifier.BareIdentifier` | src/license/classifier.rs:12-47 | a bare identifier that is no alias, no unknown marker and not proprietary is classified by the identifier table alone |
| `Classifier.OrListIsMostPermissive` | src/license/classifier.rs:29-35 | `a OR b OR ...` over bare identifiers gives the most permissive of their tiers |
| `Classifier.AndListIsMostRestrictive` | src/license/classifier.rs:38-44 | `a AND b AND ...` over bare identifiers, with no ` OR `, gives the most restrictive of their tiers |
| `Classifier.WithExceptionIgnored` | src/license/classifier.rs:46-52 | `id WITH exception` with no other operator gives the tier of `id` |
| `Classifier.SlashJoinExpression` | src/license/classifier.rs:26 | a slash-separated list becomes the ` OR ` join |
| `Classifier.SlashListIsDisjunction` | src/license/classifier.rs:25-35 | `a/b/...` over bare identifiers gives the most permissive of their tiers |
| `ClassifierExamples.OrExpressionExample` | src/license/classifier.rs:91-94 | `MIT OR GPL-3.0` is permissive |
| `ClassifierExamples.SlashMitApacheExample` | src/license/classifier.rs:98 | `MIT/Apache-2.0` is permissive |
| `ClassifierExamples.SlashMitGplExample` | src/license/classifier.rs:99 | `MIT/GPL-3.0` is permissive |
| `ClassifierExamples.SlashGplLgplExample` | src/license/classifier.rs:100 | `GPL-3.0/LGPL-3.0` is weak copyleft |
| `ClassifierExamples.AndExpressionExample` | src/license/classifier.rs:103-106 | `MIT AND GPL-3.0` is strong copyleft |
| `ClassifierExamples.ProprietaryExample` | src/license/classifier.rs:110 | `Proprietary` is proprietary |
| `ClassifierExamples.CommercialExample` | src/license/classifier.rs:111 | `commercial license` is proprietary |
| `ClassifierExamples.UnknownMarkerExamples` | src/license/classifier.rs:116-117 | the empty string and `unknown` are Unknown |
| `ClassifierExamples.UnlistedExample` | src/license/classifier.rs:118 | `CUSTOM-LICENSE-42` is Unknown |
| `ClassifierExamples.WithExceptionExample` | src/license/classifier.rs:121-127 | `GPL-2.0 WITH Classpath-exception-2.0` is strong copyleft |
| `TerminalReport.Having` | src/report/terminal.rs:13-15 | the dependencies with the given verdict, and only those |
| `TerminalReport.HavingConcat` | src/report/terminal.rs:13-15 | filtering a concatenation concatenates the filtered parts |
| `TerminalReport.VerdictCountsSumToTotal` | src/report/terminal.rs:12-15 | the pass, warn and error counts add up to the total |
| `TerminalReport.TallyOf` | src/report/terminal.rs:12-15 | the summary's total is the number of dependencies and each count is the number with that verdict |
| `TerminalReport.WorkspaceTallyAddsUp` | src/report/terminal.rs:103-107 | the workspace's counts over all projects are the first project's counts plus the others' |
| `TerminalReport.TableRows` | src/report/terminal.rs:223-254 | one row per dependency with the table's verdict, in order, each marked with that verdict |
| `TerminalReport.TablesPartitionTheDependencies` | src/report/terminal.rs:78-96 | the error, warn and pass tables together show every dependency exactly once |
| `TerminalReport.ShownTables` | src/report/terminal.rs:31-96 | no table in quiet mode; otherwise the error table exactly when some dependency fails, the warning table exactly when some warns, and the passing table exactly in verbose mode when some passes |
| `TerminalReport.ShownTablesListProblems` | src/report/terminal.rs:77-95 | outside quiet mode every failing or warning dependency is a row of a printed table, and in verbose mode every dependency is |
| `TerminalReport.CountsAreCounts` | src/report/terminal.rs:285-294 | a license is in the count map exactly when some dependency with the verdict shows it, and its entry is that number |
| `TerminalReport.NoCountsIffNoDependency` | src/report/terminal.rs:285-294 | the count map is empty exactly when no dependency has the verdict |
| `TerminalReport.ListsOfPermutation` | src/report/terminal.rs:296-297 | reordering the map's entries keeps them the map's entries |
| `TerminalReport.InsertByCount` | src/report/terminal.rs:297 | inserting adds exactly the one pair |
| `TerminalReport.InsertKeepsOrder` | src/report/terminal.rs:297 | inserting into a list sorted by descending count keeps it sorted |
| `TerminalReport.SortByCount` | src/report/terminal.rs:297 | the result is sorted by descending count and is a permutation of the input |
| `TerminalReport.Entries` | src/report/terminal.rs:302 | one `license (count)` entry per pair, in order |
| `TerminalReport.Top` | src/report/terminal.rs:299-301 | at most three pairs, the first ones of the ranking |
| `TerminalReport.LicenseCounts` | src/report/terminal.rs:285-294 | the counter map: every license in it is counted at least once and at most once per dependency |
| `TerminalReport.Summary` | src/report/terminal.rs:296-310 | the summary text of a ranking: empty exactly when the ranking is, and otherwise bracketed |
| `TerminalReport.CountLicenses` | src/report/terminal.rs:285-294 | the loop builds the count map of the dependencies with the verdict |
| `TerminalReport.EntriesOf` | src/report/terminal.rs:296 | each of the map's entries once, as a pair |
| `TerminalReport.SummarizeLicenses` | src/report/terminal.rs:284-310 | the summary is that of a ranking of the license counts: every license once with its count, by descending count |
| `TerminalReport.SummaryEmptyIffNoDependency` | src/report/terminal.rs:305-306 | the summary is empty exactly when no dependency has the verdict |
| `TerminalReport.ShownEntriesAreCounts` | src/report/terminal.rs:299-303 | each shown entry is a license with its true, positive count |
| `TerminalReport.ShownAreTheMostFrequent` | src/report/terminal.rs:296-303 | no license left out of the summary is more frequent than one shown |
| `PdfReport.Truncate` | src/report/pdf.rs:831-838 | the result has at most `max` characters: a string that fits is kept, a longer one keeps its first `max - 1` characters followed by an ellipsis |
| `PdfReport.TruncateIdempotent` | src/report/pdf.rs:831-838 | truncating twice is truncating once |
| `PdfReport.Greedy` | src/report/pdf.rs:846-859 | the greedy fill of both loops: an item joins the current line after the separator unless the byte length would pass the width, so there is at most one line per item, plus the line in progress |
| `PdfReport.GreedyNonEmpty` | src/report/pdf.rs:857-859 | a non-empty line in progress always yields at least one line |
| `PdfReport.GreedyJoin` | src/report/pdf.rs:846-859 | the lines joined by the separator are the words joined by it: nothing is lost, added or reordered |
| `PdfReport.GreedyLines` | src/report/pdf.rs:846-859 | every line is non-empty and either fits the width or is a single overlong item |
| `PdfReport.Wrapped` | src/report/pdf.rs:840-861 | `wrap_text`: a text that fits is its one line as it is; a longer one gets at most one line per word |
| `PdfReport.WrapText` | src/report/pdf.rs:840-861 | the loop yields the greedy wrapping of the text's words |
| `PdfReport.ShortTextIsOneLine` | src/report/pdf.rs:841-843 | a text that fits, even an empty or blank one, is one line as it is |
| `PdfReport.WrappedLines` | src/report/pdf.rs:844-860 | a long text's lines joined by spaces are its words joined by spaces, and each line fits or is one word |
| `PdfReport.BlankTextHasNoLines` | src/report/pdf.rs:844-860 | a long text of only whitespace gives no lines |
| `PdfReport.CountLine` | src/report/pdf.rs:884 | `1 package`, and `N packages` for any other count |
| `PdfReport.DepCountList` | src/report/pdf.rs:865-887 | `format_dep_count_list`: `—` alone for no names; otherwise at most one line per name, the last line being the count line |
| `PdfReport.FormatDepCountList` | src/report/pdf.rs:865-887 | a dash for no names; otherwise the names wrapped greedily with `, ` followed by the count line |
| `PdfReport.DepCountListLines` | src/report/pdf.rs:869-886 | at least two lines, the last the count line, the others holding the names in order |
| `PdfReport.Capped` | src/report/pdf.rs:485-489 | at most four lines: a short list is kept, a long one keeps its first three lines and its last line |
| `PdfReport.RowDescLines` | src/report/pdf.rs:481 | a row's description cell is its description wrapped at 36 bytes |
| `PdfReport.RowLineCount` | src/report/pdf.rs:492 | a row is as many lines high as its taller cell, and at least two |
| `PdfReport.RowDepLines` | src/report/pdf.rs:483-491 | a row's dependency cell is the capped name list of the row's dependencies |
| `PdfReport.RowKeepsCountLine` | src/report/pdf.rs:482-490 | the capped cell still ends with the count of all the row's dependencies |
| `PdfReport.WithRisk` | src/report/pdf.rs:477-478 | the filter keeps exactly the dependencies with the row's risk |
| `PdfReport.WithRiskConcat` | src/report/pdf.rs:477-478 | the filter of a concatenation is the concatenation of the filters, so input order is kept |
| `PdfReport.RowNames` | src/report/pdf.rs:477-480 | the row holds one name per dependency with the row's risk |
| `PdfReport.RowNamesMembers` | src/report/pdf.rs:477-480 | a name is in the row exactly when some dependency with the row's risk has it |
| `PdfReport.RowNamesConcat` | src/report/pdf.rs:477-480 | the names of a concatenation are the names of the two pieces, in order |
| `PdfReport.EveryRiskHasOneRow` | src/report/pdf.rs:443-474 | each risk tier has a row and no two rows share a tier |
| `PdfReport.WithRiskCount` | src/report/pdf.rs:477-478 | the filter keeps every copy of a dependency with the row's risk and no copy of any other |
| `PdfReport.RowsCoverAllDependencies` | src/report/pdf.rs:476-480 | the five rows' dependencies add up, as a multiset, to the input: every dependency is in its own risk's row, once per occurrence, and in no other |
| `PdfReport.RowCountsSumToTotal` | src/report/pdf.rs:476-480 | the five rows' names number exactly the dependencies |
| `PdfReport.WorkspaceRowOf` | src/report/pdf.rs:209-223 | the project's name cut to 32 characters, its dependency count and its verdict counts, which add up |
| `PdfReport.WorkspaceRows` | src/report/pdf.rs:204-233 | the first twelve projects at most, each as its row, in order |
| `PdfReport.MoreLine` | src/report/pdf.rs:235-241 | the `+ N more…` line appears exactly when there are more than twelve projects |
| `PdfReport.EveryProjectIsAccounted` | src/report/pdf.rs:204-241 | every project is either in the table or counted by the line under it |

## Left out

- Reading files, environment variables and the home directory is not modelled. File contents, their parse results and directory listings are arguments, with "absent" and "unparsable" folded together where the source treats them alike.
- TOML, JSON and XML parsing (`toml`, `serde_json`, `quick_xml`) is not modelled: the parsed values, or the reader's events, are the input.
- `content.lines()` is not modelled: manifests read line by line are given as their lines.
- The regular expressions of `build.gradle` are not modelled: their captures are the input.
- `NodeAnalyzer.ParseYarnLock` starts from the blocks of `yarn.lock`, each a package name and the version found for it. The line loop that builds them is not modelled: skipping comments and blank lines, cleaning the header (the `:` and quotes, the first of several comma-separated specs), the two regular expressions, and the look-ahead that stops at a blank line or at the first version line (src/analyzer/node.rs:149-176).
- `load_config` (src/config.rs:67-91) is left out because it reads a file and parses TOML. The default policy and `apply_policy` are modelled.
- The HTTP client, headers, timeouts and `join_all` concurrency are not modelled. Each request is a function from URL to response, so the batch's requests are independent, which is what the source relies on.
- The progress bar is modelled only as the count of dependencies it advances by.
- `src/registry/crates_io.rs` is left out: the Rust analyzer never calls it, and the online stage reaches it only through the registry oracle.
- The cargo registry cache lookup (`license_from_cargo_cache`), `read_license_from_package_json` and `read_dir` are not modelled. They are functions passed in, so `read_dir` order is whatever the listing says.
- PDF drawing, fonts, colours and page geometry are left out, and so is the report date (`chrono_now`), which reads the clock. The text layout (truncation, wrapping and the row and workspace tables) is modelled.
- Terminal printing, colours and `comfy_table` rendering are left out. The counts, the choice of the tables printed, the tables' rows and the license summaries are modelled.
- `src/cli.rs` and the `mod.rs` files only declare arguments and modules, so they are not part of this model.
- `TerminalReport.SummarizeLicenses`: `summarize_licenses_refs` computes the same string from references and is modelled by the same method, not a separate one.
- `TerminalReport.SortByCount`: Rust's `HashMap` iteration order is not modelled, so the relative order of licenses with equal counts is left open. The lemmas hold for every such order.
- `MavenRegistry.LicenseState`: the `u32` depth counters are unbounded here. A POM nested more than 2^32 levels deep is not modelled.
- `PythonAnalyzer.Analyze`: the `to_lowercase` key is modelled by `FoldName`, which lowers the ASCII capitals and the Kelvin sign only. Other non-ASCII letters of a `Pipfile.lock` name stay as they are, so `seen` can hold other strings than in the source. The merged list does not change, because `seen` is only consulted for `requirements.txt` and `pyproject.toml` names, which are ASCII, and the Kelvin sign is the one character outside ASCII whose lower case is ASCII (U+0130 lowers to `i` followed by a combining dot).
- `Classifier.Classify`: `to_lowercase` is modelled as ASCII lowering. The only non-ASCII characters that lower to ASCII letters (U+0130 and U+212A) cannot complete `proprietary` or `commercial` differently.
- `Enrichment.EnrichOnline`: it never fails. The model assumes that building the HTTP client (src/main.rs:143-145) and parsing the progress bar's template (src/main.rs:153) succeed; in the source either failure ends the run with an error.
- `Pipeline.Run` stops before the report, so it does not model a failure of the terminal or PDF renderer or of the JSON serialisation (src/main.rs:114-124), which would end the run with an error instead of the exit status.
- `TerminalReport.WorkspaceTallyAddsUp`, `PdfReport.WorkspaceRows`: the workspace renderers (`render_workspace`, src/report/terminal.rs:102 and src/report/pdf.rs:85) take their `&[ProjectScan]` as given. It is modelled as (project name, dependencies) pairs, because those two fields are all the renderers read. No code in the source builds that slice or calls these renderers.
- `PdfReport.Truncate`: it requires `max >= 1` whenever truncation happens, because the source would index before the start of the string there.
