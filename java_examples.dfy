/** The Java analyzer's unit test, and a `gradle.lockfile` line, as lemmas
    about the model. */
module JavaExamples {
  import opened Wrappers
  import opened Text
  import opened Xml
  import opened Models
  import opened JavaAnalyzer

  /** A `<dependency>` element contains no end-of-input or error event. */
  lemma DependencyElementDoesNotStop(group: string, artifact: string, version: string)
    ensures forall k :: 0 <= k < |DependencyElement(group, artifact, version)| ==>
              !Stops(DependencyElement(group, artifact, version)[k])
  {
  }

  lemma DependencyElementThen(s: PomState, group: string, artifact: string, version: string, rest: seq<Event>)
    requires s.inDependencies && !s.inDependency
    ensures PomRun(s, DependencyElement(group, artifact, version) + rest) ==
            PomRun(AfterDependency(s, group, artifact, version), rest)
  {
    DependencyElementDoesNotStop(group, artifact, version);
    PomRunAppend(s, DependencyElement(group, artifact, version), rest);
    DependencyElementRun(s, group, artifact, version);
  }

  /** The events of the test's `pom.xml` as the trimming reader delivers
      them: the declaration, `<project>`, `<dependencies>`, two
      dependencies, the closing tags and the end of input. */
  function TestPom(d1: seq<Event>, d2: seq<Event>): seq<Event> {
    [Other, Start("project", []), Start("dependencies", [])] + (d1 + (d2 + [End("dependencies"), End("project"), Eof]))
  }

  /** After the declaration, `<project>` and `<dependencies>`, the loop is
      inside the dependencies region at depth 2. */
  lemma HeadRun(rest: seq<Event>)
    ensures PomRun(PomStart, [Other, Start("project", []), Start("dependencies", [])] + rest) ==
            PomRun(PomState(2, true, 2, false, "dependencies", "", "", "", []), rest)
  {
    var head := [Other, Start("project", []), Start("dependencies", [])];
    var e := head + rest;
    var s1 := PomStep(PomStart, e[0]);
    assert s1 == PomStart;
    var s2 := PomStep(s1, e[1]);
    assert s2 == PomStart.(depth := 1, currentTag := "project");
    var s3 := PomStep(s2, e[2]);
    assert s3 == PomState(2, true, 2, false, "dependencies", "", "", "", []);
    assert e[1..][1..][1..] == rest;
    assert PomRun(PomStart, e) == PomRun(s1, e[1..]);
    assert PomRun(s1, e[1..]) == PomRun(s2, e[1..][1..]);
    assert PomRun(s2, e[1..][1..]) == PomRun(s3, rest);
  }

  /** Closing tags and the end of input emit nothing more. */
  lemma TailRun(s: PomState)
    requires !s.inDependency
    ensures PomRun(s, [End("dependencies"), End("project"), Eof]).deps == s.deps
  {
    var tail := [End("dependencies"), End("project"), Eof];
    var t1 := PomStep(s, tail[0]);
    var t2 := PomStep(t1, tail[1]);
    assert tail[1..][1..] == [Eof];
    assert PomRun(s, tail) == PomRun(t1, tail[1..]);
    assert PomRun(t1, tail[1..]) == PomRun(t2, [Eof]) == t2;
  }

  lemma TestName(group: string, artifact: string, version: string)
    requires group == "org.apache.commons" && artifact == "commons-lang3"
    ensures MakeDep(group, artifact, version).name == "org.apache.commons:commons-lang3"
  {
  }

  /** Two dependencies, the first named `group:artifact`. */
  lemma PomTest(g1: string, a1: string, v1: string, g2: string, a2: string, v2: string)
    requires g1 == "org.apache.commons" && a1 == "commons-lang3" && v1 == "3.12.0"
    requires g2 == "junit" && a2 == "junit" && v2 == "4.13.2"
    ensures var deps := PomRun(PomStart, TestPom(DependencyElement(g1, a1, v1), DependencyElement(g2, a2, v2))).deps;
            |deps| == 2 && deps[0].name == "org.apache.commons:commons-lang3" && deps[0].version == "3.12.0"
  {
    var d1 := DependencyElement(g1, a1, v1);
    var d2 := DependencyElement(g2, a2, v2);
    var tail := [End("dependencies"), End("project"), Eof];
    HeadRun(d1 + (d2 + tail));
    var s2 := PomState(2, true, 2, false, "dependencies", "", "", "", []);
    DependencyElementThen(s2, g1, a1, v1, d2 + tail);
    var s3 := AfterDependency(s2, g1, a1, v1);
    DependencyElementThen(s3, g2, a2, v2, tail);
    var s4 := AfterDependency(s3, g2, a2, v2);
    TailRun(s4);
    TestName(g1, a1, v1);
  }

  /** `com.google.guava:guava:31.1-jre=compileClasspath` is the coordinate
      `com.google.guava:guava` at `31.1-jre`. */
  lemma LockfileLineTest(group: string, artifact: string, version: string, configurations: string)
    requires group == "com.google.guava" && artifact == "guava" && version == "31.1-jre"
    requires configurations == "=compileClasspath"
    ensures MatchLockLine(group + (":" + (artifact + (":" + (version + configurations))))) ==
            Some(Coordinates(group, artifact, version))
  {
    LockLineOfShape(group, artifact, version, configurations);
  }
}
