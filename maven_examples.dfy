/** The Maven client's unit test, as a lemma about the model. */
module MavenExamples {
  import opened Wrappers
  import opened Xml
  import opened MavenRegistry

  /** The test's POM up to the license name: the declaration, `<project>`,
      `<licenses>`, `<license>`, `<name>` and its text, then the rest of the
      document. */
  function TestPom(license: string, rest: seq<Event>): seq<Event> {
    [Other, Start("project", []), Start("licenses", []), Start("license", []), Start("name", [])] +
    ([Text(Some(license))] + rest)
  }

  lemma OpenFour(rest: seq<Event>)
    ensures LicenseRun(LicenseStart, [Other, Start("project", []), Start("licenses", []), Start("license", []), Start("name", [])] + rest) ==
            LicenseRun(LicenseState(true, true, true, 4, 2), rest)
  {
    var e := [Other, Start("project", []), Start("licenses", []), Start("license", []), Start("name", [])] + rest;
    var s1 := LicenseStart;
    var s2 := LicenseState(false, false, false, 1, 0);
    var s3 := LicenseState(true, false, false, 2, 2);
    var s4 := LicenseState(true, true, false, 3, 2);
    var s5 := LicenseState(true, true, true, 4, 2);
    assert LicenseStep(LicenseStart, e[0]) == Next(s1);
    assert LicenseStep(s1, e[1]) == Next(s2);
    assert LicenseStep(s2, e[2]) == Next(s3);
    assert LicenseStep(s3, e[3]) == Next(s4);
    assert LicenseStep(s4, e[4]) == Next(s5);
    assert e[1..][1..][1..][1..][1..] == rest;
    assert LicenseRun(LicenseStart, e) == LicenseRun(s1, e[1..]);
    assert LicenseRun(s1, e[1..]) == LicenseRun(s2, e[1..][1..]);
    assert LicenseRun(s2, e[1..][1..]) == LicenseRun(s3, e[1..][1..][1..]);
    assert LicenseRun(s3, e[1..][1..][1..]) == LicenseRun(s4, e[1..][1..][1..][1..]);
    assert LicenseRun(s4, e[1..][1..][1..][1..]) == LicenseRun(s5, rest);
  }

  /** The license name is read, whatever the rest of the document holds. */
  lemma PomLicenseTest(license: string, rest: seq<Event>)
    requires license == "Apache License, Version 2.0"
    ensures LicenseRun(LicenseStart, TestPom(license, rest)) == Some("Apache License, Version 2.0")
  {
    OpenFour([Text(Some(license))] + rest);
    NameTextIsTheLicense(LicenseState(true, true, true, 4, 2), license, rest);
  }

  /** The project's own `<name>` before `<licenses>` is not taken. */
  lemma ProjectNameIsIgnored(name: string, rest: seq<Event>)
    ensures LicenseRun(LicenseStart, [Start("project", []), Start("name", []), Text(Some(name))] + rest) ==
            LicenseRun(LicenseState(false, false, false, 2, 0), rest)
  {
    var e := [Start("project", []), Start("name", []), Text(Some(name))] + rest;
    var s1 := LicenseState(false, false, false, 1, 0);
    var s2 := LicenseState(false, false, false, 2, 0);
    assert LicenseStep(LicenseStart, e[0]) == Next(s1);
    assert LicenseStep(s1, e[1]) == Next(s2);
    assert LicenseStep(s2, e[2]) == Next(s2);
    assert e[1..][1..][1..] == rest;
    assert LicenseRun(LicenseStart, e) == LicenseRun(s1, e[1..]);
    assert LicenseRun(s1, e[1..]) == LicenseRun(s2, e[1..][1..]);
  }
}
