/** The Node analyzer's unit tests, as lemmas about the model. */
module NodeExamples {
  import opened Wrappers
  import opened Seqs
  import opened Json
  import opened Models
  import opened NodeAnalyzer

  /** Collecting three elements of which the first yields nothing. */
  lemma FirstIsSkipped<T, U>(a: T, b: T, c: T, f: T -> Option<U>, x: U, y: U)
    requires f(a) == None && f(b) == Some(x) && f(c) == Some(y)
    ensures Collect([a, b, c], f) == [x, y]
  {
    assert [a, b][..1] == [a] && [a][..0] == [];
    assert Collect([a], f) == [];
    assert Collect([a, b], f) == [x];
    assert [a, b, c][..2] == [a, b];
  }

  lemma PackageJsonTestSections(express: (string, Json), lodash: (string, Json), jest: (string, Json), doc: Json)
    requires doc == JObj([("name", JStr("my-app")),
                          ("dependencies", JObj([express, lodash])),
                          ("devDependencies", JObj([jest]))])
    ensures Sections(doc, PackageJsonSections) == [express, lodash, jest]
  {
    DependenciesBeforeDevDependencies(doc);
    var fields := doc.fields;
    assert |fields[0].0| == 4 && |fields[1].0| == 12;
    assert fields[1..][0] == ("dependencies", JObj([express, lodash]));
    assert fields[1..][1..][0] == ("devDependencies", JObj([jest]));
    assert Lookup(fields, "dependencies") == Some(JObj([express, lodash]));
    assert Lookup(fields, "devDependencies") == Some(JObj([jest]));
  }

  /** Two sections of two and one members give three dependencies. */
  lemma PackageJsonTest(express: (string, Json), lodash: (string, Json), jest: (string, Json), doc: Json)
    requires express == ("express", JStr("^4.18.2")) && lodash == ("lodash", JStr("^4.17.21"))
    requires jest == ("jest", JStr("^29.0.0"))
    requires doc == JObj([("name", JStr("my-app")),
                          ("dependencies", JObj([express, lodash])),
                          ("devDependencies", JObj([jest]))])
    ensures |Collect(Sections(doc, PackageJsonSections), PackageJsonDep)| == 3
  {
    PackageJsonKeepsEveryEntry(doc);
    PackageJsonTestSections(express, lodash, jest, doc);
  }

  /** `^4.18.2` is declared as version `4.18.2`. */
  lemma CaretIsStripped(range: string)
    requires range == "^" + "4.18.2"
    ensures DeclaredVersion(JStr(range)) == "4.18.2"
  {
    OperatorsAreStripped("^", "4.18.2");
  }

  lemma ExpressEntry(installed: string -> Option<string>, key: string, info: Json)
    requires key == "node_modules/" + "express"
    requires info == JObj([("version", JStr("4.18.2")), ("license", JStr("MIT"))])
    ensures LockEntry(installed, (key, info)) == Some(MakeDep("express", "4.18.2", Some("MIT")))
  {
    LockNameStripsOnce("express");
  }

  lemma LodashEntry(installed: string -> Option<string>, key: string, info: Json)
    requires key == "node_modules/" + "lodash"
    requires info == JObj([("version", JStr("4.17.21")), ("license", JStr("MIT"))])
    ensures LockEntry(installed, (key, info)) == Some(MakeDep("lodash", "4.17.21", Some("MIT")))
  {
    LockNameStripsOnce("lodash");
  }

  lemma RootEntry(installed: string -> Option<string>, root: (string, Json))
    requires root.0 == ""
    ensures LockEntry(installed, root) == None
  {
  }

  lemma PackagesOfLock(doc: Json, packages: Json)
    requires doc == JObj([("name", JStr("my-app")), ("lockfileVersion", JNum(3)), ("packages", packages)])
    requires packages.JObj?
    ensures Section(doc, "packages") == packages.fields
  {
    assert doc.fields[0].0 != "packages" && doc.fields[1].0 != "packages";
    assert Lookup(doc.fields, "packages") == Lookup(doc.fields[1..], "packages") == Lookup(doc.fields[2..], "packages");
    assert Get(doc, "packages") == Some(packages);
  }

  /** The root entry is skipped, `node_modules/` is removed from the names,
      and the lock's own license is used whatever `node_modules` holds. */
  lemma PackageLockTest(installed: string -> Option<string>, root: Json, express: Json, lodash: Json, doc: Json)
    requires root == JObj([("name", JStr("my-app")), ("version", JStr("1.0.0"))])
    requires express == JObj([("version", JStr("4.18.2")), ("license", JStr("MIT"))])
    requires lodash == JObj([("version", JStr("4.17.21")), ("license", JStr("MIT"))])
    requires doc == JObj([("name", JStr("my-app")), ("lockfileVersion", JNum(3)),
                          ("packages", JObj([("", root),
                                             ("node_modules/" + "express", express),
                                             ("node_modules/" + "lodash", lodash)]))])
    ensures var deps := Collect(Section(doc, "packages"), e => LockEntry(installed, e));
            |deps| == 2 && deps[0].name == "express" && deps[0].licenseRaw == Some("MIT")
  {
    var f := e => LockEntry(installed, e);
    var a := ("", root);
    var b := ("node_modules/" + "express", express);
    var c := ("node_modules/" + "lodash", lodash);
    PackagesOfLock(doc, JObj([a, b, c]));
    RootEntry(installed, a);
    ExpressEntry(installed, b.0, b.1);
    LodashEntry(installed, c.0, c.1);
    FirstIsSkipped(a, b, c, f, MakeDep("express", "4.18.2", Some("MIT")), MakeDep("lodash", "4.17.21", Some("MIT")));
  }
}
