/** The Python analyzer's unit test, as lemmas about the model: each line of
    the test file is an instance of a general matching lemma. */
module PythonExamples {
  import opened Wrappers
  import opened Text
  import opened Seqs
  import opened Models
  import opened PythonAnalyzer
  import opened Dedup

  /** Rust's `to_lowercase` maps the Kelvin sign U+212A to `k`, so a
      `Pipfile.lock` entry spelt with it takes the name `keras` and the
      `requirements.txt` pin of `keras` is dropped. */
  lemma KelvinSignTakesKeras(pip: Dependency, req: Dependency)
    requires pip == MakeDep("\U{212A}eras", "2.3.1") && req == MakeDep("keras", "2.3.1")
    ensures Fresh([req], KeySet([pip], LowerName), LowerName) == []
  {
    assert FoldName(pip.name) == "keras" by {
      assert forall i :: 0 <= i < 5 ==> FoldName(pip.name)[i] == "keras"[i];
    }
    assert FoldName(req.name) == "keras" by {
      assert forall i :: 0 <= i < 5 ==> FoldName(req.name)[i] == "keras"[i];
    }
    assert [pip][1..] == [] && [req][1..] == [];
  }

  lemma CommentIsSkipped(line: string)
    requires line == "# comment"
    ensures RequirementDep(line) == None
  {
    TrimNoEdges(line);
  }

  lemma RequestsIsPinned(line: string)
    requires line == "requests==2.28.1"
    ensures RequirementDep(line) == Some(MakeDep("requests", "2.28.1"))
  {
    TrimNoEdges(line);
    assert line == "requests" + ([] + ("==" + ([] + ("2.28.1" + []))));
    PinnedLineMatches("requests", [], [], "2.28.1", []);
  }

  lemma LowerBoundIsNotAPin(line: string)
    requires line == "flask>=2.0.0"
    ensures RequirementDep(line) == None
  {
    TrimNoEdges(line);
    assert line == "flask" + ">=2.0.0";
    UnpinnedLineDoesNotMatch("flask", ">=2.0.0");
  }

  lemma MarkerIsNotPartOfVersion(line: string, pin: string, marker: string)
    requires pin == "numpy==1.24.0" && marker == " ; python_version >= '3.8'"
    requires line == pin + marker
    ensures RequirementDep(line) == Some(MakeDep("numpy", "1.24.0"))
  {
    assert line[0] == 'n' && line[|line| - 1] == '\'';
    TrimNoEdges(line);
    assert pin == "numpy" + ([] + ("==" + ([] + "1.24.0")));
    assert line == "numpy" + ([] + ("==" + ([] + ("1.24.0" + marker))));
    PinnedLineMatches("numpy", [], [], "1.24.0", marker);
  }

  /** Collecting four elements of which only the second and fourth yield. */
  lemma SecondAndFourthArePins<T, U>(a: T, b: T, c: T, d: T, f: T -> Option<U>, x: U, y: U)
    requires f(a) == None && f(b) == Some(x) && f(c) == None && f(d) == Some(y)
    ensures Collect([a, b, c, d], f) == [x, y]
  {
    assert [a, b][..1] == [a] && [a][..0] == [];
    assert Collect([a, b], f) == [x];
    assert [a, b, c][..2] == [a, b];
    assert [a, b, c, d][..3] == [a, b, c];
  }

  /** The test's `requirements.txt`: the comment is skipped, the `>=`
      requirement is not a pin, and the environment marker is cut off. */
  lemma RequirementsTestFile(comment: string, requests: string, flask: string, numpy: string)
    requires comment == "# comment" && requests == "requests==2.28.1" && flask == "flask>=2.0.0"
    requires numpy == "numpy==1.24.0" + " ; python_version >= '3.8'"
    ensures Collect([comment, requests, flask, numpy], RequirementDep) ==
            [MakeDep("requests", "2.28.1"), MakeDep("numpy", "1.24.0")]
  {
    CommentIsSkipped(comment);
    RequestsIsPinned(requests);
    LowerBoundIsNotAPin(flask);
    MarkerIsNotPartOfVersion(numpy, "numpy==1.24.0", " ; python_version >= '3.8'");
    SecondAndFourthArePins(comment, requests, flask, numpy, RequirementDep, MakeDep("requests", "2.28.1"), MakeDep("numpy", "1.24.0"));
  }
}
