/** The Rust analyzer's unit test, as a lemma about the model. */
module RustExamples {
  import opened Wrappers
  import opened Seqs
  import opened RustAnalyzer

  /** The test's `Cargo.lock`: the workspace member `my-app` has no
      `source`, so only `serde` and `tokio` remain, in that order. */
  lemma CargoLockTest(registry: string, app: CargoPackage, serde: CargoPackage, tokio: CargoPackage)
    requires registry == "registry+https://github.com/rust-lang/crates.io-index"
    requires app == CargoPackage("my-app", "0.1.0", None)
    requires serde == CargoPackage("serde", "1.0.150", Some(registry))
    requires tokio == CargoPackage("tokio", "1.25.0", Some(registry))
    ensures var external := Externals([app, serde, tokio]);
            |external| == 2 && external[0].name == "serde" && external[1].name == "tokio"
  {
    assert [app, serde, tokio][..2] == [app, serde];
    assert [app, serde][..1] == [app];
    CollectSingle(app, External);
    assert Collect([app], External) == [];
    assert Collect([app, serde], External) == [serde];
    assert Externals([app, serde, tokio]) == [serde, tokio];
  }
}
