/** The registry clients' reply handling on small replies. */
module RegistryExamples {
  import opened Wrappers
  import opened Json
  import opened Http
  import NpmRegistry
  import PypiRegistry

  /** An npm project document whose top-level `license` differs from the
      latest release's: `*` reads the release, a pinned version the top
      level. */
  lemma NpmLatestRelease(release: Json, doc: Json)
    requires release == JObj([("license", JStr("MIT"))])
    requires doc == JObj([("license", JStr("ISC")),
                          ("dist-tags", JObj([("latest", JStr("2.0.0"))])),
                          ("versions", JObj([("2.0.0", release)]))])
    ensures NpmRegistry.ReplyLicense(doc, "*") == Some("MIT")
    ensures NpmRegistry.ReplyLicense(doc, "2.0.0") == Some("ISC")
  {
    var fields := doc.fields;
    assert |fields[0].0| == 7 && |fields[1].0| == 9;
    assert fields[1..][0] == ("dist-tags", JObj([("latest", JStr("2.0.0"))]));
    assert fields[1..][1..][0] == ("versions", JObj([("2.0.0", release)]));
    assert Get(doc, "dist-tags") == Some(JObj([("latest", JStr("2.0.0"))]));
    assert Get(doc, "versions") == Some(JObj([("2.0.0", release)]));
  }

  /** Without `dist-tags.latest` an unpinned lookup finds nothing. */
  lemma NpmNoLatestTag(doc: Json)
    requires doc == JObj([("license", JStr("ISC"))])
    ensures NpmRegistry.ReplyLicense(doc, "*") == None
  {
  }

  /** `@scope/pkg` is sent as `%40scope%2Fpkg`. */
  lemma NpmScopedUrl(scope: string, pkg: string)
    requires scope == "types" && pkg == "node"
    ensures NpmRegistry.PackageUrl("@" + scope + "/" + pkg, "*") == NpmRegistry.Registry + ("%40" + scope + "%2F" + pkg)
  {
    assert forall i :: 0 <= i < |scope| ==> scope[i] != '@' && scope[i] != '/';
    assert forall i :: 0 <= i < |pkg| ==> pkg[i] != '@' && pkg[i] != '/';
    NpmRegistry.EncodeScoped(scope, pkg);
  }

  /** PyPI's empty license string counts as no license. */
  lemma PypiEmptyLicense(doc: Json)
    requires doc == JObj([("info", JObj([("license", JStr(""))]))])
    ensures PypiRegistry.ReplyLicense(doc) == None
  {
    assert Get(doc, "info") == Some(JObj([("license", JStr(""))]));
  }

  lemma PypiLicense(doc: Json)
    requires doc == JObj([("info", JObj([("name", JStr("requests")), ("license", JStr("Apache 2.0"))]))])
    ensures PypiRegistry.ReplyLicense(doc) == Some("Apache 2.0")
  {
    var info := JObj([("name", JStr("requests")), ("license", JStr("Apache 2.0"))]);
    assert Get(doc, "info") == Some(info);
    assert info.fields[1..][0] == ("license", JStr("Apache 2.0"));
  }

  /** A 404 from either registry means no license, not an error. */
  lemma NotFoundIsNoLicense(name: string, version: string, exchange: string -> Response<Json>, body: Option<Json>)
    requires forall url :: exchange(url) == Response(404, body)
    ensures NpmRegistry.FetchLicense(name, version, exchange) == Ok(None)
    ensures PypiRegistry.FetchLicense(name, version, exchange) == Ok(None)
  {
  }
}
