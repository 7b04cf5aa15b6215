/** The npm registry client: the percent-encoded package name, the URL for
    a pinned or unpinned version, and the license read from the reply. */
module NpmRegistry {
  import opened Wrappers
  import opened Text
  import opened Json
  import opened Http

  /** `name.replace('@', "%40").replace('/', "%2F")`, the two characters
      of a scoped name that are not allowed unencoded in a path segment
      (section 2.1 of RFC 3986). */
  function Encode(name: string): (r: string)
    ensures '@' !in r && '/' !in r
    ensures '@' !in name && '/' !in name ==> r == name
  {
    ReplaceChar(ReplaceChar(name, '@', "%40"), '/', "%2F")
  }

  /** One character's encoding. */
  function EncodeChar(c: char): string {
    if c == '@' then "%40" else if c == '/' then "%2F" else [c]
  }

  /** The encoding of a concatenation is the concatenation of the
      encodings. */
  lemma EncodeConcat(a: string, b: string)
    ensures Encode(a + b) == Encode(a) + Encode(b)
  {
    ReplaceCharConcat(a, b, '@', "%40");
    ReplaceCharConcat(ReplaceChar(a, '@', "%40"), ReplaceChar(b, '@', "%40"), '/', "%2F");
  }

  lemma EncodeSingle(c: char)
    ensures Encode([c]) == EncodeChar(c)
  {
    assert ReplaceChar([c], '@', "%40") == (if c == '@' then "%40" else [c]) + ReplaceChar([], '@', "%40");
    if c == '/' {
      assert ReplaceChar([c], '/', "%2F") == "%2F" + ReplaceChar([], '/', "%2F");
    } else {
      assert '/' !in "%40";
    }
  }

  /** The encoding works character by character: every character other than
      `@` and `/` is kept, in place. */
  lemma EncodeIsCharwise(name: string)
    ensures name == [] ==> Encode(name) == []
    ensures name != [] ==> Encode(name) == EncodeChar(name[0]) + Encode(name[1..])
  {
    if name != [] {
      assert name == [name[0]] + name[1..];
      EncodeConcat([name[0]], name[1..]);
      EncodeSingle(name[0]);
    }
  }

  /** A scope and a package name: `@scope/pkg` becomes `%40scope%2Fpkg`. */
  lemma EncodeScoped(scope: string, pkg: string)
    requires '@' !in scope && '/' !in scope && '@' !in pkg && '/' !in pkg
    ensures Encode("@" + scope + "/" + pkg) == "%40" + scope + "%2F" + pkg
  {
    EncodeConcat("@" + scope + "/", pkg);
    EncodeConcat("@" + scope, "/");
    EncodeConcat("@", scope);
    EncodeSingle('@');
    EncodeSingle('/');
    assert Encode(scope) == scope && Encode(pkg) == pkg;
  }

  predicate NotSlash(c: char) {
    c != '/'
  }

  const Registry := "https://registry.npmjs.org/"

  /** The document for the latest release when the version is `*`, else the
      one for that version. */
  function PackageUrl(name: string, version: string): (url: string)
    ensures StartsWith(url, Registry + Encode(name))
    ensures version == "*" ==> url == Registry + Encode(name)
    ensures version != "*" ==> url == Registry + Encode(name) + "/" + version
  {
    if version == "*" then Registry + Encode(name) else Registry + Encode(name) + "/" + version
  }

  /** The encoded name is one path segment: after the registry prefix, the
      first `/` (if any) is the one before the version. */
  lemma NameIsOneSegment(name: string, version: string)
    ensures Span(PackageUrl(name, version)[|Registry|..], NotSlash) == |Encode(name)|
  {
    var e := Encode(name);
    var url := PackageUrl(name, version);
    assert forall i :: 0 <= i < |e| ==> NotSlash(e[i]);
    var after := if version == "*" then [] else "/" + version;
    assert url == Registry + (e + after);
    assert url[|Registry|..] == e + after;
    SpanOfPrefix(e, after, NotSlash);
  }

  /** The license in the registry's reply: for `*` the `license` of the
      release `dist-tags.latest` names, none without such a tag; for a
      version the top-level `license`. A missing or non-string value is
      none. */
  function ReplyLicense(data: Json, version: string): (r: Option<string>)
    ensures version != "*" ==> r == AsStr(Get(data, "license"))
    ensures version == "*" && AsStr(GetOpt(Get(data, "dist-tags"), "latest")).None? ==> r == None
    ensures version == "*" && AsStr(GetOpt(Get(data, "dist-tags"), "latest")).Some? ==>
              r == AsStr(GetOpt(GetOpt(Get(data, "versions"), AsStr(GetOpt(Get(data, "dist-tags"), "latest")).value), "license"))
  {
    if version == "*" then
      match AsStr(GetOpt(Get(data, "dist-tags"), "latest"))
      case None => None
      case Some(latest) => AsStr(GetOpt(GetOpt(Get(data, "versions"), latest), "license"))
    else
      AsStr(Get(data, "license"))
  }

  /** `fetch_license` with the registry reached through `exchange`. */
  function FetchLicense(name: string, version: string, exchange: string -> Response<Json>): (r: FetchResult)
    ensures var resp := exchange(PackageUrl(name, version));
            resp.Failed? ==> r == Err(resp.reason)
    ensures var resp := exchange(PackageUrl(name, version));
            resp.Response? && !IsSuccess(resp.status) ==> r == Ok(None)
    ensures var resp := exchange(PackageUrl(name, version));
            resp.Response? && IsSuccess(resp.status) && resp.body.None? ==> r.Err?
    ensures var resp := exchange(PackageUrl(name, version));
            resp.Response? && IsSuccess(resp.status) && resp.body.Some? ==>
              r == Ok(ReplyLicense(resp.body.value, version))
  {
    Outcome(exchange(PackageUrl(name, version)), data => ReplyLicense(data, version))
  }
}
