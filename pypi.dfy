/** The PyPI client: the JSON API URL and the license read from the reply. */
module PypiRegistry {
  import opened Wrappers
  import opened Text
  import opened Json
  import opened Http

  const Api := "https://pypi.org/pypi/"

  /** The project document when the version is `*`, else the release's. */
  function ProjectUrl(name: string, version: string): (url: string)
    ensures version == "*" ==> url == Api + name + "/json"
    ensures version != "*" ==> url == Api + name + "/" + version + "/json"
  {
    if version == "*" then Api + name + "/json" else Api + name + "/" + version + "/json"
  }

  /** `info.license` when it is a non-empty string. */
  function ReplyLicense(data: Json): (r: Option<string>)
    ensures r.Some? <==> AsStr(GetOpt(Get(data, "info"), "license")).Some? && AsStr(GetOpt(Get(data, "info"), "license")).value != ""
    ensures r.Some? ==> r == AsStr(GetOpt(Get(data, "info"), "license"))
  {
    match AsStr(GetOpt(Get(data, "info"), "license"))
    case Some(license) => if license != "" then Some(license) else None
    case None => None
  }

  /** `fetch_license` with PyPI reached through `exchange`. */
  function FetchLicense(name: string, version: string, exchange: string -> Response<Json>): (r: FetchResult)
    ensures r == Outcome(exchange(ProjectUrl(name, version)), ReplyLicense)
    ensures r.Ok? && r.value.Some? ==> r.value.value != ""
  {
    Outcome(exchange(ProjectUrl(name, version)), ReplyLicense)
  }
}
