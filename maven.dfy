/** The Maven Central client: the coordinate split, the POM URL, and the
    extraction of the first license name from the POM. */
module MavenRegistry {
  import opened Wrappers
  import opened Text
  import opened Xml
  import opened Http

  // ---------------------------------------------------------------------
  // Coordinates and URL

  predicate NotColon(c: char) {
    c != ':'
  }

  /** `name.splitn(2, ':')` when it yields two parts: the group before the
      first colon and the artifact after it, which may hold more colons. */
  function SplitCoordinate(name: string): (r: Option<(string, string)>)
    ensures r.None? <==> ':' !in name
    ensures r.Some? ==> name == r.value.0 + ":" + r.value.1 && ':' !in r.value.0
  {
    var n := Span(name, NotColon);
    if n == |name| then
      assert forall i :: 0 <= i < |name| ==> name[i] != ':';
      None
    else
      assert name == name[..n] + ":" + name[n + 1..];
      assert forall i :: 0 <= i < n ==> name[..n][i] != ':';
      Some((name[..n], name[n + 1..]))
  }

  /** Splitting the `group:artifact` name the Java analyzer writes gives
      the group and the artifact back. */
  lemma SplitJoinedCoordinate(group: string, artifact: string)
    requires ':' !in group
    ensures SplitCoordinate(group + ":" + artifact) == Some((group, artifact))
  {
    assert forall i :: 0 <= i < |group| ==> group[i] != ':';
    SpanOfPrefix(group, ":" + artifact, NotColon);
    var name := group + ":" + artifact;
    assert name == group + (":" + artifact);
    assert name[..|group|] == group && name[|group| + 1..] == artifact;
  }

  const MavenCentral := "https://repo1.maven.org/maven2/"

  /** The group as a path: its dots become slashes. */
  function GroupPath(group: string): (r: string)
    ensures '.' !in r
    ensures '.' !in group ==> r == group
  {
    ReplaceChar(group, '.', "/")
  }

  /** A dotted group is the path of its segments. */
  lemma GroupPathOfSegments(segments: seq<string>)
    requires forall k :: 0 <= k < |segments| ==> '.' !in segments[k]
    ensures GroupPath(Join(segments, ".")) == Join(segments, "/")
  {
    ReplaceCharJoin(segments, '.', "/");
  }

  /** The POM's location:
      `maven2/{group path}/{artifact}/{version}/{artifact}-{version}.pom`. */
  function PomUrl(group: string, artifact: string, version: string): (url: string)
    ensures StartsWith(url, MavenCentral)
    ensures url[|MavenCentral|..] ==
            GroupPath(group) + "/" + artifact + "/" + version + "/" + artifact + "-" + version + ".pom"
  {
    MavenCentral + (GroupPath(group) + "/" + artifact + "/" + version + "/" + artifact + "-" + version + ".pom")
  }

  // ---------------------------------------------------------------------
  // extract_license_from_pom

  /** The element names the extractor reacts to. */
  datatype Tag = LicensesTag | LicenseTag | NameTag | OtherTag

  function TagOf(name: string): (t: Tag)
    ensures t == LicensesTag <==> name == "licenses"
    ensures t == LicenseTag <==> name == "license"
    ensures t == NameTag <==> name == "name"
  {
    if name == "licenses" then LicensesTag
    else if name == "license" then LicenseTag
    else if name == "name" then NameTag
    else OtherTag
  }

  /** The extractor's variables. The u32 depth counter is unbounded here. */
  datatype LicenseState = LicenseState(
    inLicenses: bool,
    inLicense: bool,
    inName: bool,
    depth: nat,
    licensesDepth: nat)

  const LicenseStart := LicenseState(false, false, false, 0, 0)

  /** What one event does: go on with a new state, return a license, or
      leave the loop with none. */
  datatype Step = Next(state: LicenseState) | Found(license: string) | Stop

  function LicenseStep(s: LicenseState, e: Event): (r: Step)
    ensures r.Found? ==> s.inName && e == Text(Some(r.license))
    ensures r.Stop? ==> e.Eof? || e.Fail? || e.End?
  {
    match e
    case Start(name, _) =>
      var d := s.depth + 1;
      (match TagOf(name)
       case LicensesTag => Next(s.(inLicenses := true, licensesDepth := d, depth := d))
       case LicenseTag => Next(if s.inLicenses then s.(inLicense := true, depth := d) else s.(depth := d))
       case NameTag => Next(if s.inLicense then s.(inName := true, depth := d) else s.(depth := d))
       case OtherTag => Next(s.(depth := d)))
    case Text(content) =>
      if s.inName && content.Some? then Found(content.value) else Next(s)
    case End(name) =>
      var d := if s.depth == 0 then 0 else s.depth - 1;
      (match TagOf(name)
       case NameTag => Next(s.(inName := false, depth := d))
       case LicenseTag => Next(s.(inLicense := false, depth := d))
       case LicensesTag => if s.depth == s.licensesDepth then Stop else Next(s.(depth := d))
       case OtherTag => Next(s.(depth := d)))
    case Eof => Stop
    case Fail => Stop
    case Empty(_, _) => Next(s)
    case Other => Next(s)
  }

  /** The extractor's loop from state `s` over `events`. */
  function LicenseRun(s: LicenseState, events: seq<Event>): (r: Option<string>)
    ensures r.Some? ==> Text(r) in events
    decreases |events|
  {
    if events == [] then None
    else
      match LicenseStep(s, events[0])
      case Found(license) => Some(license)
      case Stop => None
      case Next(s') => LicenseRun(s', events[1..])
  }

  /** The loop from index `i` of `events` is its first step followed by
      the loop from `i + 1`. */
  lemma LicenseRunAt(s: LicenseState, events: seq<Event>, i: nat)
    requires i < |events|
    ensures LicenseRun(s, events[i..]) ==
            match LicenseStep(s, events[i])
            case Found(license) => Some(license)
            case Stop => None
            case Next(s') => LicenseRun(s', events[i + 1..])
  {
    assert events[i..][0] == events[i] && events[i..][1..] == events[i + 1..];
  }

  /** `extract_license_from_pom` over the reader's events. */
  method ExtractLicenseFromPom(events: seq<Event>) returns (license: Option<string>)
    ensures license == LicenseRun(LicenseStart, events)
  {
    var inLicenses := false;
    var inLicense := false;
    var inName := false;
    var depth: nat := 0;
    var licensesDepth: nat := 0;
    var i := 0;
    while i < |events|
      invariant 0 <= i <= |events|
      invariant LicenseRun(LicenseState(inLicenses, inLicense, inName, depth, licensesDepth), events[i..]) ==
                LicenseRun(LicenseStart, events)
    {
      ghost var before := LicenseState(inLicenses, inLicense, inName, depth, licensesDepth);
      LicenseRunAt(before, events, i);
      match events[i] {
        case Start(name, _) =>
          depth := depth + 1;
          if name == "licenses" {
            inLicenses := true;
            licensesDepth := depth;
          } else if name == "license" && inLicenses {
            inLicense := true;
          } else if name == "name" && inLicense {
            inName := true;
          }
        case Text(content) =>
          if inName && content.Some? {
            return content;
          }
        case End(name) =>
          if name == "name" {
            inName := false;
          } else if name == "license" {
            inLicense := false;
          } else if name == "licenses" && depth == licensesDepth {
            return None;
          }
          depth := if depth == 0 then 0 else depth - 1;
        case Eof =>
          return None;
        case Fail =>
          return None;
        case Empty(_, _) =>
        case Other =>
      }
      assert LicenseStep(before, events[i]) ==
             Next(LicenseState(inLicenses, inLicense, inName, depth, licensesDepth));
      i := i + 1;
    }
    license := None;
  }

  // ---------------------------------------------------------------------
  // Properties of the extractor

  /** Whatever the extractor returns is the content of a text event. */
  lemma {:induction false} FoundIsText(s: LicenseState, events: seq<Event>)
    requires LicenseRun(s, events).Some?
    ensures exists k :: 0 <= k < |events| && events[k] == Text(LicenseRun(s, events))
    decreases |events|
  {
    var step := LicenseStep(s, events[0]);
    if step.Next? {
      FoundIsText(step.state, events[1..]);
      var k :| 0 <= k < |events[1..]| && events[1..][k] == Text(LicenseRun(step.state, events[1..]));
      assert events[k + 1] == events[1..][k];
    } else {
      assert events[0] == Text(LicenseRun(s, events));
    }
  }

  /** Outside a `<licenses>` element nothing can open a license or a name
      inside one. */
  predicate Outside(s: LicenseState) {
    !s.inLicenses && !s.inLicense && !s.inName
  }

  /** A document without a `<licenses>` start tag yields no license: a
      `<name>` elsewhere, such as the project's own, is ignored. */
  lemma {:induction false} NoLicensesNoLicense(s: LicenseState, events: seq<Event>)
    requires Outside(s)
    requires forall k :: 0 <= k < |events| ==> !(events[k].Start? && events[k].name == "licenses")
    ensures LicenseRun(s, events) == None
    decreases |events|
  {
    if events != [] {
      var step := LicenseStep(s, events[0]);
      if step.Next? {
        assert Outside(step.state);
        NoLicensesNoLicense(step.state, events[1..]);
      }
    }
  }

  /** The `</licenses>` at the depth its element opened at ends the search
      with no license. */
  lemma LicensesEndStops(s: LicenseState, rest: seq<Event>)
    requires s.depth == s.licensesDepth
    ensures LicenseRun(s, [End("licenses")] + rest) == None
  {
  }

  /** A `</licenses>` at another depth only closes an element. */
  lemma NestedLicensesEndGoesOn(s: LicenseState, rest: seq<Event>)
    requires s.depth != s.licensesDepth
    ensures LicenseRun(s, [End("licenses")] + rest) ==
            LicenseRun(s.(depth := if s.depth == 0 then 0 else s.depth - 1), rest)
  {
    assert LicenseStep(s, End("licenses")) == Next(s.(depth := if s.depth == 0 then 0 else s.depth - 1));
    assert ([End("licenses")] + rest)[1..] == rest;
  }

  /** Text inside `<name>` inside `<license>` inside `<licenses>` is the
      license; the first such text wins. */
  lemma NameTextIsTheLicense(s: LicenseState, license: string, rest: seq<Event>)
    requires s.inName
    ensures LicenseRun(s, [Text(Some(license))] + rest) == Some(license)
  {
  }

  /** Text that cannot be unescaped is skipped. */
  lemma BadTextIsSkipped(s: LicenseState, rest: seq<Event>)
    ensures LicenseRun(s, [Text(None)] + rest) == LicenseRun(s, rest)
  {
    assert ([Text(None)] + rest)[1..] == rest;
  }

  // ---------------------------------------------------------------------
  // fetch_license

  /** `fetch_license`: a name without a colon is not looked up; otherwise
      the POM at the coordinate's URL is fetched through `exchange` and its
      first license name returned. */
  function FetchLicense(name: string, version: string, exchange: string -> Response<seq<Event>>): (r: FetchResult)
    ensures ':' !in name ==> r == Ok(None)
    ensures ':' in name ==>
              var coordinate := SplitCoordinate(name).value;
              r == Outcome(exchange(PomUrl(coordinate.0, coordinate.1, version)), events => LicenseRun(LicenseStart, events))
  {
    match SplitCoordinate(name)
    case None => Ok(None)
    case Some(coordinate) =>
      Outcome(exchange(PomUrl(coordinate.0, coordinate.1, version)), events => LicenseRun(LicenseStart, events))
  }
}
