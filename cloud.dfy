/** The launcher's catalog client (src/cloud.rs): the build and manifest
    records the remote catalog serves, the rules by which they are read from
    JSON, the resolution of a mod source to a file path, and the four
    endpoint URLs. */
module Cloud {
  import opened Base
  import opened Json
  import OrderedMap
  import Decimal

  const LAUNCHER_API: string := "https://api.liquidbounce.net"

  // ---------------------------------------------------------------------
  // Endpoints
  // ---------------------------------------------------------------------

  const BRANCHES_PATH: string := "/api/v1/version/branches"
  const BUILDS_PATH: string := "/api/v1/version/builds"
  const LAUNCH_PATH: string := "/api/v1/version/launch/"

  /** `load_branches`: the list of branch names. */
  function BranchesUrl(): (url: string)
    ensures url == "https://api.liquidbounce.net/api/v1/version/branches"
  {
    LAUNCHER_API + BRANCHES_PATH
  }

  /** `load_all_builds`: every build on every branch. */
  function AllBuildsUrl(): (url: string)
    ensures url == "https://api.liquidbounce.net/api/v1/version/builds"
  {
    LAUNCHER_API + BUILDS_PATH
  }

  /** `load_builds`: the builds of one branch; the branch name is pasted in
      as it is, with no escaping. */
  function BuildsUrl(branch: string): (url: string)
    ensures url == AllBuildsUrl() + "/" + branch
  {
    LAUNCHER_API + BUILDS_PATH + "/" + branch
  }

  /** `load_version_manifest`: the launch manifest of one build, addressed by
      the decimal text of its id. The URL ends in the digits of the id, with
      no leading zero, and those digits read back as the id. */
  function ManifestUrl(buildId: u32): (url: string)
    ensures var prefix := LAUNCHER_API + LAUNCH_PATH;
      && |url| > |prefix|
      && url[..|prefix|] == prefix
      && var tail := url[|prefix|..];
      && (forall i :: 0 <= i < |tail| ==> Decimal.IsDigit(tail[i]))
      && (tail[0] == '0' ==> tail == "0")
      && Decimal.ValueOf(tail) == buildId
  {
    var digits := Decimal.ToDecimal(buildId);
    DecimalSuffix(LAUNCHER_API + LAUNCH_PATH, buildId);
    LAUNCHER_API + LAUNCH_PATH + digits
  }

  /** A prefix followed by the decimal text of `n` ends in that text. */
  lemma DecimalSuffix(prefix: string, n: nat)
    ensures var url := prefix + Decimal.ToDecimal(n);
      && url[..|prefix|] == prefix
      && url[|prefix|..] == Decimal.ToDecimal(n)
      && Decimal.ValueOf(url[|prefix|..]) == n
  {
    var digits := Decimal.ToDecimal(n);
    assert (prefix + digits)[|prefix|..] == digits;
    assert (prefix + digits)[..|prefix|] == prefix;
    Decimal.ValueOfToDecimal(n);
  }

  /** The branch can be read back out of its URL, which carries it verbatim. */
  lemma BuildsUrlCarriesBranch(branch: string)
    ensures |BuildsUrl(branch)| == |AllBuildsUrl()| + 1 + |branch|
    ensures BuildsUrl(branch)[|AllBuildsUrl()| + 1..] == branch
    ensures BuildsUrl(branch)[..|AllBuildsUrl()|] == AllBuildsUrl()
  {
    var prefix := AllBuildsUrl() + "/";
    assert BuildsUrl(branch) == prefix + branch;
    assert (prefix + branch)[|prefix|..] == branch;
    assert (prefix + branch)[..|AllBuildsUrl()|] == prefix[..|AllBuildsUrl()|];
  }

  /** Distinct branches give distinct formatted URLs. */
  lemma BuildsUrlInjective(a: string, b: string)
    requires BuildsUrl(a) == BuildsUrl(b)
    ensures a == b
  {
    BuildsUrlCarriesBranch(a);
    BuildsUrlCarriesBranch(b);
  }

  /** Distinct build ids give distinct formatted URLs. */
  lemma ManifestUrlInjective(a: u32, b: u32)
    requires ManifestUrl(a) == ManifestUrl(b)
    ensures a == b
  {
  }

  /** The four loads never ask for the same formatted URL: the branch list,
      the full build list, one branch's builds and one build's manifest are
      told apart by their paths. */
  lemma EndpointsDistinct(branch: string, buildId: u32)
    ensures BranchesUrl() != AllBuildsUrl()
    ensures BranchesUrl() != BuildsUrl(branch)
    ensures BranchesUrl() != ManifestUrl(buildId)
    ensures AllBuildsUrl() != BuildsUrl(branch)
    ensures AllBuildsUrl() != ManifestUrl(buildId)
    ensures BuildsUrl(branch) != ManifestUrl(buildId)
  {
    var base := |LAUNCHER_API| + 16;
    var builds := BuildsUrl(branch);
    var manifest := ManifestUrl(buildId);
    assert BranchesUrl()[base + 1] == 'r';
    assert AllBuildsUrl()[base + 1] == 'u';
    assert builds[base + 1] == 'u' by {
      BuildsUrlCarriesBranch(branch);
      assert builds[base + 1] == builds[..|AllBuildsUrl()|][base + 1];
    }
    assert manifest[base] == 'l' by {
      assert manifest[base] == manifest[..|LAUNCHER_API + LAUNCH_PATH|][base];
    }
    assert |builds| > |AllBuildsUrl()| by {
      BuildsUrlCarriesBranch(branch);
    }
  }

  // ---------------------------------------------------------------------
  // Records
  // ---------------------------------------------------------------------

  /** One build of the client. */
  datatype Build = Build(
    buildId: u32,
    commitId: string,
    branch: string,
    lbVersion: string,
    mcVersion: string,
    message: string,
    url: string,
    fabricApiVersion: string,
    fabricLoaderVersion: string,
    kotlinVersion: string,
    kotlinModVersion: string)

  /** The mod loader a build runs under: exactly two, no fallback. */
  datatype LoaderSubsystem = Fabric | Forge

  datatype LoaderVersion = LoaderVersion(subsystem: LoaderSubsystem, launcherManifest: string, modDirectory: string)

  /** Where a mod's jar comes from: a file named directly, or a Maven
      coordinate in a named repository. */
  datatype ModSource =
    | SkipAd(artifactName: string, url: string, extract: bool)
    | Repository(repository: string, artifact: string)

  datatype LoaderMod = LoaderMod(required: bool, default: bool, name: string, source: ModSource)

  /** Everything needed to launch one build; `repositories` maps repository
      names to base URLs. */
  datatype LaunchManifest = LaunchManifest(
    build: Build,
    loader: LoaderVersion,
    mods: seq<LoaderMod>,
    repositories: OrderedMap.Map<string>)

  // ---------------------------------------------------------------------
  // Path resolution
  // ---------------------------------------------------------------------

  /** `ModSource::get_path`. `mavenArtifactPath` stands for the crate's
      `get_maven_artifact_path`, whose definition is not part of this model:
      any function from a coordinate to a path or an error. */
  function GetPath(source: ModSource, mavenArtifactPath: string -> Result<string, string>): (r: Result<string, string>)
    ensures source.SkipAd? ==> r.Ok?
    ensures source.SkipAd? ==>
      && |r.value| == |source.artifactName| + 4
      && r.value[..|source.artifactName|] == source.artifactName
      && r.value[|source.artifactName|..] == ".jar"
    ensures source.Repository? ==> r == mavenArtifactPath(source.artifact)
  {
    match source
    case SkipAd(artifactName, _, _) => Ok(artifactName + ".jar")
    case Repository(_, artifact) => mavenArtifactPath(artifact)
  }

  /** A direct file's path depends on its artifact name alone: neither its
      download URL, nor `extract`, nor the coordinate resolver matters. */
  lemma SkipAdPathIgnoresUrlAndExtract(
    name: string, url1: string, url2: string, extract1: bool, extract2: bool,
    resolve1: string -> Result<string, string>, resolve2: string -> Result<string, string>)
    ensures GetPath(SkipAd(name, url1, extract1), resolve1) == GetPath(SkipAd(name, url2, extract2), resolve2)
  {
  }

  /** A repository artifact's path depends on its coordinate alone, not on the
      repository it is fetched from; it fails exactly when the resolver does. */
  lemma RepositoryPathIgnoresRepository(
    repo1: string, repo2: string, artifact: string, resolve: string -> Result<string, string>)
    ensures GetPath(Repository(repo1, artifact), resolve) == GetPath(Repository(repo2, artifact), resolve)
    ensures GetPath(Repository(repo1, artifact), resolve).Err? <==> resolve(artifact).Err?
  {
  }

  /** Distinct artifact names give distinct direct-file paths. */
  lemma SkipAdPathInjective(a: ModSource, b: ModSource, resolve: string -> Result<string, string>)
    requires a.SkipAd? && b.SkipAd?
    requires GetPath(a, resolve) == GetPath(b, resolve)
    ensures a.artifactName == b.artifactName
  {
    var pa := GetPath(a, resolve).value;
    assert a.artifactName == pa[..|pa| - 4];
    assert b.artifactName == pa[..|pa| - 4];
  }

  // ---------------------------------------------------------------------
  // Decoding (serde's derived `Deserialize`)
  // ---------------------------------------------------------------------

  function DecodeString(j: Value): (r: Option<string>)
    ensures r.Some? <==> j.Str?
    ensures r.Some? ==> r.value == j.s
  {
    match j
    case Str(s) => Some(s)
    case _ => None
  }

  /** The object holds each of the build's eleven fields once, under its Rust
      name. */
  predicate BuildFieldsAre(es: seq<(string, Value)>, b: Build) {
    && U32Field(es, "build_id") == Some(b.buildId)
    && StrField(es, "commit_id") == Some(b.commitId)
    && StrField(es, "branch") == Some(b.branch)
    && StrField(es, "lb_version") == Some(b.lbVersion)
    && StrField(es, "mc_version") == Some(b.mcVersion)
    && StrField(es, "message") == Some(b.message)
    && StrField(es, "url") == Some(b.url)
    && StrField(es, "fabric_api_version") == Some(b.fabricApiVersion)
    && StrField(es, "fabric_loader_version") == Some(b.fabricLoaderVersion)
    && StrField(es, "kotlin_version") == Some(b.kotlinVersion)
    && StrField(es, "kotlin_mod_version") == Some(b.kotlinModVersion)
  }

  /** `Build`: all eleven fields required, under their Rust names. */
  function DecodeBuild(j: Value): (r: Option<Build>)
    ensures r.Some? ==> j.Object? && BuildFieldsAre(j.entries, r.value)
  {
    match j
    case Object(es) =>
      var buildId :- U32Field(es, "build_id");
      var commitId :- StrField(es, "commit_id");
      var branch :- StrField(es, "branch");
      var lbVersion :- StrField(es, "lb_version");
      var mcVersion :- StrField(es, "mc_version");
      var message :- StrField(es, "message");
      var url :- StrField(es, "url");
      var fabricApiVersion :- StrField(es, "fabric_api_version");
      var fabricLoaderVersion :- StrField(es, "fabric_loader_version");
      var kotlinVersion :- StrField(es, "kotlin_version");
      var kotlinModVersion :- StrField(es, "kotlin_mod_version");
      Some(Build(buildId, commitId, branch, lbVersion, mcVersion, message, url,
                 fabricApiVersion, fabricLoaderVersion, kotlinVersion, kotlinModVersion))
    case _ => None
  }

  /** `LoaderSubsystem`: the unit variants are named "fabric" and "forge". */
  function DecodeLoaderSubsystem(j: Value): (r: Option<LoaderSubsystem>)
    ensures r == Some(Fabric) <==> j == Str("fabric")
    ensures r == Some(Forge) <==> j == Str("forge")
    ensures r.None? <==> j != Str("fabric") && j != Str("forge")
  {
    match j
    case Str(s) => if s == "fabric" then Some(Fabric) else if s == "forge" then Some(Forge) else None
    case _ => None
  }

  /** `LoaderVersion`: the subsystem by its variant name, and two strings. */
  function DecodeLoaderVersion(j: Value): (r: Option<LoaderVersion>)
    ensures r.Some? ==>
      && j.Object?
      && Lookup(j.entries, "subsystem") == Present(EncodeLoaderSubsystem(r.value.subsystem))
      && StrField(j.entries, "launcher_manifest") == Some(r.value.launcherManifest)
      && StrField(j.entries, "mod_directory") == Some(r.value.modDirectory)
  {
    match j
    case Object(es) =>
      var subsystem :- NestedField(es, "subsystem", DecodeLoaderSubsystem);
      var launcherManifest :- StrField(es, "launcher_manifest");
      var modDirectory :- StrField(es, "mod_directory");
      Some(LoaderVersion(subsystem, launcherManifest, modDirectory))
    case _ => None
  }

  /** `ModSource`: internally tagged by "type"; the variants' fields are
      renamed to camelCase, and a missing `extract` reads as false. */
  function DecodeModSource(j: Value): (r: Option<ModSource>)
    ensures r.Some? ==> j.Object?
    ensures r.Some? && r.value.SkipAd? ==>
      && Lookup(j.entries, "type") == Present(Str("skip"))
      && StrField(j.entries, "artifactName") == Some(r.value.artifactName)
      && StrField(j.entries, "url") == Some(r.value.url)
      && BoolFieldOrFalse(j.entries, "extract") == Some(r.value.extract)
    ensures r.Some? && r.value.Repository? ==>
      && Lookup(j.entries, "type") == Present(Str("repository"))
      && StrField(j.entries, "repository") == Some(r.value.repository)
      && StrField(j.entries, "artifact") == Some(r.value.artifact)
  {
    match j
    case Object(es) =>
      var tag :- NestedField(es, "type", DecodeString);
      if tag == "skip" then
        var artifactName :- StrField(es, "artifactName");
        var url :- StrField(es, "url");
        var extract :- BoolFieldOrFalse(es, "extract");
        Some(SkipAd(artifactName, url, extract))
      else if tag == "repository" then
        var repository :- StrField(es, "repository");
        var artifact :- StrField(es, "artifact");
        Some(Repository(repository, artifact))
      else None
    case _ => None
  }

  /** `LoaderMod`: `required` and `default` read as false when absent. */
  function DecodeLoaderMod(j: Value): (r: Option<LoaderMod>)
    ensures r.Some? ==>
      && j.Object?
      && BoolFieldOrFalse(j.entries, "required") == Some(r.value.required)
      && BoolFieldOrFalse(j.entries, "default") == Some(r.value.default)
      && StrField(j.entries, "name") == Some(r.value.name)
      && NestedField(j.entries, "source", DecodeModSource) == Some(r.value.source)
  {
    match j
    case Object(es) =>
      var required :- BoolFieldOrFalse(es, "required");
      var default :- BoolFieldOrFalse(es, "default");
      var name :- StrField(es, "name");
      var source :- NestedField(es, "source", DecodeModSource);
      Some(LoaderMod(required, default, name, source))
    case _ => None
  }

  /** `BTreeMap<String, String>`: a JSON object of strings, entries inserted
      in document order; the map has exactly the document's names, and a
      repeated name keeps the string of its last entry. */
  function DecodeStringMap(j: Value): (r: Option<OrderedMap.Map<string>>)
    ensures r.Some? ==> j.Object? && OrderedMap.Keys(r.value) == OrderedMap.Keys(j.entries)
    ensures r.Some? ==> forall k :: OrderedMap.Get(r.value, k).None? ==> OrderedMap.LastValue(j.entries, k).None?
    ensures r.Some? ==> forall k :: OrderedMap.Get(r.value, k).Some? ==>
      OrderedMap.LastValue(j.entries, k) == Some(Str(OrderedMap.Get(r.value, k).value))
  {
    match j
    case Object(es) =>
      var strings :- DecodeItems(seq(|es|, i requires 0 <= i < |es| => es[i].1), DecodeString);
      var pairs := seq(|es|, i requires 0 <= i < |es| => (es[i].0, strings[i]));
      assert OrderedMap.Keys(pairs) == OrderedMap.Keys(es) by {
        assert forall i :: 0 <= i < |es| ==> pairs[i].0 == es[i].0;
      }
      StringEntriesLastValue(es, pairs);
      Some(OrderedMap.FromEntries(pairs))
    case _ => None
  }

  /** `Vec<LoaderMod>`. */
  function DecodeLoaderMods(j: Value): Option<seq<LoaderMod>> {
    DecodeArray(j, DecodeLoaderMod)
  }

  /** Each name of a decoded string map holds the string of the last entry
      the document gave it. */
  lemma StringEntriesLastValue(es: seq<(string, Value)>, pairs: seq<(string, string)>)
    requires |pairs| == |es|
    requires forall i :: 0 <= i < |es| ==> pairs[i].0 == es[i].0 && es[i].1 == Str(pairs[i].1)
    ensures forall k :: OrderedMap.Get(OrderedMap.FromEntries(pairs), k).None? ==> OrderedMap.LastValue(es, k).None?
    ensures forall k :: OrderedMap.Get(OrderedMap.FromEntries(pairs), k).Some? ==>
      OrderedMap.LastValue(es, k) == Some(Str(OrderedMap.Get(OrderedMap.FromEntries(pairs), k).value))
  {
    forall k ensures OrderedMap.LastValue(es, k) ==
      (match OrderedMap.LastValue(pairs, k) case None => None case Some(v) => Some(Str(v)))
    {
      LastValueOfStrings(es, pairs, k);
    }
    forall k ensures OrderedMap.Get(OrderedMap.FromEntries(pairs), k) == OrderedMap.LastValue(pairs, k) {
      OrderedMap.GetFromEntries(pairs, k);
    }
  }

  lemma {:induction false} LastValueOfStrings(es: seq<(string, Value)>, pairs: seq<(string, string)>, k: string)
    requires |pairs| == |es|
    requires forall i :: 0 <= i < |es| ==> pairs[i].0 == es[i].0 && es[i].1 == Str(pairs[i].1)
    ensures OrderedMap.LastValue(es, k) ==
      (match OrderedMap.LastValue(pairs, k) case None => None case Some(v) => Some(Str(v)))
    decreases |es|
  {
    if es != [] {
      LastValueOfStrings(es[..|es| - 1], pairs[..|pairs| - 1], k);
    }
  }

  /** `LaunchManifest`: four required fields, each decoded by its own rule. */
  function DecodeLaunchManifest(j: Value): (r: Option<LaunchManifest>)
    ensures r.Some? ==>
      && j.Object?
      && NestedField(j.entries, "build", DecodeBuild) == Some(r.value.build)
      && NestedField(j.entries, "loader", DecodeLoaderVersion) == Some(r.value.loader)
      && NestedField(j.entries, "mods", DecodeLoaderMods) == Some(r.value.mods)
      && NestedField(j.entries, "repositories", DecodeStringMap) == Some(r.value.repositories)
  {
    match j
    case Object(es) =>
      var build :- NestedField(es, "build", DecodeBuild);
      var loader :- NestedField(es, "loader", DecodeLoaderVersion);
      var mods :- NestedField(es, "mods", DecodeLoaderMods);
      var repositories :- NestedField(es, "repositories", DecodeStringMap);
      Some(LaunchManifest(build, loader, mods, repositories))
    case _ => None
  }

  // ---------------------------------------------------------------------
  // Encoding: the JSON the catalog serves for each record
  // ---------------------------------------------------------------------

  function EncodeBuild(b: Build): Value {
    Object([
      ("build_id", Number(b.buildId)),
      ("commit_id", Str(b.commitId)),
      ("branch", Str(b.branch)),
      ("lb_version", Str(b.lbVersion)),
      ("mc_version", Str(b.mcVersion)),
      ("message", Str(b.message)),
      ("url", Str(b.url)),
      ("fabric_api_version", Str(b.fabricApiVersion)),
      ("fabric_loader_version", Str(b.fabricLoaderVersion)),
      ("kotlin_version", Str(b.kotlinVersion)),
      ("kotlin_mod_version", Str(b.kotlinModVersion))])
  }

  function EncodeLoaderSubsystem(s: LoaderSubsystem): Value {
    match s
    case Fabric => Str("fabric")
    case Forge => Str("forge")
  }

  function EncodeLoaderVersion(v: LoaderVersion): Value {
    Object([
      ("subsystem", EncodeLoaderSubsystem(v.subsystem)),
      ("launcher_manifest", Str(v.launcherManifest)),
      ("mod_directory", Str(v.modDirectory))])
  }

  function EncodeModSource(m: ModSource): Value {
    match m
    case SkipAd(artifactName, url, extract) =>
      Object([("type", Str("skip")), ("artifactName", Str(artifactName)), ("url", Str(url)), ("extract", Bool(extract))])
    case Repository(repository, artifact) =>
      Object([("type", Str("repository")), ("repository", Str(repository)), ("artifact", Str(artifact))])
  }

  function EncodeLoaderMod(m: LoaderMod): Value {
    Object([
      ("required", Bool(m.required)),
      ("default", Bool(m.default)),
      ("name", Str(m.name)),
      ("source", EncodeModSource(m.source))])
  }

  function EncodeStringMap(m: OrderedMap.Map<string>): Value {
    Object(seq(|m|, i requires 0 <= i < |m| => (m[i].0, Str(m[i].1))))
  }

  function EncodeBuilds(bs: seq<Build>): Value {
    Array(seq(|bs|, i requires 0 <= i < |bs| => EncodeBuild(bs[i])))
  }

  function EncodeLoaderMods(ms: seq<LoaderMod>): Value {
    Array(seq(|ms|, i requires 0 <= i < |ms| => EncodeLoaderMod(ms[i])))
  }

  function EncodeLaunchManifest(m: LaunchManifest): Value {
    Object([
      ("build", EncodeBuild(m.build)),
      ("loader", EncodeLoaderVersion(m.loader)),
      ("mods", EncodeLoaderMods(m.mods)),
      ("repositories", EncodeStringMap(m.repositories))])
  }

  // ---------------------------------------------------------------------
  // Round trips and decoding rules
  // ---------------------------------------------------------------------

  lemma BuildKeysDistinct(b: Build)
    ensures DistinctKeys(EncodeBuild(b).entries)
  {
  }

  /** `DecodeBuild` assembles a build from its eleven fields. */
  lemma DecodeBuildOfFields(es: seq<(string, Value)>, b: Build)
    requires BuildFieldsAre(es, b)
    ensures DecodeBuild(Object(es)) == Some(b)
  {
  }

  /** The encoded build's first five fields are found under their keys. */
  lemma BuildFieldsFront(b: Build)
    ensures var es := EncodeBuild(b).entries;
      && U32Field(es, "build_id") == Some(b.buildId)
      && StrField(es, "commit_id") == Some(b.commitId)
      && StrField(es, "branch") == Some(b.branch)
      && StrField(es, "lb_version") == Some(b.lbVersion)
      && StrField(es, "mc_version") == Some(b.mcVersion)
  {
    var es := EncodeBuild(b).entries;
    BuildKeysDistinct(b);
    LookupDistinct(es, 0);
    LookupDistinct(es, 1);
    LookupDistinct(es, 2);
    LookupDistinct(es, 3);
    LookupDistinct(es, 4);
  }

  /** The encoded build's last six fields are found under their keys. */
  lemma BuildFieldsBack(b: Build)
    ensures var es := EncodeBuild(b).entries;
      && StrField(es, "message") == Some(b.message)
      && StrField(es, "url") == Some(b.url)
      && StrField(es, "fabric_api_version") == Some(b.fabricApiVersion)
      && StrField(es, "fabric_loader_version") == Some(b.fabricLoaderVersion)
      && StrField(es, "kotlin_version") == Some(b.kotlinVersion)
      && StrField(es, "kotlin_mod_version") == Some(b.kotlinModVersion)
  {
    var es := EncodeBuild(b).entries;
    BuildKeysDistinct(b);
    LookupDistinct(es, 5);
    LookupDistinct(es, 6);
    LookupDistinct(es, 7);
    LookupDistinct(es, 8);
    LookupDistinct(es, 9);
    LookupDistinct(es, 10);
  }

  lemma {:induction false} BuildRoundTrip(b: Build)
    ensures DecodeBuild(EncodeBuild(b)) == Some(b)
  {
    BuildFieldsFront(b);
    BuildFieldsBack(b);
    DecodeBuildOfFields(EncodeBuild(b).entries, b);
  }

  lemma {:induction false} LoaderVersionRoundTrip(v: LoaderVersion)
    ensures DecodeLoaderVersion(EncodeLoaderVersion(v)) == Some(v)
  {
    var es := EncodeLoaderVersion(v).entries;
    assert DistinctKeys(es);
    LookupDistinct(es, 0);
    LookupDistinct(es, 1);
    LookupDistinct(es, 2);
  }

  lemma {:induction false} ModSourceRoundTrip(m: ModSource)
    ensures DecodeModSource(EncodeModSource(m)) == Some(m)
  {
    var es := EncodeModSource(m).entries;
    assert DistinctKeys(es);
    LookupDistinct(es, 0);
    LookupDistinct(es, 1);
    LookupDistinct(es, 2);
    if m.SkipAd? {
      LookupDistinct(es, 3);
    }
  }

  lemma {:induction false} LoaderModRoundTrip(m: LoaderMod)
    ensures DecodeLoaderMod(EncodeLoaderMod(m)) == Some(m)
  {
    var es := EncodeLoaderMod(m).entries;
    assert DistinctKeys(es);
    LookupDistinct(es, 0);
    LookupDistinct(es, 1);
    LookupDistinct(es, 2);
    LookupDistinct(es, 3);
    ModSourceRoundTrip(m.source);
  }

  lemma {:induction false} StringMapRoundTrip(m: OrderedMap.Map<string>)
    ensures DecodeStringMap(EncodeStringMap(m)) == Some(m)
  {
    var es := EncodeStringMap(m).entries;
    var values := seq(|es|, i requires 0 <= i < |es| => es[i].1);
    var strings := DecodeItems(values, DecodeString);
    assert strings.Some?;
    var pairs := seq(|es|, i requires 0 <= i < |es| => (es[i].0, strings.value[i]));
    assert pairs == m;
    OrderedMap.FromEntriesOfSorted(m);
  }

  lemma LoaderModsRoundTrip(ms: seq<LoaderMod>)
    ensures DecodeArray(EncodeLoaderMods(ms), DecodeLoaderMod) == Some(ms)
  {
    var items := EncodeLoaderMods(ms).items;
    forall i | 0 <= i < |items| ensures DecodeLoaderMod(items[i]) == Some(ms[i]) {
      LoaderModRoundTrip(ms[i]);
    }
    var r := DecodeArray(EncodeLoaderMods(ms), DecodeLoaderMod);
    assert r.Some?;
    assert |r.value| == |ms|;
    assert forall i :: 0 <= i < |ms| ==> r.value[i] == ms[i];
    assert r.value == ms;
  }

  /** `DecodeLaunchManifest` assembles a manifest from its four fields. */
  lemma DecodeLaunchManifestOfFields(es: seq<(string, Value)>, m: LaunchManifest)
    requires Lookup(es, "build") == Present(EncodeBuild(m.build))
    requires Lookup(es, "loader") == Present(EncodeLoaderVersion(m.loader))
    requires Lookup(es, "mods") == Present(EncodeLoaderMods(m.mods))
    requires Lookup(es, "repositories") == Present(EncodeStringMap(m.repositories))
    ensures DecodeLaunchManifest(Object(es)) == Some(m)
  {
    assert NestedField(es, "build", DecodeBuild) == Some(m.build) by {
      BuildRoundTrip(m.build);
    }
    assert NestedField(es, "loader", DecodeLoaderVersion) == Some(m.loader) by {
      LoaderVersionRoundTrip(m.loader);
    }
    assert NestedField(es, "mods", DecodeLoaderMods) == Some(m.mods) by {
      LoaderModsRoundTrip(m.mods);
    }
    assert NestedField(es, "repositories", DecodeStringMap) == Some(m.repositories) by {
      StringMapRoundTrip(m.repositories);
    }
  }

  lemma {:induction false} LaunchManifestRoundTrip(m: LaunchManifest)
    ensures DecodeLaunchManifest(EncodeLaunchManifest(m)) == Some(m)
  {
    var es := EncodeLaunchManifest(m).entries;
    assert DistinctKeys(es);
    LookupDistinct(es, 0);
    LookupDistinct(es, 1);
    LookupDistinct(es, 2);
    LookupDistinct(es, 3);
    DecodeLaunchManifestOfFields(es, m);
  }

  /** A mod source decodes only under the tags "skip" and "repository", each
      to its own variant; every other tag, or a missing or repeated one, is
      rejected. */
  lemma ModSourceTag(es: seq<(string, Value)>)
    ensures DecodeModSource(Object(es)).Some? ==>
      || (Lookup(es, "type") == Present(Str("skip")) && DecodeModSource(Object(es)).value.SkipAd?)
      || (Lookup(es, "type") == Present(Str("repository")) && DecodeModSource(Object(es)).value.Repository?)
  {
  }

  /** `#[serde(default)]` on `extract`: a source without an "extract" entry
      decodes exactly as if it said `"extract": false`, so a direct file
      decoded from it does not extract. */
  lemma SkipAdExtractDefaultsFalse(es: seq<(string, Value)>)
    requires Lookup(es, "extract") == Absent
    ensures DecodeModSource(Object(es)) == DecodeModSource(Object(es + [("extract", Bool(false))]))
    ensures DecodeModSource(Object(es)).Some? && DecodeModSource(Object(es)).value.SkipAd? ==>
      !DecodeModSource(Object(es)).value.extract
  {
    LookupAppendAbsent(es, "extract", Bool(false));
    LookupAppendOther(es, "extract", Bool(false), "type");
    LookupAppendOther(es, "extract", Bool(false), "artifactName");
    LookupAppendOther(es, "extract", Bool(false), "url");
    LookupAppendOther(es, "extract", Bool(false), "repository");
    LookupAppendOther(es, "extract", Bool(false), "artifact");
  }

  /** `#[serde(default)]` on `required` and `default`: a mod entry without
      one of these flags decodes exactly as if it said false, so a mod
      decoded from it has that flag off. */
  lemma LoaderModFlagsDefaultFalse(es: seq<(string, Value)>, flag: string)
    requires flag == "required" || flag == "default"
    requires Lookup(es, flag) == Absent
    ensures DecodeLoaderMod(Object(es)) == DecodeLoaderMod(Object(es + [(flag, Bool(false))]))
    ensures DecodeLoaderMod(Object(es)).Some? && flag == "required" ==> !DecodeLoaderMod(Object(es)).value.required
    ensures DecodeLoaderMod(Object(es)).Some? && flag == "default" ==> !DecodeLoaderMod(Object(es)).value.default
  {
    var other := if flag == "required" then "default" else "required";
    LookupAppendAbsent(es, flag, Bool(false));
    LookupAppendOther(es, flag, Bool(false), other);
    LookupAppendOther(es, flag, Bool(false), "name");
    LookupAppendOther(es, flag, Bool(false), "source");
  }

  /** Unknown keys are skipped: appending an entry under a key the mod
      source does not know leaves the result unchanged. */
  lemma ModSourceIgnoresUnknownKey(es: seq<(string, Value)>, k: string, v: Value)
    requires k !in {"type", "artifactName", "url", "extract", "repository", "artifact"}
    ensures DecodeModSource(Object(es + [(k, v)])) == DecodeModSource(Object(es))
  {
    LookupAppendOther(es, k, v, "type");
    LookupAppendOther(es, k, v, "artifactName");
    LookupAppendOther(es, k, v, "url");
    LookupAppendOther(es, k, v, "extract");
    LookupAppendOther(es, k, v, "repository");
    LookupAppendOther(es, k, v, "artifact");
  }

  /** The repositories of a decoded manifest are listed once each, in
      increasing order of name. */
  lemma RepositoriesOrderedAndUnique(j: Value)
    requires DecodeLaunchManifest(j).Some?
    ensures var repos := DecodeLaunchManifest(j).value.repositories;
      && (forall a, b :: 0 <= a < b < |repos| ==> repos[a].0 != repos[b].0)
      && (forall a, b :: 0 <= a < b < |repos| ==> OrderedMap.Less(repos[a].0, repos[b].0))
  {
    var repos := DecodeLaunchManifest(j).value.repositories;
    forall a, b | 0 <= a < b < |repos| ensures repos[a].0 != repos[b].0 {
      OrderedMap.LessIrreflexive(repos[a].0);
    }
  }

  // ---------------------------------------------------------------------
  // Fetching
  // ---------------------------------------------------------------------

  /** What one HTTP GET produced: a status and a body, which is `None` when
      the body is not JSON. */
  datatype Response = Response(status: nat, body: Option<Value>)

  /** Why a `load_*` call failed. */
  datatype LoadError = Transport(message: string) | Status(code: nat) | Undecodable

  /** `reqwest::get(url)`, `error_for_status()`, `json::<T>()`: `get` stands
      for the network. Only 4xx and 5xx statuses are errors. */
  function FetchJson<T>(get: string -> Result<Response, string>, url: string, decode: Value -> Option<T>): (r: Result<T, LoadError>)
    ensures r.Ok? <==> Served(get(url), decode)
    ensures r.Ok? ==> decode(get(url).value.body.value) == Some(r.value)
    ensures get(url).Err? ==> r == Err(Transport(get(url).error))
    ensures get(url).Ok? && 400 <= get(url).value.status < 600 ==> r == Err(Status(get(url).value.status))
  {
    match get(url)
    case Err(message) => Err(Transport(message))
    case Ok(response) =>
      if 400 <= response.status < 600 then Err(Status(response.status))
      else
        match response.body
        case None => Err(Undecodable)
        case Some(body) =>
          match decode(body)
          case None => Err(Undecodable)
          case Some(v) => Ok(v)
  }

  /** The GET went through, its status is not an error, and its body decodes. */
  predicate Served<T>(answer: Result<Response, string>, decode: Value -> Option<T>) {
    && answer.Ok?
    && !(400 <= answer.value.status < 600)
    && answer.value.body.Some?
    && decode(answer.value.body.value).Some?
  }

  function DecodeBranches(j: Value): Option<seq<string>> {
    DecodeArray(j, DecodeString)
  }

  function DecodeBuilds(j: Value): Option<seq<Build>> {
    DecodeArray(j, DecodeBuild)
  }

  /** `load_branches`: one GET of the branch list, read as strings. */
  function LoadBranches(get: string -> Result<Response, string>): (r: Result<seq<string>, LoadError>)
    ensures r.Ok? <==> Served(get(BranchesUrl()), DecodeBranches)
    ensures r.Ok? ==> DecodeBranches(get(BranchesUrl()).value.body.value) == Some(r.value)
  {
    FetchJson(get, BranchesUrl(), DecodeBranches)
  }

  /** `load_all_builds`: one GET of the full build list. */
  function LoadAllBuilds(get: string -> Result<Response, string>): (r: Result<seq<Build>, LoadError>)
    ensures r.Ok? <==> Served(get(AllBuildsUrl()), DecodeBuilds)
    ensures r.Ok? ==> DecodeBuilds(get(AllBuildsUrl()).value.body.value) == Some(r.value)
  {
    FetchJson(get, AllBuildsUrl(), DecodeBuilds)
  }

  /** `load_builds`: one GET of the branch's build list. */
  function LoadBuilds(get: string -> Result<Response, string>, branch: string): (r: Result<seq<Build>, LoadError>)
    ensures r.Ok? <==> Served(get(BuildsUrl(branch)), DecodeBuilds)
    ensures r.Ok? ==> DecodeBuilds(get(BuildsUrl(branch)).value.body.value) == Some(r.value)
  {
    FetchJson(get, BuildsUrl(branch), DecodeBuilds)
  }

  /** `load_version_manifest`: one GET of the build's launch manifest. */
  function LoadVersionManifest(get: string -> Result<Response, string>, buildId: u32): (r: Result<LaunchManifest, LoadError>)
    ensures r.Ok? <==> Served(get(ManifestUrl(buildId)), DecodeLaunchManifest)
    ensures r.Ok? ==> DecodeLaunchManifest(get(ManifestUrl(buildId)).value.body.value) == Some(r.value)
  {
    FetchJson(get, ManifestUrl(buildId), DecodeLaunchManifest)
  }

  /** Each load reads exactly one URL: two networks that answer that URL
      alike give the same result. */
  lemma LoadsReadOnlyTheirUrl(
    get1: string -> Result<Response, string>, get2: string -> Result<Response, string>,
    branch: string, buildId: u32)
    ensures get1(BranchesUrl()) == get2(BranchesUrl()) ==> LoadBranches(get1) == LoadBranches(get2)
    ensures get1(AllBuildsUrl()) == get2(AllBuildsUrl()) ==> LoadAllBuilds(get1) == LoadAllBuilds(get2)
    ensures get1(BuildsUrl(branch)) == get2(BuildsUrl(branch)) ==> LoadBuilds(get1, branch) == LoadBuilds(get2, branch)
    ensures get1(ManifestUrl(buildId)) == get2(ManifestUrl(buildId)) ==> LoadVersionManifest(get1, buildId) == LoadVersionManifest(get2, buildId)
  {
  }

  /** A catalog that serves the builds' own JSON with a success status yields
      exactly those builds. */
  lemma {:induction false} LoadAllBuildsOfServedList(get: string -> Result<Response, string>, builds: seq<Build>, status: nat)
    requires !(400 <= status < 600)
    requires get(AllBuildsUrl()) == Ok(Response(status, Some(EncodeBuilds(builds))))
    ensures LoadAllBuilds(get) == Ok(builds)
  {
    var items := EncodeBuilds(builds).items;
    forall i | 0 <= i < |items| ensures DecodeBuild(items[i]) == Some(builds[i]) {
      BuildRoundTrip(builds[i]);
    }
    var r := DecodeBuilds(Array(items));
    assert r.Some?;
    assert r.value == builds;
  }
}
