/**
 * The Elastic Beanstalk strategies: the original combined strategy
 * (`elasticbeanstalk.js`), the environments-and-versioning strategy
 * (`eb-env-and-versioning.js`), and the base class with its two subclasses
 * (`elasticbeanstalk-base.js`, `elasticbeanstalk-versions.js`,
 * `elasticbeanstalk-environments.js`).
 *
 * Every call to Elastic Beanstalk is an input: the records it lists, or the
 * error it reports. What is modelled is what the strategies do around those
 * calls: the application names they send, the records they build, the join of
 * versions with the environments running them, and the guard in front of a
 * version's deletion.
 */
module Beanstalk {
  import opened Wrappers
  import opened Model
  import Text
  import Json

  // ---------------------------------------------------------------------
  // Provider records
  // ---------------------------------------------------------------------

  /** An application version as `describeApplicationVersions` lists it. */
  datatype AppVersion = AppVersion(
    versionLabel: string,
    description: Option<string>,
    status: string,
    applicationName: string)

  /** An environment as `describeEnvironments` lists it. */
  datatype EbEnvironment = EbEnvironment(
    name: string,
    applicationName: string,
    versionLabel: Option<string>,
    endpointUrl: Option<string>,
    status: Option<string>,
    cname: Option<string>)

  /** `describeApplicationVersions({ApplicationName})`. */
  datatype VersionsQuery = VersionsQuery(applicationName: string)

  /** `describeEnvironments(request)`; an absent `ApplicationName` lists every application. */
  datatype EnvironmentsQuery = EnvironmentsQuery(applicationName: Option<string>, includeDeleted: bool)

  /** `updateEnvironment({ApplicationName, EnvironmentName, VersionLabel})`. */
  datatype UpdateEnvironment = UpdateEnvironment(
    applicationName: string,
    environmentName: Option<string>,
    versionLabel: Option<string>)

  // The fixed messages the handlers call back with.
  const StatusUnreadable := "Could not retrieve deployment status to determine if a deletion is possible."
  const NoVersionsOrDeployments := "Could not retrieve version or deployment data"
  const EnvironmentsUnreadable := "Error retrieving application environments/deployments."
  const InvalidRequest := "Invalid Request"

  /** `deleteApplicationVersion({ApplicationName, VersionLabel, DeleteSourceBundle})`. */
  datatype DeleteApplicationVersion = DeleteApplicationVersion(
    applicationName: string,
    versionLabel: Option<string>,
    deleteSourceBundle: Option<Json.Value>)

  // ---------------------------------------------------------------------
  // Service and application names
  // ---------------------------------------------------------------------

  /**
   * `bluegreen.config.application.prefix || ''`, for a prefix that is a
   * string: `None` when reading it throws, because the configuration has no
   * `application` section or it is `null`.
   */
  function PrefixOf(config: Json.Value): (p: Option<string>)
    ensures p.None? <==> Json.Lookup(config, ["application"]).None? || Json.Lookup(config, ["application"]) == Some(Json.JNull)
    ensures p.Some? && p.value != "" ==> Json.Lookup(config, ["application", "prefix"]) == Some(Json.JStr(p.value))
    ensures p.Some? && Json.Lookup(config, ["application", "prefix"]).None? ==> p.value == ""
  {
    match Json.Read(Some(config), ["application", "prefix"])
    case ThrowsTypeError => None
    case Reads(Some(JStr(s))) => Some(s)
    case Reads(_) => Some("")
  }

  /** `getApplicationName`: the prefix, then the service (`undefined` when there is none). */
  function ApplicationName(prefix: string, service: Option<string>): (r: string)
    ensures Text.StartsWith(r, prefix)
  {
    prefix + Show(service)
  }

  /** `parseApplicationName`: the name with as many leading characters dropped as the prefix has. */
  function ParseApplicationName(prefix: string, applicationName: string): (r: string)
    ensures Text.StartsWith(applicationName, prefix) ==> applicationName == prefix + r
  {
    Text.Slice(applicationName, |prefix|)
  }

  /** `ParseInvertsGet` for every service at once. */
  lemma ParseInvertsGetAll(prefix: string)
    ensures forall service :: ParseApplicationName(prefix, ApplicationName(prefix, Some(service))) == service
  {
    forall service {
      ParseInvertsGet(prefix, service);
    }
  }

  /** Parsing the application name of a service gives the service back. */
  lemma ParseInvertsGet(prefix: string, service: string)
    ensures ParseApplicationName(prefix, ApplicationName(prefix, Some(service))) == service
  {
    var name := prefix + service;
    assert name[|prefix|..] == service;
  }

  /** A name that carries the prefix is the application name of the service parsed from it. */
  lemma GetInvertsParse(prefix: string, applicationName: string)
    requires Text.StartsWith(applicationName, prefix)
    ensures ApplicationName(prefix, Some(ParseApplicationName(prefix, applicationName))) == applicationName
  {
  }

  /** With no prefix configured the application name is the service name. */
  lemma EmptyPrefixKeepsName(applicationName: string)
    ensures ParseApplicationName("", applicationName) == applicationName
    ensures ApplicationName("", Some(applicationName)) == applicationName
  {
  }

  /**
   * `parseApplicationName` of `elasticbeanstalk.js`: the position of the
   * decimal text of `prefix.length + 1` in the name (`indexOf` converts its
   * number argument to a string), or -1.
   */
  function LegacyParseApplicationName(prefix: string, applicationName: string): (r: int)
    ensures var digits := Json.NatToString(|prefix| + 1);
            (r >= 0 ==> Text.OccursAt(applicationName, digits, r))
            && (r < 0 ==> forall j: nat :: !Text.OccursAt(applicationName, digits, j))
  {
    Text.IndexOfText(applicationName, Json.NatToString(|prefix| + 1))
  }

  /**
   * With the default prefix the legacy parse yields a number, not the
   * service: for `nr8-www` it is -1 where the service is `www`.
   */
  lemma LegacyParseLosesService()
    ensures LegacyParseApplicationName("nr8-", "nr8-www") == -1
    ensures ParseApplicationName("nr8-", "nr8-www") == "www"
  {
    var s := "nr8-www";
    assert Json.NatToString(|"nr8-"| + 1) == "5";
    forall j: nat
      ensures !Text.OccursAt(s, "5", j)
    {
      if j + 1 <= |s| {
        assert s[j..j + 1][0] == s[j];
      }
    }
    ParseInvertsGet("nr8-", "www");
  }

  // ---------------------------------------------------------------------
  // Transforms
  // ---------------------------------------------------------------------

  /** `transformVersion`: BlueGreen's version, with no deployments yet. */
  function TransformVersion(prefix: string, v: AppVersion): (r: Version)
    ensures r.deployments == []
    ensures r.name == v.versionLabel && r.description == v.description && r.status == v.status
    ensures forall service :: v.applicationName == ApplicationName(prefix, Some(service)) ==>
              IsService(r.service, Some(service))
  {
    ParseInvertsGetAll(prefix);
    Version(v.versionLabel, v.description, v.status, ServiceName(ParseApplicationName(prefix, v.applicationName)), [])
  }

  /** `transformEnvironment`: BlueGreen's deployment for an environment. */
  function TransformEnvironment(prefix: string, e: EbEnvironment): (r: Environment)
    ensures r.name == e.name && r.version == e.versionLabel && r.url == e.endpointUrl
    ensures r.status == e.status && r.cname == e.cname
    ensures r.alias.None? && r.aliasZone.None? && r.aliasName.None?
    ensures forall service :: e.applicationName == ApplicationName(prefix, Some(service)) ==>
              IsService(r.service, Some(service))
  {
    ParseInvertsGetAll(prefix);
    Environment(e.name, ServiceName(ParseApplicationName(prefix, e.applicationName)), e.versionLabel,
                e.endpointUrl, e.status, None, None, None, e.cname)
  }

  /**
   * `transformVersion` of `elasticbeanstalk.js`: the same record, except that
   * its service is the number the legacy parse yields.
   */
  function LegacyTransformVersion(prefix: string, v: AppVersion): (r: Version)
    ensures r.service == ServicePosition(LegacyParseApplicationName(prefix, v.applicationName))
    ensures r.(service := TransformVersion(prefix, v).service) == TransformVersion(prefix, v)
  {
    Version(v.versionLabel, v.description, v.status, ServicePosition(LegacyParseApplicationName(prefix, v.applicationName)), [])
  }

  /**
   * `transformEnvironment` of `elasticbeanstalk.js`: its service is the
   * number the legacy parse yields, and it reads the field `status` where the
   * provider's field is `Status`, so the status is always `undefined`.
   */
  function LegacyTransformEnvironment(prefix: string, e: EbEnvironment): (r: Environment)
    ensures r.status == None
    ensures r.service == ServicePosition(LegacyParseApplicationName(prefix, e.applicationName))
    ensures r.(service := TransformEnvironment(prefix, e).service, status := e.status) == TransformEnvironment(prefix, e)
  {
    Environment(e.name, ServicePosition(LegacyParseApplicationName(prefix, e.applicationName)), e.versionLabel,
                e.endpointUrl, None, None, None, None, e.cname)
  }

  /**
   * The records built from a service's own application keep its label,
   * status and service, and the environment's name, version and address.
   */
  lemma TransformsOfService(prefix: string, service: string, v: AppVersion, e: EbEnvironment)
    requires v.applicationName == ApplicationName(prefix, Some(service))
    requires e.applicationName == ApplicationName(prefix, Some(service))
    ensures var r := TransformVersion(prefix, v);
            r.name == v.versionLabel && r.status == v.status && IsService(r.service, Some(service)) && r.deployments == []
    ensures var d := TransformEnvironment(prefix, e);
            d.name == e.name && IsService(d.service, Some(service)) && d.version == e.versionLabel && d.url == e.endpointUrl
  {
    ParseInvertsGet(prefix, service);
  }

  /**
   * The legacy records of a service's own application never match that
   * service: with the default prefix, `nr8-www`'s records carry -1 where the
   * current ones carry `www`.
   */
  lemma LegacyTransformsLoseService(v: AppVersion, e: EbEnvironment)
    requires v.applicationName == "nr8-www" && e.applicationName == "nr8-www"
    ensures LegacyTransformVersion("nr8-", v).service == ServicePosition(-1)
    ensures LegacyTransformEnvironment("nr8-", e).service == ServicePosition(-1)
    ensures !IsService(LegacyTransformEnvironment("nr8-", e).service, Some("www"))
    ensures IsService(TransformEnvironment("nr8-", e).service, Some("www"))
  {
    LegacyParseLosesService();
  }

  /** `_.map(versions, transformVersion)`. */
  function TransformVersions(prefix: string, vs: seq<AppVersion>): (r: seq<Version>)
    ensures |r| == |vs|
    ensures forall i :: 0 <= i < |r| ==> r[i] == TransformVersion(prefix, vs[i])
  {
    seq(|vs|, i requires 0 <= i < |vs| => TransformVersion(prefix, vs[i]))
  }

  /** `_.map(versions, transformVersion)` in `elasticbeanstalk.js`. */
  function LegacyTransformVersions(prefix: string, vs: seq<AppVersion>): (r: seq<Version>)
    ensures |r| == |vs|
    ensures forall i :: 0 <= i < |r| ==> r[i] == LegacyTransformVersion(prefix, vs[i])
  {
    seq(|vs|, i requires 0 <= i < |vs| => LegacyTransformVersion(prefix, vs[i]))
  }

  /** `_.map(environments, transformEnvironment)`. */
  function TransformEnvironments(prefix: string, es: seq<EbEnvironment>): (r: seq<Environment>)
    ensures |r| == |es|
    ensures forall i :: 0 <= i < |r| ==> r[i] == TransformEnvironment(prefix, es[i])
  {
    seq(|es|, i requires 0 <= i < |es| => TransformEnvironment(prefix, es[i]))
  }

  /** `_.map(environments, transformEnvironment)` in `elasticbeanstalk.js`. */
  function LegacyTransformEnvironments(prefix: string, es: seq<EbEnvironment>): (r: seq<Environment>)
    ensures |r| == |es|
    ensures forall i :: 0 <= i < |r| ==> r[i] == LegacyTransformEnvironment(prefix, es[i])
  {
    seq(|es|, i requires 0 <= i < |es| => LegacyTransformEnvironment(prefix, es[i]))
  }

  // ---------------------------------------------------------------------
  // Provider requests
  // ---------------------------------------------------------------------

  /** `getVersions`' request: the service's application. */
  function VersionsRequest(prefix: string, ctx: Context): (q: VersionsQuery)
    ensures ctx.service.Some? ==> ParseApplicationName(prefix, q.applicationName) == ctx.service.value
  {
    ParseInvertsGet(prefix, Show(ctx.service));
    VersionsQuery(ApplicationName(prefix, ctx.service))
  }

  /**
   * `getEnvironments`' request: deleted environments are never included, and
   * the application is named exactly when the context has a service.
   */
  function EnvironmentsRequest(prefix: string, ctx: Context): (q: EnvironmentsQuery)
    ensures !q.includeDeleted
    ensures q.applicationName.Some? <==> Given(ctx.service)
    ensures q.applicationName.Some? ==> ParseApplicationName(prefix, q.applicationName.value) == ctx.service.value
  {
    if Given(ctx.service) then
      ParseInvertsGet(prefix, ctx.service.value);
      EnvironmentsQuery(Some(ApplicationName(prefix, ctx.service)), false)
    else EnvironmentsQuery(None, false)
  }

  /** `getDeployments`' request in `elasticbeanstalk.js`: always the service's application, never deleted ones. */
  function DeploymentsRequest(prefix: string, ctx: Context): (q: EnvironmentsQuery)
    ensures !q.includeDeleted && q.applicationName.Some?
    ensures ctx.service.Some? ==> ParseApplicationName(prefix, q.applicationName.value) == ctx.service.value
  {
    ParseInvertsGet(prefix, Show(ctx.service));
    EnvironmentsQuery(Some(ApplicationName(prefix, ctx.service)), false)
  }

  /** `deployVersion`'s request: the service's application, the environment and the version of the context. */
  function DeployRequest(prefix: string, ctx: Context): (q: UpdateEnvironment)
    ensures q.environmentName == ctx.environment && q.versionLabel == ctx.version
    ensures ctx.service.Some? ==> ParseApplicationName(prefix, q.applicationName) == ctx.service.value
  {
    ParseInvertsGet(prefix, Show(ctx.service));
    UpdateEnvironment(ApplicationName(prefix, ctx.service), ctx.environment, ctx.version)
  }

  /** `deployVersion`: the reply once `updateEnvironment` has answered with `err`. */
  function DeployVersion(ctx: Context, err: Option<Err>): (r: Reply)
    ensures ErrTruthy(err) <==> r.Replied? && ErrTruthy(r.err)
    ensures !ErrTruthy(err) ==> r == Replied(None, PNone)
    ensures ErrTruthy(err) ==> r.err == err && r.data.PText?
  {
    if ErrTruthy(err) then
      Replied(err, PText("An error occurred attempting to update environment " + Show(ctx.environment)
                         + " for service " + Show(ctx.service) + ".  Could not deploy version " + Show(ctx.version)))
    else Replied(None, PNone)
  }

  // ---------------------------------------------------------------------
  // Listing versions and environments
  // ---------------------------------------------------------------------

  /** `getVersions` as a task of `async.parallel`: the error, or the transformed versions. */
  function GetVersions(prefix: string, listed: Fetched<seq<AppVersion>>): (r: Fetched<seq<Version>>)
    ensures listed.FetchError? <==> r.FetchError?
    ensures r.Fetched? ==> r.value == TransformVersions(prefix, listed.value)
  {
    match listed
    case FetchError(e) => FetchError(e)
    case Fetched(vs) => Fetched(TransformVersions(prefix, vs))
  }

  /** `getVersions` of `elasticbeanstalk.js` as a task of `async.parallel`. */
  function LegacyGetVersions(prefix: string, listed: Fetched<seq<AppVersion>>): (r: Fetched<seq<Version>>)
    ensures listed.FetchError? <==> r.FetchError?
    ensures r.Fetched? ==> r.value == LegacyTransformVersions(prefix, listed.value)
  {
    match listed
    case FetchError(e) => FetchError(e)
    case Fetched(vs) => Fetched(LegacyTransformVersions(prefix, vs))
  }

  /** `getDeployments` of `elasticbeanstalk.js` as a task of `async.parallel`. */
  function GetDeployments(prefix: string, listed: Fetched<seq<EbEnvironment>>): (r: Fetched<seq<Environment>>)
    ensures listed.FetchError? <==> r.FetchError?
    ensures r.Fetched? ==> r.value == LegacyTransformEnvironments(prefix, listed.value)
  {
    match listed
    case FetchError(e) => FetchError(e)
    case Fetched(es) => Fetched(LegacyTransformEnvironments(prefix, es))
  }

  /** The environments `getEnvironments` hands on. */
  function Environments(prefix: string, listed: Fetched<seq<EbEnvironment>>): (r: Fetched<seq<Environment>>)
    ensures listed.FetchError? <==> r.FetchError?
    ensures r.Fetched? ==> r.value == TransformEnvironments(prefix, listed.value)
  {
    match listed
    case FetchError(e) => FetchError(e)
    case Fetched(es) => Fetched(TransformEnvironments(prefix, es))
  }

  /** `getEnvironments` as a request handler. */
  function GetEnvironments(prefix: string, listed: Fetched<seq<EbEnvironment>>): (r: Reply)
    ensures listed.FetchError? ==>
              r == Replied(Some(listed.err), PText(EnvironmentsUnreadable))
    ensures listed.Fetched? ==> r == Replied(None, PEnvironments(TransformEnvironments(prefix, listed.value)))
  {
    match Environments(prefix, listed)
    case FetchError(e) => Replied(Some(e), PText(EnvironmentsUnreadable))
    case Fetched(es) => Replied(None, PEnvironments(es))
  }

  // ---------------------------------------------------------------------
  // The join of versions with their deployments
  // ---------------------------------------------------------------------

  /** `_.filter(deployments, d => d.version === name)`. */
  function DeployedOn(deployments: seq<Environment>, name: string): (r: seq<Environment>)
    ensures |r| <= |deployments|
    ensures forall d :: d in r <==> d in deployments && d.version == Some(name)
  {
    if deployments == [] then []
    else
      var rest := DeployedOn(deployments[1..], name);
      assert forall d :: d in deployments <==> d == deployments[0] || d in deployments[1..];
      if deployments[0].version == Some(name) then [deployments[0]] + rest else rest
  }

  /**
   * The filter keeps the deployments' order: filtering two lists one after
   * the other is filtering each.
   */
  lemma {:induction false} DeployedOnAppend(xs: seq<Environment>, ys: seq<Environment>, name: string)
    ensures DeployedOn(xs + ys, name) == DeployedOn(xs, name) + DeployedOn(ys, name)
  {
    if xs == [] {
      assert xs + ys == ys;
    } else {
      assert (xs + ys)[1..] == xs[1..] + ys;
      DeployedOnAppend(xs[1..], ys, name);
    }
  }

  /** A single deployment is kept exactly when it runs the version. */
  lemma DeployedOnSingle(d: Environment, name: string)
    ensures DeployedOn([d], name) == if d.version == Some(name) then [d] else []
  {
    assert [d][1..] == [];
  }

  /** A copy of `v` whose deployments are the environments running it. */
  function Attach(v: Version, deployments: seq<Environment>): Version {
    v.(deployments := DeployedOn(deployments, v.name))
  }

  /** The versions of the join, one per version in order. */
  function Joined(versions: seq<Version>, deployments: seq<Environment>): (r: seq<Version>)
    ensures |r| == |versions|
    ensures forall i :: 0 <= i < |r| ==> r[i] == Attach(versions[i], deployments)
  {
    if versions == [] then []
    else Joined(versions[..|versions| - 1], deployments) + [Attach(versions[|versions| - 1], deployments)]
  }

  /**
   * The `forEach` of `getVersionsAndStatus`: each version is cloned, given the
   * deployments whose version is its name, and pushed.
   */
  method JoinDeployments(versions: seq<Version>, deployments: seq<Environment>) returns (joined: seq<Version>)
    ensures joined == Joined(versions, deployments)
  {
    joined := [];
    var i := 0;
    while i < |versions|
      invariant 0 <= i <= |versions|
      invariant joined == Joined(versions[..i], deployments)
    {
      assert versions[..i + 1][..i] == versions[..i];
      var deployed := DeployedOn(deployments, versions[i].name);
      var version := versions[i].(deployments := deployed);
      joined := joined + [version];
      i := i + 1;
    }
    assert versions[..i] == versions;
  }

  /**
   * The join keeps every version in place, and an environment is listed
   * under a version exactly when it runs that version.
   */
  lemma JoinedDeployments(versions: seq<Version>, deployments: seq<Environment>, i: nat, d: Environment)
    requires i < |versions|
    ensures var v := Joined(versions, deployments)[i];
            v.name == versions[i].name && v.status == versions[i].status && v.service == versions[i].service
    ensures d in Joined(versions, deployments)[i].deployments <==> d in deployments && d.version == Some(versions[i].name)
  {
  }

  /** The result of `getVersionsAndStatus` once both lists are in. */
  function VersionsAndStatus(service: Option<string>, versions: Fetched<seq<Version>>,
                             deployments: Fetched<seq<Environment>>): (r: Reply)
    ensures r.Replied?
    ensures versions.FetchError? ==> r.err == Some(versions.err)
    ensures versions.Fetched? && deployments.FetchError? ==> r.err == Some(deployments.err)
    ensures r.err.Some? <==> versions.FetchError? || deployments.FetchError?
    ensures r.err.Some? ==> r.data == PText(NoVersionsOrDeployments)
    ensures versions.Fetched? && deployments.Fetched? ==>
              r == Replied(None, PVersions(service, Joined(versions.value, deployments.value)))
  {
    match (versions, deployments)
    case (FetchError(e), _) => Replied(Some(e), PText(NoVersionsOrDeployments))
    case (_, FetchError(e)) => Replied(Some(e), PText(NoVersionsOrDeployments))
    case (Fetched(vs), Fetched(ds)) => Replied(None, PVersions(service, Joined(vs, ds)))
  }

  /**
   * `getVersionsAndStatus` of `elasticbeanstalk.js`: the same join over the
   * legacy records, so no listed version carries its service's name and every
   * deployment listed under a version has an undefined status.
   */
  function LegacyVersionsAndStatus(prefix: string, service: Option<string>, versions: Fetched<seq<AppVersion>>,
                                   environments: Fetched<seq<EbEnvironment>>): (r: Reply)
    ensures r.Replied? && (r.err.Some? <==> versions.FetchError? || environments.FetchError?)
    ensures versions.Fetched? && environments.Fetched? ==>
              r.data.PVersions? && r.data.forService == service && |r.data.versions| == |versions.value|
              && forall i :: 0 <= i < |r.data.versions| ==>
                   r.data.versions[i].name == versions.value[i].versionLabel
                   && r.data.versions[i].service.ServicePosition?
                   && forall d :: d in r.data.versions[i].deployments ==> d.status == None && d.version == Some(versions.value[i].versionLabel)
  {
    if versions.Fetched? && environments.Fetched? then
      LegacyJoinedRecords(prefix, service, versions.value, environments.value);
      VersionsAndStatus(service, LegacyGetVersions(prefix, versions), GetDeployments(prefix, environments))
    else VersionsAndStatus(service, LegacyGetVersions(prefix, versions), GetDeployments(prefix, environments))
  }

  /**
   * The join of legacy records: each version keeps its label and carries a
   * number for its service, and lists only environments running it, each
   * with an undefined status.
   */
  lemma LegacyJoinedRecords(prefix: string, service: Option<string>, versions: seq<AppVersion>, environments: seq<EbEnvironment>)
    ensures var vs := Joined(LegacyTransformVersions(prefix, versions), LegacyTransformEnvironments(prefix, environments));
            |vs| == |versions|
            && forall i :: 0 <= i < |vs| ==>
                 vs[i].name == versions[i].versionLabel && vs[i].service.ServicePosition?
                 && forall d :: d in vs[i].deployments ==> d.status == None && d.version == Some(versions[i].versionLabel)
  {
    var ts := LegacyTransformVersions(prefix, versions);
    var ds := LegacyTransformEnvironments(prefix, environments);
    forall i, d | 0 <= i < |versions| && d in Joined(ts, ds)[i].deployments
      ensures d.status == None
    {
      JoinedDeployments(ts, ds, i, d);
    }
  }

  /**
   * The deployments `elasticbeanstalk-versions.js` obtains through
   * `bluegreen.request(Environments.List)`: a throw or a silence of that
   * request, its error, or its environments (any other data filters to none).
   */
  function VersionsAndStatusViaRequest(service: Option<string>, versions: Fetched<seq<Version>>,
                                       environments: Reply): (r: Reply)
    ensures environments.Threw? ==> r == environments
    ensures !environments.Threw? && versions.FetchError? ==> r == VersionsAndStatus(service, versions, FetchError(versions.err))
    ensures environments.Replied? && versions.Fetched? && !ErrTruthy(environments.err) ==>
              r == Replied(None, PVersions(service, Joined(versions.value,
                     if environments.data.PEnvironments? then environments.data.environments else [])))
    // the request's own error is answered with that error and the message
    ensures environments.Replied? && ErrTruthy(environments.err) && versions.Fetched? ==>
              r == Replied(environments.err, PText(NoVersionsOrDeployments))
    // a request that never calls back leaves the join waiting
    ensures environments.Silent? && versions.Fetched? ==> r == Silent
  {
    match environments
    case Threw(_) => environments
    case Silent => if versions.FetchError? then VersionsAndStatus(service, versions, FetchError(versions.err)) else Silent
    case Replied(err, data) =>
      if ErrTruthy(err) then VersionsAndStatus(service, versions, FetchError(err.value))
      else VersionsAndStatus(service, versions, Fetched(if data.PEnvironments? then data.environments else []))
  }

  // ---------------------------------------------------------------------
  // Deleting a version
  // ---------------------------------------------------------------------

  /** `_.find(versions, v => label === v.name)`: the position of the first version with that name. */
  function FindVersion(versions: seq<Version>, wanted: Option<string>): (r: Option<nat>)
    ensures r.Some? ==> r.value < |versions| && Some(versions[r.value].name) == wanted
    ensures forall j :: 0 <= j < |versions| && (r.None? || j < r.value) ==> Some(versions[j].name) != wanted
  {
    if versions == [] then None
    else if Some(versions[0].name) == wanted then Some(0)
    else match FindVersion(versions[1..], wanted)
      case None => None
      case Some(k) => Some(k + 1)
  }

  /** The versions a status reply lists, when it is a success with a versions list. */
  function Listed(status: Reply): Option<seq<Version>> {
    if status.Replied? && !ErrTruthy(status.err) && status.data.PVersions? then Some(status.data.versions) else None
  }

  /** The first listed version that the context's label names, if any. */
  function Target(status: Reply, ctx: Context): (r: Option<Version>)
    ensures r.Some? ==> Listed(status).Some? && r.value in Listed(status).value && Some(r.value.name) == ctx.version
  {
    match Listed(status)
    case None => None
    case Some(vs) =>
      match FindVersion(vs, ctx.version)
      case None => None
      case Some(i) => Some(vs[i])
  }

  /** `_.map(deployments, d => d.name)`. */
  function Names(deployments: seq<Environment>): (r: seq<string>)
    ensures |r| == |deployments|
    ensures forall i :: 0 <= i < |r| ==> r[i] == deployments[i].name
  {
    seq(|deployments|, i requires 0 <= i < |deployments| => deployments[i].name)
  }

  const StillDeployedTail := ".  Deletion will not continue until those environments have been upgraded or downgraded to a different version."

  /** The error a deployed version's deletion is refused with. */
  function StillDeployedMessage(ctx: Context, deployments: seq<Environment>): (r: string)
    ensures Text.Contains(r, Show(ctx.service)) && Text.Contains(r, Show(ctx.version))
    ensures forall i :: 0 <= i < |deployments| ==> Text.Contains(r, deployments[i].name)
  {
    var service, version := Show(ctx.service), Show(ctx.version);
    var names := Text.Join(Names(deployments), ", ");
    var head := "Service '" + service + "' has version '" + version;
    var tail := "' deployed on environments: " + names + StillDeployedTail;
    assert Text.Contains(head, service) && Text.Contains(head, version) by {
      Text.ContainsItself(service);
      Text.ContainsWithin("Service '", service, service);
      Text.ContainsWithin("Service '" + service, "' has version '", service);
      Text.ContainsWithin("Service '" + service + "' has version '", version, service);
      Text.ContainsItself(version);
      Text.ContainsWithin("Service '" + service + "' has version '", version, version);
    }
    Text.ContainsWithin(head, tail, service);
    Text.ContainsWithin(head, tail, version);
    assert forall i :: 0 <= i < |deployments| ==> Text.Contains(tail, deployments[i].name) by {
      Text.JoinHasParts(Names(deployments), ", ");
      forall i | 0 <= i < |deployments|
        ensures Text.Contains(tail, deployments[i].name)
      {
        assert Text.Contains(names, Names(deployments)[i]);
        Text.ContainsWithin("' deployed on environments: ", names, deployments[i].name);
        Text.ContainsWithin("' deployed on environments: " + names, StillDeployedTail, deployments[i].name);
      }
    }
    assert forall i :: 0 <= i < |deployments| ==> Text.Contains(head + tail, deployments[i].name) by {
      forall i | 0 <= i < |deployments|
        ensures Text.Contains(head + tail, deployments[i].name)
      {
        Text.ContainsWithin(head, tail, deployments[i].name);
      }
    }
    head + tail
  }

  /** The message of a label no listed version carries. */
  function NoSuchVersionMessage(ctx: Context): (r: string)
    ensures Text.Contains(r, Show(ctx.service)) && Text.Contains(r, Show(ctx.version))
  {
    var service, version := Show(ctx.service), Show(ctx.version);
    var head := "No matching version [" + version + "] found for service ";
    assert Text.Contains(head, version) by {
      Text.ContainsItself(version);
      Text.ContainsWithin("No matching version [", version, version);
      Text.ContainsWithin("No matching version [" + version, "] found for service ", version);
    }
    Text.ContainsWithin(head, service, version);
    Text.ContainsWithin(head + service, ".", version);
    Text.ContainsItself(service);
    Text.ContainsWithin(head, service, service);
    Text.ContainsWithin(head + service, ".", service);
    head + service + "."
  }

  /** How `deleteVersion` calls back once the delete call has answered with `err`. */
  function AfterDelete(ctx: Context, err: Option<Err>): (r: Reply)
    ensures ErrTruthy(err) <==> r.Replied? && ErrTruthy(r.err)
    ensures !ErrTruthy(err) ==> r == Replied(None, PNone)
  {
    if ErrTruthy(err) then
      Replied(err, PText("An error occurred attempting to delete version " + Show(ctx.version)
                         + " for service " + Show(ctx.service)))
    else Replied(None, PNone)
  }

  /** What `deleteVersion` does: the delete it issues, if any, and how it calls back. */
  datatype Deletion = Deletion(issued: Option<DeleteApplicationVersion>, reply: Reply)

  /**
   * The guard of `deleteVersion` on the version the label names: an unknown
   * label and a deployed version are refused, and only a version deployed
   * nowhere is deleted.
   */
  function Guard(prefix: string, bundle: Option<Json.Value>, ctx: Context, target: Option<Version>,
                 deleted: Option<Err>): (r: Deletion)
    ensures r.issued.Some? <==> target.Some? && target.value.deployments == []
    ensures r.issued.Some? ==>
              r.issued.value == DeleteApplicationVersion(ApplicationName(prefix, ctx.service), ctx.version, bundle)
              && r.reply == AfterDelete(ctx, deleted)
    ensures target.None? ==> r == Deletion(None, Replied(Some(ErrorText(NoSuchVersionMessage(ctx))), PNone))
    ensures target.Some? && target.value.deployments != [] ==>
              r == Deletion(None, Replied(Some(ErrorObj(StillDeployedMessage(ctx, target.value.deployments))),
                                          PText(InvalidRequest)))
  {
    match target
    case None => Deletion(None, Replied(Some(ErrorText(NoSuchVersionMessage(ctx))), PNone))
    case Some(v) =>
      if v.deployments != [] then
        Deletion(None, Replied(Some(ErrorObj(StillDeployedMessage(ctx, v.deployments))), PText(InvalidRequest)))
      else
        Deletion(Some(DeleteApplicationVersion(ApplicationName(prefix, ctx.service), ctx.version, bundle)),
                 AfterDelete(ctx, deleted))
  }

  /**
   * `deleteVersion` once the source-bundle flag is read: `status` is how
   * `getVersionsAndStatus` answered and `deleted` how the delete call would.
   */
  function DeleteVersion(prefix: string, bundle: Option<Json.Value>, ctx: Context, status: Reply,
                         deleted: Option<Err>): (r: Deletion)
    // nothing is deleted unless the status lists the versions
    ensures Listed(status).None? ==> r.issued.None?
    // the status could not be read
    ensures status.Replied? && ErrTruthy(status.err) ==>
              r == Deletion(None, Replied(status.err,
                     PText(StatusUnreadable)))
    // a listed status goes through the guard
    ensures Listed(status).Some? ==> r == Guard(prefix, bundle, ctx, Target(status, ctx), deleted)
  {
    if status.Threw? || status.Silent? then Deletion(None, status)
    else if ErrTruthy(status.err) then
      Deletion(None, Replied(status.err, PText(StatusUnreadable)))
    else if status.data.PNone? then
      Deletion(None, Threw("TypeError: Cannot read property 'versions' of undefined"))
    else Guard(prefix, bundle, ctx, Target(status, ctx), deleted)
  }

  /**
   * The guard against deleting a deployed version: when the status comes from
   * the join, a delete is issued only if no listed environment runs the label,
   * and a label that is listed and running is refused.
   */
  lemma NeverDeletesDeployed(prefix: string, bundle: Option<Json.Value>, ctx: Context,
                             versions: seq<Version>, deployments: seq<Environment>, deleted: Option<Err>)
    ensures var r := DeleteVersion(prefix, bundle, ctx,
                                   VersionsAndStatus(ctx.service, Fetched(versions), Fetched(deployments)), deleted);
            r.issued.Some? ==> forall d :: d in deployments ==> d.version != ctx.version
    ensures var r := DeleteVersion(prefix, bundle, ctx,
                                   VersionsAndStatus(ctx.service, Fetched(versions), Fetched(deployments)), deleted);
            (exists i, d :: 0 <= i < |versions| && Some(versions[i].name) == ctx.version
                            && d in deployments && d.version == ctx.version)
            ==> r.issued.None? && r.reply.Replied? && r.reply.data == PText(InvalidRequest)
  {
    var joined := Joined(versions, deployments);
    var status := VersionsAndStatus(ctx.service, Fetched(versions), Fetched(deployments));
    assert Listed(status) == Some(joined);
    match FindVersion(joined, ctx.version)
    case None =>
      forall i | 0 <= i < |versions|
        ensures Some(versions[i].name) != ctx.version
      {
        assert joined[i].name == versions[i].name;
      }
    case Some(k) =>
      var running := joined[k].deployments;
      assert Target(status, ctx) == Some(joined[k]);
      assert running == DeployedOn(deployments, versions[k].name);
      forall d | d in deployments && d.version == ctx.version
        ensures running != []
      {
        assert d in running;
      }
  }

  // ---------------------------------------------------------------------
  // Reading the source-bundle flag
  // ---------------------------------------------------------------------

  /** The `TypeError` of reading `application.prefix` where `application` is `undefined` or `null`. */
  function PrefixUnreadable(config: Json.Value): string {
    "TypeError: Cannot read property 'prefix' of "
    + if Json.Lookup(config, ["application"]) == Some(Json.JNull) then "null" else "undefined"
  }

  const BundlePath: seq<string> := ["aws", "beanstalk", "versioning", "deleteSourceBundle"]
  const AsWrittenBundlePath: seq<string> := ["aws", "this", "beanstalk", "versioning", "deleteSourceBundle"]

  /** `bluegreen.config.aws.beanstalk.versioning.deleteSourceBundle`. */
  function DeleteSourceBundle(config: Json.Value): (r: Json.Access)
    ensures forall b :: Json.Lookup(config, BundlePath) == Some(b) ==> r == Json.Reads(Some(b))
  {
    forall b | Json.Lookup(config, BundlePath) == Some(b) {
      Json.ReadFollowsLookup(config, BundlePath, b);
    }
    Json.Read(Some(config), BundlePath)
  }

  /**
   * `deleteVersion` as a handler: the flag is read before anything else, so a
   * configuration without it throws before any request is made.
   */
  function DeleteVersionHandler(config: Json.Value, ctx: Context, status: Reply, deleted: Option<Err>): (r: Deletion)
    ensures PrefixOf(config).None? || DeleteSourceBundle(config).ThrowsTypeError? ==> r.issued.None? && r.reply.Threw?
    ensures PrefixOf(config).Some? && DeleteSourceBundle(config).Reads? ==>
              r == DeleteVersion(PrefixOf(config).value, DeleteSourceBundle(config).value, ctx, status, deleted)
  {
    match (PrefixOf(config), DeleteSourceBundle(config))
    case (None, _) => Deletion(None, Threw(PrefixUnreadable(config)))
    case (_, ThrowsTypeError) => Deletion(None, Threw("TypeError: Cannot read property of undefined"))
    case (Some(prefix), Reads(b)) => DeleteVersion(prefix, b, ctx, status, deleted)
  }

  /** `deleteVersion` of `elasticbeanstalk-versions.js`, which reads `config.aws.this.beanstalk...`. */
  function VersionsDeleteAsWritten(config: Json.Value, ctx: Context, status: Reply, deleted: Option<Err>): (r: Deletion)
    ensures PrefixOf(config).None? || Json.Read(Some(config), AsWrittenBundlePath).ThrowsTypeError?
            ==> r.issued.None? && r.reply.Threw?
  {
    match (PrefixOf(config), Json.Read(Some(config), AsWrittenBundlePath))
    case (None, _) => Deletion(None, Threw(PrefixUnreadable(config)))
    case (_, ThrowsTypeError) => Deletion(None, Threw("TypeError: Cannot read property 'beanstalk' of undefined"))
    case (Some(prefix), Reads(b)) => DeleteVersion(prefix, b, ctx, status, deleted)
  }

  /**
   * With an `aws` section that has the flag and no `this` key, the handler as
   * written always throws, while reading the intended path goes on to the
   * guard.
   */
  lemma VersionsDeleteThrows(config: Json.Value, ctx: Context, status: Reply, deleted: Option<Err>)
    requires config.JObj? && Json.HasKey(config.members, "aws")
    requires Json.Get(config.members, "aws").value.JObj?
    requires !Json.HasKey(Json.Get(config.members, "aws").value.members, "this")
    requires Json.Lookup(config, BundlePath).Some?
    ensures VersionsDeleteAsWritten(config, ctx, status, deleted).reply.Threw?
    ensures PrefixOf(config).Some? ==>
              DeleteVersionHandler(config, ctx, status, deleted)
              == DeleteVersion(PrefixOf(config).value, Json.Lookup(config, BundlePath), ctx, status, deleted)
  {
    var aws := Json.Get(config.members, "aws").value;
    Json.ReadPastMissing(aws.members, ["this", "beanstalk", "versioning", "deleteSourceBundle"]);
    Json.ReadFollowsLookup(config, BundlePath, Json.Lookup(config, BundlePath).value);
  }

  // ---------------------------------------------------------------------
  // Registrations
  // ---------------------------------------------------------------------

  // The strategy each handler belongs to, named after its module.
  const CombinedName := "elasticbeanstalk"
  const EnvAndVersioningName := "eb-env-and-versioning"
  const VersionsName := "elasticbeanstalk-versions"
  const EnvironmentsName := "elasticbeanstalk-environments"

  /** No request kind is bound twice by one module, and every binding names a handler of that module. */
  predicate WellBound(bindings: seq<Binding>, strategy: string) {
    (forall i, j :: 0 <= i < j < |bindings| ==> bindings[i].request != bindings[j].request)
    && (forall i :: 0 <= i < |bindings| ==> bindings[i].handler.strategy == strategy)
  }

  /** `register` of `elasticbeanstalk.js`: the two request kinds of the first release. */
  function CombinedRegistrations(): (r: seq<Binding>)
    ensures WellBound(r, CombinedName)
  {
    [ Binding(GetVersionsAndStatus, Handler(CombinedName, "getVersionsAndStatus")),
      Binding(Model.DeleteVersion, Handler(CombinedName, "deleteVersion")) ]
  }

  /** `register` of `eb-env-and-versioning.js`. */
  function EnvAndVersioningRegistrations(): (r: seq<Binding>)
    ensures WellBound(r, EnvAndVersioningName)
  {
    [ Binding(VersionsList, Handler(EnvAndVersioningName, "getVersionsAndStatus")),
      Binding(VersionsDelete, Handler(EnvAndVersioningName, "deleteVersion")),
      Binding(EnvironmentsList, Handler(EnvAndVersioningName, "getEnvironments")),
      Binding(VersionsDeploy, Handler(EnvAndVersioningName, "deployVersion")) ]
  }

  /** The subclasses of the base strategy; `Base` is the base class itself. */
  datatype Subclass = Base | VersionsStrategy | EnvironmentsStrategy

  /** `getRegistrations` of each class: the base class throws. */
  function GetRegistrations(c: Subclass): (r: Registration)
    ensures r.RegisterThrew? <==> c == Base
    ensures c == VersionsStrategy ==> r.Registered? && r.err == None && r.bindings.Some? && WellBound(r.bindings.value, VersionsName)
    ensures c == EnvironmentsStrategy ==> r.Registered? && r.err == None && r.bindings.Some? && WellBound(r.bindings.value, EnvironmentsName)
  {
    match c
    case Base => RegisterThrew("Error: Not implemented")
    case VersionsStrategy =>
      Registered(None, Some([
        Binding(VersionsList, Handler(VersionsName, "getVersionsAndStatus")),
        Binding(VersionsDelete, Handler(VersionsName, "deleteVersion")),
        Binding(VersionsDeploy, Handler(VersionsName, "deployVersion")) ]))
    case EnvironmentsStrategy =>
      Registered(None, Some([Binding(EnvironmentsList, Handler(EnvironmentsName, "getEnvironments"))]))
  }

  /** The request kinds a list of bindings serves. */
  function Served(bindings: seq<Binding>): (r: set<Request>)
    ensures forall q :: q in r <==> exists i :: 0 <= i < |bindings| && bindings[i].request == q
  {
    set i | 0 <= i < |bindings| :: bindings[i].request
  }

  /**
   * The versions subclass does not serve the environment listing that its
   * own `getVersionsAndStatus` requests; the environments subclass serves
   * exactly that, and together they serve what `eb-env-and-versioning.js`
   * serves alone.
   */
  lemma SubclassesSplitTheCombined()
    ensures EnvironmentsList !in Served(GetRegistrations(VersionsStrategy).bindings.value)
    ensures Served(GetRegistrations(EnvironmentsStrategy).bindings.value) == {EnvironmentsList}
    ensures Served(EnvAndVersioningRegistrations())
            == Served(GetRegistrations(VersionsStrategy).bindings.value)
               + Served(GetRegistrations(EnvironmentsStrategy).bindings.value)
  {
    var vs := GetRegistrations(VersionsStrategy).bindings.value;
    var es := GetRegistrations(EnvironmentsStrategy).bindings.value;
    var both := EnvAndVersioningRegistrations();
    assert vs[0].request == VersionsList && vs[1].request == VersionsDelete && vs[2].request == VersionsDeploy;
    assert both[0].request == VersionsList && both[1].request == VersionsDelete;
    assert both[2].request == EnvironmentsList && both[3].request == VersionsDeploy;
    assert es[0].request == EnvironmentsList;
  }

  /** An instance of a class built on the base strategy; `register` stores the provider client. */
  class BaseStrategy {
    const subclass: Subclass
    var hasClient: bool

    constructor (subclass: Subclass)
      ensures this.subclass == subclass && !hasClient
    {
      this.subclass := subclass;
      hasClient := false;
    }

    /** `register`: store the client, then hand on `getRegistrations`' result, once and unchanged. */
    method Register() returns (r: Registration)
      modifies this
      ensures hasClient
      ensures r == GetRegistrations(subclass)
      ensures r.RegisterThrew? <==> subclass == Base
    {
      hasClient := true;
      r := GetRegistrations(subclass);
    }
  }
}
