/**
 * The first-generation command helpers: the environment-name parser, the
 * guard on the two known services, the join of application versions with
 * the environments running them, and the checks made before a version may be
 * deleted. Elastic Beanstalk's answers are parameters: a `describe` function
 * from the application name asked for to what the provider reports.
 */
module LegacyCommands {
  import opened Wrappers
  import opened Model
  import Text
  import ConsoleView

  // ---------------------------------------------------------------------
  // parseApplicationEnvironmentName
  // ---------------------------------------------------------------------

  /** The service and environment named by an environment name; `None` is `undefined`. */
  datatype ServiceEnvironment = ServiceEnvironment(service: Option<string>, environment: Option<string>)

  /** `parts[i]` of an array, `undefined` past its end. */
  function Part(parts: seq<string>, i: nat): (r: Option<string>)
    ensures r.Some? <==> i < |parts|
    ensures r.Some? ==> r.value == parts[i]
  {
    if i < |parts| then Some(parts[i]) else None
  }

  /** `parseApplicationEnvironmentName(name)`: the second and third `-`-separated fields. */
  function ParseApplicationEnvironmentName(name: string): (r: ServiceEnvironment)
    ensures r.service.Some? <==> Text.Count(name, '-') >= 1
    ensures r.environment.Some? <==> Text.Count(name, '-') >= 2
    ensures r.service.Some? ==> Text.Excludes(r.service.value, '-')
    ensures r.environment.Some? ==> Text.Excludes(r.environment.value, '-')
  {
    var parts := Text.Split(name, '-');
    ServiceEnvironment(Part(parts, 1), Part(parts, 2))
  }

  /** The environment name of a service's environment: the application name, a dash, the environment. */
  function EnvironmentName(service: string, environment: string): string {
    ApplicationName(service) + "-" + environment
  }

  /**
   * The parser recovers the service and the environment from the name of an
   * environment of that service (for `nr8-images-blue`, `images` and `blue`),
   * as long as neither holds a dash.
   */
  lemma ParseEnvironmentName(service: string, environment: string)
    requires Text.Excludes(service, '-') && Text.Excludes(environment, '-')
    ensures ParseApplicationEnvironmentName(EnvironmentName(service, environment))
              == ServiceEnvironment(Some(service), Some(environment))
  {
    var name := EnvironmentName(service, environment);
    assert name == "nr8" + ['-'] + (service + ['-'] + environment);
    Text.SplitCons("nr8", service + ['-'] + environment, '-');
    Text.SplitTwo(service, environment, '-');
  }

  /** A name without a dash names neither a service nor an environment. */
  lemma ParseWithoutDash(name: string)
    requires Text.Excludes(name, '-')
    ensures ParseApplicationEnvironmentName(name) == ServiceEnvironment(None, None)
  {
    Text.CountExcluded(name, '-');
  }

  // ---------------------------------------------------------------------
  // getVersions / getDeployments
  // ---------------------------------------------------------------------

  const ValidServices: seq<string> := ["images", "www"]
  const InvalidService := "Not a valid services name."

  /** `VALID_SERVICES.indexOf(service) >= 0`. */
  predicate ValidService(service: string) {
    service in ValidServices
  }

  /** The Elastic Beanstalk application of a service. */
  function ApplicationName(service: string): (r: string)
    ensures |r| == |service| + 4 && r[..4] == "nr8-" && r[4..] == service
  {
    "nr8-" + service
  }

  /** How one of these helpers calls back: `(message, cause)` on failure, `(null, value)` on success. */
  datatype Answer<T> = Refused(message: string, cause: Err) | Answered(value: T)

  /** An application version as the provider describes it. */
  datatype AppVersion = AppVersion(versionLabel: string, versionName: Option<string>)

  /** An environment as the provider describes it, with the label of the version it runs. */
  datatype AppEnvironment = AppEnvironment(name: string, versionLabel: Option<string>)

  /** The guard and the provider call shared by `getVersions` and `getDeployments`. */
  function Guarded<T>(service: string, describe: string -> Fetched<T>, failure: string): (r: Answer<T>)
    ensures !ValidService(service) ==> r == Refused(InvalidService, ErrorObj("Invalid service name."))
    ensures ValidService(service) && describe(ApplicationName(service)).FetchError? ==>
              r == Refused(failure, describe(ApplicationName(service)).err)
    ensures ValidService(service) && describe(ApplicationName(service)).Fetched? ==>
              r == Answered(describe(ApplicationName(service)).value)
  {
    if !ValidService(service) then Refused(InvalidService, ErrorObj("Invalid service name."))
    else match describe(ApplicationName(service))
      case FetchError(e) => Refused(failure, e)
      case Fetched(v) => Answered(v)
  }

  /** `getVersions(service, callback)`: `describeApplicationVersions` of the service's application. */
  function GetVersions(service: string, describe: string -> Fetched<seq<AppVersion>>): (r: Answer<seq<AppVersion>>)
    ensures r.Answered? <==> ValidService(service) && describe(ApplicationName(service)).Fetched?
    ensures r.Answered? ==> r.value == describe(ApplicationName(service)).value
    ensures ValidService(service) && describe(ApplicationName(service)).FetchError? ==>
              r == Refused("Error retrieving application versions.", describe(ApplicationName(service)).err)
  {
    Guarded(service, describe, "Error retrieving application versions.")
  }

  /** `getDeployments(service, callback)`: `describeEnvironments` of the service's application. */
  function GetDeployments(service: string, describe: string -> Fetched<seq<AppEnvironment>>): (r: Answer<seq<AppEnvironment>>)
    ensures r.Answered? <==> ValidService(service) && describe(ApplicationName(service)).Fetched?
    ensures r.Answered? ==> r.value == describe(ApplicationName(service)).value
    ensures ValidService(service) && describe(ApplicationName(service)).FetchError? ==>
              r == Refused("Error retrieving application environments/deployments.", describe(ApplicationName(service)).err)
  {
    Guarded(service, describe, "Error retrieving application environments/deployments.")
  }

  /**
   * Only `images` and `www` reach the provider: any other service is refused
   * whatever the provider would have said, and a known one is asked about
   * its own application only.
   */
  lemma OnlyKnownServicesAsk<T>(service: string, d1: string -> Fetched<T>, d2: string -> Fetched<T>, failure: string)
    ensures ValidService(service) <==> service == "images" || service == "www"
    ensures !ValidService(service) ==> Guarded(service, d1, failure) == Guarded(service, d2, failure)
    ensures d1(ApplicationName(service)) == d2(ApplicationName(service)) ==>
              Guarded(service, d1, failure) == Guarded(service, d2, failure)
  {
  }

  // ---------------------------------------------------------------------
  // getVersionsAndStatus
  // ---------------------------------------------------------------------

  /** A version with the environments running it (`version.deployments`). */
  datatype Listed = Listed(version: AppVersion, deployments: seq<AppEnvironment>)

  /** `_.filter(deployments, d => d.VersionLabel === v.VersionLabel)`. */
  function RunningLabel(versionLabel: string, deployments: seq<AppEnvironment>): (r: seq<AppEnvironment>)
    ensures |r| <= |deployments|
    ensures forall d :: d in r <==> d in deployments && d.versionLabel == Some(versionLabel)
  {
    if deployments == [] then []
    else
      var rest := RunningLabel(versionLabel, deployments[1..]);
      assert forall d :: d in deployments <==> d == deployments[0] || d in deployments[1..];
      if deployments[0].versionLabel == Some(versionLabel) then [deployments[0]] + rest else rest
  }

  /** The list the join produces: the versions in order, each with the environments running it. */
  function Joined(versions: seq<AppVersion>, deployments: seq<AppEnvironment>): (r: seq<Listed>)
    ensures |r| == |versions|
  {
    seq(|versions|, i requires 0 <= i < |versions| => Listed(versions[i], RunningLabel(versions[i].versionLabel, deployments)))
  }

  /**
   * The join keeps the versions in order, and files every environment under
   * exactly the versions whose label it runs.
   */
  lemma JoinedFilesEnvironments(versions: seq<AppVersion>, deployments: seq<AppEnvironment>, i: nat, d: AppEnvironment)
    requires i < |versions|
    ensures Joined(versions, deployments)[i].version == versions[i]
    ensures d in Joined(versions, deployments)[i].deployments <==> d in deployments && d.versionLabel == Some(versions[i].versionLabel)
  {
  }

  /** An environment running no listed version is listed under none. */
  lemma UnlabelledEnvironmentsDropped(versions: seq<AppVersion>, deployments: seq<AppEnvironment>, d: AppEnvironment)
    requires forall i :: 0 <= i < |versions| ==> d.versionLabel != Some(versions[i].versionLabel)
    ensures forall l :: l in Joined(versions, deployments) ==> d !in l.deployments
  {
    forall l | l in Joined(versions, deployments)
      ensures d !in l.deployments
    {
      var i :| 0 <= i < |versions| && Joined(versions, deployments)[i] == l;
      JoinedFilesEnvironments(versions, deployments, i, d);
    }
  }

  /** The `forEach` that clones each version, attaches its environments and pushes it. */
  method JoinVersions(versions: seq<AppVersion>, deployments: seq<AppEnvironment>) returns (listed: seq<Listed>)
    ensures listed == Joined(versions, deployments)
  {
    listed := [];
    var i := 0;
    while i < |versions|
      invariant 0 <= i <= |versions|
      invariant |listed| == i
      invariant forall k :: 0 <= k < i ==> listed[k] == Listed(versions[k], RunningLabel(versions[k].versionLabel, deployments))
    {
      var running := RunningLabel(versions[i].versionLabel, deployments);
      if |running| > 0 {
        listed := listed + [Listed(versions[i], running)];
      } else {
        listed := listed + [Listed(versions[i], [])];
      }
      i := i + 1;
    }
  }

  const RetrievalFailed := "Could not retrieve version or deployment data"

  /**
   * `getVersionsAndStatus(service, callback)`: both lookups, taken in the
   * order versions then environments; the first refusal is reported with its
   * message as the cause, otherwise the join.
   */
  method GetVersionsAndStatus(service: string, describeVersions: string -> Fetched<seq<AppVersion>>,
                              describeEnvironments: string -> Fetched<seq<AppEnvironment>>)
    returns (r: Answer<seq<Listed>>)
    ensures GetVersions(service, describeVersions).Refused? ==>
              r == Refused(RetrievalFailed, ErrorText(GetVersions(service, describeVersions).message))
    ensures GetVersions(service, describeVersions).Answered? && GetDeployments(service, describeEnvironments).Refused? ==>
              r == Refused(RetrievalFailed, ErrorText(GetDeployments(service, describeEnvironments).message))
    ensures GetVersions(service, describeVersions).Answered? && GetDeployments(service, describeEnvironments).Answered? ==>
              r == Answered(Joined(GetVersions(service, describeVersions).value, GetDeployments(service, describeEnvironments).value))
  {
    var versions := GetVersions(service, describeVersions);
    if versions.Refused? {
      return Refused(RetrievalFailed, ErrorText(versions.message));
    }
    var deployments := GetDeployments(service, describeEnvironments);
    if deployments.Refused? {
      return Refused(RetrievalFailed, ErrorText(deployments.message));
    }
    var listed := JoinVersions(versions.value, deployments.value);
    return Answered(listed);
  }

  // ---------------------------------------------------------------------
  // deleteVersion
  // ---------------------------------------------------------------------

  /** How `deleteVersion` calls back: refused, allowed (`callback()`), or it throws first. */
  datatype Deletion = DeleteRefused(message: string, cause: Err) | MayDelete | DeleteThrew(reason: string)

  /** `_.find(versions, v => v.VersionName === versionName)`, as a position. */
  function FindVersion(versionName: Option<string>, listed: seq<Listed>): (r: Option<nat>)
    ensures r.Some? ==> r.value < |listed| && listed[r.value].version.versionName == versionName
    ensures forall j :: 0 <= j < |listed| && (r.None? || j < r.value) ==> listed[j].version.versionName != versionName
  {
    if listed == [] then None
    else if listed[0].version.versionName == versionName then Some(0)
    else match FindVersion(versionName, listed[1..])
      case None => None
      case Some(k) => Some(k + 1)
  }

  /** The environment names of a version's deployments with `nr8-<service>-` cut off, joined by commas. */
  function DeployedNames(service: string, deployments: seq<AppEnvironment>): string {
    Text.Join(seq(|deployments|, i requires 0 <= i < |deployments| => ConsoleView.ShortName(service, deployments[i].name)), ", ")
  }

  function Missing(versionName: Option<string>): string {
    "Version " + Show(versionName) + " does not exist."
  }

  function Deployed(versionName: Option<string>, names: string): string {
    "Version " + Show(versionName) + " cannot be deleted because it is deployed to some environments: " + names + "."
  }

  /**
   * `deleteVersion` as written: a deployed version's names are read from
   * `version`, a variable the module never declares, so that branch throws.
   */
  function DeleteVersionAsWritten(service: string, versionName: Option<string>, listed: Answer<seq<Listed>>): (r: Deletion)
    ensures listed.Answered? && FindVersion(versionName, listed.value).Some?
            && listed.value[FindVersion(versionName, listed.value).value].deployments != [] ==>
              r == DeleteThrew("ReferenceError: version is not defined")
  {
    match listed
    case Refused(m, c) => DeleteRefused(m, c)
    case Answered(vs) =>
      match FindVersion(versionName, vs)
      case None => DeleteRefused(Missing(versionName), ErrorObj("Version not exist."))
      case Some(i) =>
        if |vs[i].deployments| > 0 then DeleteThrew("ReferenceError: version is not defined")
        else MayDelete
  }

  /**
   * `deleteVersion(service, versionName, callback)` with the deployed
   * version's own environments listed. It never deletes anything itself: it
   * allows a deletion only of a listed version running nowhere.
   */
  function DeleteVersion(service: string, versionName: Option<string>, listed: Answer<seq<Listed>>): (r: Deletion)
    ensures listed.Refused? ==> r == DeleteRefused(listed.message, listed.cause)
    ensures listed.Answered? && FindVersion(versionName, listed.value).None? ==>
              r == DeleteRefused(Missing(versionName), ErrorObj("Version not exist."))
    ensures r.MayDelete? <==>
              listed.Answered? && FindVersion(versionName, listed.value).Some?
              && listed.value[FindVersion(versionName, listed.value).value].deployments == []
    ensures listed.Answered? && FindVersion(versionName, listed.value).Some? && !r.MayDelete? ==>
              var found := listed.value[FindVersion(versionName, listed.value).value];
              r == DeleteRefused(Deployed(versionName, DeployedNames(service, found.deployments)), ErrorObj("Bad Request"))
    ensures !r.DeleteThrew?
  {
    match listed
    case Refused(m, c) => DeleteRefused(m, c)
    case Answered(vs) =>
      match FindVersion(versionName, vs)
      case None => DeleteRefused(Missing(versionName), ErrorObj("Version not exist."))
      case Some(i) =>
        if |vs[i].deployments| > 0 then
          DeleteRefused(Deployed(versionName, DeployedNames(service, vs[i].deployments)), ErrorObj("Bad Request"))
        else MayDelete
  }

  /**
   * The two definitions agree except on a version that is deployed: there
   * the code as written throws, where the refusal naming its environments
   * was meant.
   */
  lemma DeleteDeployedThrows(service: string, versionName: Option<string>, listed: Answer<seq<Listed>>)
    ensures DeleteVersionAsWritten(service, versionName, listed).DeleteThrew? <==>
              (listed.Answered? && FindVersion(versionName, listed.value).Some?
               && listed.value[FindVersion(versionName, listed.value).value].deployments != [])
    ensures !DeleteVersionAsWritten(service, versionName, listed).DeleteThrew? ==>
              DeleteVersionAsWritten(service, versionName, listed) == DeleteVersion(service, versionName, listed)
  {
  }

  /** A version deployed to one environment of its service is refused with that environment's short name. */
  lemma DeployedRefusalNamesEnvironment(service: string, versionName: Option<string>, v: AppVersion, environment: string)
    requires v.versionName == versionName
    ensures var listed := Answered([Listed(v, [AppEnvironment(EnvironmentName(service, environment), Some(v.versionLabel))])]);
            DeleteVersion(service, versionName, listed) == DeleteRefused(Deployed(versionName, environment), ErrorObj("Bad Request"))
  {
    var deployments := [AppEnvironment(EnvironmentName(service, environment), Some(v.versionLabel))];
    ConsoleView.ShortNameOfEnvironment(service, environment);
    assert seq(1, i requires 0 <= i < 1 => ConsoleView.ShortName(service, deployments[i].name)) == [environment];
    assert DeployedNames(service, deployments) == environment;
  }
}
