/** The `Analysis` command (`AnalyzeCommand.call`): find the application, pick
    the version to analyse, choose the first and last job steps, run the job
    and turn its end into an exit code. */
module Analyze {
  import opened Lang
  import opened RestApi
  import opened Jobs
  import opened Applications
  import opened Commands

  /** The version named `versionName` ignoring case: `filter(...).findFirst()`. */
  function FindByName(versions: seq<VersionDto>, versionName: JStr): (r: Option<VersionDto>)
    ensures r.None? <==> forall v :: v in versions ==> !EqualsIgnoreCase(v.name, versionName)
    ensures r.Some? ==> r.value in versions && EqualsIgnoreCase(r.value.name, versionName)
  {
    if versions == [] then None
    else if EqualsIgnoreCase(versions[0].name, versionName) then Some(versions[0])
    else
      var r := FindByName(versions[1..], versionName);
      assert forall v :: v in versions ==> v == versions[0] || v in versions[1..];
      r
  }

  /** `filter(status >= DELIVERED).max(comparing(versionDate))`, folded left to
      right as `Stream.max` does: a later version replaces the current maximum
      only when its date is strictly later. */
  function LatestDelivered(versions: seq<VersionDto>): (r: Option<VersionDto>)
    ensures r.None? <==> forall v :: v in versions ==> !AtLeastDelivered(v.status)
    ensures r.Some? ==> r.value in versions && AtLeastDelivered(r.value.status)
    ensures r.Some? ==> forall v :: v in versions && AtLeastDelivered(v.status) ==> v.versionDate <= r.value.versionDate
    ensures r.Some? ==> exists i :: 0 <= i < |versions| && versions[i] == r.value
                          && forall j :: 0 <= j < i && AtLeastDelivered(versions[j].status) ==>
                               versions[j].versionDate < r.value.versionDate
  {
    if versions == [] then None
    else
      var init, last := versions[..|versions| - 1], versions[|versions| - 1];
      assert versions == init + [last];
      var best := LatestDelivered(init);
      if !AtLeastDelivered(last.status) then
        best
      else if best.Some? && best.value.versionDate >= last.versionDate then
        best
      else
        assert forall j :: 0 <= j < |init| ==> versions[j] == init[j];
        assert forall j :: 0 <= j < |init| && AtLeastDelivered(versions[j].status) ==>
                 versions[j].versionDate < last.versionDate by {
          forall j | 0 <= j < |init| && AtLeastDelivered(versions[j].status)
            ensures versions[j].versionDate < last.versionDate
          {
            assert init[j] in init;
          }
        }
        Some(last)
  }

  /** The version to analyse. With a name, the chosen version carries it
      ignoring case, and none is chosen only when no version does. Without a
      name, the chosen version is delivered and has the latest date, and none
      is chosen only when no version is delivered. */
  function SelectVersion(versions: seq<VersionDto>, versionName: JStr): (r: Option<VersionDto>)
    ensures r.Some? ==> r.value in versions
    ensures !IsBlank(versionName) ==>
              && (r.Some? ==> EqualsIgnoreCase(r.value.name, versionName))
              && (r.None? <==> forall v :: v in versions ==> !EqualsIgnoreCase(v.name, versionName))
    ensures IsBlank(versionName) ==>
              && (r.Some? ==> AtLeastDelivered(r.value.status)
                              && forall v :: v in versions && AtLeastDelivered(v.status) ==> v.versionDate <= r.value.versionDate)
              && (r.None? <==> forall v :: v in versions ==> !AtLeastDelivered(v.status))
  {
    if !IsBlank(versionName) then FindByName(versions, versionName) else LatestDelivered(versions)
  }

  /** Among delivered versions sharing the latest date, the first one wins. */
  lemma TiesKeepTheFirst(a: VersionDto, b: VersionDto)
    requires AtLeastDelivered(a.status) && AtLeastDelivered(b.status) && a.versionDate == b.versionDate
    ensures LatestDelivered([a, b]) == Some(a)
  {
    assert [a, b][..1] == [a];
    assert [a][..0] == [];
  }

  /** The first step: acceptance (deploy first) iff the version is DELIVERED. */
  function StartStep(v: VersionDto): (s: Step)
    ensures s == AcceptanceStep <==> v.status == Delivered
    ensures s == AcceptanceStep || s == AnalyzeStep
  {
    if v.status == Delivered then AcceptanceStep else AnalyzeStep
  }

  /** The last step: ANALYZE without a snapshot; with one, the consolidation
      step for an API whose major part is at most 1 and whose minor part is at
      most 15, each compared on its own, and the upload step otherwise. */
  function EndStep(withSnapshot: bool, api: ApiVersion): (s: Step)
    ensures !withSnapshot <==> s == AnalyzeStep
    ensures s == ConsolidateSnapshot <==> withSnapshot && api.major <= 1 && api.minor <= 15
    ensures s == UploadAppSnapshot <==> withSnapshot && !(api.major <= 1 && api.minor <= 15)
  {
    if !withSnapshot then AnalyzeStep
    else if api.major <= 1 && api.minor <= 15 then ConsolidateSnapshot
    else UploadAppSnapshot
  }

  /** The version comparison is per part, not the order of versions: every API
      that gets the consolidation step is at most 1.15, but 0.16, which is
      older than 1.15, gets the upload step. */
  lemma EndStepComparesEachPart(api: ApiVersion)
    ensures EndStep(true, api) == ConsolidateSnapshot ==> api.major < 1 || (api.major == 1 && api.minor <= 15)
    ensures EndStep(true, ApiVersion(0, 16)) == UploadAppSnapshot
  {
  }

  /** The job request for the chosen version. */
  function AnalysisRequest(appGuid: JStr, v: VersionDto, withSnapshot: bool, api: ApiVersion): (r: JobRequest)
    ensures r.jobType == Analyze && r.appGuid == appGuid && r.sourcePath == Null
    ensures r.startStep == Some(StartStep(v)) && r.endStep == Some(EndStep(withSnapshot, api))
    ensures r.versionName == v.name && r.versionGuid == v.guid && r.snapshotNamed == withSnapshot
  {
    NewJobRequest(appGuid, Null, Analyze).(
      startStep := Some(StartStep(v)),
      endStep := Some(EndStep(withSnapshot, api)),
      snapshotNamed := withSnapshot,
      versionName := v.name,
      versionGuid := v.guid)
  }

  datatype AnalyzeRun = AnalyzeRun(outcome: CommandOutcome, selected: Option<VersionDto>, request: Option<JobRequest>)

  /** The guid lookup of the run reached past login. */
  function GuidLookup(applicationName: JStr, ans: Answers): Result<JStr, ApplicationError> {
    ApplicationGuidFromName(ans.applications, applicationName)
  }

  /** The run finds a non-blank guid for the name: a name was given, login
      succeeded and the listing named the application. */
  predicate FindsGuid(applicationName: JStr, ans: Answers) {
    && !IsBlank(applicationName) && ans.login == LoginOk
    && GuidLookup(applicationName, ans).Ok? && !IsBlank(GuidLookup(applicationName, ans).value)
  }

  /** `call()`. */
  function Call(applicationName: JStr, versionName: JStr, withSnapshot: bool, ans: Answers): (r: AnalyzeRun)
    ensures IsBlank(applicationName) ==> r == AnalyzeRun(Exit(ApplicationInfoMissing), None, None)
    ensures !IsBlank(applicationName) && ans.login == ApiKeyMissing ==> r == AnalyzeRun(Exit(NoPassword), None, None)
    ensures !IsBlank(applicationName) && ans.login == LoginCallFailed ==> r == AnalyzeRun(Exit(LoginError), None, None)
    ensures !IsBlank(applicationName) && ans.login == LoginOk && GuidLookup(applicationName, ans).Err? ==>
              r.outcome == Exit(ApplicationInfoMissing)
    ensures r.outcome == Exit(ApplicationNotFound) <==>
              !IsBlank(applicationName) && ans.login == LoginOk
              && GuidLookup(applicationName, ans).Ok? && IsBlank(GuidLookup(applicationName, ans).value)
    ensures r.outcome == Exit(ApplicationNoVersion) ==> ans.versions == Ok(Some([]))
    ensures r.outcome == Exit(ApplicationVersionNotFound) <==>
              !IsBlank(applicationName) && ans.login == LoginOk
              && GuidLookup(applicationName, ans).Ok? && !IsBlank(GuidLookup(applicationName, ans).value)
              && ans.versions.Ok? && ans.versions.value.Some? && |ans.versions.value.value| > 0
              && SelectVersion(ans.versions.value.value, versionName).None?
    ensures r.selected.Some? <==> r.request.Some?
    ensures r.selected.Some? ==>
              ans.versions.Ok? && ans.versions.value.Some? && GuidLookup(applicationName, ans).Ok?
              && r.selected == SelectVersion(ans.versions.value.value, versionName)
              && r.request.value == AnalysisRequest(GuidLookup(applicationName, ans).value, r.selected.value, withSnapshot, ans.apiVersion)
              && r.outcome == JobExit(ans.jobStart, ans.jobPolls)
    // each exit code and the cause that produces it
    ensures r.outcome == Exit(NoPassword) <==> !IsBlank(applicationName) && ans.login == ApiKeyMissing
    ensures r.outcome == Exit(LoginError) <==> !IsBlank(applicationName) && ans.login == LoginCallFailed
    ensures r.outcome == Exit(ApplicationInfoMissing) <==>
              || IsBlank(applicationName)
              || (ans.login == LoginOk && GuidLookup(applicationName, ans).Err?)
              || (FindsGuid(applicationName, ans) && ans.versions.Err?)
    ensures r.outcome == Propagated(NullDereference) <==> FindsGuid(applicationName, ans) && ans.versions == Ok(None)
    ensures r.outcome == Exit(ApplicationNoVersion) <==> FindsGuid(applicationName, ans) && ans.versions == Ok(Some([]))
    ensures r.request.Some? <==>
              && FindsGuid(applicationName, ans) && ans.versions.Ok? && ans.versions.value.Some?
              && SelectVersion(ans.versions.value.value, versionName).Some?
  {
    if IsBlank(applicationName) then AnalyzeRun(Exit(ApplicationInfoMissing), None, None)
    else if ans.login == ApiKeyMissing then AnalyzeRun(Exit(NoPassword), None, None)
    else if ans.login == LoginCallFailed then AnalyzeRun(Exit(LoginError), None, None)
    else
      assert ans.login == LoginOk;
      match GuidLookup(applicationName, ans)
      case Err(_) => AnalyzeRun(Exit(ApplicationInfoMissing), None, None)
      case Ok(appGuid) =>
        if IsBlank(appGuid) then AnalyzeRun(Exit(ApplicationNotFound), None, None)
        else
          match ans.versions
          case Err(_) => AnalyzeRun(Exit(ApplicationInfoMissing), None, None)
          case Ok(None) => AnalyzeRun(Propagated(NullDereference), None, None)
          case Ok(Some(versions)) =>
            if |versions| == 0 then AnalyzeRun(Exit(ApplicationNoVersion), None, None)
            else
              match SelectVersion(versions, versionName)
              case None => AnalyzeRun(Exit(ApplicationVersionNotFound), None, None)
              case Some(v) =>
                AnalyzeRun(JobExit(ans.jobStart, ans.jobPolls), Some(v),
                           Some(AnalysisRequest(appGuid, v, withSnapshot, ans.apiVersion)))
  }

  /** A run that reaches the job analyses a version of the application found
      by name: named as asked, or the latest delivered one; it starts with
      acceptance exactly when that version is DELIVERED. */
  lemma AnalysedVersionRule(applicationName: JStr, versionName: JStr, withSnapshot: bool, ans: Answers)
    requires Call(applicationName, versionName, withSnapshot, ans).request.Some?
    ensures var r := Call(applicationName, versionName, withSnapshot, ans);
      var versions := ans.versions.value.value;
      var v := r.selected.value;
      && v in versions
      && (!IsBlank(versionName) ==> EqualsIgnoreCase(v.name, versionName))
      && (IsBlank(versionName) ==>
            AtLeastDelivered(v.status) && forall w :: w in versions && AtLeastDelivered(w.status) ==> w.versionDate <= v.versionDate)
      && (r.request.value.startStep == Some(AcceptanceStep) <==> v.status == Delivered)
      && r.request.value.jobType == Analyze
  {
  }
}
