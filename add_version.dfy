/** The `AddVersion` command (`AddVersionCommand.call`): log in, resolve the
    application (creating it if asked), upload the sources, choose between
    cloning the previous version and adding a fresh one, run the job. `call()`
    overwrites three of the command's fields as it goes. */
module AddVersion {
  import opened Lang
  import opened RestApi
  import opened Jobs
  import opened Applications
  import opened Commands

  /** The fields `call()` overwrites. */
  datatype Fields = Fields(applicationName: JStr, applicationGuid: JStr, cloneVersion: bool)

  /** The options `call()` only reads. */
  datatype Options = Options(versionName: JStr, autoCreate: bool, enableSecurityDataflow: bool,
                             nodeName: JStr, backupEnabled: bool, backupName: JStr)

  datatype AddVersionRun = AddVersionRun(outcome: CommandOutcome, request: Option<JobRequest>, fields: Fields)

  /** The add-version or clone-version job request. */
  function VersionJobRequest(appGuid: JStr, sourcePath: string, cloneVersion: bool, opts: Options): (r: JobRequest)
    ensures r.jobType == (if cloneVersion then CloneVersion else AddVersion)
    ensures r.appGuid == appGuid && r.sourcePath == Str(sourcePath) && r.versionName == opts.versionName
    ensures r.startStep.None? && r.endStep.None? && r.deliveryConfigGuid == Null
    ensures r.securityObjective == Some(opts.enableSecurityDataflow)
    ensures r.backupApplication == Some(opts.backupEnabled) && r.backupName == opts.backupName
  {
    NewJobRequest(appGuid, Str(sourcePath), if cloneVersion then CloneVersion else AddVersion).(
      versionName := opts.versionName,
      securityObjective := Some(opts.enableSecurityDataflow),
      backupApplication := Some(opts.backupEnabled),
      backupName := opts.backupName)
  }

  /** From the upload on: `cloneVersion && applicationHasVersion(guid)`, then
      the job. */
  function Submit(f: Fields, opts: Options, ans: Answers): (r: AddVersionRun)
    ensures r.fields.applicationName == f.applicationName && r.fields.applicationGuid == f.applicationGuid
    ensures r.outcome == Exit(UploadError) <==> ans.upload.None?
    ensures r.outcome == Exit(ApplicationInfoMissing) <==> ans.upload.Some? && CloneCheckFails(f.cloneVersion, ans.versions)
    ensures r.request.Some? <==> ans.upload.Some? && !CloneCheckFails(f.cloneVersion, ans.versions)
    ensures r.request.Some? ==> r.outcome == JobExit(ans.jobStart, ans.jobPolls) && r.request.value.appGuid == f.applicationGuid
    ensures r.request.Some? ==>
              r.request.value == VersionJobRequest(f.applicationGuid, ans.upload.value, r.fields.cloneVersion, opts)
    ensures r.request.None? ==> r.fields == f
  {
    match ans.upload
    case None => AddVersionRun(Exit(UploadError), None, f)
    case Some(sourcePath) =>
      var clone := if f.cloneVersion then ApplicationHasVersion(ans.versions) else Ok(false);
      match clone
      case Err(_) => AddVersionRun(Exit(ApplicationInfoMissing), None, f)
      case Ok(c) =>
        AddVersionRun(JobExit(ans.jobStart, ans.jobPolls),
                      Some(VersionJobRequest(f.applicationGuid, sourcePath, c, opts)),
                      f.(cloneVersion := c))
  }

  /** The name lookup `call()` makes for an empty name and a known guid fails. */
  predicate NameLookupFails(f: Fields, ans: Answers) {
    IsEmpty(f.applicationName) && !IsEmpty(f.applicationGuid)
    && ApplicationNameFromGuid(ans.applications, f.applicationGuid).Err?
  }

  /** Once the guid is known: an empty name is looked up from the guid. */
  function AfterGuid(f: Fields, opts: Options, ans: Answers): (r: AddVersionRun)
    ensures r.fields.applicationGuid == f.applicationGuid
    ensures NameLookupFails(f, ans) ==> r == AddVersionRun(Exit(ApplicationInfoMissing), None, f)
    ensures r.outcome == Exit(UploadError) <==> !NameLookupFails(f, ans) && ans.upload.None?
    ensures r.outcome == Exit(ApplicationInfoMissing) <==>
              NameLookupFails(f, ans) || (ans.upload.Some? && CloneCheckFails(f.cloneVersion, ans.versions))
    ensures r.request.Some? <==>
              !NameLookupFails(f, ans) && ans.upload.Some? && !CloneCheckFails(f.cloneVersion, ans.versions)
    ensures r.request.Some? ==> r.outcome == JobExit(ans.jobStart, ans.jobPolls) && r.request.value.appGuid == f.applicationGuid
    ensures r.request.Some? ==>
              r.request.value == VersionJobRequest(f.applicationGuid, ans.upload.value, r.fields.cloneVersion, opts)
  {
    if IsEmpty(f.applicationName) && !IsEmpty(f.applicationGuid) then
      match ApplicationNameFromGuid(ans.applications, f.applicationGuid)
      case Err(_) => AddVersionRun(Exit(ApplicationInfoMissing), None, f)
      case Ok(name) => Submit(f.(applicationName := name), opts, ans)
    else
      Submit(f, opts, ans)
  }

  /** The guid `call()` goes on with after login: the given one, or what
      get-or-create resolved for the name. */
  function GuidStage(f: Fields, opts: Options, ans: Answers): Resolution {
    if !IsBlank(f.applicationGuid) then Resolved(f.applicationGuid)
    else GetOrCreateApplication(f.applicationName, opts.autoCreate, ans.applications, ans.creation, ans.creationPolls).outcome
  }

  /** Login succeeded and a name or a guid was given. */
  predicate PastChecks(f: Fields, ans: Answers) {
    ans.login == LoginOk && !(IsBlank(f.applicationName) && IsBlank(f.applicationGuid))
  }

  /** The run gets as far as the upload: a non-blank guid is known and the name
      lookup, when one is made, succeeds. */
  predicate ReachesUpload(f: Fields, opts: Options, ans: Answers) {
    && PastChecks(f, ans)
    && GuidStage(f, opts, ans).Resolved? && !IsBlank(GuidStage(f, opts, ans).guid)
    && !NameLookupFails(f.(applicationGuid := GuidStage(f, opts, ans).guid), ans)
  }

  /** `call()` as a function of the fields before the call, the options and the
      server's answers. */
  function Run(f: Fields, opts: Options, ans: Answers): (r: AddVersionRun)
    ensures ans.login == ApiKeyMissing ==> r == AddVersionRun(Exit(NoPassword), None, f)
    ensures ans.login == LoginCallFailed ==> r == AddVersionRun(Exit(LoginError), None, f)
    ensures ans.login == LoginOk && IsBlank(f.applicationName) && IsBlank(f.applicationGuid) ==>
              r == AddVersionRun(Exit(ApplicationInfoMissing), None, f)
    ensures r.request.Some? ==>
              && ans.login == LoginOk
              && r.outcome == JobExit(ans.jobStart, ans.jobPolls)
              && ans.upload.Some? && r.request.value.sourcePath == Str(ans.upload.value)
              && r.request.value.appGuid == r.fields.applicationGuid && !IsBlank(r.fields.applicationGuid)
              && r.request.value == VersionJobRequest(r.fields.applicationGuid, ans.upload.value, r.fields.cloneVersion, opts)
    ensures r.outcome == Exit(ApplicationNotFound) ==>
              ans.login == LoginOk && IsBlank(f.applicationGuid) && IsBlank(r.fields.applicationGuid)
    ensures r.outcome == Exit(UploadError) ==> ans.upload.None? && r.request.None?
    ensures !IsBlank(f.applicationGuid) ==> r.fields.applicationGuid == f.applicationGuid
    // each exit code and the cause that produces it
    ensures r.outcome == Exit(NoPassword) <==> ans.login == ApiKeyMissing
    ensures r.outcome == Exit(LoginError) <==> ans.login == LoginCallFailed
    ensures r.outcome == Exit(ApplicationNotFound) <==>
              PastChecks(f, ans) && GuidStage(f, opts, ans).Resolved? && IsBlank(GuidStage(f, opts, ans).guid)
    ensures r.outcome == Exit(ApplicationInfoMissing) <==>
              ans.login == LoginOk &&
              ( (IsBlank(f.applicationName) && IsBlank(f.applicationGuid))
              || (PastChecks(f, ans) && GuidStage(f, opts, ans).Unresolved?)
              || (PastChecks(f, ans) && GuidStage(f, opts, ans).Resolved? && !IsBlank(GuidStage(f, opts, ans).guid)
                  && NameLookupFails(f.(applicationGuid := GuidStage(f, opts, ans).guid), ans))
              || (ReachesUpload(f, opts, ans) && ans.upload.Some? && CloneCheckFails(f.cloneVersion, ans.versions)))
    ensures r.outcome == Exit(UploadError) <==> ReachesUpload(f, opts, ans) && ans.upload.None?
    ensures PastChecks(f, ans) && GuidStage(f, opts, ans).StillPolling? ==> r.outcome == Waiting && r.request.None?
    ensures r.request.Some? <==>
              ReachesUpload(f, opts, ans) && ans.upload.Some? && !CloneCheckFails(f.cloneVersion, ans.versions)
  {
    match ans.login
    case ApiKeyMissing => AddVersionRun(Exit(NoPassword), None, f)
    case LoginCallFailed => AddVersionRun(Exit(LoginError), None, f)
    case LoginOk =>
      if IsBlank(f.applicationName) && IsBlank(f.applicationGuid) then
        AddVersionRun(Exit(ApplicationInfoMissing), None, f)
      else if IsBlank(f.applicationGuid) then
        var created := GetOrCreateApplication(f.applicationName, opts.autoCreate, ans.applications, ans.creation, ans.creationPolls);
        match created.outcome
        case Unresolved(_) => AddVersionRun(Exit(ApplicationInfoMissing), None, f)
        case StillPolling => AddVersionRun(Waiting, None, f)
        case Resolved(guid) =>
          var f' := f.(applicationGuid := guid);
          if IsBlank(guid) then AddVersionRun(Exit(ApplicationNotFound), None, f')
          else AfterGuid(f', opts, ans)
      else
        AfterGuid(f, opts, ans)
  }

  /** The job type: CLONE_VERSION iff the clone flag was set and the
      application has a version, ADD_VERSION otherwise; the field is left
      holding that decision. */
  lemma JobTypeRule(f: Fields, opts: Options, ans: Answers)
    ensures var r := Run(f, opts, ans);
      r.request.Some? ==>
        && (r.request.value.jobType == CloneVersion <==> f.cloneVersion && ApplicationHasVersion(ans.versions) == Ok(true))
        && (r.request.value.jobType == CloneVersion || r.request.value.jobType == AddVersion)
        && r.fields.cloneVersion == (r.request.value.jobType == CloneVersion)
  {
  }

  /** A given guid is used as is: the application is neither searched for nor
      created, so the creation answers play no part, and the guid is kept. */
  lemma GivenGuidSkipsLookup(f: Fields, opts: Options, ans: Answers,
                             creation: Result<string, ApiCallError>, creationPolls: seq<PollResult>)
    requires !IsBlank(f.applicationGuid)
    ensures Run(f, opts, ans) == Run(f, opts, ans.(creation := creation, creationPolls := creationPolls))
    ensures Run(f, opts, ans).outcome != Exit(ApplicationNotFound)
  {
  }

  /** An empty name with a known guid is replaced by the name found for that
      guid before the upload. */
  lemma NameResolvedFromGuid(f: Fields, opts: Options, ans: Answers)
    requires IsEmpty(f.applicationName)
    ensures var r := Run(f, opts, ans);
      r.request.Some? ==> r.fields.applicationName == ApplicationNameFromGuid(ans.applications, r.fields.applicationGuid).value
  {
  }

  /** The node-name option plays no part: the two-argument get-or-create is called. */
  lemma NodeNameIsIgnored(f: Fields, opts: Options, ans: Answers, nodeName: JStr)
    ensures Run(f, opts, ans) == Run(f, opts.(nodeName := nodeName), ans)
  {
  }

  /** `AddVersionCommand`: the command's options as fields. */
  class AddVersionCommand {
    var applicationName: JStr
    var applicationGuid: JStr
    var versionName: JStr
    var cloneVersion: bool
    var autoCreate: bool
    var enableSecurityDataflow: bool
    var nodeName: JStr
    var backupEnabled: bool
    var backupName: JStr

    /** The option defaults: clone on, everything else off or unset. */
    constructor ()
      ensures applicationName == Null && applicationGuid == Null && versionName == Null
      ensures cloneVersion && !autoCreate && !enableSecurityDataflow && !backupEnabled
      ensures nodeName == Null && backupName == Null
    {
      applicationName, applicationGuid, versionName := Null, Null, Null;
      cloneVersion, autoCreate, enableSecurityDataflow := true, false, false;
      nodeName, backupEnabled, backupName := Null, false, Null;
    }

    function FieldsOf(): Fields
      reads this
    {
      Fields(applicationName, applicationGuid, cloneVersion)
    }

    function OptionsOf(): Options
      reads this
    {
      Options(versionName, autoCreate, enableSecurityDataflow, nodeName, backupEnabled, backupName)
    }

    /** `call()`. */
    method Call(ans: Answers) returns (outcome: CommandOutcome, request: Option<JobRequest>)
      modifies this`applicationName, this`applicationGuid, this`cloneVersion
      ensures var run := Run(old(FieldsOf()), OptionsOf(), ans);
              outcome == run.outcome && request == run.request && FieldsOf() == run.fields
    {
      ghost var before := FieldsOf();
      match ans.login {
        case ApiKeyMissing => return Exit(NoPassword), None;
        case LoginCallFailed => return Exit(LoginError), None;
        case LoginOk =>
      }
      if IsBlank(applicationName) && IsBlank(applicationGuid) {
        return Exit(ApplicationInfoMissing), None;
      }
      if IsBlank(applicationGuid) {
        var created := GetOrCreateApplication(applicationName, autoCreate, ans.applications, ans.creation, ans.creationPolls);
        match created.outcome {
          case Unresolved(_) => return Exit(ApplicationInfoMissing), None;
          case StillPolling => return Waiting, None;
          case Resolved(guid) => applicationGuid := guid;
        }
        if IsBlank(applicationGuid) {
          return Exit(ApplicationNotFound), None;
        }
      }
      assert Run(before, OptionsOf(), ans) == AfterGuid(FieldsOf(), OptionsOf(), ans);
      if IsEmpty(applicationName) && !IsEmpty(applicationGuid) {
        var name := ApplicationNameFromGuid(ans.applications, applicationGuid);
        if name.Err? {
          return Exit(ApplicationInfoMissing), None;
        }
        applicationName := name.value;
      }
      assert Run(before, OptionsOf(), ans) == Submit(FieldsOf(), OptionsOf(), ans);
      if ans.upload.None? {
        return Exit(UploadError), None;
      }
      var sourcePath := ans.upload.value;
      if cloneVersion {
        var hasVersion := ApplicationHasVersion(ans.versions);
        if hasVersion.Err? {
          return Exit(ApplicationInfoMissing), None;
        }
        cloneVersion := hasVersion.value;
      }
      var jobRequest := VersionJobRequest(applicationGuid, sourcePath, cloneVersion, OptionsOf());
      return JobExit(ans.jobStart, ans.jobPolls), Some(jobRequest);
    }
  }
}
