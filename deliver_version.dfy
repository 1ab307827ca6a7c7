/** The `Deliver` command (`DeliverVersionCommand.call`): like adding a
    version, but the application is always found by name (and created on a
    chosen node if asked), the job stops at delivery or at setting the version
    current, and exclusion patterns become a delivery configuration first.
    `call()` overwrites the clone flag. */
module DeliverVersion {
  import opened Lang
  import opened RestApi
  import opened Jobs
  import opened Applications
  import opened Commands

  /** The options `call()` only reads. */
  datatype Options = Options(versionName: JStr, autoDeploy: bool, autoCreate: bool,
                             enableSecurityDataflow: bool, nodeName: JStr, backupEnabled: bool,
                             backupName: JStr, autoDiscover: bool, exclusionPatterns: JStr)

  /** The end of a run, the delivery configuration it asked for, the job it
      started and the clone flag it leaves behind. */
  datatype DeliverRun = DeliverRun(outcome: CommandOutcome, configuration: Option<DeliveryConfiguration>,
                                   request: Option<JobRequest>, cloneVersion: bool)

  /** The job ends at SET_CURRENT when the version is to be deployed, at
      delivery otherwise. */
  function DeliveryEndStep(autoDeploy: bool): (s: Step)
    ensures s == SetCurrentStep <==> autoDeploy
    ensures s == DeliverVersionStep <==> !autoDeploy
  {
    if autoDeploy then SetCurrentStep else DeliverVersionStep
  }

  /** The builder before any delivery configuration is attached. */
  function DeliveryJobRequest(appGuid: JStr, sourcePath: string, cloneVersion: bool, opts: Options): (r: JobRequest)
    ensures r.jobType == (if cloneVersion then CloneVersion else AddVersion)
    ensures r.appGuid == appGuid && r.sourcePath == Str(sourcePath) && r.versionName == opts.versionName
    ensures r.endStep == Some(DeliveryEndStep(opts.autoDeploy)) && r.startStep.None?
    ensures r.autoDiscover == Some(opts.autoDiscover) && r.deliveryConfigGuid == Null
    ensures r.securityObjective == Some(opts.enableSecurityDataflow)
    ensures r.backupApplication == Some(opts.backupEnabled) && r.backupName == opts.backupName
  {
    NewJobRequest(appGuid, Str(sourcePath), if cloneVersion then CloneVersion else AddVersion).(
      endStep := Some(DeliveryEndStep(opts.autoDeploy)),
      versionName := opts.versionName,
      securityObjective := Some(opts.enableSecurityDataflow),
      backupApplication := Some(opts.backupEnabled),
      backupName := opts.backupName,
      autoDiscover := Some(opts.autoDiscover))
  }

  /** From the upload on, once the guid is known. */
  function Deliver(appGuid: JStr, cloneVersion: bool, opts: Options, ans: Answers): (r: DeliverRun)
    ensures r.outcome != Exit(ApplicationNotFound)
    ensures r.outcome == Exit(UploadError) ==> ans.upload.None? && r.request.None?
    ensures r.outcome == Exit(UploadError) <==> ans.upload.None?
    ensures r.outcome == Exit(ApplicationInfoMissing) <==> ans.upload.Some? && CloneCheckFails(cloneVersion, ans.versions)
    ensures r.outcome.Propagated? <==>
              ans.upload.Some? && !CloneCheckFails(cloneVersion, ans.versions)
              && !IsBlank(opts.exclusionPatterns) && ans.deliveryConfiguration.Err?
    ensures r.request.Some? <==>
              ans.upload.Some? && !CloneCheckFails(cloneVersion, ans.versions)
              && (IsBlank(opts.exclusionPatterns) || ans.deliveryConfiguration.Ok?)
    ensures r.outcome.Propagated? ==>
              && ans.deliveryConfiguration.Err?
              && r.outcome == Propagated(UncaughtApiCall(ans.deliveryConfiguration.error))
              && r.configuration.Some? && r.request.None?
    ensures r.request.Some? ==>
              && r.request.value.appGuid == appGuid
              && ans.upload.Some? && r.request.value.sourcePath == Str(ans.upload.value)
              && r.outcome == JobExit(ans.jobStart, ans.jobPolls)
              && (r.request.value.jobType == CloneVersion <==> cloneVersion && ApplicationHasVersion(ans.versions) == Ok(true))
              && r.cloneVersion == (r.request.value.jobType == CloneVersion)
              && r.request.value.endStep == Some(DeliveryEndStep(opts.autoDeploy))
              && r.request.value.autoDiscover == Some(opts.autoDiscover)
              && r.request.value == DeliveryJobRequest(appGuid, ans.upload.value, r.cloneVersion, opts)
                                      .(deliveryConfigGuid := r.request.value.deliveryConfigGuid)
  {
    match ans.upload
    case None => DeliverRun(Exit(UploadError), None, None, cloneVersion)
    case Some(sourcePath) =>
      var clone := if cloneVersion then ApplicationHasVersion(ans.versions) else Ok(false);
      match clone
      case Err(_) => DeliverRun(Exit(ApplicationInfoMissing), None, None, cloneVersion)
      case Ok(c) =>
        var builder := DeliveryJobRequest(appGuid, sourcePath, c, opts);
        if IsBlank(opts.exclusionPatterns) then
          DeliverRun(JobExit(ans.jobStart, ans.jobPolls), None, Some(builder), c)
        else
          var configuration := DeliveryConfigurationRequest(appGuid, opts.exclusionPatterns.s);
          match CreateDeliveryConfiguration(ans.deliveryConfiguration)
          case Err(e) => DeliverRun(Propagated(UncaughtApiCall(e)), Some(configuration), None, c)
          case Ok(configGuid) =>
            var request := if IsBlank(configGuid) then builder else builder.(deliveryConfigGuid := configGuid);
            DeliverRun(JobExit(ans.jobStart, ans.jobPolls), Some(configuration), Some(request), c)
  }

  /** What get-or-create resolves for the name, after login. */
  function Found(applicationName: JStr, opts: Options, ans: Answers): Resolution {
    GetOrCreateApplicationFromName(applicationName, opts.autoCreate, opts.nodeName,
                                   ans.applications, ans.nodes, ans.creation, ans.creationPolls).outcome
  }

  /** The run gets as far as the upload: a name was given, login succeeded and
      get-or-create resolved a non-blank guid. */
  predicate ReachesUpload(applicationName: JStr, opts: Options, ans: Answers) {
    && !IsBlank(applicationName) && ans.login == LoginOk
    && Found(applicationName, opts, ans).Resolved? && !IsBlank(Found(applicationName, opts, ans).guid)
  }

  /** `call()` as a function of the application name, the clone flag before
      the call, the options and the server's answers. */
  function Run(applicationName: JStr, cloneVersion: bool, opts: Options, ans: Answers): (r: DeliverRun)
    ensures IsBlank(applicationName) ==> r == DeliverRun(Exit(ApplicationInfoMissing), None, None, cloneVersion)
    ensures !IsBlank(applicationName) && ans.login == ApiKeyMissing ==> r == DeliverRun(Exit(NoPassword), None, None, cloneVersion)
    ensures !IsBlank(applicationName) && ans.login == LoginCallFailed ==> r == DeliverRun(Exit(LoginError), None, None, cloneVersion)
    ensures r.outcome == Exit(ApplicationNotFound) ==>
              var found := GetOrCreateApplicationFromName(applicationName, opts.autoCreate, opts.nodeName,
                                                          ans.applications, ans.nodes, ans.creation, ans.creationPolls);
              ans.login == LoginOk && found.outcome.Resolved? && IsBlank(found.outcome.guid)
    ensures r.request.Some? ==>
              var found := GetOrCreateApplicationFromName(applicationName, opts.autoCreate, opts.nodeName,
                                                          ans.applications, ans.nodes, ans.creation, ans.creationPolls);
              && ans.login == LoginOk
              && found.outcome.Resolved? && !IsBlank(found.outcome.guid)
              && r.request.value.appGuid == found.outcome.guid
              && ans.upload.Some? && r.request.value.sourcePath == Str(ans.upload.value)
              && r.outcome == JobExit(ans.jobStart, ans.jobPolls)
              && r.request.value == DeliveryJobRequest(found.outcome.guid, ans.upload.value, r.cloneVersion, opts)
                                      .(deliveryConfigGuid := r.request.value.deliveryConfigGuid)
    ensures r.outcome.Propagated? ==>
              && ans.deliveryConfiguration.Err?
              && r.outcome == Propagated(UncaughtApiCall(ans.deliveryConfiguration.error))
              && r.configuration.Some? && r.request.None?
    ensures r.outcome == Exit(UploadError) ==> ans.upload.None? && r.request.None?
    // each exit code and the cause that produces it
    ensures r.outcome == Exit(NoPassword) <==> !IsBlank(applicationName) && ans.login == ApiKeyMissing
    ensures r.outcome == Exit(LoginError) <==> !IsBlank(applicationName) && ans.login == LoginCallFailed
    ensures r.outcome == Exit(ApplicationNotFound) <==>
              !IsBlank(applicationName) && ans.login == LoginOk
              && Found(applicationName, opts, ans).Resolved? && IsBlank(Found(applicationName, opts, ans).guid)
    ensures r.outcome == Exit(ApplicationInfoMissing) <==>
              || IsBlank(applicationName)
              || (ans.login == LoginOk && Found(applicationName, opts, ans).Unresolved?)
              || (ReachesUpload(applicationName, opts, ans) && ans.upload.Some? && CloneCheckFails(cloneVersion, ans.versions))
    ensures r.outcome == Exit(UploadError) <==> ReachesUpload(applicationName, opts, ans) && ans.upload.None?
    ensures !IsBlank(applicationName) && ans.login == LoginOk && Found(applicationName, opts, ans).StillPolling? ==>
              r.outcome == Waiting && r.request.None?
    ensures r.outcome.Propagated? <==>
              ReachesUpload(applicationName, opts, ans) && ans.upload.Some? && !CloneCheckFails(cloneVersion, ans.versions)
              && !IsBlank(opts.exclusionPatterns) && ans.deliveryConfiguration.Err?
    ensures r.request.Some? <==>
              ReachesUpload(applicationName, opts, ans) && ans.upload.Some? && !CloneCheckFails(cloneVersion, ans.versions)
              && (IsBlank(opts.exclusionPatterns) || ans.deliveryConfiguration.Ok?)
  {
    if IsBlank(applicationName) then DeliverRun(Exit(ApplicationInfoMissing), None, None, cloneVersion)
    else
      match ans.login
      case ApiKeyMissing => DeliverRun(Exit(NoPassword), None, None, cloneVersion)
      case LoginCallFailed => DeliverRun(Exit(LoginError), None, None, cloneVersion)
      case LoginOk =>
        match Found(applicationName, opts, ans)
        case Unresolved(_) => DeliverRun(Exit(ApplicationInfoMissing), None, None, cloneVersion)
        case StillPolling => DeliverRun(Waiting, None, None, cloneVersion)
        case Resolved(appGuid) =>
          if IsBlank(appGuid) then DeliverRun(Exit(ApplicationNotFound), None, None, cloneVersion)
          else Deliver(appGuid, cloneVersion, opts, ans)
  }

  /** A blank application name is refused before any call to the server: the
      login answer plays no part. */
  lemma BlankNameNeedsNoLogin(applicationName: JStr, cloneVersion: bool, opts: Options, ans: Answers, login: LoginResult)
    requires IsBlank(applicationName)
    ensures Run(applicationName, cloneVersion, opts, ans) == Run(applicationName, cloneVersion, opts, ans.(login := login))
  {
  }

  /** The job that is started: CLONE_VERSION iff the clone flag was set and the
      application has a version, ending at SET_CURRENT iff auto-deploy is set,
      with the auto-discover option passed on. */
  lemma DeliveryJobRule(applicationName: JStr, cloneVersion: bool, opts: Options, ans: Answers)
    ensures var r := Run(applicationName, cloneVersion, opts, ans);
      r.request.Some? ==>
        && (r.request.value.jobType == CloneVersion <==> cloneVersion && ApplicationHasVersion(ans.versions) == Ok(true))
        && r.cloneVersion == (r.request.value.jobType == CloneVersion)
        && (r.request.value.endStep == Some(SetCurrentStep) <==> opts.autoDeploy)
        && (r.request.value.endStep == Some(DeliverVersionStep) <==> !opts.autoDeploy)
        && r.request.value.autoDiscover == Some(opts.autoDiscover)
  {
  }

  /** Exclusion patterns: a started job asked for a delivery configuration
      exactly when patterns were given, with those patterns split at commas;
      the job carries a configuration guid only when the server answered one
      that is not blank, and carries nothing otherwise. */
  lemma DeliveryConfigurationRule(applicationName: JStr, cloneVersion: bool, opts: Options, ans: Answers)
    ensures var r := Run(applicationName, cloneVersion, opts, ans);
      r.request.Some? ==>
        && (r.configuration.Some? <==> !IsBlank(opts.exclusionPatterns))
        && (r.configuration.Some? ==>
              r.configuration.value == DeliveryConfigurationRequest(r.request.value.appGuid, opts.exclusionPatterns.s)
              && r.configuration.value.ignorePatterns == ExclusionPatterns(opts.exclusionPatterns.s))
        && (r.request.value.deliveryConfigGuid == Null || !IsBlank(r.request.value.deliveryConfigGuid))
        && (!IsBlank(r.request.value.deliveryConfigGuid) <==>
              !IsBlank(opts.exclusionPatterns) && ans.deliveryConfiguration.Ok?
              && ans.deliveryConfiguration.value.Some? && !IsBlank(ans.deliveryConfiguration.value.value))
        && (!IsBlank(r.request.value.deliveryConfigGuid) ==>
              ans.deliveryConfiguration == Ok(Some(r.request.value.deliveryConfigGuid)))
  {
  }

  /** `DeliverVersionCommand`: the command's options as fields. */
  class DeliverVersionCommand {
    var applicationName: JStr
    var versionName: JStr
    var autoDeploy: bool
    var cloneVersion: bool
    var autoCreate: bool
    var enableSecurityDataflow: bool
    var nodeName: JStr
    var backupEnabled: bool
    var backupName: JStr
    var autoDiscover: bool
    var exclusionPatterns: JStr

    /** The option defaults: clone and auto-discover on, everything else off
        or unset. */
    constructor ()
      ensures applicationName == Null && versionName == Null && nodeName == Null
      ensures backupName == Null && exclusionPatterns == Null
      ensures cloneVersion && autoDiscover
      ensures !autoDeploy && !autoCreate && !enableSecurityDataflow && !backupEnabled
    {
      applicationName, versionName, nodeName, backupName, exclusionPatterns := Null, Null, Null, Null, Null;
      cloneVersion, autoDiscover := true, true;
      autoDeploy, autoCreate, enableSecurityDataflow, backupEnabled := false, false, false, false;
    }

    function OptionsOf(): Options
      reads this
    {
      Options(versionName, autoDeploy, autoCreate, enableSecurityDataflow, nodeName,
              backupEnabled, backupName, autoDiscover, exclusionPatterns)
    }

    /** `call()`. */
    method Call(ans: Answers) returns (outcome: CommandOutcome, configuration: Option<DeliveryConfiguration>,
                                       request: Option<JobRequest>)
      modifies this`cloneVersion
      ensures var run := Run(applicationName, old(cloneVersion), OptionsOf(), ans);
              && outcome == run.outcome && configuration == run.configuration && request == run.request
              && cloneVersion == run.cloneVersion
    {
      if IsBlank(applicationName) {
        return Exit(ApplicationInfoMissing), None, None;
      }
      match ans.login {
        case ApiKeyMissing => return Exit(NoPassword), None, None;
        case LoginCallFailed => return Exit(LoginError), None, None;
        case LoginOk =>
      }
      var appGuid;
      match Found(applicationName, OptionsOf(), ans) {
        case Unresolved(_) => return Exit(ApplicationInfoMissing), None, None;
        case StillPolling => return Waiting, None, None;
        case Resolved(guid) => appGuid := guid;
      }
      if IsBlank(appGuid) {
        return Exit(ApplicationNotFound), None, None;
      }
      ghost var spec := Deliver(appGuid, cloneVersion, OptionsOf(), ans);
      assert Run(applicationName, old(cloneVersion), OptionsOf(), ans) == spec;
      if ans.upload.None? {
        return Exit(UploadError), None, None;
      }
      var sourcePath := ans.upload.value;
      if cloneVersion {
        var hasVersion := ApplicationHasVersion(ans.versions);
        if hasVersion.Err? {
          return Exit(ApplicationInfoMissing), None, None;
        }
        cloneVersion := hasVersion.value;
      }
      var builder := DeliveryJobRequest(appGuid, sourcePath, cloneVersion, OptionsOf());
      configuration := None;
      if !IsBlank(exclusionPatterns) {
        configuration := Some(DeliveryConfigurationRequest(appGuid, exclusionPatterns.s));
        var configGuid := CreateDeliveryConfiguration(ans.deliveryConfiguration);
        if configGuid.Err? {
          return Propagated(UncaughtApiCall(configGuid.error)), configuration, None;
        }
        if !IsBlank(configGuid.value) {
          builder := builder.(deliveryConfigGuid := configGuid.value);
        }
      }
      return JobExit(ans.jobStart, ans.jobPolls), configuration, Some(builder);
    }
  }
}
