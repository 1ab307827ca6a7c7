/** What the command-line commands share: their exit codes, the job request
    they build, the answers of the server they talk to, and how the end of a
    job becomes an exit code. */
module Commands {
  import opened Lang
  import opened RestApi
  import opened Jobs
  import opened Applications

  /** The `RETURN_*` exit codes; their numeric values are not part of this model. */
  datatype ExitCode =
    | ReturnOk
    | NoPassword
    | LoginError
    | ApplicationInfoMissing
    | ApplicationNotFound
    | ApplicationNoVersion
    | ApplicationVersionNotFound
    | UploadError
    | JobPollError
    | JobFailed

  /** Exceptions that `call()` does not catch. */
  datatype Uncaught = UncaughtApiCall(cause: ApiCallError) | NullDereference

  /** How a `call()` ends: an exit code, an exception that escapes it, or still
      waiting for a job when the given job answers ran out. */
  datatype CommandOutcome = Exit(code: ExitCode) | Propagated(cause: Uncaught) | Waiting

  /** The outcome of `validateUrlAndKey` as the commands see it. */
  datatype LoginResult = LoginOk | ApiKeyMissing | LoginCallFailed

  /** Job steps a request can start or end at. */
  datatype Step = AcceptanceStep | AnalyzeStep | ConsolidateSnapshot | UploadAppSnapshot | SetCurrentStep | DeliverVersionStep

  /** The server API version (`getApiVersionSemVer`). */
  datatype ApiVersion = ApiVersion(major: int, minor: int)

  /** What `JobRequestBuilder` holds; `None` is a field the command does not set. */
  datatype JobRequest = JobRequest(
    appGuid: JStr,
    sourcePath: JStr,
    jobType: JobType,
    startStep: Option<Step>,
    endStep: Option<Step>,
    versionName: JStr,
    versionGuid: JStr,
    snapshotNamed: bool,
    securityObjective: Option<bool>,
    backupApplication: Option<bool>,
    backupName: JStr,
    autoDiscover: Option<bool>,
    deliveryConfigGuid: JStr)

  /** A request with only the three fields of `JobRequestBuilder.newInstance` set. */
  function NewJobRequest(appGuid: JStr, sourcePath: JStr, jobType: JobType): JobRequest {
    JobRequest(appGuid, sourcePath, jobType, None, None, Null, Null, false, None, None, Null, None, Null)
  }

  /** The answers the server gives during one command run, one per call. The
      application list is requested at most once per run. */
  datatype Answers = Answers(
    login: LoginResult,
    apiVersion: ApiVersion,
    applications: Answer<seq<Option<ApplicationDto>>>,
    nodes: Result<seq<NodeDto>, ApiCallError>,
    creation: Result<string, ApiCallError>,
    creationPolls: seq<PollResult>,
    versions: Answer<seq<VersionDto>>,
    upload: Option<string>,                 // the source path, or an `UploadException`
    deliveryConfiguration: Answer<JStr>,
    jobStart: Result<string, ApiCallError>, // the job guid, or a `JobServiceException`
    jobPolls: seq<PollResult>)

  /** `cloneVersion && applicationHasVersion(guid)` fails: the clone flag is set
      and the version listing answers with an `ApplicationServiceException`. */
  predicate CloneCheckFails(cloneVersion: bool, versions: Answer<seq<VersionDto>>) {
    cloneVersion && ApplicationHasVersion(versions).Err?
  }

  /** The job guid is the result of starting the job, then waiting for it with
      the identity function: COMPLETED gives `RETURN_OK`, any other terminal
      state `RETURN_JOB_FAILED`, and a job service failure `RETURN_JOB_POLL_ERROR`. */
  function JobExit(jobStart: Result<string, ApiCallError>, polls: seq<PollResult>): (r: CommandOutcome)
    ensures r in {Exit(ReturnOk), Exit(JobFailed), Exit(JobPollError), Waiting}
    ensures jobStart.Err? ==> r == Exit(JobPollError)
    ensures jobStart.Ok? ==>
      var w := Await(Str(jobStart.value), polls, (s: JobStatus) => s);
      && (r == Exit(ReturnOk) <==> w.Finished? && w.value.state == Completed)
      && (r == Exit(JobFailed) <==> w.Finished? && w.value.state != Completed)
      && (r == Exit(JobPollError) <==> w.PollError?)
      && (r == Waiting <==> w.StillWaiting?)
  {
    match jobStart
    case Err(_) => Exit(JobPollError)
    case Ok(jobGuid) =>
      var w := Await(Str(jobGuid), polls, (s: JobStatus) => s);
      AwaitStopsAtFirstStop(Str(jobGuid), polls, (s: JobStatus) => s);
      if w.Finished? then Exit(if w.value.state == Completed then ReturnOk else JobFailed)
      else if w.PollError? then Exit(JobPollError)
      else Waiting
  }

  /** The job exit code only ever reports on the first terminal status: a job
      that is seen COMPLETED after running states exits with `RETURN_OK`. */
  lemma CompletedJobExitsOk(jobGuid: string, running: seq<PollResult>, done: JobStatus, later: seq<PollResult>)
    requires forall i :: 0 <= i < |running| ==> StillRunning(running[i])
    requires done.state == Completed
    ensures JobExit(Ok(jobGuid), running + [Polled(done)] + later) == Exit(ReturnOk)
  {
    var rs := running + [Polled(done)];
    assert RunningPrefix(rs) == |running| by {
      assert rs[|running|] == Polled(done);
      assert forall i :: 0 <= i < |running| ==> rs[i] == running[i];
    }
    AwaitIgnoresLaterAnswers(Str(jobGuid), rs, later, (s: JobStatus) => s);
  }
}
