/** The job service as its tests and call sites fix it (`JobsServiceImplTest`):
    submitting an add-version job, and waiting for a job by polling its status
    until the state is terminal. The server's answers are inputs: one result per
    call, and for polling a finite sequence of answers consumed in order. */
module Jobs {
  import opened Lang
  import opened RestApi

  const JOBS_ENDPOINT: string := "/api/jobs/"

  /** The job states the model distinguishes; the server's enumeration itself
      is not part of this model. */
  datatype JobState = Starting | Started | Completed | Canceled | Failed

  /** A job that has stopped: polling ends on these states. */
  predicate IsTerminal(s: JobState) {
    s == Completed || s == Canceled || s == Failed
  }

  datatype JobType = AddVersion | CloneVersion | Analyze | CreateApplication

  /** `JobStatusWithSteps`: the fields the clients read. */
  datatype JobStatus = JobStatus(state: JobState, appGuid: JStr, currentStep: JStr, failureStep: JStr)

  /** Keys of the job parameters map. */
  datatype JobParam = ParamAppGuid | ParamSourceArchive | ParamVersionName

  datatype CreateJobsRequest = CreateJobsRequest(jobType: JobType, jobParameters: map<JobParam, string>)

  /** `SuccessfulJobStartDto`: the answer to a job creation. */
  datatype JobStart = JobStart(appGuid: string, jobGuid: string, jobUrl: string)

  /** The URL a job's status is read from. */
  function JobUrl(jobGuid: string): (url: string)
    ensures |url| == |JOBS_ENDPOINT| + |jobGuid|
    ensures url[..|JOBS_ENDPOINT|] == "/api/jobs/" && url[|JOBS_ENDPOINT|..] == jobGuid
  {
    JOBS_ENDPOINT + jobGuid
  }

  // ---------------------------------------------------------------- submission

  /** The creation request of `startAddVersionJob`. The tests fix the type for
      a false clone flag and the guid and archive parameters; CLONE_VERSION for
      a set flag and the version parameter are assumed. */
  function AddVersionRequest(appGuid: string, zipFileName: string, versionName: string, cloneVersion: bool)
    : (r: CreateJobsRequest)
    ensures r.jobType == if cloneVersion then CloneVersion else AddVersion
    ensures ParamAppGuid in r.jobParameters && r.jobParameters[ParamAppGuid] == appGuid
    ensures ParamSourceArchive in r.jobParameters && r.jobParameters[ParamSourceArchive] == zipFileName
    ensures ParamVersionName in r.jobParameters && r.jobParameters[ParamVersionName] == versionName
  {
    CreateJobsRequest(if cloneVersion then CloneVersion else AddVersion,
                      map[ParamAppGuid := appGuid, ParamSourceArchive := zipFileName, ParamVersionName := versionName])
  }

  /** The calls the job service makes on the transport. */
  datatype JobsCall = CreateJob(request: CreateJobsRequest) | GetJobStatus(url: string) | ResumeJob(url: string)

  datatype StartOutcome =
    | StartAssertionFailed            // a Java assertion on the arguments
    | StartError(cause: ApiCallError) // `JobServiceException` wrapping the `ApiCallException`
    | JobStarted(jobGuid: string)

  datatype Submission = Submission(outcome: StartOutcome, calls: seq<JobsCall>)

  predicate ArgumentsMissing(appGuid: JStr, zipFileName: JStr, versionName: JStr) {
    appGuid.Null? || zipFileName.Null? || versionName.Null?
  }

  /** `startAddVersionJob(appGuid, zipFileName, versionName, date, cloneVersion)`:
      the arguments are asserted non-null, the job is created, its status is
      read, and a job still STARTING is resumed, both at the job URL of the
      creation answer (assumed: the tests accept any URL). Each server answer is
      an input. */
  function StartAddVersionJob(appGuid: JStr, zipFileName: JStr, versionName: JStr, cloneVersion: bool,
                              created: Result<JobStart, ApiCallError>,
                              status: Result<JobStatus, ApiCallError>,
                              resumed: Option<ApiCallError>): (r: Submission)
    ensures ArgumentsMissing(appGuid, zipFileName, versionName) <==> r.outcome == StartAssertionFailed
    ensures r.outcome == StartAssertionFailed ==> r.calls == []
    ensures !ArgumentsMissing(appGuid, zipFileName, versionName) ==>
              |r.calls| >= 1 && r.calls[0] == CreateJob(AddVersionRequest(appGuid.s, zipFileName.s, versionName.s, cloneVersion))
    ensures !ArgumentsMissing(appGuid, zipFileName, versionName) && created.Err? ==>
              r.outcome == StartError(created.error) && |r.calls| == 1
    ensures r.outcome.JobStarted? <==>
              !ArgumentsMissing(appGuid, zipFileName, versionName) && created.Ok? && status.Ok?
              && (status.value.state == Starting ==> resumed.None?)
    ensures r.outcome.JobStarted? ==> r.outcome.jobGuid == created.value.jobGuid
    ensures (exists i :: 0 <= i < |r.calls| && r.calls[i].ResumeJob?) <==>
              !ArgumentsMissing(appGuid, zipFileName, versionName) && created.Ok? && status.Ok? && status.value.state == Starting
  {
    if ArgumentsMissing(appGuid, zipFileName, versionName) then
      Submission(StartAssertionFailed, [])
    else
      var create := CreateJob(AddVersionRequest(appGuid.s, zipFileName.s, versionName.s, cloneVersion));
      match created
      case Err(e) => Submission(StartError(e), [create])
      case Ok(job) =>
        var read := [create, GetJobStatus(job.jobUrl)];
        match status
        case Err(e) => Submission(StartError(e), read)
        case Ok(s) =>
          if s.state != Starting then Submission(JobStarted(job.jobGuid), read)
          else
            var calls := read + [ResumeJob(job.jobUrl)];
            assert calls[2].ResumeJob?;
            match resumed
            case Some(e) => Submission(StartError(e), calls)
            case None => Submission(JobStarted(job.jobGuid), calls)
  }

  /** The request the tests expect: an add-version job whose parameters name
      the application guid and the source archive. */
  lemma CreationRequestMatchesTests(appGuid: string, zipFileName: string, versionName: string)
    ensures var req := AddVersionRequest(appGuid, zipFileName, versionName, false);
      && req.jobType == AddVersion
      && |req.jobParameters| > 0
      && SameIgnoringCase(appGuid, req.jobParameters[ParamAppGuid])
      && SameIgnoringCase(zipFileName, req.jobParameters[ParamSourceArchive])
  {
    var req := AddVersionRequest(appGuid, zipFileName, versionName, false);
    assert ParamAppGuid in req.jobParameters.Keys;
  }

  // ---------------------------------------------------------------- polling

  /** One answer to a status request: a status, or an `ApiCallException`. */
  datatype PollResult = Polled(status: JobStatus) | PollFailed(error: ApiCallError)

  /** The end of a wait. `StillWaiting` means the given answers ran out while
      the job was still running: the service itself would keep polling. */
  datatype PollOutcome<R> =
    | PollAssertionFailed
    | PollError(error: ApiCallError, polls: nat)
    | Finished(value: R, polls: nat)
    | StillWaiting(polls: nat)

  /** An answer after which polling goes on. */
  predicate StillRunning(p: PollResult) {
    p.Polled? && !IsTerminal(p.status.state)
  }

  /** The number of leading answers that keep the job running. */
  function RunningPrefix(responses: seq<PollResult>): (k: nat)
    ensures k <= |responses|
    ensures forall j :: 0 <= j < k ==> StillRunning(responses[j])
    ensures k < |responses| ==> !StillRunning(responses[k])
  {
    if responses == [] || !StillRunning(responses[0]) then 0
    else 1 + RunningPrefix(responses[1..])
  }

  /** The reference definition of a wait: the first answer that is an error or
      a terminal status ends it, and a terminal status is mapped through `f`. */
  function Await<R>(jobGuid: JStr, responses: seq<PollResult>, f: JobStatus -> R): (r: PollOutcome<R>)
    ensures r.PollAssertionFailed? <==> jobGuid.Null?
    ensures r.StillWaiting? ==> r.polls == |responses| && forall j :: 0 <= j < |responses| ==> StillRunning(responses[j])
    ensures r.PollError? || r.Finished? ==>
              1 <= r.polls <= |responses| && forall j :: 0 <= j < r.polls - 1 ==> StillRunning(responses[j])
    ensures r.PollError? ==> responses[r.polls - 1] == PollFailed(r.error)
    ensures r.Finished? ==> responses[r.polls - 1].Polled? && IsTerminal(responses[r.polls - 1].status.state)
                            && r.value == f(responses[r.polls - 1].status)
  {
    if jobGuid.Null? then PollAssertionFailed
    else
      var k := RunningPrefix(responses);
      if k == |responses| then StillWaiting(k)
      else
        match responses[k]
        case PollFailed(e) => PollError(e, k + 1)
        case Polled(s) => Finished(f(s), k + 1)
  }

  /** `pollAndWaitForJobFinished(jobGuid, f)`: asks for the job's status until
      it is terminal; an API failure ends the wait at once, without retry.
      Returns the outcome and the URLs it requested. */
  method PollAndWaitForJobFinished<R>(jobGuid: JStr, responses: seq<PollResult>, f: JobStatus -> R)
    returns (r: PollOutcome<R>, requested: seq<string>)
    ensures r == Await(jobGuid, responses, f)
    ensures jobGuid.Null? ==> requested == []
    ensures jobGuid.Str? ==> |requested| == r.polls && forall u :: u in requested ==> u == JobUrl(jobGuid.s)
  {
    if jobGuid.Null? {
      return PollAssertionFailed, [];
    }
    var url := JobUrl(jobGuid.s);
    requested := [];
    var i := 0;
    while i < |responses|
      invariant 0 <= i <= |responses|
      invariant forall j :: 0 <= j < i ==> StillRunning(responses[j])
      invariant |requested| == i && forall u :: u in requested ==> u == url
    {
      requested := requested + [url];
      match responses[i]
      case PollFailed(e) =>
        return PollError(e, i + 1), requested;
      case Polled(status) =>
        if IsTerminal(status.state) {
          return Finished(f(status), i + 1), requested;
        }
      i := i + 1;
    }
    r := StillWaiting(i);
  }

  /** The wait ends exactly at the first answer that is an error or a terminal
      status; every earlier answer was a running job. */
  lemma AwaitStopsAtFirstStop<R>(jobGuid: JStr, responses: seq<PollResult>, f: JobStatus -> R)
    requires jobGuid.Str?
    ensures var r := Await(jobGuid, responses, f);
      && (r.Finished? <==> exists k :: 0 <= k < |responses| && responses[k].Polled? && IsTerminal(responses[k].status.state)
                                         && forall j :: 0 <= j < k ==> StillRunning(responses[j]))
      && (r.Finished? ==> r.value == f(responses[r.polls - 1].status) && IsTerminal(responses[r.polls - 1].status.state))
      && (r.PollError? ==> responses[r.polls - 1] == PollFailed(r.error))
      && (r.StillWaiting? <==> forall j :: 0 <= j < |responses| ==> StillRunning(responses[j]))
      && !r.PollAssertionFailed?
  {
    var k := RunningPrefix(responses);
    if Await(jobGuid, responses, f).Finished? {
      assert responses[k].Polled? && IsTerminal(responses[k].status.state);
    }
    if k < |responses| {
      assert !StillRunning(responses[k]);
    }
  }

  /** Answers after the one that ends the wait are never requested. */
  lemma AwaitIgnoresLaterAnswers<R>(jobGuid: JStr, responses: seq<PollResult>, later: seq<PollResult>, f: JobStatus -> R)
    requires RunningPrefix(responses) < |responses|
    ensures Await(jobGuid, responses + later, f) == Await(jobGuid, responses, f)
  {
    RunningPrefixOfExtension(responses, later);
  }

  lemma {:induction false} RunningPrefixOfExtension(responses: seq<PollResult>, later: seq<PollResult>)
    requires RunningPrefix(responses) < |responses|
    ensures RunningPrefix(responses + later) == RunningPrefix(responses)
  {
    if StillRunning(responses[0]) {
      assert (responses + later)[1..] == responses[1..] + later;
      RunningPrefixOfExtension(responses[1..], later);
    }
  }

  /** An API failure on the first status request ends the wait: no retry. */
  lemma ApiFailureIsNotRetried<R>(jobGuid: string, e: ApiCallError, later: seq<PollResult>, f: JobStatus -> R)
    ensures Await(Str(jobGuid), [PollFailed(e)] + later, f) == PollError(e, 1)
  {
    AwaitIgnoresLaterAnswers(Str(jobGuid), [PollFailed(e)], later, f);
  }

  /** The cancelled-job scenario: STARTED, then CANCELED, gives CANCELED after
      two requests; the failure step of the last status is what `f` sees. */
  lemma CanceledAfterStarted(appGuid: JStr, step: JStr)
    ensures Await(Str("jobGuid"),
                  [Polled(JobStatus(Started, appGuid, Str("unzip_source"), Null)),
                   Polled(JobStatus(Canceled, appGuid, step, step))],
                  (s: JobStatus) => s.state)
            == Finished(Canceled, 2)
  {
    var rs := [Polled(JobStatus(Started, appGuid, Str("unzip_source"), Null)),
               Polled(JobStatus(Canceled, appGuid, step, step))];
    assert StillRunning(rs[0]) && !StillRunning(rs[1..][0]);
    assert RunningPrefix(rs) == 1;
  }
}
