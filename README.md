# AIP Console tools: transport, job contract, application lookup and commands

This project models, in Dafny, the decision logic of the AIP Console command-line
tools and of their Jenkins transport:

- **Authenticated transport** (`RestApiServiceImpl`, module `RestApi`):
  - base URL normalisation and endpoint joining;
  - how a response's status and body become a value, a null or an
    `ApiCallException`;
  - the cookie jar, which keeps one cookie per case-insensitive name;
  - the login interceptor, a small state machine over one expiry time. It
    attaches the XSRF token and adds either Basic credentials or the API-key
    header.

  `QueryableCookieJar`, `AipLoginInterceptor` and the service itself are
  classes whose methods update their fields. The HTTP client is replaced by
  a `Network` value per call.
- **Job service contract** (`JobsServiceImplTest`, module `Jobs`). This is the
  contract that the tests fix:
  - submitting an add-version job: the arguments are asserted, the job is
    created, its status is read, and a job still STARTING is resumed;
  - waiting for a job: its status URL is polled until the state is terminal,
    and an API failure ends the wait at once. Polling is a loop over a finite
    sequence of answers, proved against a reference function.
- **Application lookup** (`ApplicationServiceImpl`, module `Applications`):
  - name and guid lookups, matched ignoring case;
  - version checks;
  - the get-or-create chain, including the node lookup and the creation job;
  - the delivery configuration built from comma-separated exclusion patterns.
- **Commands** (modules `Commands`, `Analyze`, `AddVersion`, `DeliverVersion`).
  Each `call()` is a function from the server's answers to an outcome: an exit
  code, an exception that escapes `call()`, or "still waiting" when the given
  job answers run out.
  - `Analyze` selects the version to analyse and its first and last steps.
  - `AddVersionCommand` and `DeliverVersionCommand` are classes whose `Call`
    overwrites the same fields the Java `call()` overwrites. Each `Call` is
    proved equal to its pure `Run` function.
- **Shared options** (`SharedOptions`, module `SharedOptionsModel`):
  - server URL prefixing, which updates the field in place;
  - where the API key comes from;
  - a description that hides the key.

Module `Lang` holds the Java building blocks:
- nullable strings (`JStr`);
- the `StringUtils` predicates;
- `String.split(",")`, which drops trailing empty pieces.

## Model

| member | source | states |
|---|---|---|
| Lang.Split | aip-console-tools-core/src/main/java/com/castsoftware/aip/console/tools/core/services/ApplicationServiceImpl.java:142 | no piece holds a comma, and only a string with a comma can split into no piece at all |
| Lang.SplitIsPiecesPrefix | aip-console-tools-core/src/main/java/com/castsoftware/aip/console/tools/core/services/ApplicationServiceImpl.java:142 | `split(",")` keeps a prefix of the comma-separated pieces and drops only empty pieces. Its last piece is non-empty when the input is not empty ("" gives [""]). The pieces rejoin to the input |
| RestApi.NormalizeServerUrl | aip-console-jenkins/src/main/java/io/jenkins/plugins/aipconsole/extensions/RestApiServiceImpl.java:63-68 | the stored URL starts with "http" ignoring case: the input, or "http://" + input when it does not. Exactly one trailing "/" is removed when there is one, and nothing otherwise |
| RestApi.NormalizeIdempotent | aip-console-jenkins/src/main/java/io/jenkins/plugins/aipconsole/extensions/RestApiServiceImpl.java:63-68 | normalising twice changes nothing once the normal form has no trailing "/" |
| RestApi.EndpointUrl | aip-console-jenkins/src/main/java/io/jenkins/plugins/aipconsole/extensions/RestApiServiceImpl.java:202-208 | exactly one "/" separates the base from the endpoint, whether or not the endpoint starts with one |
| RestApi.LeadingSlashIsOptional | aip-console-jenkins/src/main/java/io/jenkins/plugins/aipconsole/extensions/RestApiServiceImpl.java:204-208 | "x" and "/x" give the same URL |
| RestApi.ClassifyExchange | aip-console-jenkins/src/main/java/io/jenkins/plugins/aipconsole/extensions/RestApiServiceImpl.java:156-176 | a status outside 200/201/202/204 fails with that code and the body text ("EMPTY" without a body). An accepted status yields the decoded value exactly when a body decodes, and null for no body or a mismatched body. An unreadable body and a network failure are I/O errors |
| RestApi.ClassifyMultipart | aip-console-jenkins/src/main/java/io/jenkins/plugins/aipconsole/extensions/RestApiServiceImpl.java:133-146 | success exactly when the status is accepted and a body decodes; a bad status or a missing body is an `ApiCallException` |
| RestApi.ClassifyLogin | aip-console-jenkins/src/main/java/io/jenkins/plugins/aipconsole/extensions/RestApiServiceImpl.java:184-199 | the login probe succeeds exactly on an accepted status, whatever the body |
| RestApi.MultipartIsStricter | aip-console-jenkins/src/main/java/io/jenkins/plugins/aipconsole/extensions/RestApiServiceImpl.java:134-168 | the three accept the same status codes. Whatever the multipart call accepts, the exchange accepts with the same value. An accepted empty body is null for the exchange and an error for the multipart call |
| RestApi.HeaderOf | aip-console-jenkins/src/main/java/io/jenkins/plugins/aipconsole/extensions/RestApiServiceImpl.java:298-299 | a header is found exactly when one of that name (ignoring case) is present |
| RestApi.WithoutHeader | aip-console-jenkins/src/main/java/io/jenkins/plugins/aipconsole/extensions/RestApiServiceImpl.java:292 | removing a name keeps exactly the headers of other names |
| RestApi.HeaderOfWith | aip-console-jenkins/src/main/java/io/jenkins/plugins/aipconsole/extensions/RestApiServiceImpl.java:292-306 | after `header(name, v)`, reading that name gives v and reading any other name gives what it gave before |
| RestApi.FirstNamed | aip-console-jenkins/src/main/java/io/jenkins/plugins/aipconsole/extensions/RestApiServiceImpl.java:251-253 | the cookie found is stored and matches the name ignoring case; nothing is found only when no stored cookie matches |
| RestApi.RemoveFirstNamedContents | aip-console-jenkins/src/main/java/io/jenkins/plugins/aipconsole/extensions/RestApiServiceImpl.java:251-254 | with unique names, removing the match leaves exactly the cookies of other names, still unique |
| RestApi.FirstNamedIsOnlyMatch | aip-console-jenkins/src/main/java/io/jenkins/plugins/aipconsole/extensions/RestApiServiceImpl.java:265-270 | with unique names the lookup finds the one matching cookie, so the order of the stored cookies does not matter |
| RestApi.SaveOneLookup | aip-console-jenkins/src/main/java/io/jenkins/plugins/aipconsole/extensions/RestApiServiceImpl.java:250-256 | saving a cookie keeps names unique; a lookup of its name finds it and any other lookup is unchanged |
| RestApi.SaveAllInventsNothing | aip-console-jenkins/src/main/java/io/jenkins/plugins/aipconsole/extensions/RestApiServiceImpl.java:249-257 | every cookie in the jar after saving was stored before or received: none is invented |
| RestApi.SaveAllLookup | aip-console-jenkins/src/main/java/io/jenkins/plugins/aipconsole/extensions/RestApiServiceImpl.java:249-257 | after saving a response's cookies, a lookup finds the last received cookie of that name, else the earlier one; names stay unique |
| RestApi.QueryableCookieJar.constructor | aip-console-jenkins/src/main/java/io/jenkins/plugins/aipconsole/extensions/RestApiServiceImpl.java:245 | the jar starts empty |
| RestApi.QueryableCookieJar.SaveFromResponse | aip-console-jenkins/src/main/java/io/jenkins/plugins/aipconsole/extensions/RestApiServiceImpl.java:249-257 | the loop leaves the jar equal to `SaveAll` of the old jar and the received cookies, and keeps names unique; the URL plays no part |
| RestApi.QueryableCookieJar.LoadForRequest | aip-console-jenkins/src/main/java/io/jenkins/plugins/aipconsole/extensions/RestApiServiceImpl.java:261-263 | every stored cookie is sent, whatever the URL |
| RestApi.QueryableCookieJar.GetCookieByName | aip-console-jenkins/src/main/java/io/jenkins/plugins/aipconsole/extensions/RestApiServiceImpl.java:265-271 | a stored cookie whose name matches ignoring case, or none when no stored cookie matches |
| RestApi.XsrfTokenRule | aip-console-jenkins/src/main/java/io/jenkins/plugins/aipconsole/extensions/RestApiServiceImpl.java:282-296 | the token header is the cookie's value iff a token cookie is held and now < expiry, and the expiry is then kept. Otherwise the header is as it was and the expiry becomes now + 5 minutes |
| RestApi.FirstRequestHasNoToken | aip-console-jenkins/src/main/java/io/jenkins/plugins/aipconsole/extensions/RestApiServiceImpl.java:276-296 | from the initial expiry 0, a request at a non-negative time carries no token |
| RestApi.CredentialRule | aip-console-jenkins/src/main/java/io/jenkins/plugins/aipconsole/extensions/RestApiServiceImpl.java:298-309 | preset Authorization or API-key headers are kept as they were. Otherwise exactly one is added: Basic credentials for a non-blank user name, else the API key |
| RestApi.InterceptRequest | aip-console-jenkins/src/main/java/io/jenkins/plugins/aipconsole/extensions/RestApiServiceImpl.java:279-312 | the interceptor rewrites only the headers: method, URL and body go on unchanged (what it puts in the headers is stated by `XsrfTokenRule` and `CredentialRule`) |
| RestApi.AipLoginInterceptor.constructor | aip-console-jenkins/src/main/java/io/jenkins/plugins/aipconsole/extensions/RestApiServiceImpl.java:275-276 | the expiry starts at 0 |
| RestApi.AipLoginInterceptor.Intercept | aip-console-jenkins/src/main/java/io/jenkins/plugins/aipconsole/extensions/RestApiServiceImpl.java:279-312 | the request sent and the new expiry field are those of `InterceptRequest`, with the jar's XSRF-TOKEN cookie and the old expiry |
| RestApi.BuildParts | aip-console-jenkins/src/main/java/io/jenkins/plugins/aipconsole/extensions/RestApiServiceImpl.java:113-128 | one part per entry, in order: bytes become "filechunk" octet-stream parts and other entries become JSON parts without a filename. Any entry that cannot be serialised fails the call |
| RestApi.WrapperMethodsAndBodies | aip-console-jenkins/src/main/java/io/jenkins/plugins/aipconsole/extensions/RestApiServiceImpl.java:81-103 | `getForEntity` (GET, no entity) always gets past the builder. POST, PUT and PATCH need an entity, a GET with one is refused, and DELETE takes either |
| RestApi.RestApiService.constructor | aip-console-jenkins/src/main/java/io/jenkins/plugins/aipconsole/extensions/RestApiServiceImpl.java:52-58 | a fresh empty jar, a fresh interceptor, no URL, user or key |
| RestApi.RestApiService.Send | aip-console-jenkins/src/main/java/io/jenkins/plugins/aipconsole/extensions/RestApiServiceImpl.java:54-57 | every call goes through the interceptor and saves the response's cookies in the jar |
| RestApi.RestApiService.ExchangeForEntity | aip-console-jenkins/src/main/java/io/jenkins/plugins/aipconsole/extensions/RestApiServiceImpl.java:149-177 | an unserialisable entity fails before any call and changes nothing. So does a method that does not fit the body (`IllegalArgumentException` of the HTTP client: an empty method, a GET or HEAD with an entity, a POST, PUT, PATCH, PROPPATCH or REPORT without one). Otherwise the request sent is the interceptor's rewrite of the method, the joined URL and the JSON body; the new expiry is the interceptor's, the jar holds the response's cookies, and the result is `ClassifyExchange` |
| RestApi.RestApiService.ExchangeMultipartForEntity | aip-console-jenkins/src/main/java/io/jenkins/plugins/aipconsole/extensions/RestApiServiceImpl.java:107-147 | a part that cannot be serialised, or no part at all (`IllegalStateException`), fails before any call and changes nothing. So does a method that cannot carry a body (`IllegalArgumentException`: empty, GET or HEAD). Otherwise the method, the joined URL and the parts in order go through the interceptor; the new expiry is the interceptor's, the jar holds the response's cookies, and the result is `ClassifyMultipart` |
| RestApi.RestApiService.Login | aip-console-jenkins/src/main/java/io/jenkins/plugins/aipconsole/extensions/RestApiServiceImpl.java:179-200 | the request sent is the interceptor's rewrite of a GET of the user endpoint without a body. The new expiry is the interceptor's, the jar holds the response's cookies, and the result is `ClassifyLogin` |
| RestApi.RestApiService.ValidateUrlAndKey | aip-console-jenkins/src/main/java/io/jenkins/plugins/aipconsole/extensions/RestApiServiceImpl.java:61-73 | a blank URL or key fails the assertion and changes nothing. Otherwise the normalised URL and the key are stored and the login probe decides; the jar and the expiry are those the probe leaves |
| RestApi.RestApiService.ValidateUrlUserAndKey | aip-console-jenkins/src/main/java/io/jenkins/plugins/aipconsole/extensions/RestApiServiceImpl.java:76-79 | the user name is stored before the URL and key are validated, even when the assertion fails (then nothing else changes). Otherwise the jar and the expiry are those the probe leaves, with the new user name |
| Jobs.JobUrl | aip-console-tools-core/src/test/java/com/castsoftware/uc/aip/console/tools/services/JobsServiceImplTest.java:142 | the status URL starts with "/api/jobs/" and the job guid follows it, with nothing else |
| Jobs.AddVersionRequest | aip-console-tools-core/src/test/java/com/castsoftware/uc/aip/console/tools/services/JobsServiceImplTest.java:166-174 | the creation request names the app guid and the archive. Assumed, not fixed by the tests: the version parameter, and CLONE_VERSION for a set clone flag |
| Jobs.StartAddVersionJob | aip-console-tools-core/src/test/java/com/castsoftware/uc/aip/console/tools/services/JobsServiceImplTest.java:59-132 | a null argument is an assertion failure before any call. A failed creation, status read or resume is a job-service error. A job is resumed exactly when it is still STARTING. Success returns the created job's guid. Assumed: the status is read from the returned job URL |
| Jobs.CreationRequestMatchesTests | aip-console-tools-core/src/test/java/com/castsoftware/uc/aip/console/tools/services/JobsServiceImplTest.java:166-174 | the request satisfies the tests' matcher: ADD_VERSION, non-empty parameters, and the guid and archive equal ignoring case |
| Jobs.Await | aip-console-tools-core/src/test/java/com/castsoftware/uc/aip/console/tools/services/JobsServiceImplTest.java:134-164 | a null guid, and only a null guid, is an assertion failure. A wait that runs out has seen only running answers, one poll per answer. Otherwise it ends at its last poll, every earlier answer running: an error ends it with that error, and a terminal status gives `f` of that status |
| Jobs.PollAndWaitForJobFinished | aip-console-tools-core/src/test/java/com/castsoftware/uc/aip/console/tools/services/JobsServiceImplTest.java:134-164 | the polling loop returns `Await`. A null guid is an assertion failure with no request; every request goes to the job's status URL, one per answer consumed |
| Jobs.AwaitStopsAtFirstStop | aip-console-tools-core/src/test/java/com/castsoftware/uc/aip/console/tools/services/JobsServiceImplTest.java:148-164 | the wait finishes exactly at the first terminal status with every earlier answer running, and gives `f` of that status. An error ends it at that answer. It is still waiting only if every answer was running |
| Jobs.AwaitIgnoresLaterAnswers | aip-console-tools-core/src/test/java/com/castsoftware/uc/aip/console/tools/services/JobsServiceImplTest.java:139-164 | answers after the one that ends the wait change nothing |
| Jobs.ApiFailureIsNotRetried | aip-console-tools-core/src/test/java/com/castsoftware/uc/aip/console/tools/services/JobsServiceImplTest.java:139-146 | an API failure on the first poll ends the wait with that error after one request |
| Jobs.CanceledAfterStarted | aip-console-tools-core/src/test/java/com/castsoftware/uc/aip/console/tools/services/JobsServiceImplTest.java:148-164 | STARTED then CANCELED ends the wait with CANCELED after two requests |
| Applications.ApplicationList | aip-console-tools-core/src/main/java/com/castsoftware/aip/console/tools/core/services/ApplicationServiceImpl.java:121-128 | a null listing is an empty list; a failed call is an application-service error |
| Applications.FirstApplication | aip-console-tools-core/src/main/java/com/castsoftware/aip/console/tools/core/services/ApplicationServiceImpl.java:41-46 | the first non-null application that matches, or none exactly when none matches |
| Applications.ApplicationGuidFromName | aip-console-tools-core/src/main/java/com/castsoftware/aip/console/tools/core/services/ApplicationServiceImpl.java:40-49 | the guid of the first non-null application whose name matches ignoring case (as `FirstApplication` picks it), null when none does; fails exactly when the listing fails |
| Applications.ApplicationNameFromGuid | aip-console-tools-core/src/main/java/com/castsoftware/aip/console/tools/core/services/ApplicationServiceImpl.java:51-61 | the name of the first non-null application whose guid matches ignoring case (as `FirstApplication` picks it), null when none does; fails exactly when the listing fails |
| Applications.NameGuidRoundTrip | aip-console-tools-core/src/main/java/com/castsoftware/aip/console/tools/core/services/ApplicationServiceImpl.java:40-61 | with guids unique ignoring case, looking up the guid found for a name gives back a name equal to it ignoring case |
| Applications.ApplicationVersions | aip-console-tools-core/src/main/java/com/castsoftware/aip/console/tools/core/services/ApplicationServiceImpl.java:130-138 | the answer as is; a failed call is an application-service error |
| Applications.ApplicationHasVersion | aip-console-tools-core/src/main/java/com/castsoftware/aip/console/tools/core/services/ApplicationServiceImpl.java:63-68 | true iff the version set is non-null and non-empty; fails exactly when the call fails |
| Applications.FirstNode | aip-console-tools-core/src/main/java/com/castsoftware/aip/console/tools/core/services/ApplicationServiceImpl.java:95-100 | the guid of the first node whose name matches ignoring case (every earlier node does not match); none exactly when no node matches |
| Applications.GetOrCreateApplicationFromName | aip-console-tools-core/src/main/java/com/castsoftware/aip/console/tools/core/services/ApplicationServiceImpl.java:75-119 | a blank name fails with no call, and a failed listing fails after one call. A match gives its guid, and no match without auto-create gives null. A failed node listing or a node name that matches no node fails. Creation starts exactly when auto-create is set, no application matches, and the node is found or not asked for. The calls are then the listing, the node listing when a node name is given, the creation with the name and the first matching node's guid (null without a node name), and the wait when the job started. A created job gives the application guid when COMPLETED, else null; creation errors are wrapped |
| Applications.CreateApplication | aip-console-tools-core/src/main/java/com/castsoftware/aip/console/tools/core/services/ApplicationServiceImpl.java:111-116 | the creation job is started and then awaited; a failed start is wrapped as a creation failure |
| Applications.GetOrCreateApplication | aip-console-tools-core/src/main/java/com/castsoftware/aip/console/tools/core/services/ApplicationServiceImpl.java:70-73 | the two-argument form never lists nodes, and it equals the three-argument form with a null node name whatever the node list would have been |
| Applications.ExistingApplicationIsReused | aip-console-tools-core/src/main/java/com/castsoftware/aip/console/tools/core/services/ApplicationServiceImpl.java:81-118 | when a listed application matches the name, nothing is created whatever auto-create and the node say, and a guid is returned |
| Applications.DeliveryConfigurationRequest | aip-console-tools-core/src/main/java/com/castsoftware/aip/console/tools/core/services/ApplicationServiceImpl.java:142-148 | posted to "/api/applications/<guid>/delivery-configuration" with no packages |
| Applications.CreateDeliveryConfiguration | aip-console-tools-core/src/main/java/com/castsoftware/aip/console/tools/core/services/ApplicationServiceImpl.java:148-150 | the response's guid, null for a null response; an `ApiCallException` passes through unwrapped |
| Applications.ExclusionPatternsArePieces | aip-console-tools-core/src/main/java/com/castsoftware/aip/console/tools/core/services/ApplicationServiceImpl.java:142 | every pattern is a comma-free piece, and every non-empty piece is a pattern; a string without a comma is its own only pattern |
| Applications.TrailingCommasAddNothing | aip-console-tools-core/src/main/java/com/castsoftware/aip/console/tools/core/services/ApplicationServiceImpl.java:142 | "a,b,," gives exactly {"a", "b"} |
| Commands.JobExit | aip-console-tools-cli/src/main/java/com/castsoftware/aip/console/tools/commands/AddVersionCommand.java:159-175 | COMPLETED gives RETURN_OK, any other terminal state RETURN_JOB_FAILED. A job-service failure to start or poll gives RETURN_JOB_POLL_ERROR. Each holds iff the corresponding wait outcome |
| Commands.CompletedJobExitsOk | aip-console-tools-cli/src/main/java/com/castsoftware/aip/console/tools/commands/AddVersionCommand.java:160-164 | running states followed by COMPLETED give RETURN_OK, whatever answers follow |
| Analyze.FindByName | aip-console-tools-cli/src/main/java/com/castsoftware/aip/console/tools/commands/AnalyzeCommand.java:111-112 | a version whose name equals the given one ignoring case, none exactly when no version does |
| Analyze.LatestDelivered | aip-console-tools-cli/src/main/java/com/castsoftware/aip/console/tools/commands/AnalyzeCommand.java:114-117 | a version at or after DELIVERED with the largest date among those, the first such in order on ties; none exactly when none is delivered |
| Analyze.SelectVersion | aip-console-tools-cli/src/main/java/com/castsoftware/aip/console/tools/commands/AnalyzeCommand.java:110-118 | with a name: the chosen version carries it, and none is chosen iff no version does. Without one: the chosen version is delivered with the latest date, and none is chosen iff none is delivered |
| Analyze.TiesKeepTheFirst | aip-console-tools-cli/src/main/java/com/castsoftware/aip/console/tools/commands/AnalyzeCommand.java:114-117 | of two delivered versions with the same date, the first is chosen |
| Analyze.StartStep | aip-console-tools-cli/src/main/java/com/castsoftware/aip/console/tools/commands/AnalyzeCommand.java:127-130 | acceptance iff the version is DELIVERED, ANALYZE otherwise |
| Analyze.EndStep | aip-console-tools-cli/src/main/java/com/castsoftware/aip/console/tools/commands/AnalyzeCommand.java:132-142 | ANALYZE iff there is no snapshot. CONSOLIDATE_SNAPSHOT iff there is a snapshot, major <= 1 and minor <= 15. UPLOAD_APP_SNAPSHOT for any other snapshot |
| Analyze.EndStepComparesEachPart | aip-console-tools-cli/src/main/java/com/castsoftware/aip/console/tools/commands/AnalyzeCommand.java:133-134 | the parts are compared separately: 0.16 gets the upload step |
| Analyze.AnalysisRequest | aip-console-tools-cli/src/main/java/com/castsoftware/aip/console/tools/commands/AnalyzeCommand.java:129-146 | an ANALYZE job with no source, the chosen steps, and the version's name and guid |
| Analyze.Call | aip-console-tools-cli/src/main/java/com/castsoftware/aip/console/tools/commands/AnalyzeCommand.java:77-163 | a blank name gives INFO_MISSING before login; then NO_PASSWORD iff the key is missing and LOGIN_ERROR iff login fails. INFO_MISSING iff the name is blank, the listing fails or the version call fails. NOT_FOUND iff the guid found is blank. A null version set escapes `call()` as a null dereference, and NO_VERSION iff the set is empty. VERSION_NOT_FOUND iff versions exist but none is selected. A job starts iff a version is selected; it is for that version and ends as `JobExit` |
| Analyze.AnalysedVersionRule | aip-console-tools-cli/src/main/java/com/castsoftware/aip/console/tools/commands/AnalyzeCommand.java:109-130 | a started analysis is for a listed version, named as asked or else the latest delivered. It starts with acceptance iff that version is DELIVERED |
| AddVersion.VersionJobRequest | aip-console-tools-cli/src/main/java/com/castsoftware/aip/console/tools/commands/AddVersionCommand.java:152-157 | CLONE_VERSION iff cloning, with the guid, the uploaded source and the version name, and no steps. Security dataflow, backup and backup name are passed on from the options |
| AddVersion.Submit | aip-console-tools-cli/src/main/java/com/castsoftware/aip/console/tools/commands/AddVersionCommand.java:147-157 | from the upload on: UPLOAD_ERROR iff the upload fails; INFO_MISSING iff it succeeds and the clone check fails; otherwise the job starts with `VersionJobRequest` of the guid, the uploaded source and the clone decision, and ends as `JobExit`. The name and guid are left as they are |
| AddVersion.AfterGuid | aip-console-tools-cli/src/main/java/com/castsoftware/aip/console/tools/commands/AddVersionCommand.java:143-145 | a failed name lookup (empty name, known guid) gives INFO_MISSING with nothing changed. Otherwise UPLOAD_ERROR iff the upload fails, INFO_MISSING iff the clone check fails, and a job starts iff neither does, with `VersionJobRequest` of the guid, the uploaded source and the clone decision. The guid never changes |
| AddVersion.Run | aip-console-tools-cli/src/main/java/com/castsoftware/aip/console/tools/commands/AddVersionCommand.java:113-177 | NO_PASSWORD iff the key is missing and LOGIN_ERROR iff login fails, with nothing changed. INFO_MISSING iff name and guid are both blank, get-or-create fails, the name lookup fails or the clone check fails. NOT_FOUND iff get-or-create gave a blank guid. UPLOAD_ERROR iff the run reaches the upload and it fails. A job starts iff none of these happens; its request is `VersionJobRequest` of the non-blank guid, the uploaded source and the clone decision, and it ends as `JobExit`. A given guid is kept |
| AddVersion.JobTypeRule | aip-console-tools-cli/src/main/java/com/castsoftware/aip/console/tools/commands/AddVersionCommand.java:150-152 | CLONE_VERSION iff the clone flag was set and the application has a version, otherwise ADD_VERSION; the clone field is left holding that choice |
| AddVersion.GivenGuidSkipsLookup | aip-console-tools-cli/src/main/java/com/castsoftware/aip/console/tools/commands/AddVersionCommand.java:131-141 | with a guid given, the creation answers play no part and the outcome is never NOT_FOUND |
| AddVersion.NameResolvedFromGuid | aip-console-tools-cli/src/main/java/com/castsoftware/aip/console/tools/commands/AddVersionCommand.java:143-147 | an empty name is replaced before the upload by the name found for the guid |
| AddVersion.NodeNameIsIgnored | aip-console-tools-cli/src/main/java/com/castsoftware/aip/console/tools/commands/AddVersionCommand.java:133 | the node-name option does not change the run |
| AddVersion.AddVersionCommand.constructor | aip-console-tools-cli/src/main/java/com/castsoftware/aip/console/tools/commands/AddVersionCommand.java:61-107 | clone defaults to true; auto-create, security dataflow and backup default to false |
| AddVersion.AddVersionCommand.Call | aip-console-tools-cli/src/main/java/com/castsoftware/aip/console/tools/commands/AddVersionCommand.java:113-177 | the outcome, the job request and the overwritten name, guid and clone fields are those of `Run` on the old fields |
| DeliverVersion.DeliveryEndStep | aip-console-tools-cli/src/main/java/com/castsoftware/aip/console/tools/commands/DeliverVersionCommand.java:157 | SET_CURRENT iff auto-deploy, DELIVER_VERSION otherwise |
| DeliverVersion.DeliveryJobRequest | aip-console-tools-cli/src/main/java/com/castsoftware/aip/console/tools/commands/DeliverVersionCommand.java:156-163 | CLONE_VERSION iff cloning, ending at the delivery end step, with auto-discover, security dataflow, backup and backup name passed on from the options and no configuration guid yet |
| DeliverVersion.Deliver | aip-console-tools-cli/src/main/java/com/castsoftware/aip/console/tools/commands/DeliverVersionCommand.java:152-182 | once the guid is known: never NOT_FOUND. UPLOAD_ERROR iff the upload fails; INFO_MISSING iff the clone check fails after it. A failed configuration call (patterns given) escapes `call()`, after the configuration was requested and before any job. A job starts iff none of these happens; its request is `DeliveryJobRequest` of the guid, the uploaded source and the clone decision, up to the configuration guid, and it ends as `JobExit`; it is CLONE_VERSION iff cloning and the application has a version, and ends at the step auto-deploy chooses |
| DeliverVersion.Run | aip-console-tools-cli/src/main/java/com/castsoftware/aip/console/tools/commands/DeliverVersionCommand.java:119-191 | INFO_MISSING iff the name is blank (before login), get-or-create fails, or the clone check fails. NO_PASSWORD and LOGIN_ERROR iff login fails that way. NOT_FOUND iff get-or-create gave a blank guid. UPLOAD_ERROR iff the run reaches the upload and it fails. A configuration failure escapes `call()`. A job starts iff none of these happens; its request is `DeliveryJobRequest` of the resolved guid, the uploaded source and the clone decision, up to the configuration guid, and it ends as `JobExit` |
| DeliverVersion.BlankNameNeedsNoLogin | aip-console-tools-cli/src/main/java/com/castsoftware/aip/console/tools/commands/DeliverVersionCommand.java:124-138 | with a blank name the login answer plays no part |
| DeliverVersion.DeliveryJobRule | aip-console-tools-cli/src/main/java/com/castsoftware/aip/console/tools/commands/DeliverVersionCommand.java:154-163 | CLONE_VERSION iff cloning and the application has a version. The job ends at SET_CURRENT iff auto-deploy is set, and auto-discover is passed on |
| DeliverVersion.DeliveryConfigurationRule | aip-console-tools-cli/src/main/java/com/castsoftware/aip/console/tools/commands/DeliverVersionCommand.java:165-172 | a configuration is requested iff the patterns are not blank, with those patterns split at commas. The job carries a configuration guid iff the server answered a non-blank one, and then it is that guid |
| DeliverVersion.DeliverVersionCommand.constructor | aip-console-tools-cli/src/main/java/com/castsoftware/aip/console/tools/commands/DeliverVersionCommand.java:71-109 | clone and auto-discover default to true; auto-deploy, auto-create, security dataflow and backup default to false |
| DeliverVersion.DeliverVersionCommand.Call | aip-console-tools-cli/src/main/java/com/castsoftware/aip/console/tools/commands/DeliverVersionCommand.java:119-191 | the outcome, the configuration request, the job request and the overwritten clone field are those of `Run` |
| SharedOptionsModel.FullServerRootUrl | aip-console-tools-cli/src/main/java/com/castsoftware/uc/aip/console/tools/commands/SharedOptions.java:39-44 | blank or null is kept. Otherwise the result starts with "http": it is kept if it already did, else "http://" is prepended |
| SharedOptionsModel.FullServerRootUrlIdempotent | aip-console-tools-cli/src/main/java/com/castsoftware/uc/aip/console/tools/commands/SharedOptions.java:40-43 | a second read returns the same URL |
| SharedOptionsModel.UpperCaseSchemeIsPrefixed | aip-console-tools-cli/src/main/java/com/castsoftware/uc/aip/console/tools/commands/SharedOptions.java:40 | the test is case-sensitive: "HTTP://host" becomes "http://HTTP://host" |
| SharedOptionsModel.ListText | aip-console-tools-cli/src/main/java/com/castsoftware/uc/aip/console/tools/commands/SharedOptions.java:53 | a null list prints "null", a list prints in brackets |
| SharedOptionsModel.Describe | aip-console-tools-cli/src/main/java/com/castsoftware/uc/aip/console/tools/commands/SharedOptions.java:46-55 | the description opens with the server URL followed by `apiKey='omitted'` and closes with "}" |
| SharedOptionsModel.ToStringHidesApiKey | aip-console-tools-cli/src/main/java/com/castsoftware/uc/aip/console/tools/commands/SharedOptions.java:46-55 | options that differ only in their key describe themselves alike |
| SharedOptionsModel.SharedOptions.constructor | aip-console-tools-cli/src/main/java/com/castsoftware/uc/aip/console/tools/commands/SharedOptions.java:15-30 | the server URL defaults to http://localhost:8081; nothing else is set |
| SharedOptionsModel.SharedOptions.GetApiKeyValue | aip-console-tools-cli/src/main/java/com/castsoftware/uc/aip/console/tools/commands/SharedOptions.java:32-37 | a variable name, when given, wins: its value, or null when it is not set. The key option is used only without one |
| SharedOptionsModel.SharedOptions.GetFullServerRootUrl | aip-console-tools-cli/src/main/java/com/castsoftware/uc/aip/console/tools/commands/SharedOptions.java:39-44 | the field is overwritten with `FullServerRootUrl` of its old value and returned |

## Left out

- The network, sockets, timeouts and logging. Each call's outcome is an input: a response or `Unreachable`, and for the commands an `Answers` record.
- JSON serialisation and decoding. A body carries its decoding as `Parsed`, `Mismatched` or `Unreadable`; an entity carries its JSON text or `Unserializable`.
- The clock. `System.currentTimeMillis()` is the `now` parameter, and `long` overflow of the expiry time is not modelled.
- The base64 encoding inside `Credentials.basic`. `BasicCredentials(user, key)` stands for it.
- Unicode case folding. "Ignore case" folds ASCII letters only.
- Set order. The cookie jar's `HashSet` is a sequence with unique names, and with unique names lookups do not depend on order. The version `HashSet` is a sequence, so its iteration order is an input; it decides only ties.
- The `headers` argument of `exchangeMultipartForEntity`, which the method never reads.
- `JobsServiceImpl` itself is not part of this model; only the contract its tests fix is. The following are assumed:
  - the terminal states are COMPLETED, CANCELED and FAILED;
  - a job is resumed exactly when its status reads STARTING;
  - the job-request overloads used by the commands take the job guid (or failure) as an input.
- The constants' numeric exit codes and step names, the API-key header's name (assumed "X-API-KEY") and the applications endpoint. They are named, not valued.
- Commands.JobExit: a started job's guid is an input. The step from the builder to the job guid belongs to `JobsServiceImpl`, which is not part of this model.
- Applications.GetOrCreateApplicationFromName: a null node list (a `NullPointerException`) is not modelled. Node listing answers a list or fails.
- Analyze.Call: `getAipConsoleApiInfo` always answers. Its failure modes are not modelled.
- Release dates, snapshot names and backup names built from the clock are not modelled; neither are the upload's internals. The upload answers a source path or an `UploadException`.
- Timeouts set on the transport before login, and the `sharedOptions` calls that feed login. The login outcome is an input to each command.
- SharedOptionsModel.ListText: only the brackets and "null" are stated. The text between the brackets (the elements joined by ", ") has no contract of its own.
- The interactive key prompt of the `--apikey` option.
- Jobs.AddVersionRequest: the tests only pass a false clone flag and never look at the version parameter. CLONE_VERSION for a set flag and the `ParamVersionName` parameter are assumed.
- Jobs.StartAddVersionJob: the tests match any URL, so reading the status (and resuming) at the `jobUrl` of the creation answer is assumed.
- Applications.FirstNode: a matching node with a null guid makes `findFirst` throw a `NullPointerException`; node guids are modelled as non-null strings.
- RestApi.RestApiService.Send: it and the calls built on it require a stored URL and key. Before `validateUrlAndKey` the source builds a URL starting with "null", which the HTTP client rejects with an unchecked exception; that call is not modelled.
- RestApi.QueryableCookieJar.LoadForRequest: the HTTP client adds the jar's cookies (and its own transport headers) after the interceptor. `sent` is the request as the interceptor passes it on, without the Cookie header.
- The HTTP client's own code is not part of this model. `MethodFitsBody` states the check its request builder makes on a method and a body, as OkHttp 3 does it.
- Java assertions are taken as enabled, so a failed `assert` is an outcome (`AssertionFailed`).
