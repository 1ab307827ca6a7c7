/** The application service (`ApplicationServiceImpl`): finding an application
    by name or guid ignoring case, deciding whether to create it (on a named
    node), and building a delivery configuration from comma-separated exclusion
    patterns. Every server answer is an input. */
module Applications {
  import opened Lang
  import opened RestApi
  import opened Jobs

  const NODES_ENDPOINT: string := "/api/nodes"

  datatype ApplicationDto = ApplicationDto(name: JStr, guid: JStr)

  datatype NodeDto = NodeDto(name: JStr, guid: string)

  /** Where a version stands in the delivery life cycle; only DELIVERED and its
      place in the enumeration order matter to the clients. */
  datatype VersionStatus = BeforeDelivery(stage: string) | Delivered | AfterDelivery(stage: string)

  /** The enumeration order "at or after DELIVERED". */
  predicate AtLeastDelivered(s: VersionStatus) {
    !s.BeforeDelivery?
  }

  /** `VersionDto`: name, guid, status and version date (milliseconds). */
  datatype VersionDto = VersionDto(name: JStr, guid: JStr, status: VersionStatus, versionDate: int)

  /** An answer of `getForEntity`: a value, null, or an `ApiCallException`. */
  type Answer<T> = Result<Option<T>, ApiCallError>

  /** The causes an `ApplicationServiceException` can carry. */
  datatype ApplicationError =
    | NoApplicationName
    | ListingFailed(cause: ApiCallError)
    | VersionsUnavailable(cause: ApiCallError)
    | NodeNotFound(nodeName: string)
    | CreationFailed(cause: ApiCallError)

  /** `getApplications`: a null answer is an empty list. */
  function ApplicationList(listing: Answer<seq<Option<ApplicationDto>>>): (r: Result<seq<Option<ApplicationDto>>, ApplicationError>)
    ensures listing.Err? <==> r.Err?
    ensures listing.Err? ==> r == Err(ListingFailed(listing.error))
    ensures listing == Ok(None) ==> r == Ok([])
    ensures listing.Ok? && listing.value.Some? ==> r == Ok(listing.value.value)
  {
    match listing
    case Err(e) => Err(ListingFailed(e))
    case Ok(None) => Ok([])
    case Ok(Some(apps)) => Ok(apps)
  }

  /** An application that is present and satisfies `matches`. */
  predicate Matching(a: Option<ApplicationDto>, matches: ApplicationDto -> bool) {
    a.Some? && matches(a.value)
  }

  /** `filter(Objects::nonNull).filter(matches).findFirst()`. */
  function FirstApplication(apps: seq<Option<ApplicationDto>>, matches: ApplicationDto -> bool): (r: Option<ApplicationDto>)
    ensures r.None? <==> forall i :: 0 <= i < |apps| ==> !Matching(apps[i], matches)
    ensures r.Some? ==> exists i :: 0 <= i < |apps| && apps[i] == r && matches(r.value)
                                   && forall j :: 0 <= j < i ==> !Matching(apps[j], matches)
  {
    if apps == [] then None
    else if Matching(apps[0], matches) then apps[0]
    else
      var r := FirstApplication(apps[1..], matches);
      assert forall i :: 0 < i < |apps| ==> apps[i] == apps[1..][i - 1];
      if r.Some? then
        var i :| 0 <= i < |apps[1..]| && apps[1..][i] == r && matches(r.value)
                 && forall j :: 0 <= j < i ==> !Matching(apps[1..][j], matches);
        assert apps[i + 1] == r;
        r
      else r
  }

  function NameIs(name: JStr): ApplicationDto -> bool {
    (a: ApplicationDto) => EqualsIgnoreCase(name, a.name)
  }

  function GuidIs(guid: JStr): ApplicationDto -> bool {
    (a: ApplicationDto) => EqualsIgnoreCase(guid, a.guid)
  }

  /** `getApplicationGuidFromName`: the guid of the first application whose
      name equals the given one ignoring case, or null. */
  function ApplicationGuidFromName(listing: Answer<seq<Option<ApplicationDto>>>, name: JStr): (r: Result<JStr, ApplicationError>)
    ensures listing.Err? <==> r.Err?
    ensures r.Ok? && r.value.Str? ==>
              exists a :: a in ApplicationList(listing).value && Matching(a, NameIs(name)) && a.value.guid == r.value
    ensures r.Ok? && (forall a :: a in ApplicationList(listing).value ==> !Matching(a, NameIs(name))) ==> r.value.Null?
    ensures r.Ok? ==> r.value == (var a := FirstApplication(ApplicationList(listing).value, NameIs(name));
                                  if a.Some? then a.value.guid else Null)
  {
    match ApplicationList(listing)
    case Err(e) => Err(e)
    case Ok(apps) =>
      var found := FirstApplication(apps, NameIs(name));
      Ok(if found.Some? then found.value.guid else Null)
  }

  /** `getApplicationNameFromGuid`: the name of the first application whose
      guid equals the given one ignoring case, or null. */
  function ApplicationNameFromGuid(listing: Answer<seq<Option<ApplicationDto>>>, guid: JStr): (r: Result<JStr, ApplicationError>)
    ensures listing.Err? <==> r.Err?
    ensures r.Ok? && r.value.Str? ==>
              exists a :: a in ApplicationList(listing).value && Matching(a, GuidIs(guid)) && a.value.name == r.value
    ensures r.Ok? && (forall a :: a in ApplicationList(listing).value ==> !Matching(a, GuidIs(guid))) ==> r.value.Null?
    ensures r.Ok? ==> r.value == (var a := FirstApplication(ApplicationList(listing).value, GuidIs(guid));
                                  if a.Some? then a.value.name else Null)
  {
    match ApplicationList(listing)
    case Err(e) => Err(e)
    case Ok(apps) =>
      var found := FirstApplication(apps, GuidIs(guid));
      Ok(if found.Some? then found.value.name else Null)
  }

  /** A name lookup followed by a guid lookup comes back to a name that equals
      the first one ignoring case, when the guids are unique. */
  lemma NameGuidRoundTrip(apps: seq<Option<ApplicationDto>>, name: JStr)
    requires forall i, j :: 0 <= i < j < |apps| && apps[i].Some? && apps[j].Some? ==>
               !EqualsIgnoreCase(apps[i].value.guid, apps[j].value.guid)
    requires ApplicationGuidFromName(Ok(Some(apps)), name).value.Str?
    ensures var guid := ApplicationGuidFromName(Ok(Some(apps)), name).value;
            var back := ApplicationNameFromGuid(Ok(Some(apps)), guid).value;
            EqualsIgnoreCase(name, back)
  {
    var a := FirstApplication(apps, NameIs(name));
    var i :| 0 <= i < |apps| && apps[i] == a && NameIs(name)(a.value);
    var guid := a.value.guid;
    var b := FirstApplication(apps, GuidIs(guid));
    assert Matching(apps[i], GuidIs(guid));
    var k :| 0 <= k < |apps| && apps[k] == b && GuidIs(guid)(b.value)
             && forall j :: 0 <= j < k ==> !Matching(apps[j], GuidIs(guid));
  }

  /** `getApplicationVersion`: the version set, null, or a wrapped failure. */
  function ApplicationVersions(versions: Answer<seq<VersionDto>>): (r: Result<Option<seq<VersionDto>>, ApplicationError>)
    ensures versions.Err? ==> r == Err(VersionsUnavailable(versions.error))
    ensures versions.Ok? ==> r == Ok(versions.value)
  {
    match versions
    case Err(e) => Err(VersionsUnavailable(e))
    case Ok(v) => Ok(v)
  }

  /** `applicationHasVersion`: true iff the answer is a non-empty set. */
  function ApplicationHasVersion(versions: Answer<seq<VersionDto>>): (r: Result<bool, ApplicationError>)
    ensures r.Err? <==> versions.Err?
    ensures r == Ok(true) <==> versions.Ok? && versions.value.Some? && |versions.value.value| > 0
  {
    match ApplicationVersions(versions)
    case Err(e) => Err(e)
    case Ok(v) => Ok(v.Some? && |v.value| > 0)
  }

  // ---------------------------------------------------------------- get or create

  /** The calls the get-or-create chain makes, in order. */
  datatype AppCall =
    | ListApplications
    | ListNodes
    | StartCreateApplication(name: string, nodeGuid: JStr)
    | AwaitJob(jobGuid: string)

  /** `StillPolling`: the given job answers ran out while the creation job was
      still running. */
  datatype Resolution = Resolved(guid: JStr) | Unresolved(error: ApplicationError) | StillPolling

  datatype AppResolution = AppResolution(outcome: Resolution, calls: seq<AppCall>)

  predicate StartsCreation(calls: seq<AppCall>) {
    exists c :: c in calls && c.StartCreateApplication?
  }

  /** The node lookup: the guid of the first node whose name matches. */
  function FirstNode(nodes: seq<NodeDto>, nodeName: JStr): (r: Option<string>)
    ensures r.None? <==> forall n :: n in nodes ==> !EqualsIgnoreCase(nodeName, n.name)
    ensures r.Some? ==> exists i :: 0 <= i < |nodes| && EqualsIgnoreCase(nodeName, nodes[i].name) && nodes[i].guid == r.value
                                   && forall j :: 0 <= j < i ==> !EqualsIgnoreCase(nodeName, nodes[j].name)
  {
    if nodes == [] then None
    else if EqualsIgnoreCase(nodeName, nodes[0].name) then Some(nodes[0].guid)
    else
      var r := FirstNode(nodes[1..], nodeName);
      assert forall n :: n in nodes ==> n == nodes[0] || n in nodes[1..];
      if r.Some? then
        var i :| 0 <= i < |nodes[1..]| && EqualsIgnoreCase(nodeName, nodes[1..][i].name) && nodes[1..][i].guid == r.value
                 && forall j :: 0 <= j < i ==> !EqualsIgnoreCase(nodeName, nodes[1..][j].name);
        assert nodes[i + 1] == nodes[1..][i];
        assert forall j :: 0 < j <= i ==> nodes[j] == nodes[1..][j - 1];
        r
      else r
  }

  /** What the creation job's terminal status yields: its application guid
      when COMPLETED, otherwise null. */
  function CreatedGuid(s: JobStatus): JStr {
    if s.state == Completed then s.appGuid else Null
  }

  /** `getOrCreateApplicationFromName(name, autoCreate, nodeName)`. */
  function GetOrCreateApplicationFromName(name: JStr, autoCreate: bool, nodeName: JStr,
                                          listing: Answer<seq<Option<ApplicationDto>>>,
                                          nodes: Result<seq<NodeDto>, ApiCallError>,
                                          created: Result<string, ApiCallError>,
                                          polls: seq<PollResult>): (r: AppResolution)
    ensures IsBlank(name) <==> r.outcome == Unresolved(NoApplicationName)
    ensures IsBlank(name) ==> r.calls == []
    ensures !IsBlank(name) ==> |r.calls| >= 1 && r.calls[0] == ListApplications
    ensures !IsBlank(name) && listing.Err? ==>
              r == AppResolution(Unresolved(ListingFailed(listing.error)), [ListApplications])
    ensures !IsBlank(name) && listing.Ok? && FirstApplication(ApplicationList(listing).value, NameIs(name)).Some? ==>
              r == AppResolution(Resolved(FirstApplication(ApplicationList(listing).value, NameIs(name)).value.guid), [ListApplications])
    ensures !IsBlank(name) && listing.Ok? && FirstApplication(ApplicationList(listing).value, NameIs(name)).None? && !autoCreate ==>
              r == AppResolution(Resolved(Null), [ListApplications])
    ensures StartsCreation(r.calls) <==>
              !IsBlank(name) && listing.Ok? && FirstApplication(ApplicationList(listing).value, NameIs(name)).None? && autoCreate
              && (IsBlank(nodeName) || (nodes.Ok? && FirstNode(nodes.value, nodeName).Some?))
    ensures StartsCreation(r.calls) ==>
              var before := if IsBlank(nodeName) then [ListApplications] else [ListApplications, ListNodes];
              var start := StartCreateApplication(name.s, if IsBlank(nodeName) then Null else Str(FirstNode(nodes.value, nodeName).value));
              && (created.Err? ==> r.calls == before + [start])
              && (created.Ok? ==> r.calls == before + [start, AwaitJob(created.value)])
    ensures !IsBlank(name) && listing.Ok? && FirstApplication(ApplicationList(listing).value, NameIs(name)).None? && autoCreate
              && !IsBlank(nodeName) && nodes.Ok? && FirstNode(nodes.value, nodeName).None? ==>
              r.outcome == Unresolved(NodeNotFound(nodeName.s))
    ensures !IsBlank(name) && listing.Ok? && FirstApplication(ApplicationList(listing).value, NameIs(name)).None? && autoCreate
              && !IsBlank(nodeName) && nodes.Err? ==>
              r == AppResolution(Unresolved(CreationFailed(nodes.error)), [ListApplications, ListNodes])
    ensures StartsCreation(r.calls) && created.Ok? ==>
              var w := Await(Str(created.value), polls, CreatedGuid);
              && (w.Finished? ==> r.outcome == Resolved(w.value))
              && (w.PollError? ==> r.outcome == Unresolved(CreationFailed(w.error)))
              && (w.StillWaiting? ==> r.outcome == StillPolling)
    ensures StartsCreation(r.calls) && created.Err? ==> r.outcome == Unresolved(CreationFailed(created.error))
  {
    if IsBlank(name) then AppResolution(Unresolved(NoApplicationName), [])
    else
      match ApplicationList(listing)
      case Err(e) => AppResolution(Unresolved(e), [ListApplications])
      case Ok(apps) =>
        var found := FirstApplication(apps, NameIs(name));
        if found.Some? then AppResolution(Resolved(found.value.guid), [ListApplications])
        else if !autoCreate then AppResolution(Resolved(Null), [ListApplications])
        else if IsBlank(nodeName) then
          CreateApplication(name.s, Null, [ListApplications], created, polls)
        else
          var calls := [ListApplications, ListNodes];
          match nodes
          case Err(e) => AppResolution(Unresolved(CreationFailed(e)), calls)
          case Ok(ns) =>
            var nodeGuid := FirstNode(ns, nodeName);
            if nodeGuid.None? then AppResolution(Unresolved(NodeNotFound(nodeName.s)), calls)
            else CreateApplication(name.s, Str(nodeGuid.value), calls, created, polls)
  }

  /** The creation job: started, then waited for. */
  function CreateApplication(name: string, nodeGuid: JStr, before: seq<AppCall>,
                             created: Result<string, ApiCallError>, polls: seq<PollResult>): (r: AppResolution)
    ensures |r.calls| > |before| && r.calls[..|before|] == before
    ensures r.calls[|before|] == StartCreateApplication(name, nodeGuid)
    ensures created.Err? ==> r == AppResolution(Unresolved(CreationFailed(created.error)), before + [StartCreateApplication(name, nodeGuid)])
    ensures created.Ok? ==> r.calls == before + [StartCreateApplication(name, nodeGuid), AwaitJob(created.value)]
  {
    var start := before + [StartCreateApplication(name, nodeGuid)];
    match created
    case Err(e) => AppResolution(Unresolved(CreationFailed(e)), start)
    case Ok(jobGuid) =>
      var w := Await(Str(jobGuid), polls, CreatedGuid);
      var outcome := if w.Finished? then Resolved(w.value)
                     else if w.PollError? then Unresolved(CreationFailed(w.error))
                     else StillPolling;
      AppResolution(outcome, start + [AwaitJob(jobGuid)])
  }

  /** `getOrCreateApplicationFromName(name, autoCreate)`: no node name, so the
      node list is never requested and its answer plays no part. */
  function GetOrCreateApplication(name: JStr, autoCreate: bool,
                                  listing: Answer<seq<Option<ApplicationDto>>>,
                                  created: Result<string, ApiCallError>,
                                  polls: seq<PollResult>): (r: AppResolution)
    ensures ListNodes !in r.calls
    ensures forall nodes :: r == GetOrCreateApplicationFromName(name, autoCreate, Null, listing, nodes, created, polls)
  {
    GetOrCreateApplicationFromName(name, autoCreate, Null, listing, Err(IoFailure), created, polls)
  }

  /** An existing application is never created again, whatever `autoCreate`
      and the node name say. */
  lemma ExistingApplicationIsReused(name: JStr, autoCreate: bool, nodeName: JStr,
                                    apps: seq<Option<ApplicationDto>>,
                                    nodes: Result<seq<NodeDto>, ApiCallError>,
                                    created: Result<string, ApiCallError>, polls: seq<PollResult>,
                                    i: int)
    requires !IsBlank(name) && 0 <= i < |apps| && apps[i].Some? && EqualsIgnoreCase(name, apps[i].value.name)
    ensures var r := GetOrCreateApplicationFromName(name, autoCreate, nodeName, Ok(Some(apps)), nodes, created, polls);
            !StartsCreation(r.calls) && r.outcome.Resolved?
  {
    assert Matching(apps[i], NameIs(name));
  }

  // ---------------------------------------------------------------- delivery configuration

  /** The request of `createDeliveryConfiguration`. */
  datatype DeliveryConfiguration = DeliveryConfiguration(endpoint: string, ignorePatterns: set<string>, packages: set<string>)

  /** The patterns: the set of the comma-separated pieces of the string. */
  function ExclusionPatterns(exclusionPatterns: string): set<string> {
    set p | p in Split(exclusionPatterns)
  }

  function DeliveryConfigurationRequest(appGuid: JStr, exclusionPatterns: string): (r: DeliveryConfiguration)
    ensures r.endpoint == "/api/applications/" + Show(appGuid) + "/delivery-configuration"
    ensures r.packages == {}
  {
    DeliveryConfiguration("/api/applications/" + Show(appGuid) + "/delivery-configuration",
                          ExclusionPatterns(exclusionPatterns), {})
  }

  /** `createDeliveryConfiguration`: the guid of the answer, null for a null
      answer; an `ApiCallException` is not wrapped. */
  function CreateDeliveryConfiguration(answer: Answer<JStr>): (r: Result<JStr, ApiCallError>)
    ensures r.Err? <==> answer.Err?
    ensures answer.Err? ==> r.error == answer.error
    ensures answer == Ok(None) ==> r == Ok(Null)
    ensures answer.Ok? && answer.value.Some? ==> r == Ok(answer.value.value)
  {
    match answer
    case Err(e) => Err(e)
    case Ok(None) => Ok(Null)
    case Ok(Some(g)) => Ok(g)
  }

  /** Every pattern is a comma-free piece of the string, and every non-empty
      piece between commas is a pattern; a string without a comma is its only
      pattern, and the empty string gives the one empty pattern. */
  lemma ExclusionPatternsArePieces(s: string)
    ensures forall p :: p in ExclusionPatterns(s) ==> p in Pieces(s) && ',' !in p
    ensures forall p :: p in Pieces(s) && p != "" ==> p in ExclusionPatterns(s)
    ensures ',' !in s ==> ExclusionPatterns(s) == {s}
  {
    SplitIsPiecesPrefix(s);
    var ps, sp := Pieces(s), Split(s);
    forall p | p in ExclusionPatterns(s) ensures p in ps {
      var k :| 0 <= k < |sp| && sp[k] == p;
      assert ps[k] == p;
    }
    forall p | p in ps && p != "" ensures p in ExclusionPatterns(s) {
      var k :| 0 <= k < |ps| && ps[k] == p;
      assert k < |sp|;
      assert sp[k] == p;
    }
  }

  /** One step of `Pieces`: a leading comma opens a new piece, any other
      character joins the first piece. */
  lemma PiecesStep(c: char, s: string)
    ensures Pieces([c] + s) ==
              if c == ',' then [""] + Pieces(s) else [[c] + Pieces(s)[0]] + Pieces(s)[1..]
  {
    assert ([c] + s)[1..] == s;
  }

  /** The comma-separated pieces of "a,b,,", the trailing empty ones included. */
  lemma PiecesOfTrailingCommas()
    ensures Pieces("a,b,,") == ["a", "b", "", ""]
  {
    PiecesStep(',', "");
    PiecesStep(',', ",");
    assert Pieces(",,") == ["", "", ""];
    PiecesStep('b', ",,");
    assert ['b'] + ",," == "b,," && ['b'] + "" == "b";
    assert Pieces("b,,") == ["b", "", ""];
    PiecesStep(',', "b,,");
    assert Pieces(",b,,") == ["", "b", "", ""];
    PiecesStep('a', ",b,,");
    assert ['a'] + ",b,," == "a,b,," && ['a'] + "" == "a";
  }

  /** Trailing commas add no pattern: "a,b,," gives the same set as "a,b". */
  lemma TrailingCommasAddNothing()
    ensures ExclusionPatterns("a,b,,") == {"a", "b"}
  {
    PiecesOfTrailingCommas();
    var ps: seq<string> := ["a", "b", "", ""];
    assert ps[..3] == ["a", "b", ""] && ps[..3][..2] == ["a", "b"];
    assert DropTrailingEmpty(ps) == ["a", "b"];
    assert "a,b,,"[1] == ',';
    assert Split("a,b,,") == ["a", "b"];
  }
}
