/**
 * The Issue document of models/Issues.js: the enumerations, the required fields, the
 * defaults, and `Issue.create`'s casting and validation of a request body.
 */
module IssueModel {
  import opened Wrappers

  /** Document ids (Mongo ObjectIds) are abstract: the store hands out fresh ones. */
  type IssueId = nat

  datatype IssueType =
    | BrokenBenches | FallenTrees | Garbage | LeakyPipes | OpenManhole | Potholes | Streetlight | Others

  datatype Status = Open | InProgress | Resolved

  datatype Priority = Low | Medium | High

  datatype Criticality = Normal | Critical

  /** The `enum` lists of the schema, as strings, in the order the schema declares them. */
  const IssueTypeNames: seq<string> :=
    ["broken_benches", "fallen_trees", "garbage", "leaky_pipes", "open_manhole", "potholes", "streetlight", "others"]
  const StatusNames: seq<string> := ["open", "inprogress", "resolved"]
  const PriorityNames: seq<string> := ["low", "medium", "high"]
  const CriticalityNames: seq<string> := ["Normal", "Critical"]

  function TypeName(t: IssueType): (s: string)
    ensures s in IssueTypeNames
  {
    match t
    case BrokenBenches => IssueTypeNames[0]
    case FallenTrees => IssueTypeNames[1]
    case Garbage => IssueTypeNames[2]
    case LeakyPipes => IssueTypeNames[3]
    case OpenManhole => IssueTypeNames[4]
    case Potholes => IssueTypeNames[5]
    case Streetlight => IssueTypeNames[6]
    case Others => IssueTypeNames[7]
  }

  /** Casting a string to the `issueType` enum: defined exactly on the listed names. */
  function ParseIssueType(s: string): (r: Option<IssueType>)
    ensures r.Some? <==> s in IssueTypeNames
    ensures r.Some? ==> TypeName(r.value) == s
  {
    if s == IssueTypeNames[0] then Some(BrokenBenches)
    else if s == IssueTypeNames[1] then Some(FallenTrees)
    else if s == IssueTypeNames[2] then Some(Garbage)
    else if s == IssueTypeNames[3] then Some(LeakyPipes)
    else if s == IssueTypeNames[4] then Some(OpenManhole)
    else if s == IssueTypeNames[5] then Some(Potholes)
    else if s == IssueTypeNames[6] then Some(Streetlight)
    else if s == IssueTypeNames[7] then Some(Others)
    else None
  }

  lemma TypeNameRoundTrip(t: IssueType)
    ensures ParseIssueType(TypeName(t)) == Some(t)
  {
  }

  function StatusName(s: Status): (n: string)
    ensures n in StatusNames
  {
    match s
    case Open => StatusNames[0]
    case InProgress => StatusNames[1]
    case Resolved => StatusNames[2]
  }

  function ParseStatus(n: string): (r: Option<Status>)
    ensures r.Some? <==> n in StatusNames
    ensures r.Some? ==> StatusName(r.value) == n
  {
    if n == StatusNames[0] then Some(Open)
    else if n == StatusNames[1] then Some(InProgress)
    else if n == StatusNames[2] then Some(Resolved)
    else None
  }

  function PriorityName(p: Priority): (n: string)
    ensures n in PriorityNames
  {
    match p
    case Low => PriorityNames[0]
    case Medium => PriorityNames[1]
    case High => PriorityNames[2]
  }

  function ParsePriority(n: string): (r: Option<Priority>)
    ensures r.Some? <==> n in PriorityNames
    ensures r.Some? ==> PriorityName(r.value) == n
  {
    if n == PriorityNames[0] then Some(Low)
    else if n == PriorityNames[1] then Some(Medium)
    else if n == PriorityNames[2] then Some(High)
    else None
  }

  function CriticalityName(c: Criticality): (n: string)
    ensures n in CriticalityNames
  {
    match c
    case Normal => CriticalityNames[0]
    case Critical => CriticalityNames[1]
  }

  function ParseCriticality(n: string): (r: Option<Criticality>)
    ensures r.Some? <==> n in CriticalityNames
    ensures r.Some? ==> CriticalityName(r.value) == n
  {
    if n == CriticalityNames[0] then Some(Normal)
    else if n == CriticalityNames[1] then Some(Critical)
    else None
  }

  /** The `location` sub-document: latitude and longitude are required, landmark is not. */
  datatype Location = Location(latitude: real, longitude: real, landmark: Option<string>)

  /**
   * A stored issue. `createdAt` comes from the schema's `timestamps` option (milliseconds).
   * `department` and `closedOn` are not declared by the schema, yet other code reads them:
   * they are optional attributes that no handler of this model ever writes.
   */
  datatype Issue = Issue(
    id: IssueId,
    issueType: IssueType,
    image: string,
    location: Location,
    status: Status,
    usermail: string,
    priority: Priority,
    description: Option<string>,
    criticality: Criticality,
    createdAt: int,
    department: Option<string>,
    closedOn: Option<int>)

  /**
   * What the schema demands of a stored issue beyond its types: the required strings are
   * non-empty (Mongoose's `required` rejects `""`).
   */
  predicate ValidIssue(i: Issue)
  {
    i.image != "" && i.usermail != ""
  }

  /** The `location` object of a request body, as JSON: any member may be missing. */
  datatype LocationBody = LocationBody(latitude: Option<real>, longitude: Option<real>, landmark: Option<string>)

  /**
   * The JSON body of `POST /api/issues`. `others` stands for every member the handler does
   * not destructure.
   */
  datatype IssueBody = IssueBody(
    issueType: Option<string>,
    image: Option<string>,
    location: Option<LocationBody>,
    status: Option<string>,
    usermail: Option<string>,
    priority: Option<string>,
    description: Option<string>,
    criticality: Option<string>,
    others: map<string, string>)

  /** An optional enum path accepts a missing value or one of its listed names. */
  predicate EnumOk(v: Option<string>, names: seq<string>)
  {
    v.None? || v.value in names
  }

  const ValidationFailed: string := "Issue validation failed"

  /**
   * `Issue.create(fields)`: casts the eight fields to the schema, applies the defaults of
   * `status`, `priority` and `criticality` to the ones that are missing, and validates.
   * A missing required path or a value outside an enum is a validation error.
   */
  function CastIssue(body: IssueBody, id: IssueId, now: int): (r: Result<Issue>)
    ensures r.Ok? <==>
      && Truthy(body.issueType) && body.issueType.value in IssueTypeNames
      && Truthy(body.image)
      && body.location.Some? && body.location.value.latitude.Some? && body.location.value.longitude.Some?
      && Truthy(body.usermail)
      && EnumOk(body.status, StatusNames)
      && EnumOk(body.priority, PriorityNames)
      && EnumOk(body.criticality, CriticalityNames)
    ensures r.Ok? ==> ValidIssue(r.value) && r.value.id == id && r.value.createdAt == now
    ensures r.Ok? ==>
      && TypeName(r.value.issueType) == body.issueType.value
      && r.value.image == body.image.value
      && r.value.usermail == body.usermail.value
      && r.value.description == body.description
      && r.value.location.latitude == body.location.value.latitude.value
      && r.value.location.longitude == body.location.value.longitude.value
      && r.value.location.landmark == body.location.value.landmark
    ensures r.Ok? && body.status.None? ==> r.value.status == Open
    ensures r.Ok? && body.status.Some? ==> StatusName(r.value.status) == body.status.value
    ensures r.Ok? && body.priority.None? ==> r.value.priority == Low
    ensures r.Ok? && body.priority.Some? ==> PriorityName(r.value.priority) == body.priority.value
    ensures r.Ok? && body.criticality.None? ==> r.value.criticality == Normal
    ensures r.Ok? && body.criticality.Some? ==> CriticalityName(r.value.criticality) == body.criticality.value
    ensures r.Ok? ==> r.value.department.None? && r.value.closedOn.None?
  {
    if !Truthy(body.issueType) || !Truthy(body.image) || !Truthy(body.usermail) then Err(ValidationFailed)
    else if body.location.None? || body.location.value.latitude.None? || body.location.value.longitude.None? then
      Err(ValidationFailed)
    else
      var t := ParseIssueType(body.issueType.value);
      var s := if body.status.None? then Some(Open) else ParseStatus(body.status.value);
      var p := if body.priority.None? then Some(Low) else ParsePriority(body.priority.value);
      var c := if body.criticality.None? then Some(Normal) else ParseCriticality(body.criticality.value);
      if t.None? || s.None? || p.None? || c.None? then Err(ValidationFailed)
      else
        var loc := body.location.value;
        Ok(Issue(id, t.value, body.image.value,
                 Location(loc.latitude.value, loc.longitude.value, loc.landmark),
                 s.value, body.usermail.value, p.value, body.description, c.value, now, None, None))
  }

  /** Members of the body other than the eight named fields play no part in creation. */
  lemma CastIgnoresOtherMembers(body: IssueBody, others: map<string, string>, id: IssueId, now: int)
    ensures CastIssue(body.(others := others), id, now) == CastIssue(body, id, now)
  {
  }
}
