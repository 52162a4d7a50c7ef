/** The tables of additions that the projection strips today, in the order in which it strips them. */
module SchemaTables {

  import opened Wrappers
  import opened SchemaItems
  import opened SchemaProjection
  import opened SchemaExactness

  const SESSION_METHODS: set<string> := {"operation.response", "operation.cancel", "operation.release", "session.close"}

  const SESSION_MESSAGES: set<string> := {
    "SessionCall", "SessionReply", "SessionError", "OperationResultRequest", "OperationResponseRequest",
    "OperationCancelRequest", "OperationReleaseRequest", "SessionCloseRequest", "CleanupReport",
    "OperationReleaseResponse", "TransportLaneFrame"
  }

  const OWNER_ENUMS: set<string> := {
    "MessageKind", "EndpointRole", "Scheme", "AuthPolicy", "GitService", "IdentityMode", "ErrorCode",
    "SetupFailureCause", "HelperFailureCause", "CapacityCause", "CapacitySignal", "Effect", "Disposition",
    "AuthMethod", "NativeSource", "NativeScheme", "NativeObservation", "NativeMechanism"
  }

  const OWNER_MESSAGES: set<string> := {
    "NativeFacts", "Limits", "Bind", "Bound", "RetryAttempt", "CapacityDetail", "FailureDetail", "Failure",
    "Destination", "Identity", "Deadlines", "Open", "CheckIdentity", "IdentityChecked", "Facts", "Opened", "Data",
    "Window", "Barrier", "EndWrite", "Close", "Closed", "Cancel", "Envelope"
  }

  function Added(message: string, name: string, tag: int, wireType: WireType, presence: Presence): Edit {
    RemoveField(message, Item(name, Slot(tag, wireType, presence, false, None)))
  }

  const LOG_EDITS: seq<Edit> := [
    DropPrefix(Messages, "Log"),
    DropPrefix(Enums, "Log"),
    PopMember("ActionKind", "log", 26),
    DropMethods("GwzCore", {"log", "log.output"}, false)
  ]

  const SESSION_EDITS: seq<Edit> := [
    DropMethods("GwzCore", SESSION_METHODS, true),
    DropNamed(Enums, {"SessionMode"}),
    DropNamed(Messages, SESSION_MESSAGES),
    Added("TransportCapabilitiesResponse", "cancellation", 8, Scalar("bool"), MissingOk)
  ]

  const INVOCATION_EDITS: seq<Edit> := [
    Added("RequestMeta", "invocation", 9, MessageType("InvocationContext"), Presence.Optional),
    RemoveMessage(Item("InvocationContext",
      MessageBody([Item("caller_cwd", Slot(1, Scalar("str"), Required, false, None))], None, [], [])))
  ]

  const MEMBER_EDITS: seq<Edit> := [
    RemoveEnum(Item("LockDifferenceReason",
      map["dirty_worktree" := 0, "commit" := 1, "branch" := 2, "attachment" := 3, "missing_lock_entry" := 4,
          "unavailable_observations" := 5])),
    Added("MemberResponse", "lock_difference_reasons", 11, ListType(EnumType("LockDifferenceReason")),
          Presence.Optional),
    Added("MemberSpec", "private", 8, Scalar("bool"), Presence.Optional),
    Added("RepoSyncRequest", "private", 2, Scalar("bool"), Presence.Optional)
  ]

  const SESSION_CODES: seq<Edit> := [
    PopMember("GwzErrorCode", "transport_session_full", 77),
    PopMember("GwzErrorCode", "operation_expired", 78),
    PopMember("GwzErrorCode", "server_unavailable", 79),
    PopMember("GwzErrorCode", "server_version_mismatch", 80),
    PopMember("GwzErrorCode", "server_environment_mismatch", 81),
    PopMember("GwzErrorCode", "server_peer_refused", 82)
  ]

  const REFUSAL_CODES: seq<Edit> := [
    PopMember("GwzErrorCode", "server_address_refused", 83),
    PopMember("GwzErrorCode", "server_listener_refused", 84),
    PopMember("GwzErrorCode", "server_session_closed", 85),
    PopMember("GwzErrorCode", "server_destination_refused", 86)
  ]

  const EARLIER_CODES: seq<Edit> := [
    PopMember("GwzErrorCode", "cancelled", 73),
    PopMember("GwzErrorCode", "transport_record_limit", 74),
    PopMember("GwzErrorCode", "credential_helper_timeout", 75),
    PopMember("GwzErrorCode", "capacity", 76)
  ]

  const OBSERVATION_EDITS: seq<Edit> := [
    Added("OperationPolicy", "max_retries", 9, Scalar("int"), MissingOk),
    Added("TransportObservation", "endpoint_id", 9, Scalar("str"), MissingOk),
    Added("TransportObservation", "connection_id", 10, Scalar("str"), MissingOk),
    Added("TransportObservation", "stream_id", 11, Scalar("int"), MissingOk),
    Added("TransportObservation", "reused", 12, Scalar("bool"), MissingOk)
  ]

  const PLACEMENT_EDITS: seq<Edit> := [
    Added("TransportOptions", "placement", 4, EnumType("TransportPlacement"), MissingOk),
    Added("TransportOptions", "endpoint_path_base", 5, Scalar("str"), MissingOk),
    Added("RequestMeta", "transport_message", 10, MessageType("Envelope"), MissingOk),
    Added("ResponseMeta", "transport_message", 9, MessageType("Envelope"), MissingOk)
  ]

  const CAPABILITY_EDITS: seq<Edit> := [
    Added("TransportCapabilitiesResponse", "message_versions", 3, ListType(Scalar("int")), MissingOk),
    Added("TransportCapabilitiesResponse", "placements", 4, ListType(EnumType("TransportPlacement")), MissingOk),
    Added("TransportCapabilitiesResponse", "schemes", 5, ListType(EnumType("Scheme")), MissingOk),
    Added("TransportCapabilitiesResponse", "auth_policies", 6, ListType(EnumType("AuthPolicy")), MissingOk),
    Added("TransportCapabilitiesResponse", "message_limits", 7, MessageType("Limits"), MissingOk)
  ]

  const OWNER_EDITS: seq<Edit> := [
    CheckEnum(Item("TransportPlacement", map["local" := 1, "cli" := 2])),
    DropNamed(Enums, OWNER_ENUMS + {"TransportPlacement"}),
    DropNamed(Messages, OWNER_MESSAGES)
  ]

  function ContextEdits(): seq<Edit> {
    INVOCATION_EDITS + MEMBER_EDITS
  }

  function CodeEdits(): seq<Edit> {
    SESSION_CODES + (REFUSAL_CODES + EARLIER_CODES)
  }

  function FieldEdits(): seq<Edit> {
    OBSERVATION_EDITS + (PLACEMENT_EDITS + CAPABILITY_EDITS)
  }

  function PreLogEdits(): seq<Edit> {
    LOG_EDITS + (SESSION_EDITS + (ContextEdits() + (CodeEdits() + (FieldEdits() + OWNER_EDITS))))
  }

  // ----- Lists that leave one another alone -----

  /** No edit of the first list takes what one of the second looks for. */
  predicate Leaves(first: seq<Edit>, second: seq<Edit>) {
    forall i, j :: 0 <= i < |first| && 0 <= j < |second| ==> LeavesAlone(first[i], second[j])
  }

  lemma OrderConcatenates(first: seq<Edit>, second: seq<Edit>)
    requires InOrder(first) && InOrder(second) && Leaves(first, second)
    ensures InOrder(first + second)
  {
    hide LeavesAlone;
  }

  lemma LeavesBoth(first: seq<Edit>, b: seq<Edit>, c: seq<Edit>)
    requires Leaves(first, b) && Leaves(first, c)
    ensures Leaves(first, b + c)
  {
    hide LeavesAlone;
  }

  predicate AllCodes(edits: seq<Edit>) {
    forall i :: 0 <= i < |edits| ==> edits[i].PopMember? && edits[i].enumName == "GwzErrorCode"
  }

  predicate AllFields(edits: seq<Edit>) {
    forall i :: 0 <= i < |edits| ==> edits[i].RemoveField?
  }

  predicate SparesCodes(edits: seq<Edit>) {
    forall i :: 0 <= i < |edits| ==> LeavesEnum(edits[i], "GwzErrorCode")
  }

  lemma SparingLeavesCodes(first: seq<Edit>, codes: seq<Edit>)
    requires SparesCodes(first) && AllCodes(codes)
    ensures Leaves(first, codes)
  {
  }

  lemma CodesLeaveFields(codes: seq<Edit>, fields: seq<Edit>)
    requires AllCodes(codes) && AllFields(fields)
    ensures Leaves(codes, fields)
  {
  }

  /** Removing a field disturbs only a later removal of a field or of its message. */
  lemma FieldsLeaveOthers(fields: seq<Edit>, second: seq<Edit>)
    requires AllFields(fields)
    requires forall j :: 0 <= j < |second| ==> !second[j].RemoveField? && !second[j].RemoveMessage?
    ensures Leaves(fields, second)
  {
  }

  predicate NotLog(name: string) {
    |name| < 3 || name[0] != 'L' || name[1] != 'o' || name[2] != 'g'
  }

  lemma NotLogIsNotPrefixed(name: string)
    ensures "Log" <= name ==> !NotLog(name)
  {
    if "Log" <= name {
      assert name[0] == "Log"[0] && name[1] == "Log"[1] && name[2] == "Log"[2];
    }
  }

  /** The edit looks for nothing that the first four strip. */
  predicate AfterLog(edit: Edit) {
    match edit
    case DropPrefix(_, _) => true
    case DropNamed(_, names) => forall name <- names :: NotLog(name)
    case RemoveMessage(message) => NotLog(message.name)
    case RemoveEnum(enumeration) => NotLog(enumeration.name) && enumeration.name != "ActionKind"
    case CheckEnum(expected) => NotLog(expected.name) && expected.name != "ActionKind"
    case PopMember(enumName, _, _) => NotLog(enumName) && enumName != "ActionKind"
    case RemoveField(messageName, _) => NotLog(messageName)
    case DropMethods(_, methods, _) => "log" !in methods && "log.output" !in methods
  }

  predicate AllAfterLog(edits: seq<Edit>) {
    forall j :: 0 <= j < |edits| ==> AfterLog(edits[j])
  }

  lemma AllAfterLogJoins(first: seq<Edit>, second: seq<Edit>)
    requires AllAfterLog(first) && AllAfterLog(second)
    ensures AllAfterLog(first + second)
  {
    hide AfterLog;
  }

  lemma LogEditsLeave(second: seq<Edit>)
    requires AllAfterLog(second)
    ensures Leaves(LOG_EDITS, second)
  {
    hide NotLog;
    forall name: string ensures "Log" <= name ==> !NotLog(name) {
      NotLogIsNotPrefixed(name);
    }
  }

  // ----- The tables are in order -----

  lemma LogInOrder()
    ensures InOrder(LOG_EDITS)
  {
    NotLogIsNotPrefixed("ActionKind");
  }

  lemma SessionInOrder()
    ensures InOrder(SESSION_EDITS)
  {
  }

  lemma InvocationInOrder()
    ensures InOrder(INVOCATION_EDITS)
  {
  }

  lemma MemberInOrder()
    ensures InOrder(MEMBER_EDITS)
  {
  }

  lemma SessionCodesInOrder()
    ensures InOrder(SESSION_CODES)
  {
    var lengths := [22, 17, 18, 23, 27, 19];
    assert forall i :: 0 <= i < 6 ==> SESSION_CODES[i].PopMember? && |SESSION_CODES[i].member| == lengths[i];
    assert forall i, j :: 0 <= i < j < 6 ==> lengths[i] != lengths[j];
  }

  lemma RefusalCodesInOrder()
    ensures InOrder(REFUSAL_CODES)
  {
  }

  lemma EarlierCodesInOrder()
    ensures InOrder(EARLIER_CODES)
  {
  }

  lemma ObservationInOrder()
    ensures InOrder(OBSERVATION_EDITS)
  {
  }

  lemma PlacementInOrder()
    ensures InOrder(PLACEMENT_EDITS)
  {
  }

  lemma CapabilityInOrder()
    ensures InOrder(CAPABILITY_EDITS)
  {
    var lengths := [16, 10, 7, 13, 14];
    assert forall i :: 0 <= i < 5 ==>
             CAPABILITY_EDITS[i].RemoveField? && |CAPABILITY_EDITS[i].field.name| == lengths[i];
    assert forall i, j :: 0 <= i < j < 5 ==> lengths[i] != lengths[j];
  }

  lemma OwnerInOrder()
    ensures InOrder(OWNER_EDITS)
  {
  }

  lemma InvocationLeavesMember()
    ensures Leaves(INVOCATION_EDITS, MEMBER_EDITS)
  {
  }

  lemma SessionCodesLeaveRefusalCodes()
    ensures Leaves(SESSION_CODES, REFUSAL_CODES)
  {
  }

  lemma SessionCodesLeaveEarlierCodes()
    ensures Leaves(SESSION_CODES, EARLIER_CODES)
  {
  }

  lemma RefusalCodesLeaveEarlierCodes()
    ensures Leaves(REFUSAL_CODES, EARLIER_CODES)
  {
  }

  lemma ObservationLeavesPlacement()
    ensures Leaves(OBSERVATION_EDITS, PLACEMENT_EDITS)
  {
  }

  lemma ObservationLeavesCapability()
    ensures Leaves(OBSERVATION_EDITS, CAPABILITY_EDITS)
  {
  }

  lemma PlacementLeavesCapability()
    ensures Leaves(PLACEMENT_EDITS, CAPABILITY_EDITS)
  {
  }

  lemma SessionLeavesInvocation()
    ensures Leaves(SESSION_EDITS, INVOCATION_EDITS)
  {
  }

  lemma SessionLeavesMember()
    ensures Leaves(SESSION_EDITS, MEMBER_EDITS)
  {
  }

  lemma SessionLeavesObservation()
    ensures Leaves(SESSION_EDITS, OBSERVATION_EDITS)
  {
  }

  lemma SessionLeavesPlacement()
    ensures Leaves(SESSION_EDITS, PLACEMENT_EDITS)
  {
  }

  lemma SessionLeavesCapability()
    ensures Leaves(SESSION_EDITS, CAPABILITY_EDITS)
  {
  }

  lemma NoSharedMessages()
    ensures SESSION_MESSAGES !! OWNER_MESSAGES
  {
  }

  lemma SessionLeavesOwner()
    ensures Leaves(SESSION_EDITS, OWNER_EDITS)
  {
    NoSharedMessages();
  }

  lemma ContextLeavesObservation()
    ensures Leaves(ContextEdits(), OBSERVATION_EDITS)
  {
  }

  lemma ContextLeavesPlacement()
    ensures Leaves(ContextEdits(), PLACEMENT_EDITS)
  {
  }

  lemma ContextLeavesCapability()
    ensures Leaves(ContextEdits(), CAPABILITY_EDITS)
  {
  }

  lemma ContextLeavesOwner()
    ensures Leaves(ContextEdits(), OWNER_EDITS)
  {
  }

  lemma CodesLeaveOwner()
    ensures Leaves(CodeEdits(), OWNER_EDITS)
  {
  }

  lemma SparedCodes()
    ensures SparesCodes(SESSION_EDITS) && SparesCodes(ContextEdits())
  {
  }

  lemma ContextInOrder()
    ensures InOrder(ContextEdits())
  {
    hide InOrder, Leaves;
    InvocationInOrder();
    MemberInOrder();
    InvocationLeavesMember();
    OrderConcatenates(INVOCATION_EDITS, MEMBER_EDITS);
  }

  lemma CodesInOrder()
    ensures InOrder(CodeEdits())
  {
    hide InOrder, Leaves;
    SessionCodesInOrder();
    RefusalCodesInOrder();
    EarlierCodesInOrder();
    RefusalCodesLeaveEarlierCodes();
    OrderConcatenates(REFUSAL_CODES, EARLIER_CODES);
    SessionCodesLeaveRefusalCodes();
    SessionCodesLeaveEarlierCodes();
    LeavesBoth(SESSION_CODES, REFUSAL_CODES, EARLIER_CODES);
    OrderConcatenates(SESSION_CODES, REFUSAL_CODES + EARLIER_CODES);
  }

  lemma FieldsInOrder()
    ensures InOrder(FieldEdits())
  {
    hide InOrder, Leaves;
    ObservationInOrder();
    PlacementInOrder();
    CapabilityInOrder();
    PlacementLeavesCapability();
    OrderConcatenates(PLACEMENT_EDITS, CAPABILITY_EDITS);
    ObservationLeavesPlacement();
    ObservationLeavesCapability();
    LeavesBoth(OBSERVATION_EDITS, PLACEMENT_EDITS, CAPABILITY_EDITS);
    OrderConcatenates(OBSERVATION_EDITS, PLACEMENT_EDITS + CAPABILITY_EDITS);
  }

  lemma SessionLeavesContext()
    ensures Leaves(SESSION_EDITS, ContextEdits())
  {
    hide Leaves;
    SessionLeavesInvocation();
    SessionLeavesMember();
    LeavesBoth(SESSION_EDITS, INVOCATION_EDITS, MEMBER_EDITS);
  }

  lemma LeavesFields(first: seq<Edit>)
    requires Leaves(first, OBSERVATION_EDITS) && Leaves(first, PLACEMENT_EDITS) && Leaves(first, CAPABILITY_EDITS)
    ensures Leaves(first, FieldEdits())
  {
    hide Leaves;
    LeavesBoth(first, PLACEMENT_EDITS, CAPABILITY_EDITS);
    LeavesBoth(first, OBSERVATION_EDITS, PLACEMENT_EDITS + CAPABILITY_EDITS);
  }

  lemma SessionLeavesFields()
    ensures Leaves(SESSION_EDITS, FieldEdits())
  {
    hide Leaves;
    SessionLeavesObservation();
    SessionLeavesPlacement();
    SessionLeavesCapability();
    LeavesFields(SESSION_EDITS);
  }

  lemma ContextLeavesFields()
    ensures Leaves(ContextEdits(), FieldEdits())
  {
    hide Leaves;
    ContextLeavesObservation();
    ContextLeavesPlacement();
    ContextLeavesCapability();
    LeavesFields(ContextEdits());
  }

  lemma Shapes()
    ensures AllCodes(CodeEdits()) && AllFields(FieldEdits())
  {
  }

  lemma SessionComesAfterLog()
    ensures AllAfterLog(SESSION_EDITS)
  {
  }

  lemma ContextComesAfterLog()
    ensures AllAfterLog(ContextEdits())
  {
  }

  lemma CodesComeAfterLog()
    ensures AllAfterLog(CodeEdits())
  {
  }

  lemma FieldsComeAfterLog()
    ensures AllAfterLog(FieldEdits())
  {
  }

  lemma OwnerComesAfterLog()
    ensures AllAfterLog(OWNER_EDITS)
  {
  }

  /** From the owner's declarations backwards, each list in front leaves alone all that comes after it. */
  lemma CodesAndLaterInOrder()
    ensures InOrder(CodeEdits() + (FieldEdits() + OWNER_EDITS))
  {
    hide InOrder, AllCodes, AllFields, CodeEdits, FieldEdits;
    Shapes();
    FieldsInOrder();
    OwnerInOrder();
    FieldsLeaveOthers(FieldEdits(), OWNER_EDITS);
    OrderConcatenates(FieldEdits(), OWNER_EDITS);
    CodesInOrder();
    CodesLeaveFields(CodeEdits(), FieldEdits());
    CodesLeaveOwner();
    LeavesBoth(CodeEdits(), FieldEdits(), OWNER_EDITS);
    OrderConcatenates(CodeEdits(), FieldEdits() + OWNER_EDITS);
  }

  lemma LeavesThree(first: seq<Edit>)
    requires Leaves(first, CodeEdits()) && Leaves(first, FieldEdits()) && Leaves(first, OWNER_EDITS)
    ensures Leaves(first, CodeEdits() + (FieldEdits() + OWNER_EDITS))
  {
    hide Leaves, CodeEdits, FieldEdits;
    LeavesBoth(first, FieldEdits(), OWNER_EDITS);
    LeavesBoth(first, CodeEdits(), FieldEdits() + OWNER_EDITS);
  }

  lemma SessionAndLaterInOrder()
    ensures InOrder(SESSION_EDITS + (ContextEdits() + (CodeEdits() + (FieldEdits() + OWNER_EDITS))))
  {
    hide InOrder, Leaves, AllCodes, SparesCodes, CodeEdits, FieldEdits, ContextEdits;
    var later := CodeEdits() + (FieldEdits() + OWNER_EDITS);
    CodesAndLaterInOrder();
    Shapes();
    SparedCodes();
    SparingLeavesCodes(ContextEdits(), CodeEdits());
    ContextLeavesFields();
    ContextLeavesOwner();
    LeavesThree(ContextEdits());
    ContextInOrder();
    OrderConcatenates(ContextEdits(), later);
    SparingLeavesCodes(SESSION_EDITS, CodeEdits());
    SessionLeavesFields();
    SessionLeavesOwner();
    LeavesThree(SESSION_EDITS);
    SessionLeavesContext();
    LeavesBoth(SESSION_EDITS, ContextEdits(), later);
    SessionInOrder();
    OrderConcatenates(SESSION_EDITS, ContextEdits() + later);
  }

  /** The tables as they stand: no edit takes away what a later one looks for. */
  lemma PreLogEditsInOrder()
    ensures InOrder(PreLogEdits())
  {
    hide InOrder, Leaves, AfterLog, CodeEdits, FieldEdits, ContextEdits;
    var rest := SESSION_EDITS + (ContextEdits() + (CodeEdits() + (FieldEdits() + OWNER_EDITS)));
    SessionComesAfterLog();
    ContextComesAfterLog();
    CodesComeAfterLog();
    FieldsComeAfterLog();
    OwnerComesAfterLog();
    AllAfterLogJoins(FieldEdits(), OWNER_EDITS);
    AllAfterLogJoins(CodeEdits(), FieldEdits() + OWNER_EDITS);
    AllAfterLogJoins(ContextEdits(), CodeEdits() + (FieldEdits() + OWNER_EDITS));
    AllAfterLogJoins(SESSION_EDITS, ContextEdits() + (CodeEdits() + (FieldEdits() + OWNER_EDITS)));
    LogEditsLeave(rest);
    LogInOrder();
    SessionAndLaterInOrder();
    OrderConcatenates(LOG_EDITS, rest);
  }

  // ----- The projection of the tables -----

  /** Today's projection accepts a schema just when it holds every addition unchanged, and keeps the rest. */
  lemma PreLogProjectionIsExact(value: Document)
    ensures Project(PreLogEdits(), value) ==
            if HoldsAll(PreLogEdits(), value) then Some(Outside(PreLogEdits(), value)) else None
  {
    hide *;
    PreLogEditsInOrder();
    ProjectionIsExact(PreLogEdits(), value);
  }

  /** The source's projection: refused, or everything in the schema that the tables do not list. */
  method PreLogProjection(value: Document) returns (r: Option<Document>)
    ensures r == if HoldsAll(PreLogEdits(), value) then Some(Outside(PreLogEdits(), value)) else None
  {
    hide PreLogEdits, Project, Outside, HoldsAll;
    var projected := new Projection(value);
    PreLogProjectionIsExact(value);
    var ok := projected.Run(PreLogEdits());
    if !ok {
      return None;
    }
    r := Some(Document(projected.messages, projected.enums, projected.services));
  }
}
