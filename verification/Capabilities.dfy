/** The capabilities through which a handler reaches Identity and Lifecycle inside its transaction, what the
    completion check makes of the calls it made, and the post-commit hook that hands out the credential. */
module Capabilities {
  import opened Basics
  import opened Records
  import T = Text

  datatype Operation = Create | Update | Disable | Resolve
  datatype LoginMode = Unset | WithoutLogin | Password | OtherMode

  datatype Binding = Binding(bindingKey: string, objectKey: string, profileId: string, expectedVersion: int,
                             createFields: Option<Data>, reason: string, approvalId: string)

  /** `details` are the user fields that are passed on as they are. */
  datatype Request = Request(operation: Operation, userId: string, orgId: string, name: string, details: Data,
                             expectedVersion: int,
                             loginMode: LoginMode, roleKeys: seq<string>, binding: Option<Binding>)

  datatype Profile = Profile(bindingKey: string, objectKey: string, profileId: string, expectedVersion: int,
                             reason: string, approvalId: string, embedded: Option<Data>)
  datatype BoundProfile = BoundProfile(bindingKey: string, objectKey: string, profileId: string, identityUserId: string)
  datatype Credential = Credential(password: string, mustChange: bool, noStore: bool)

  /** What is sent to Identity, and what it answers. */
  datatype Mutation = Mutation(accessToken: string, idempotencyKey: string, operation: Operation, userId: string,
                               orgId: string, name: string, details: Data, expectedVersion: int, loginMode: LoginMode,
                               roleKeys: seq<string>, profile: Option<Profile>)
  datatype Answer = Answer(userId: string, orgId: string, disabled: bool, profile: Option<BoundProfile>,
                           credential: Option<Credential>)
  /** What the handler gets to see of it: that a credential is pending, not the credential. */
  datatype Delivery = Delivery(userId: string, orgId: string, profile: Option<BoundProfile>, credentialPending: bool)
  datatype Queued = Queued(id: string, workspaceId: string)

  /** What is sent to Lifecycle. */
  datatype Approval = Approval(workspaceId: string, requestId: string, subjectId: string, requestedBy: string,
                               approvedBy: string, ownerOrg: string, actionKey: string, approvalId: string,
                               bindingKey: string, objectKey: string, profileId: string)

  /** Calls that reached a backend, in order; an absent answer is an error. */
  datatype Effect =
    | Delivered(request: Mutation, answer: Option<Answer>)
    | ErasureQueued(approval: Approval, receipt: Option<Queued>)
    | IdentityDisabled(request: Mutation, answer: Option<Answer>)

  datatype IdentityGrant = IdentityGrant(operations: set<Operation>, bindings: seq<(string, string)>,
                                         credentialField: string)
  datatype ErasureGrant = ErasureGrant(stage: bool, bindingKey: string, objectKey: string, requestObjectKey: string,
                                       profileField: string, requesterField: string)

  /** What is fixed for one execution; the three identities are the digests the execution derives. */
  datatype Config = Config(workspaceId: string, executionId: string, accessToken: string, newUserId: string,
                           newProfileId: string -> string, erasureRequestId: string,
                           http: bool, principalUserId: string, actionKey: string, objectKey: string, recordId: string,
                           targetGrant: bool, unitGrant: bool,
                           identityGrant: Option<IdentityGrant>, erasureGrant: Option<ErasureGrant>)

  datatype PlannedProfile = PlannedProfile(objectKey: string, profileId: string, userId: string)

  datatype State = State(target: Option<string>, unitDelivered: bool, deliveryCalls: nat, deliveryOk: bool,
                         erasureCalls: nat, erasureOk: bool,
                         credential: Option<Credential>, planned: seq<PlannedProfile>, log: seq<Effect>)

  const INITIAL := State(None, false, 0, false, 0, false, None, [], [])

  datatype Error =
    | OperationDenied | AlreadyUsed | RequestInvalid | RuntimeOwnedFields | TargetUnresolved | LoginModeInvalid
    | ProfileBindingRequired | ProfileBindingDenied | ProfileCreateInvalid | ProfileCasRequired
    | MetadataUnavailable | BeginFailed
    | RelationFieldForbidden | PlanFailed | RecordUnavailable | RecordMismatch | ProfileUnbound | BackendUnbound
    | DeliveryFailed
    | TargetIdentityMismatch | ProfileBindingMismatch | CredentialInvalid | CredentialHttpRequired
    | ApprovalMismatch | SubjectRequestRequired | VersionConflict | StageFailed | DisableFailed | ReceiptMismatch
    | UnitIncomplete | ErasureIncomplete | DeliveryIncomplete | CredentialOutputRequired | CredentialOutputOccupied

  // ---------------------------------------------------------------- identity delivery

  /** What the ports answer during one delivery. */
  datatype DeliveryPorts = DeliveryPorts(beginOk: bool, relation: Option<string>, profile: Option<Record>,
                                         plan: Option<Data>, bindOk: bool, answer: Option<Answer>)

  datatype Prepared = Prepared(userId: string, orgId: string, profile: Option<Profile>)

  function TextOf(v: Value): string { if v.Text? then v.s else "" }

  predicate Granted(c: Config, o: Operation) { c.identityGrant.Some? && o in c.identityGrant.value.operations }

  predicate BindingGranted(bindings: seq<(string, string)>, bindingKey: string, objectKey: string) {
    bindings != [] && ((T.Trim(bindings[0].0) == bindingKey && T.Trim(bindings[0].1) == objectKey)
        || BindingGranted(bindings[1..], bindingKey, objectKey))
  }

  function Target(c: Config, s: State): string {
    if c.targetGrant && s.target.Some? then T.Trim(s.target.value) else ""
  }

  predicate LoginValid(q: Request) {
    if q.operation.Create? then q.expectedVersion == 0 && (q.loginMode.WithoutLogin? || q.loginMode.Password?)
    else q.expectedVersion >= 1 && q.loginMode.Unset?
  }

  function Trimmed(b: Binding): Binding {
    b.(bindingKey := T.Trim(b.bindingKey), objectKey := T.Trim(b.objectKey), profileId := T.Trim(b.profileId))
  }

  function ProfileFor(b: Binding, profileId: string, embedded: Option<Data>): Profile {
    Profile(b.bindingKey, b.objectKey, profileId, b.expectedVersion, T.Trim(b.reason), T.Trim(b.approvalId), embedded)
  }

  /** An existing profile, locked for update. */
  function PrepareExisting(c: Config, target: string, operation: Operation, b: Binding, relation: string,
                           found: Option<Record>): Result<Prepared, Error> {
    if found.None? then Err(RecordUnavailable)
    else if T.Trim(found.value.id) != b.profileId || T.Trim(found.value.ownerOrg) != target
    || T.Trim(found.value.updatedAt) == "" then Err(RecordMismatch)
    else
      var bound := T.Trim(TextOf(Get(found.value.data, relation)));
      var profile := Some(ProfileFor(b, b.profileId, None));
      if operation.Create? then Ok(Prepared(c.newUserId, target, profile))
      else if bound == "" then Err(ProfileUnbound)
      else Ok(Prepared(bound, target, profile))
  }

  /** A profile that the same mutation creates; the relation field is Identity's to fill in. */
  function PrepareNew(c: Config, target: string, b: Binding, relation: string, plan: Option<Data>)
      : Result<Prepared, Error>
    requires b.createFields.Some?
  {
    if relation in b.createFields.value then Err(RelationFieldForbidden)
    else if plan.None? then Err(PlanFailed)
    else
      var embedded := plan.value - {relation};
      Ok(Prepared(c.newUserId, target, Some(ProfileFor(b, c.newProfileId(b.objectKey), Some(embedded)))))
  }

  function PrepareBound(c: Config, target: string, operation: Operation, b: Binding, env: DeliveryPorts)
      : Result<Prepared, Error>
    requires c.identityGrant.Some?
  {
    var create := b.createFields.Some?;
    if b.expectedVersion < 0 || !BindingGranted(c.identityGrant.value.bindings, b.bindingKey, b.objectKey) then
        Err(ProfileBindingDenied)
    else if create && (!operation.Create? || b.profileId != "" || b.expectedVersion != 0) then Err(ProfileCreateInvalid)
    else if !create && b.profileId == "" then Err(ProfileCasRequired)
    else if env.relation.None? || T.Trim(env.relation.value) == "" then Err(MetadataUnavailable)
    else if !env.beginOk then Err(BeginFailed)
    else if create then PrepareNew(c, target, b, env.relation.value, env.plan)
    else PrepareExisting(c, target, operation, b, env.relation.value, env.profile)
  }

  function Prepare(c: Config, s: State, q: Request, env: DeliveryPorts): Result<Prepared, Error> {
    if !Granted(c, q.operation) then Err(OperationDenied)
    else if s.deliveryCalls != 0 then Err(AlreadyUsed)
    else if q.expectedVersion < 0 then Err(RequestInvalid)
    else if T.Trim(q.userId) != "" || T.Trim(q.orgId) != "" then Err(RuntimeOwnedFields)
    else if Target(c, s) == "" then Err(TargetUnresolved)
    else if !LoginValid(q) then Err(LoginModeInvalid)
    else if q.binding.Some? then PrepareBound(c, Target(c, s), q.operation, Trimmed(q.binding.value), env)
    else if !q.operation.Create? then Err(ProfileBindingRequired)
    else if !env.beginOk then Err(BeginFailed)
    else Ok(Prepared(c.newUserId, Target(c, s), None))
  }

  predicate ProfileMatches(request: Mutation, a: Answer) {
    request.profile.Some? ==>
      && a.profile.Some? && T.Trim(a.profile.value.bindingKey) == request.profile.value.bindingKey
      && T.Trim(a.profile.value.objectKey) == request.profile.value.objectKey
      && T.Trim(a.profile.value.profileId) == request.profile.value.profileId
      && T.Trim(a.profile.value.identityUserId) == request.userId
  }

  /** What is wrong with Identity's answer, if anything. */
  function Fault(c: Config, request: Mutation, answer: Option<Answer>): Option<Error> {
    if answer.None? then Some(DeliveryFailed)
    else
      var a := answer.value;
      if T.Trim(a.userId) != request.userId || T.Trim(a.orgId) != request.orgId then Some(TargetIdentityMismatch)
      else if !ProfileMatches(request, a) then Some(ProfileBindingMismatch)
      else if a.credential.None? then None
      else if !request.operation.Create? || !request.loginMode.Password? || T.Trim(a.credential.value.password) == ""
        || !a.credential.value.mustChange || !a.credential.value.noStore then Some(CredentialInvalid)
      else if !c.http then Some(CredentialHttpRequired)
      else None
  }

  function Visible(a: Answer): Delivery { Delivery(a.userId, a.orgId, a.profile, a.credential.Some?) }

  /** The call itself: counted before its answer is looked at. */
  function Send(c: Config, s: State, request: Mutation, answer: Option<Answer>): (State, Result<Delivery, Error>) {
    var counted := s.(deliveryCalls := s.deliveryCalls + 1, log := s.log + [Delivered(request, answer)]);
    var fault := Fault(c, request, answer);
    if fault.Some? then (counted, Err(fault.value))
    else (counted.(deliveryOk := true, credential := if answer.value.credential.Some? then answer.value.credential
        else s.credential), Ok(Visible(answer.value)))
  }

  function WithProfile(s: State, q: Request, p: Prepared): State {
    if q.binding.Some? && q.binding.value.createFields.Some? && p.profile.Some? then
      s.(planned := s.planned + [PlannedProfile(p.profile.value.objectKey, p.profile.value.profileId, p.userId)])
    else s
  }

  /** What is sent to Identity for a prepared request. */
  function MutationFor(c: Config, q: Request, p: Prepared): Mutation {
    Mutation(T.Trim(c.accessToken), c.executionId + ":identity_handler_delivery", q.operation, p.userId, p.orgId,
             T.Trim(q.name), q.details, q.expectedVersion, q.loginMode, q.roleKeys, p.profile)
  }

  function Proceed(c: Config, s: State, q: Request, p: Prepared, env: DeliveryPorts): (State, Result<Delivery, Error>) {
    if !env.bindOk then (WithProfile(s, q, p), Err(BackendUnbound))
    else Send(c, WithProfile(s, q, p), MutationFor(c, q, p), env.answer)
  }

  function Deliver(c: Config, s: State, q: Request, env: DeliveryPorts): (State, Result<Delivery, Error>) {
    match Prepare(c, s, q, env)
    case Err(e) => (s, Err(e))
    case Ok(p) => Proceed(c, s, q, p, env)
  }

  // ---------------------------------------------------------------- account erasure

  datatype EraseRequest = EraseRequest(profileId: string, approvalId: string, identityVersion: int, bindingVersion: int)
  datatype Bound = Bound(orgId: string, version: int, bindingVersion: int, active: bool)
  datatype ErasePorts = ErasePorts(beginOk: bool, profile: Option<Record>, approval: Option<Record>,
                                   relation: Option<string>,
                                   bindOk: bool, bound: Option<Bound>, queued: Option<Queued>, disabled: Option<Answer>)

  /** `lockAccountErasureRecord`. */
  function LockFault(c: Config, s: State, found: Option<Record>, id: string): Option<Error> {
    if !c.targetGrant || s.target.None? || s.target.value == "" then Some(TargetUnresolved)
    else if found.None? then Some(RecordUnavailable)
    else if T.Trim(found.value.id) != id || found.value.ownerOrg != s.target.value || found.value.updatedAt == "" then
        Some(RecordMismatch)
    else None
  }

  function Subject(g: ErasureGrant, c: Config, profileId: string, profile: Record, approval: Record, relation: string)
      : Result<string, Error> {
    var subject := T.Trim(TextOf(Get(profile.data, relation)));
    if subject == "" || TextOf(Get(approval.data, g.profileField)) != profileId
    || TextOf(Get(approval.data, g.requesterField)) != subject
      || subject == c.principalUserId then Err(SubjectRequestRequired)
    else Ok(subject)
  }

  /** Everything before the call is counted: the subject to erase. */
  function PrepareErase(c: Config, s: State, q: EraseRequest, env: ErasePorts): Result<string, Error> {
    var profileId, approvalId := T.Trim(q.profileId), T.Trim(q.approvalId);
    if c.erasureGrant.None? || !c.erasureGrant.value.stage then Err(OperationDenied)
    else if s.erasureCalls != 0 || s.deliveryCalls != 0 then Err(AlreadyUsed)
    else if profileId == "" || approvalId == "" || q.identityVersion < 1 || q.bindingVersion < 1 then
        Err(RequestInvalid)
    else if !env.beginOk then Err(BeginFailed)
    else if c.objectKey == c.erasureGrant.value.requestObjectKey && c.recordId != "" && c.recordId != approvalId then
        Err(ApprovalMismatch)
    else if LockFault(c, s, env.profile, profileId).Some? then Err(LockFault(c, s, env.profile, profileId).value)
    else if LockFault(c, s, env.approval, approvalId).Some? then Err(LockFault(c, s, env.approval, approvalId).value)
    else ResolveSubject(c, c.erasureGrant.value, s.target.value, q, env.profile.value, env.approval.value, env)
  }

  /** Both records are locked: who is to be erased, and is that account as the request says. */
  function ResolveSubject(c: Config, g: ErasureGrant, target: string, q: EraseRequest, profile: Record,
                          approval: Record, env: ErasePorts): Result<string, Error> {
    if env.relation.None? || env.relation.value == "" then Err(MetadataUnavailable)
    else
      match Subject(g, c, T.Trim(q.profileId), profile, approval, env.relation.value)
      case Err(e) => Err(e)
      case Ok(subject) =>
        if !env.bindOk || env.bound.None? then Err(BackendUnbound)
        else if env.bound.value.orgId != target || env.bound.value.version != q.identityVersion
          || env.bound.value.bindingVersion != q.bindingVersion || !env.bound.value.active then Err(VersionConflict)
        else Ok(subject)
  }

  predicate EraseMatches(c: Config, request: Mutation, queued: Queued, a: Answer) {
    a.userId == request.userId && a.orgId == request.orgId && a.disabled && queued.id == c.erasureRequestId
    && queued.workspaceId == c.workspaceId
  }

  /** Queue, then disable, both counted as one call. */
  function Stage(c: Config, s: State, approval: Approval, request: Mutation, env: ErasePorts)
      : (State, Result<Queued, Error>) {
    var queued := s.(erasureCalls := s.erasureCalls + 1, log := s.log + [ErasureQueued(approval, env.queued)]);
    if env.queued.None? then (queued, Err(StageFailed))
    else
      var both := queued.(log := queued.log + [IdentityDisabled(request, env.disabled)]);
      if env.disabled.None? then (both, Err(DisableFailed))
      else if !EraseMatches(c, request, env.queued.value, env.disabled.value) then (both, Err(ReceiptMismatch))
      else (both.(erasureOk := true), Ok(env.queued.value))
  }

  const ERASURE_REASON: string := "approved account erasure"

  function ApprovalFor(c: Config, s: State, q: EraseRequest, subject: string): Approval
    requires c.erasureGrant.Some? && s.target.Some?
  {
    var g := c.erasureGrant.value;
    Approval(c.workspaceId, c.erasureRequestId, subject, subject, c.principalUserId, s.target.value, c.actionKey,
             T.Trim(q.approvalId), g.bindingKey, g.objectKey, T.Trim(q.profileId))
  }

  function DisableRequest(c: Config, s: State, q: EraseRequest, subject: string): Mutation
    requires c.erasureGrant.Some? && s.target.Some?
  {
    var g := c.erasureGrant.value;
    var profile := Profile(g.bindingKey, g.objectKey, T.Trim(q.profileId), q.bindingVersion, ERASURE_REASON,
                       T.Trim(q.approvalId), None);
    Mutation(c.accessToken, c.erasureRequestId + ":disable", Disable, subject, s.target.value, "", map[],
             q.identityVersion, Unset, [], Some(profile))
  }

  function Erase(c: Config, s: State, q: EraseRequest, env: ErasePorts): (State, Result<Queued, Error>) {
    match PrepareErase(c, s, q, env)
    case Err(e) => (s, Err(e))
    case Ok(subject) => Stage(c, s, ApprovalFor(c, s, q, subject), DisableRequest(c, s, q, subject), env)
  }

  // ---------------------------------------------------------------- the completion check

  predicate Occupied(output: Data, field: string) {
    field in output && !output[field].Null? && (output[field].Text? ==> T.Trim(output[field].s) != "")
  }

  function CredentialField(c: Config): string {
    if c.identityGrant.Some? then T.Trim(c.identityGrant.value.credentialField) else ""
  }

  /** `validateCapabilityCompletion`. */
  function Completion(c: Config, s: State, output: Data): Option<Error> {
    if c.targetGrant && s.target.None? then Some(TargetUnresolved)
    else if c.unitGrant && !s.unitDelivered then Some(UnitIncomplete)
    else if s.erasureCalls != 0 && !s.erasureOk then Some(ErasureIncomplete)
    else if s.deliveryCalls != 0 && !s.deliveryOk then Some(DeliveryIncomplete)
    else if s.credential.None? then None
    else if CredentialField(c) == "" then Some(CredentialOutputRequired)
    else if Occupied(output, CredentialField(c)) then Some(CredentialOutputOccupied)
    else None
  }

  // ---------------------------------------------------------------- every sequence of calls

  /** A handler may make any call any number of times and swallow any error. */
  datatype Call =
    | DeliverIdentity(request: Request, ports: DeliveryPorts)
    | StageAccountErasure(erase: EraseRequest, erasePorts: ErasePorts)
    | ResolveTarget(organizationId: string)
    | DeliverUnit

  function Step(c: Config, s: State, call: Call): State {
    match call
    case DeliverIdentity(q, env) => Deliver(c, s, q, env).0
    case StageAccountErasure(q, env) => Erase(c, s, q, env).0
    case ResolveTarget(id) => s.(target := Some(id))
    case DeliverUnit => s.(unitDelivered := true)
  }

  function Run(c: Config, s: State, calls: seq<Call>): State
    decreases |calls|
  {
    if calls == [] then s else Run(c, Step(c, s, calls[0]), calls[1..])
  }

  /** Identity answered, for the user and organization asked for, with a credential only where one is due. */
  predicate DeliverySound(c: Config, e: Effect) {
    && e.Delivered? && e.answer.Some?
    && T.Trim(e.answer.value.userId) == e.request.userId && T.Trim(e.answer.value.orgId) == e.request.orgId
    && (e.request.profile.Some? ==>
          && e.answer.value.profile.Some?
          && NamesProfile(e.answer.value.profile.value, e.request.profile.value, e.request.userId))
    && (e.answer.value.credential.Some? ==>
          && e.request.operation.Create? && e.request.loginMode.Password? && c.http
          && T.Trim(e.answer.value.credential.value.password) != ""
          && e.answer.value.credential.value.mustChange && e.answer.value.credential.value.noStore)
  }

  predicate NamesProfile(b: BoundProfile, p: Profile, userId: string) {
    && T.Trim(b.bindingKey) == p.bindingKey && T.Trim(b.objectKey) == p.objectKey
    && T.Trim(b.profileId) == p.profileId && T.Trim(b.identityUserId) == userId
  }

  /** The erasure was queued under this execution's identity and the same subject was disabled. */
  predicate ErasureSound(c: Config, queued: Effect, disabled: Effect) {
    && queued.ErasureQueued? && queued.receipt.Some? && disabled.IdentityDisabled? && disabled.answer.Some?
    && disabled.request.userId == queued.approval.subjectId
    && queued.receipt.value == Queued(c.erasureRequestId, c.workspaceId)
    && disabled.answer.value.userId == queued.approval.subjectId
    && disabled.answer.value.orgId == disabled.request.orgId
    && disabled.answer.value.disabled
  }

  /** The log of a session is at most one erasure followed by at most one delivery, each as its flag says. */
  ghost predicate ErasePart(c: Config, s: State, part: seq<Effect>) {
    && s.erasureCalls <= 1 && (s.erasureCalls == 0 ==> part == [] && !s.erasureOk)
    && (s.erasureCalls == 1 ==>
           1 <= |part| <= 2 && part[0].ErasureQueued? && (|part| == 2 ==> part[1].IdentityDisabled?))
    && (s.erasureCalls == 1 ==> (s.erasureOk <==> |part| == 2 && ErasureSound(c, part[0], part[1])))
  }

  ghost predicate DeliveryPart(c: Config, s: State, part: seq<Effect>) {
    && s.deliveryCalls <= 1 && |part| == s.deliveryCalls
       && (s.deliveryCalls == 0 ==> !s.deliveryOk && s.credential.None?)
    && (s.deliveryCalls == 1 ==> part[0].Delivered? && (s.deliveryOk <==> DeliverySound(c, part[0])))
    && (s.credential.Some? ==> s.deliveryOk && part[0].answer.value.credential == s.credential)
    && (s.deliveryOk && part[0].answer.value.credential.Some? ==> s.credential.Some?)
  }

  ghost predicate Invariant(c: Config, s: State) {
    && |s.log| >= s.deliveryCalls
    && ErasePart(c, s, s.log[..|s.log| - s.deliveryCalls]) && DeliveryPart(c, s, s.log[|s.log| - s.deliveryCalls..])
  }

  lemma SendKeeps(c: Config, s: State, request: Mutation, answer: Option<Answer>)
    requires Invariant(c, s) && s.deliveryCalls == 0
    ensures Invariant(c, Send(c, s, request, answer).0)
  {
    var r := Send(c, s, request, answer).0;
    assert r.log[..|s.log|] == s.log == s.log[..|s.log|];
    assert r.log[|s.log|..] == [Delivered(request, answer)];
  }

  lemma StageKeeps(c: Config, s: State, approval: Approval, request: Mutation, env: ErasePorts)
    requires Invariant(c, s) && s.deliveryCalls == 0 && s.erasureCalls == 0 && request.userId == approval.subjectId
    ensures Invariant(c, Stage(c, s, approval, request, env).0)
  {
    var r := Stage(c, s, approval, request, env).0;
    assert s.log == s.log[..|s.log|] == [];
    assert r.log[..|r.log|] == r.log && r.log[|r.log|..] == [];
  }

  lemma PrepareFirst(c: Config, s: State, q: Request, env: DeliveryPorts)
    requires Prepare(c, s, q, env).Ok?
    ensures s.deliveryCalls == 0
  {
  }

  lemma PrepareEraseFirst(c: Config, s: State, q: EraseRequest, env: ErasePorts)
    requires PrepareErase(c, s, q, env).Ok?
    ensures s.deliveryCalls == 0 && s.erasureCalls == 0 && c.erasureGrant.Some? && s.target.Some?
  {
  }

  lemma ProceedKeeps(c: Config, s: State, q: Request, p: Prepared, env: DeliveryPorts)
    requires Invariant(c, s) && s.deliveryCalls == 0
    ensures Invariant(c, Proceed(c, s, q, p, env).0)
  {
    var t := WithProfile(s, q, p);
    assert t.log == s.log && Invariant(c, t);
    SendKeeps(c, t, MutationFor(c, q, p), env.answer);
  }

  lemma DeliverKeeps(c: Config, s: State, q: Request, env: DeliveryPorts)
    requires Invariant(c, s)
    ensures Invariant(c, Deliver(c, s, q, env).0)
  {
    var prepared := Prepare(c, s, q, env);
    if prepared.Ok? {
      PrepareFirst(c, s, q, env);
      ProceedKeeps(c, s, q, prepared.value, env);
    }
  }

  lemma EraseKeeps(c: Config, s: State, q: EraseRequest, env: ErasePorts)
    requires Invariant(c, s)
    ensures Invariant(c, Erase(c, s, q, env).0)
  {
    var prepared := PrepareErase(c, s, q, env);
    if prepared.Ok? {
      PrepareEraseFirst(c, s, q, env);
      StageKeeps(c, s, ApprovalFor(c, s, q, prepared.value), DisableRequest(c, s, q, prepared.value), env);
    }
  }

  lemma StepKeeps(c: Config, s: State, call: Call)
    requires Invariant(c, s)
    ensures Invariant(c, Step(c, s, call))
  {
    match call
    case DeliverIdentity(q, env) => DeliverKeeps(c, s, q, env);
    case StageAccountErasure(q, env) => EraseKeeps(c, s, q, env);
    case ResolveTarget(_) =>
    case DeliverUnit =>
  }

  lemma {:induction false} InvariantAlways(c: Config, s: State, calls: seq<Call>)
    requires Invariant(c, s)
    ensures Invariant(c, Run(c, s, calls))
    decreases |calls|
  {
    if calls != [] {
      StepKeeps(c, s, calls[0]);
      InvariantAlways(c, Step(c, s, calls[0]), calls[1..]);
    }
  }

  /** Every backend call in the log is sound, and no queued erasure lacks the disabling of its subject. */
  ghost predicate LogSound(c: Config, log: seq<Effect>) {
    && (forall i :: 0 <= i < |log| && log[i].Delivered? ==> DeliverySound(c, log[i]))
    && (forall i :: 0 <= i < |log| && log[i].ErasureQueued? ==> i + 1 < |log| && ErasureSound(c, log[i], log[i + 1]))
  }

  ghost predicate AtMostOnceEach(log: seq<Effect>) {
    && (forall i, j :: 0 <= i < j < |log| ==> !(log[i].Delivered? && log[j].Delivered?))
    && (forall i, j :: 0 <= i < j < |log| ==> !(log[i].ErasureQueued? && log[j].ErasureQueued?))
    && (forall i, j :: 0 <= i < j < |log| ==> !(log[i].Delivered? && log[j].ErasureQueued?))
    && (forall j :: 0 <= j < |log| && log[j].IdentityDisabled? ==> j > 0 && log[j - 1].ErasureQueued?)
  }

  /** The grant names a field for the credential, and the output has nothing there but a null or blank text. */
  ghost predicate LeavesRoom(c: Config, output: Data) {
    && c.identityGrant.Some? && T.Trim(c.identityGrant.value.credentialField) != ""
    && (T.Trim(c.identityGrant.value.credentialField) in output ==>
          var v := output[T.Trim(c.identityGrant.value.credentialField)];
          v.Null? || (v.Text? && T.Trim(v.s) == ""))
  }

  /** Whatever a handler calls, Identity is asked for at most one delivery and at most one erasure is queued,
      the erasure first; and the completion check lets the execution pass exactly when every one of those calls
      came back sound and the grants and the credential's place in the output are in order. */
  lemma CompletionExactly(c: Config, calls: seq<Call>, output: Data)
    ensures var s := Run(c, INITIAL, calls);
            && AtMostOnceEach(s.log)
            && (Completion(c, s, output).None? <==>
                  && LogSound(c, s.log) && (c.targetGrant ==> s.target.Some?) && (c.unitGrant ==> s.unitDelivered)
                  && (s.credential.Some? ==> LeavesRoom(c, output)))
  {
    assert INITIAL.log[..0] == [] && INITIAL.log[0..] == [];
    InvariantAlways(c, INITIAL, calls);
    var s := Run(c, INITIAL, calls);
    LogRead(c, s);
  }

  lemma LogRead(c: Config, s: State)
    requires Invariant(c, s)
    ensures AtMostOnceEach(s.log)
    ensures LogSound(c, s.log) <==> (s.erasureCalls != 0 ==> s.erasureOk) && (s.deliveryCalls != 0 ==> s.deliveryOk)
  {
    var n := |s.log| - s.deliveryCalls;
    var front, back := s.log[..n], s.log[n..];
    assert s.log == front + back;
    assert AtMostOnceEach(front + back) by { PartsAtMostOnce(c, s, front, back); }
    assert LogSound(c, front + back) <==>
               (s.erasureCalls != 0 ==> s.erasureOk) && (s.deliveryCalls != 0 ==> s.deliveryOk) by {
      PartsSound(c, s, front, back);
    }
  }

  lemma PartsAtMostOnce(c: Config, s: State, front: seq<Effect>, back: seq<Effect>)
    requires ErasePart(c, s, front) && DeliveryPart(c, s, back)
    ensures AtMostOnceEach(front + back)
  {
  }

  lemma PartsSound(c: Config, s: State, front: seq<Effect>, back: seq<Effect>)
    requires ErasePart(c, s, front) && DeliveryPart(c, s, back)
    ensures LogSound(c, front + back) <==>
                (s.erasureCalls != 0 ==> s.erasureOk) && (s.deliveryCalls != 0 ==> s.deliveryOk)
  {
    var log := front + back;
    assert s.deliveryCalls == 1 ==> log[|front|] == back[0];
    assert forall i :: 0 <= i < |front| ==> log[i] == front[i];
    if s.erasureCalls == 1 {
      assert log[0] == front[0];
      assert LogSound(c, log) ==> ErasureSound(c, log[0], log[1]);
      assert |front| == 2 ==> log[1] == front[1];
    }
  }

  ghost predicate HeldForNewUser(c: Config, e: Effect) {
    c.http && e.Delivered? && e.request.operation.Create? && e.request.loginMode.Password?
  }

  lemma CredentialRead(c: Config, s: State)
    requires Invariant(c, s) && s.credential.Some?
    ensures s.log != [] && HeldForNewUser(c, s.log[|s.log| - 1])
  {
    assert s.log[|s.log| - 1] == s.log[|s.log| - s.deliveryCalls..][0];
  }

  /** A credential is only ever held for a password user created over HTTP. */
  lemma CredentialOnlyForNewUser(c: Config, calls: seq<Call>)
    ensures var s := Run(c, INITIAL, calls);
            s.credential.Some? ==> s.log != [] && HeldForNewUser(c, s.log[|s.log| - 1])
  {
    assert INITIAL.log[..0] == [] && INITIAL.log[0..] == [];
    InvariantAlways(c, INITIAL, calls);
    if Run(c, INITIAL, calls).credential.Some? {
      CredentialRead(c, Run(c, INITIAL, calls));
    }
  }

  // ---------------------------------------------------------------- who is asked for, and by whose call

  /** What a delivery has to satisfy, each condition under the error its failure gives. */
  predicate DeliveryMeets(c: Config, s: State, q: Request, env: DeliveryPorts, e: Error) {
    var bound := q.binding.Some?;
    var creates := bound && q.binding.value.createFields.Some?;
    match e
    case OperationDenied => c.identityGrant.Some? && q.operation in c.identityGrant.value.operations
    case AlreadyUsed => s.deliveryCalls == 0
    case RequestInvalid => q.expectedVersion >= 0
    case RuntimeOwnedFields => T.Trim(q.userId) == "" && T.Trim(q.orgId) == ""
    case TargetUnresolved => c.targetGrant && s.target.Some? && T.Trim(s.target.value) != ""
    case LoginModeInvalid =>
      if q.operation.Create? then q.expectedVersion == 0 && (q.loginMode.WithoutLogin? || q.loginMode.Password?)
      else q.expectedVersion >= 1 && q.loginMode.Unset?
    case ProfileBindingRequired => bound || q.operation.Create?
    case ProfileBindingDenied =>
      bound && c.identityGrant.Some? ==>
        && q.binding.value.expectedVersion >= 0
        && BindingGranted(c.identityGrant.value.bindings, T.Trim(q.binding.value.bindingKey),
                          T.Trim(q.binding.value.objectKey))
    case ProfileCreateInvalid =>
      creates ==> q.operation.Create? && T.Trim(q.binding.value.profileId) == "" && q.binding.value.expectedVersion == 0
    case ProfileCasRequired => bound && !creates ==> T.Trim(q.binding.value.profileId) != ""
    case MetadataUnavailable => bound ==> env.relation.Some? && T.Trim(env.relation.value) != ""
    case BeginFailed => env.beginOk
    case RelationFieldForbidden =>
      creates && env.relation.Some? ==> env.relation.value !in q.binding.value.createFields.value
    case PlanFailed => creates ==> env.plan.Some?
    case RecordUnavailable => bound && !creates ==> env.profile.Some?
    case RecordMismatch =>
      bound && !creates && env.profile.Some? && s.target.Some? ==>
        && T.Trim(env.profile.value.id) == T.Trim(q.binding.value.profileId)
        && T.Trim(env.profile.value.ownerOrg) == T.Trim(s.target.value)
        && T.Trim(env.profile.value.updatedAt) != ""
    case ProfileUnbound =>
      bound && !creates && !q.operation.Create? && env.profile.Some? && env.relation.Some? ==>
        BoundUser(env.profile.value, env.relation.value) != ""
    case _ => true
  }

  /** The user a profile record is bound to: its relation field, if that holds a text, without white space around. */
  function BoundUser(profile: Record, relation: string): string {
    if relation in profile.data && profile.data[relation].Text? then T.Trim(profile.data[relation].s) else ""
  }

  /** The order of those conditions. */
  function DeliveryRank(e: Error): nat {
    match e
    case OperationDenied => 0
    case AlreadyUsed => 1
    case RequestInvalid => 2
    case RuntimeOwnedFields => 3
    case TargetUnresolved => 4
    case LoginModeInvalid => 5
    case ProfileBindingRequired => 6
    case ProfileBindingDenied => 7
    case ProfileCreateInvalid => 8
    case ProfileCasRequired => 9
    case MetadataUnavailable => 10
    case BeginFailed => 11
    case RelationFieldForbidden => 12
    case PlanFailed => 13
    case RecordUnavailable => 14
    case RecordMismatch => 15
    case ProfileUnbound => 16
    case _ => 17
  }

  ghost predicate DeliveryMeetsBelow(c: Config, s: State, q: Request, env: DeliveryPorts, n: nat) {
    forall e: Error :: DeliveryRank(e) < n ==> DeliveryMeets(c, s, q, env, e)
  }

  /** A binding is granted exactly when some entry of the grant names it. */
  lemma {:induction false} BindingGrantedExactly(bindings: seq<(string, string)>, bindingKey: string, objectKey: string)
    ensures BindingGranted(bindings, bindingKey, objectKey) <==>
            exists i :: 0 <= i < |bindings| && T.Trim(bindings[i].0) == bindingKey && T.Trim(bindings[i].1) == objectKey
  {
    if bindings != [] {
      var rest := bindings[1..];
      BindingGrantedExactly(rest, bindingKey, objectKey);
      if i :| 0 <= i < |rest| && T.Trim(rest[i].0) == bindingKey && T.Trim(rest[i].1) == objectKey {
        assert bindings[i + 1] == rest[i];
      }
      if i :| 0 < i < |bindings| && T.Trim(bindings[i].0) == bindingKey && T.Trim(bindings[i].1) == objectKey {
        assert rest[i - 1] == bindings[i];
      }
    }
  }

  function BoundResult(c: Config, s: State, q: Request, env: DeliveryPorts): Result<Prepared, Error>
    requires c.identityGrant.Some? && q.binding.Some?
  {
    PrepareBound(c, Target(c, s), q.operation, Trimmed(q.binding.value), env)
  }

  /** The conditions that do not concern a profile. */
  ghost predicate OpeningMet(c: Config, s: State, q: Request, env: DeliveryPorts) {
    && DeliveryMeets(c, s, q, env, OperationDenied) && DeliveryMeets(c, s, q, env, AlreadyUsed)
    && DeliveryMeets(c, s, q, env, RequestInvalid) && DeliveryMeets(c, s, q, env, RuntimeOwnedFields)
    && DeliveryMeets(c, s, q, env, TargetUnresolved) && DeliveryMeets(c, s, q, env, LoginModeInvalid)
  }

  /** The conditions on a profile up to the transaction. */
  ghost predicate ProfileMet(c: Config, s: State, q: Request, env: DeliveryPorts) {
    && DeliveryMeets(c, s, q, env, ProfileBindingDenied) && DeliveryMeets(c, s, q, env, ProfileCreateInvalid)
    && DeliveryMeets(c, s, q, env, ProfileCasRequired) && DeliveryMeets(c, s, q, env, MetadataUnavailable)
    && DeliveryMeets(c, s, q, env, BeginFailed)
  }

  lemma OpeningPassed(c: Config, s: State, q: Request, env: DeliveryPorts)
    requires OpeningMet(c, s, q, env)
    ensures Target(c, s) != "" && c.identityGrant.Some?
    ensures Prepare(c, s, q, env) ==
            if q.binding.Some? then BoundResult(c, s, q, env)
            else if !q.operation.Create? then Err(ProfileBindingRequired)
            else if !env.beginOk then Err(BeginFailed)
            else Ok(Prepared(c.newUserId, Target(c, s), None))
  {
  }

  lemma ProfilePassed(c: Config, s: State, q: Request, env: DeliveryPorts)
    requires c.identityGrant.Some? && q.binding.Some? && ProfileMet(c, s, q, env)
    ensures env.relation.Some?
    ensures BoundResult(c, s, q, env) == LockedResult(c, s, q, env)
  {
    BoundPassed(c, Target(c, s), q.operation, Trimmed(q.binding.value), env);
  }

  lemma BoundPassed(c: Config, target: string, operation: Operation, b: Binding, env: DeliveryPorts)
    requires c.identityGrant.Some? && env.relation.Some? && env.beginOk && b.expectedVersion >= 0
    requires BindingGranted(c.identityGrant.value.bindings, b.bindingKey, b.objectKey)
    requires b.createFields.Some? ==> operation.Create? && b.profileId == "" && b.expectedVersion == 0
    requires b.createFields.None? ==> b.profileId != ""
    requires T.Trim(env.relation.value) != ""
    ensures PrepareBound(c, target, operation, b, env) ==
            if b.createFields.Some? then PrepareNew(c, target, b, env.relation.value, env.plan)
            else PrepareExisting(c, target, operation, b, env.relation.value, env.profile)
  {
  }

  lemma OpeningRefused(c: Config, s: State, q: Request, env: DeliveryPorts, e: Error)
    requires DeliveryMeetsBelow(c, s, q, env, DeliveryRank(e)) && !DeliveryMeets(c, s, q, env, e)
    requires DeliveryRank(e) < 6
    ensures Prepare(c, s, q, env) == Err(e)
  {
    assert DeliveryRank(e) > 0 ==> DeliveryMeets(c, s, q, env, OperationDenied);
    assert DeliveryRank(e) > 1 ==> DeliveryMeets(c, s, q, env, AlreadyUsed);
    assert DeliveryRank(e) > 2 ==> DeliveryMeets(c, s, q, env, RequestInvalid);
    assert DeliveryRank(e) > 3 ==> DeliveryMeets(c, s, q, env, RuntimeOwnedFields);
    assert DeliveryRank(e) > 4 ==> DeliveryMeets(c, s, q, env, TargetUnresolved);
  }

  lemma BindingRefused(c: Config, s: State, q: Request, env: DeliveryPorts, e: Error)
    requires c.identityGrant.Some? && q.binding.Some?
    requires 7 <= DeliveryRank(e) < 12 && !DeliveryMeets(c, s, q, env, e)
    requires DeliveryRank(e) > 7 ==> DeliveryMeets(c, s, q, env, ProfileBindingDenied)
    requires DeliveryRank(e) > 8 ==> DeliveryMeets(c, s, q, env, ProfileCreateInvalid)
    requires DeliveryRank(e) > 9 ==> DeliveryMeets(c, s, q, env, ProfileCasRequired)
    requires DeliveryRank(e) > 10 ==> DeliveryMeets(c, s, q, env, MetadataUnavailable)
    ensures BoundResult(c, s, q, env) == Err(e)
  {
    match e
    case ProfileBindingDenied =>
    case ProfileCreateInvalid =>
    case ProfileCasRequired =>
    case MetadataUnavailable =>
    case BeginFailed =>
  }

  lemma RecordRefused(c: Config, s: State, q: Request, env: DeliveryPorts, e: Error)
    requires q.binding.Some? && Target(c, s) != "" && env.relation.Some?
    requires 12 <= DeliveryRank(e) < 17 && !DeliveryMeets(c, s, q, env, e)
    requires DeliveryRank(e) > 12 ==> DeliveryMeets(c, s, q, env, RelationFieldForbidden)
    requires DeliveryRank(e) > 14 ==> DeliveryMeets(c, s, q, env, RecordUnavailable)
    requires DeliveryRank(e) > 15 ==> DeliveryMeets(c, s, q, env, RecordMismatch)
    ensures LockedResult(c, s, q, env) == Err(e)
  {
    match e
    case RelationFieldForbidden =>
    case PlanFailed =>
    case RecordUnavailable =>
    case RecordMismatch =>
    case ProfileUnbound =>
  }

  lemma OpeningBelow(c: Config, s: State, q: Request, env: DeliveryPorts, n: nat)
    requires DeliveryMeetsBelow(c, s, q, env, n) && n >= 6
    ensures OpeningMet(c, s, q, env)
    ensures n > 6 ==> DeliveryMeets(c, s, q, env, ProfileBindingRequired)
  {
  }

  lemma ProfileBelow(c: Config, s: State, q: Request, env: DeliveryPorts, n: nat)
    requires DeliveryMeetsBelow(c, s, q, env, n)
    ensures n > 7 ==> DeliveryMeets(c, s, q, env, ProfileBindingDenied)
    ensures n > 8 ==> DeliveryMeets(c, s, q, env, ProfileCreateInvalid)
    ensures n > 9 ==> DeliveryMeets(c, s, q, env, ProfileCasRequired)
    ensures n > 10 ==> DeliveryMeets(c, s, q, env, MetadataUnavailable)
    ensures n > 11 ==> ProfileMet(c, s, q, env)
  {
  }

  lemma RecordBelow(c: Config, s: State, q: Request, env: DeliveryPorts, n: nat)
    requires DeliveryMeetsBelow(c, s, q, env, n)
    ensures n > 12 ==> DeliveryMeets(c, s, q, env, RelationFieldForbidden)
    ensures n > 14 ==> DeliveryMeets(c, s, q, env, RecordUnavailable)
    ensures n > 15 ==> DeliveryMeets(c, s, q, env, RecordMismatch)
  {
  }

  lemma BoundRefused(c: Config, s: State, q: Request, env: DeliveryPorts, e: Error)
    requires DeliveryMeetsBelow(c, s, q, env, DeliveryRank(e)) && !DeliveryMeets(c, s, q, env, e)
    requires c.identityGrant.Some? && q.binding.Some? && Target(c, s) != "" && DeliveryRank(e) > 6
    ensures BoundResult(c, s, q, env) == Err(e)
  {
    if DeliveryRank(e) < 12 {
      assert BoundResult(c, s, q, env) == Err(e) by {
        ProfileBelow(c, s, q, env, DeliveryRank(e));
        BindingRefused(c, s, q, env, e);
      }
    } else {
      ProfileCleared(c, s, q, env, DeliveryRank(e));
      RecordRefusedFirst(c, s, q, env, e);
    }
  }

  /** The part of the preparation behind the transaction. */
  function LockedResult(c: Config, s: State, q: Request, env: DeliveryPorts): Result<Prepared, Error>
    requires q.binding.Some? && env.relation.Some?
  {
    var b := Trimmed(q.binding.value);
    if b.createFields.Some? then PrepareNew(c, Target(c, s), b, env.relation.value, env.plan)
    else PrepareExisting(c, Target(c, s), q.operation, b, env.relation.value, env.profile)
  }

  lemma ProfileCleared(c: Config, s: State, q: Request, env: DeliveryPorts, n: nat)
    requires DeliveryMeetsBelow(c, s, q, env, n) && n >= 12 && c.identityGrant.Some? && q.binding.Some?
    ensures env.relation.Some? && BoundResult(c, s, q, env) == LockedResult(c, s, q, env)
  {
    ProfileBelow(c, s, q, env, n);
    ProfilePassed(c, s, q, env);
  }

  lemma RecordRefusedFirst(c: Config, s: State, q: Request, env: DeliveryPorts, e: Error)
    requires DeliveryMeetsBelow(c, s, q, env, DeliveryRank(e)) && !DeliveryMeets(c, s, q, env, e)
    requires q.binding.Some? && Target(c, s) != "" && env.relation.Some? && DeliveryRank(e) >= 12
    ensures LockedResult(c, s, q, env) == Err(e)
  {
    RecordBelow(c, s, q, env, DeliveryRank(e));
    RecordRefused(c, s, q, env, e);
  }

  lemma OpeningCleared(c: Config, s: State, q: Request, env: DeliveryPorts, n: nat)
    requires DeliveryMeetsBelow(c, s, q, env, n) && n >= 6
    ensures Target(c, s) != "" && c.identityGrant.Some?
    ensures q.binding.Some? ==> Prepare(c, s, q, env) == BoundResult(c, s, q, env)
    ensures q.binding.None? && n > 6 ==> q.operation.Create?
    ensures q.binding.None? ==>
              Prepare(c, s, q, env) == if !q.operation.Create? then Err(ProfileBindingRequired)
                                       else if !env.beginOk then Err(BeginFailed)
                                       else Ok(Prepared(c.newUserId, Target(c, s), None))
  {
    OpeningBelow(c, s, q, env, n);
    OpeningPassed(c, s, q, env);
  }

  lemma UnboundRefused(c: Config, s: State, q: Request, env: DeliveryPorts, e: Error)
    requires DeliveryMeetsBelow(c, s, q, env, DeliveryRank(e)) && !DeliveryMeets(c, s, q, env, e)
    requires q.binding.None? && DeliveryRank(e) >= 6
    ensures Prepare(c, s, q, env) == Err(e)
  {
    OpeningCleared(c, s, q, env, DeliveryRank(e));
    assert e.ProfileBindingRequired? || e.BeginFailed?;
  }

  /** A delivery whose first unmet condition is `e` is refused with `e`. */
  lemma DeliveryRefused(c: Config, s: State, q: Request, env: DeliveryPorts, e: Error)
    requires DeliveryMeetsBelow(c, s, q, env, DeliveryRank(e)) && !DeliveryMeets(c, s, q, env, e)
    ensures Prepare(c, s, q, env) == Err(e)
  {
    if DeliveryRank(e) < 6 {
      OpeningRefused(c, s, q, env, e);
    } else if q.binding.Some? {
      OpeningCleared(c, s, q, env, DeliveryRank(e));
      BoundRefused(c, s, q, env, e);
    } else {
      UnboundRefused(c, s, q, env, e);
    }
  }

  lemma RecordAccepted(c: Config, s: State, q: Request, env: DeliveryPorts)
    requires q.binding.Some? && Target(c, s) != "" && env.relation.Some?
    requires DeliveryMeetsBelow(c, s, q, env, 17)
    ensures LockedResult(c, s, q, env).Ok?
  {
    assert DeliveryMeets(c, s, q, env, RelationFieldForbidden) && DeliveryMeets(c, s, q, env, PlanFailed);
    assert DeliveryMeets(c, s, q, env, RecordUnavailable) && DeliveryMeets(c, s, q, env, RecordMismatch);
    assert DeliveryMeets(c, s, q, env, ProfileUnbound);
  }

  /** One that meets every condition is prepared. */
  lemma DeliveryAccepted(c: Config, s: State, q: Request, env: DeliveryPorts)
    requires DeliveryMeetsBelow(c, s, q, env, 17)
    ensures Prepare(c, s, q, env).Ok?
  {
    OpeningCleared(c, s, q, env, 17);
    if q.binding.Some? {
      ProfileCleared(c, s, q, env, 17);
      RecordAccepted(c, s, q, env);
    } else {
      ProfileBelow(c, s, q, env, 17);
    }
  }

  lemma {:induction false} FirstUnmetDelivery(c: Config, s: State, q: Request, env: DeliveryPorts, n: nat)
      returns (e: Error)
    requires DeliveryMeetsBelow(c, s, q, env, n) && !DeliveryMeetsBelow(c, s, q, env, 17)
    ensures DeliveryMeetsBelow(c, s, q, env, DeliveryRank(e)) && !DeliveryMeets(c, s, q, env, e)
    decreases 17 - n
  {
    if d :| DeliveryRank(d) == n && !DeliveryMeets(c, s, q, env, d) {
      e := d;
    } else {
      e := FirstUnmetDelivery(c, s, q, env, n + 1);
    }
  }

  /** So a delivery is prepared exactly when every condition is met, and otherwise refused with the error of
      the first that is not. */
  lemma PreparedExactly(c: Config, s: State, q: Request, env: DeliveryPorts)
    ensures var r := Prepare(c, s, q, env);
            && (r.Ok? <==> DeliveryMeetsBelow(c, s, q, env, 17))
            && (r.Err? ==>
                  !DeliveryMeets(c, s, q, env, r.error) && DeliveryMeetsBelow(c, s, q, env, DeliveryRank(r.error)))
  {
    if DeliveryMeetsBelow(c, s, q, env, 17) {
      DeliveryAccepted(c, s, q, env);
    } else {
      var e := FirstUnmetDelivery(c, s, q, env, 0);
      DeliveryRefused(c, s, q, env, e);
    }
  }

  /** What is sent for a call, field by field: the fresh user for a create and otherwise the one the locked
      profile is bound to, in the resolved organization, naming the profile and passing the rest on. */
  ghost predicate SentFor(c: Config, s: State, q: Request, env: DeliveryPorts, m: Mutation) {
    && s.target.Some? && m.orgId == T.Trim(s.target.value)
    && (q.operation.Create? ==> m.userId == c.newUserId)
    && (!q.operation.Create? ==>
          env.profile.Some? && env.relation.Some? && m.userId == BoundUser(env.profile.value, env.relation.value))
    && m.accessToken == T.Trim(c.accessToken) && m.idempotencyKey == c.executionId + ":identity_handler_delivery"
    && m.operation == q.operation && m.name == T.Trim(q.name) && m.details == q.details
    && m.expectedVersion == q.expectedVersion && m.loginMode == q.loginMode && m.roleKeys == q.roleKeys
    && (m.profile.Some? <==> q.binding.Some?)
    && (m.profile.Some? ==> ProfileNamed(c, q.binding.value, env, m.profile.value))
  }

  ghost predicate ProfileNamed(c: Config, b: Binding, env: DeliveryPorts, p: Profile) {
    && p.bindingKey == T.Trim(b.bindingKey) && p.objectKey == T.Trim(b.objectKey)
    && p.profileId == (if b.createFields.Some? then c.newProfileId(p.objectKey) else T.Trim(b.profileId))
    && p.expectedVersion == b.expectedVersion && p.reason == T.Trim(b.reason) && p.approvalId == T.Trim(b.approvalId)
    && (p.embedded.Some? <==> b.createFields.Some?)
    && (p.embedded.Some? ==>
          && env.plan.Some? && env.relation.Some?
          && forall k :: (k in p.embedded.value <==> k in env.plan.value && k != env.relation.value)
                         && (k in p.embedded.value ==> p.embedded.value[k] == env.plan.value[k]))
  }

  lemma PreparedSends(c: Config, s: State, q: Request, env: DeliveryPorts)
    requires Prepare(c, s, q, env).Ok?
    ensures SentFor(c, s, q, env, MutationFor(c, q, Prepare(c, s, q, env).value))
  {
    var p := Prepare(c, s, q, env).value;
    if q.binding.Some? {
      assert PrepareBound(c, Target(c, s), q.operation, Trimmed(q.binding.value), env) == Ok(p);
      BoundNames(c, Target(c, s), q.operation, q.binding.value, env);
    }
  }

  lemma BoundNames(c: Config, target: string, operation: Operation, b: Binding, env: DeliveryPorts)
    requires c.identityGrant.Some? && PrepareBound(c, target, operation, Trimmed(b), env).Ok?
    ensures var p := PrepareBound(c, target, operation, Trimmed(b), env).value;
            && p.orgId == target && p.profile.Some? && ProfileNamed(c, b, env, p.profile.value)
            && (operation.Create? ==> p.userId == c.newUserId)
            && (!operation.Create? ==>
                  && env.profile.Some? && env.relation.Some?
                  && p.userId == BoundUser(env.profile.value, env.relation.value))
  {
  }

  /** What an erasure has to satisfy, in the order it is asked. */
  datatype EraseCheck =
    | GrantHeld | FirstUse | RequestFormed | WritingBegun | ApprovalIsRecord | TargetKnown | ProfileFound | ProfileOwned
    | ApprovalFound | ApprovalOwned | RelationKnown | AskedBySubject | IdentityFound | VersionsCurrent

  function EraseError(k: EraseCheck): Error {
    match k
    case GrantHeld => OperationDenied
    case FirstUse => AlreadyUsed
    case RequestFormed => RequestInvalid
    case WritingBegun => BeginFailed
    case ApprovalIsRecord => ApprovalMismatch
    case TargetKnown => TargetUnresolved
    case ProfileFound => RecordUnavailable
    case ProfileOwned => RecordMismatch
    case ApprovalFound => RecordUnavailable
    case ApprovalOwned => RecordMismatch
    case RelationKnown => MetadataUnavailable
    case AskedBySubject => SubjectRequestRequired
    case IdentityFound => BackendUnbound
    case VersionsCurrent => VersionConflict
  }

  function EraseRank(k: EraseCheck): nat {
    match k
    case GrantHeld => 0
    case FirstUse => 1
    case RequestFormed => 2
    case WritingBegun => 3
    case ApprovalIsRecord => 4
    case TargetKnown => 5
    case ProfileFound => 6
    case ProfileOwned => 7
    case ApprovalFound => 8
    case ApprovalOwned => 9
    case RelationKnown => 10
    case AskedBySubject => 11
    case IdentityFound => 12
    case VersionsCurrent => 13
  }

  predicate EraseMeets(c: Config, s: State, q: EraseRequest, env: ErasePorts, k: EraseCheck) {
    match k
    case GrantHeld => c.erasureGrant.Some? && c.erasureGrant.value.stage
    case FirstUse => s.erasureCalls == 0 && s.deliveryCalls == 0
    case RequestFormed =>
      T.Trim(q.profileId) != "" && T.Trim(q.approvalId) != "" && q.identityVersion >= 1 && q.bindingVersion >= 1
    case WritingBegun => env.beginOk
    case ApprovalIsRecord =>
      c.erasureGrant.Some? && c.objectKey == c.erasureGrant.value.requestObjectKey && c.recordId != "" ==>
        c.recordId == T.Trim(q.approvalId)
    case TargetKnown => c.targetGrant && s.target.Some? && s.target.value != ""
    case ProfileFound => env.profile.Some?
    case ProfileOwned => OwnedRecord(s, env.profile, T.Trim(q.profileId))
    case ApprovalFound => env.approval.Some?
    case ApprovalOwned => OwnedRecord(s, env.approval, T.Trim(q.approvalId))
    case RelationKnown => env.relation.Some? && env.relation.value != ""
    case AskedBySubject =>
      c.erasureGrant.Some? && env.profile.Some? && env.approval.Some? && env.relation.Some? ==>
        SubjectAsked(c, c.erasureGrant.value, q, env.profile.value, env.approval.value, env.relation.value)
    case IdentityFound => env.bindOk && env.bound.Some?
    case VersionsCurrent =>
      env.bound.Some? && s.target.Some? ==>
        env.bound.value == Bound(s.target.value, q.identityVersion, q.bindingVersion, true)
  }

  predicate OwnedRecord(s: State, found: Option<Record>, id: string) {
    found.Some? && s.target.Some? ==>
      T.Trim(found.value.id) == id && found.value.ownerOrg == s.target.value && found.value.updatedAt != ""
  }

  /** The approval names the profile and was requested by the very user the profile is bound to, who is not
      the one running the Action. */
  predicate SubjectAsked(c: Config, g: ErasureGrant, q: EraseRequest, profile: Record, approval: Record,
                         relation: string) {
    var subject := BoundUser(profile, relation);
    && subject != "" && subject != c.principalUserId
    && g.profileField in approval.data && approval.data[g.profileField] == Value.Text(T.Trim(q.profileId))
    && g.requesterField in approval.data && approval.data[g.requesterField] == Value.Text(subject)
  }

  ghost predicate EraseMeetsBelow(c: Config, s: State, q: EraseRequest, env: ErasePorts, n: nat) {
    forall k: EraseCheck :: EraseRank(k) < n ==> EraseMeets(c, s, q, env, k)
  }

  lemma SubjectExactly(c: Config, g: ErasureGrant, q: EraseRequest, profile: Record, approval: Record, relation: string)
    requires T.Trim(q.profileId) != ""
    ensures var r := Subject(g, c, T.Trim(q.profileId), profile, approval, relation);
            r == if SubjectAsked(c, g, q, profile, approval, relation) then Ok(BoundUser(profile, relation))
                 else Err(SubjectRequestRequired)
  {
    assert T.Trimmed("");
  }

  /** All conditions up to the locks are met. */
  ghost predicate Lockable(c: Config, s: State, q: EraseRequest, env: ErasePorts) {
    && EraseMeets(c, s, q, env, GrantHeld) && EraseMeets(c, s, q, env, FirstUse)
    && EraseMeets(c, s, q, env, RequestFormed) && EraseMeets(c, s, q, env, WritingBegun)
    && EraseMeets(c, s, q, env, ApprovalIsRecord)
  }

  ghost predicate BothLocked(c: Config, s: State, q: EraseRequest, env: ErasePorts) {
    && Lockable(c, s, q, env)
    && EraseMeets(c, s, q, env, TargetKnown) && EraseMeets(c, s, q, env, ProfileFound)
    && EraseMeets(c, s, q, env, ProfileOwned) && EraseMeets(c, s, q, env, ApprovalFound)
    && EraseMeets(c, s, q, env, ApprovalOwned)
  }

  lemma LockedResolves(c: Config, s: State, q: EraseRequest, env: ErasePorts)
    requires BothLocked(c, s, q, env)
    ensures c.erasureGrant.Some? && s.target.Some? && env.profile.Some? && env.approval.Some?
    ensures PrepareErase(c, s, q, env) == ResolveSubject(c, c.erasureGrant.value, s.target.value, q,
                                                         env.profile.value, env.approval.value, env)
  {
  }

  lemma UnlockedRefused(c: Config, s: State, q: EraseRequest, env: ErasePorts, k: EraseCheck)
    requires EraseMeetsBelow(c, s, q, env, EraseRank(k)) && !EraseMeets(c, s, q, env, k)
    requires EraseRank(k) < 10
    ensures PrepareErase(c, s, q, env) == Err(EraseError(k))
  {
    assert EraseRank(k) > 0 ==> EraseMeets(c, s, q, env, GrantHeld);
    assert EraseRank(k) > 1 ==> EraseMeets(c, s, q, env, FirstUse);
    assert EraseRank(k) > 2 ==> EraseMeets(c, s, q, env, RequestFormed);
    assert EraseRank(k) > 3 ==> EraseMeets(c, s, q, env, WritingBegun);
    if EraseRank(k) > 4 {
      assert Lockable(c, s, q, env);
      assert EraseRank(k) > 5 ==> EraseMeets(c, s, q, env, TargetKnown);
      assert EraseRank(k) > 6 ==> EraseMeets(c, s, q, env, ProfileFound);
      assert EraseRank(k) > 7 ==> EraseMeets(c, s, q, env, ProfileOwned);
      assert EraseRank(k) > 8 ==> EraseMeets(c, s, q, env, ApprovalFound);
    }
  }

  lemma LockedRefused(c: Config, s: State, q: EraseRequest, env: ErasePorts, k: EraseCheck)
    requires EraseMeetsBelow(c, s, q, env, EraseRank(k)) && !EraseMeets(c, s, q, env, k)
    requires EraseRank(k) >= 10
    ensures PrepareErase(c, s, q, env) == Err(EraseError(k))
  {
    assert BothLocked(c, s, q, env);
    LockedResolves(c, s, q, env);
    if !k.RelationKnown? {
      assert EraseMeets(c, s, q, env, RelationKnown);
      SubjectExactly(c, c.erasureGrant.value, q, env.profile.value, env.approval.value, env.relation.value);
      assert !k.AskedBySubject? ==> EraseMeets(c, s, q, env, AskedBySubject);
      assert k.VersionsCurrent? ==> EraseMeets(c, s, q, env, IdentityFound);
    }
  }

  /** An erasure whose first unmet condition is `k` is refused with the error of `k`. */
  lemma EraseRefused(c: Config, s: State, q: EraseRequest, env: ErasePorts, k: EraseCheck)
    requires EraseMeetsBelow(c, s, q, env, EraseRank(k)) && !EraseMeets(c, s, q, env, k)
    ensures PrepareErase(c, s, q, env) == Err(EraseError(k))
  {
    if EraseRank(k) < 10 {
      UnlockedRefused(c, s, q, env, k);
    } else {
      LockedRefused(c, s, q, env, k);
    }
  }

  /** An erasure that meets every condition is staged for the user the locked profile is bound to. */
  lemma EraseAccepted(c: Config, s: State, q: EraseRequest, env: ErasePorts)
    requires EraseMeetsBelow(c, s, q, env, 14)
    ensures env.profile.Some? && env.relation.Some?
    ensures PrepareErase(c, s, q, env) == Ok(BoundUser(env.profile.value, env.relation.value))
  {
    assert BothLocked(c, s, q, env);
    LockedResolves(c, s, q, env);
    assert EraseMeets(c, s, q, env, RelationKnown);
    SubjectExactly(c, c.erasureGrant.value, q, env.profile.value, env.approval.value, env.relation.value);
    assert EraseMeets(c, s, q, env, AskedBySubject) && EraseMeets(c, s, q, env, IdentityFound)
        && EraseMeets(c, s, q, env, VersionsCurrent);
  }

  lemma {:induction false} FirstUnmet(c: Config, s: State, q: EraseRequest, env: ErasePorts, n: nat)
      returns (k: EraseCheck)
    requires EraseMeetsBelow(c, s, q, env, n) && !EraseMeetsBelow(c, s, q, env, 14)
    ensures EraseMeetsBelow(c, s, q, env, EraseRank(k)) && !EraseMeets(c, s, q, env, k)
    decreases 14 - n
  {
    if k' :| EraseRank(k') == n && !EraseMeets(c, s, q, env, k') {
      k := k';
    } else {
      k := FirstUnmet(c, s, q, env, n + 1);
    }
  }

  /** So an erasure is staged exactly when every condition is met, and otherwise refused with the error of the
      first that is not. */
  lemma ErasePreparedExactly(c: Config, s: State, q: EraseRequest, env: ErasePorts)
    ensures PrepareErase(c, s, q, env).Ok? <==> EraseMeetsBelow(c, s, q, env, 14)
    ensures PrepareErase(c, s, q, env).Err? ==>
              exists k :: EraseMeetsBelow(c, s, q, env, EraseRank(k)) && !EraseMeets(c, s, q, env, k)
                          && PrepareErase(c, s, q, env).error == EraseError(k)
  {
    if EraseMeetsBelow(c, s, q, env, 14) {
      EraseAccepted(c, s, q, env);
    } else {
      var k := FirstUnmet(c, s, q, env, 0);
      EraseRefused(c, s, q, env, k);
    }
  }

  /** The request that disables an erased account, field by field. */
  ghost predicate DisablesFor(c: Config, s: State, q: EraseRequest, subject: string, m: Mutation) {
    && c.erasureGrant.Some? && s.target.Some?
    && m.operation.Disable? && m.userId == subject && m.orgId == s.target.value
    && m.accessToken == c.accessToken && m.idempotencyKey == c.erasureRequestId + ":disable"
    && m.name == "" && m.details == map[] && m.roleKeys == [] && m.loginMode.Unset?
    && m.expectedVersion == q.identityVersion
    && m.profile == Some(Profile(c.erasureGrant.value.bindingKey, c.erasureGrant.value.objectKey,
                                 T.Trim(q.profileId), q.bindingVersion, "approved account erasure",
                                 T.Trim(q.approvalId), None))
  }

  /** The approval that queues it, field by field: asked for by the subject, approved by who runs the Action. */
  ghost predicate ApprovesFor(c: Config, s: State, q: EraseRequest, a: Approval) {
    && c.erasureGrant.Some? && s.target.Some?
    && a.requestedBy == a.subjectId && a.approvedBy == c.principalUserId && a.ownerOrg == s.target.value
    && a.workspaceId == c.workspaceId && a.requestId == c.erasureRequestId && a.actionKey == c.actionKey
    && a.approvalId == T.Trim(q.approvalId) && a.profileId == T.Trim(q.profileId)
    && a.bindingKey == c.erasureGrant.value.bindingKey && a.objectKey == c.erasureGrant.value.objectKey
  }

  /** What a call adds to the log: a delivery made for it, or an erasure of its subject, or nothing. */
  ghost predicate AddsDelivery(c: Config, s: State, call: Call, added: seq<Effect>) {
    && call.DeliverIdentity? && DeliveryMeetsBelow(c, s, call.request, call.ports, 17) && call.ports.bindOk
    && |added| == 1 && added[0].Delivered? && added[0].answer == call.ports.answer
    && SentFor(c, s, call.request, call.ports, added[0].request)
  }

  ghost predicate AddsErasure(c: Config, s: State, call: Call, added: seq<Effect>) {
    && call.StageAccountErasure? && EraseMeetsBelow(c, s, call.erase, call.erasePorts, 14)
    && QueuesSubject(call.erasePorts, added) && ApprovesFor(c, s, call.erase, added[0].approval)
    && (call.erasePorts.queued.None? ==> |added| == 1)
    && (call.erasePorts.queued.Some? ==>
          && |added| == 2 && added[1].IdentityDisabled? && added[1].answer == call.erasePorts.disabled
          && DisablesFor(c, s, call.erase, added[0].approval.subjectId, added[1].request))
  }

  ghost predicate QueuesSubject(env: ErasePorts, added: seq<Effect>) {
    && |added| >= 1 && added[0].ErasureQueued? && added[0].receipt == env.queued
    && env.profile.Some? && env.relation.Some?
    && added[0].approval.subjectId == BoundUser(env.profile.value, env.relation.value)
  }

  ghost predicate Adds(c: Config, s: State, call: Call, added: seq<Effect>) {
    AddsDelivery(c, s, call, added) || AddsErasure(c, s, call, added)
  }

  lemma DeliverAdds(c: Config, s: State, q: Request, env: DeliveryPorts) returns (added: seq<Effect>)
    ensures Deliver(c, s, q, env).0.log == s.log + added
    ensures added == [] || AddsDelivery(c, s, DeliverIdentity(q, env), added)
    ensures added == [] <==> !(DeliveryMeetsBelow(c, s, q, env, 17) && env.bindOk)
  {
    PreparedExactly(c, s, q, env);
    added := [];
    if Prepare(c, s, q, env).Ok? && env.bindOk {
      PreparedSends(c, s, q, env);
      added := [Delivered(MutationFor(c, q, Prepare(c, s, q, env).value), env.answer)];
    }
  }

  lemma StageAdds(c: Config, s: State, q: EraseRequest, subject: string, env: ErasePorts) returns (added: seq<Effect>)
    requires c.erasureGrant.Some? && s.target.Some?
    ensures Stage(c, s, ApprovalFor(c, s, q, subject), DisableRequest(c, s, q, subject), env).0.log == s.log + added
    ensures |added| == (if env.queued.Some? then 2 else 1)
    ensures added[0] == ErasureQueued(ApprovalFor(c, s, q, subject), env.queued)
    ensures ApprovesFor(c, s, q, added[0].approval)
    ensures |added| == 2 ==>
              && added[1].IdentityDisabled? && added[1].answer == env.disabled
              && DisablesFor(c, s, q, subject, added[1].request)
  {
    added := [ErasureQueued(ApprovalFor(c, s, q, subject), env.queued)];
    if env.queued.Some? {
      added := added + [IdentityDisabled(DisableRequest(c, s, q, subject), env.disabled)];
    }
  }

  lemma EraseAdds(c: Config, s: State, q: EraseRequest, env: ErasePorts) returns (added: seq<Effect>)
    ensures Erase(c, s, q, env).0.log == s.log + added
    ensures added == [] || AddsErasure(c, s, StageAccountErasure(q, env), added)
    ensures added == [] <==> !EraseMeetsBelow(c, s, q, env, 14)
  {
    ErasePreparedExactly(c, s, q, env);
    added := [];
    if EraseMeetsBelow(c, s, q, env, 14) {
      EraseAccepted(c, s, q, env);
      PrepareEraseFirst(c, s, q, env);
      added := StageAdds(c, s, q, PrepareErase(c, s, q, env).value, env);
    }
  }

  lemma StepAdds(c: Config, s: State, call: Call) returns (added: seq<Effect>)
    ensures Step(c, s, call).log == s.log + added
    ensures added == [] || Adds(c, s, call, added)
  {
    match call
    case DeliverIdentity(q, env) => added := DeliverAdds(c, s, q, env);
    case StageAccountErasure(q, env) => added := EraseAdds(c, s, q, env);
    case ResolveTarget(_) => added := [];
    case DeliverUnit => added := [];
  }

  lemma {:induction false} LogGrows(c: Config, s: State, calls: seq<Call>)
    ensures s.log <= Run(c, s, calls).log
    decreases |calls|
  {
    if calls != [] {
      var added := StepAdds(c, s, calls[0]);
      LogGrows(c, Step(c, s, calls[0]), calls[1..]);
    }
  }

  /** The entry is one of those that the call added, in the state it was made in, behind a log of `n` entries. */
  ghost predicate AddedFor(c: Config, s: State, call: Call, n: nat, i: nat, entry: Effect) {
    exists added :: Adds(c, s, call, added) && n <= i < n + |added| && entry == added[i - n]
  }

  lemma EntryAdded(c: Config, s: State, call: Call, log: seq<Effect>, added: seq<Effect>, i: nat)
    requires Adds(c, s, call, added) && |log| <= i < |log| + |added|
    ensures AddedFor(c, s, call, |log|, i, (log + added)[i])
  {
    assert (log + added)[i] == added[i - |log|];
  }

  /** Over every run, everything that reached a backend was sent for one call of the handler that met every
      condition in the state it was made in, and says what `SentFor`, or for an erasure `ApprovesFor` and
      `DisablesFor`, say. */
  lemma {:induction false} EverySentForItsCall(c: Config, s: State, calls: seq<Call>, i: nat) returns (j: nat)
    requires |s.log| <= i < |Run(c, s, calls).log|
    ensures j < |calls|
    ensures var t := Run(c, s, calls[..j]); AddedFor(c, t, calls[j], |t.log|, i, Run(c, s, calls).log[i])
    decreases |calls|
  {
    var next := Step(c, s, calls[0]);
    LogGrows(c, next, calls[1..]);
    if i < |next.log| {
      j := 0;
      assert calls[..0] == [];
      var added := StepAdds(c, s, calls[0]);
      EntryAdded(c, s, calls[0], s.log, added, i);
    } else {
      var k := EverySentForItsCall(c, next, calls[1..], i);
      j := k + 1;
      RunFrom(c, s, calls, k);
    }
  }

  lemma RunFrom(c: Config, s: State, calls: seq<Call>, k: nat)
    requires k < |calls|
    ensures Run(c, s, calls[..k + 1]) == Run(c, Step(c, s, calls[0]), calls[1..][..k])
  {
    assert calls[..k + 1][1..] == calls[1..][..k] && calls[..k + 1][0] == calls[0];
  }

  ghost predicate Told(env: DeliveryPorts, r: Result<Delivery, Error>) {
    && (r == Err(BackendUnbound) <==> !env.bindOk)
    && (env.bindOk ==> (r == Err(DeliveryFailed) <==> env.answer.None?))
    && (r.Ok? ==>
          && env.answer.Some? && r.value.userId == env.answer.value.userId
          && r.value.orgId == env.answer.value.orgId && r.value.profile == env.answer.value.profile
          && (r.value.credentialPending <==> env.answer.value.credential.Some?))
  }

  lemma ProceedTold(c: Config, s: State, q: Request, p: Prepared, env: DeliveryPorts)
    ensures Told(env, Proceed(c, s, q, p, env).1)
  {
  }

  /** What the handler is told of a delivery that is prepared: the answer without its credential, or what is
      wrong with it. */
  lemma DeliveryTold(c: Config, s: State, q: Request, env: DeliveryPorts)
    requires DeliveryMeetsBelow(c, s, q, env, 17)
    ensures Told(env, Deliver(c, s, q, env).1)
  {
    DeliveryAccepted(c, s, q, env);
    ProceedTold(c, s, q, Prepare(c, s, q, env).value, env);
  }

  /** What the handler is told of an erasure that is prepared: the receipt of the queue exactly when account and
      receipt came back as asked, and otherwise which of the two calls failed. */
  lemma ErasureTold(c: Config, s: State, q: EraseRequest, env: ErasePorts)
    requires EraseMeetsBelow(c, s, q, env, 14)
    ensures var r := Erase(c, s, q, env).1;
            && (r == Err(StageFailed) <==> env.queued.None?)
            && (r == Err(DisableFailed) <==> env.queued.Some? && env.disabled.None?)
            && (r.Ok? ==> Some(r.value) == env.queued && env.disabled.Some? && env.disabled.value.disabled)
            && (r.Ok? || r.error in {StageFailed, DisableFailed, ReceiptMismatch})
  {
    EraseAccepted(c, s, q, env);
    PrepareEraseFirst(c, s, q, env);
    var subject := PrepareErase(c, s, q, env).value;
    StageTold(c, s, ApprovalFor(c, s, q, subject), DisableRequest(c, s, q, subject), env);
  }

  lemma StageTold(c: Config, s: State, approval: Approval, m: Mutation, env: ErasePorts)
    ensures var r := Stage(c, s, approval, m, env).1;
            && (r == Err(StageFailed) <==> env.queued.None?)
            && (r == Err(DisableFailed) <==> env.queued.Some? && env.disabled.None?)
            && (r.Ok? ==> Some(r.value) == env.queued && env.disabled.Some? && env.disabled.value.disabled)
            && (r.Ok? || r.error in {StageFailed, DisableFailed, ReceiptMismatch})
  {
  }

  /** Which fault an answer that is not sound has. */
  lemma FaultExactly(c: Config, m: Mutation, answer: Option<Answer>)
    ensures Fault(c, m, answer).None? <==> DeliverySound(c, Delivered(m, answer))
    ensures Fault(c, m, answer) == Some(DeliveryFailed) <==> answer.None?
    ensures Fault(c, m, answer) == Some(TargetIdentityMismatch) <==>
            answer.Some? && !(T.Trim(answer.value.userId) == m.userId && T.Trim(answer.value.orgId) == m.orgId)
    ensures Fault(c, m, answer) == Some(CredentialHttpRequired) ==>
              !c.http && answer.Some? && answer.value.credential.Some?
    ensures answer.Some? && answer.value.credential.None? ==>
              Fault(c, m, answer) != Some(CredentialInvalid) && Fault(c, m, answer) != Some(CredentialHttpRequired)
    ensures Fault(c, m, answer) == Some(CredentialInvalid) ==>
              !(m.operation.Create? && m.loginMode.Password? && T.Trim(answer.value.credential.value.password) != ""
                && answer.value.credential.value.mustChange && answer.value.credential.value.noStore)
    ensures Fault(c, m, answer) == Some(ProfileBindingMismatch) ==>
              m.profile.Some?
              && !(answer.value.profile.Some? && NamesProfile(answer.value.profile.value, m.profile.value, m.userId))
  {
  }

  /** Every planned profile is one that the fresh user is to be given, under the fresh identity of its object. */
  lemma {:induction false} PlannedForNewUser(c: Config, s: State, calls: seq<Call>)
    requires forall e :: e in s.planned ==> e.userId == c.newUserId && e.profileId == c.newProfileId(e.objectKey)
    ensures forall e :: e in Run(c, s, calls).planned ==>
              e.userId == c.newUserId && e.profileId == c.newProfileId(e.objectKey)
    decreases |calls|
  {
    if calls != [] {
      var call, next := calls[0], Step(c, s, calls[0]);
      StepPlans(c, s, call);
      if Plans(c, s, call) {
        PreparedSends(c, s, call.request, call.ports);
        PreparedExactly(c, s, call.request, call.ports);
        assert DeliveryMeets(c, s, call.request, call.ports, ProfileCreateInvalid);
        assert forall e :: e in next.planned ==> e in s.planned || e == next.planned[|s.planned|];
      }
      PlannedForNewUser(c, next, calls[1..]);
    }
  }

  /** The completion check objects to the first thing that is not in order. */
  lemma CompletionRefusals(c: Config, s: State, output: Data)
    ensures Completion(c, s, output) == Some(TargetUnresolved) <==> c.targetGrant && s.target.None?
    ensures Completion(c, s, output) == Some(UnitIncomplete) <==>
            (c.targetGrant ==> s.target.Some?) && c.unitGrant && !s.unitDelivered
    ensures !(c.targetGrant && s.target.None?) && !(c.unitGrant && !s.unitDelivered) ==>
              && (Completion(c, s, output) == Some(ErasureIncomplete) <==> s.erasureCalls != 0 && !s.erasureOk)
              && (Completion(c, s, output) == Some(DeliveryIncomplete) <==>
                  (s.erasureCalls != 0 ==> s.erasureOk) && s.deliveryCalls != 0 && !s.deliveryOk)
              && (Completion(c, s, output) in {Some(CredentialOutputRequired), Some(CredentialOutputOccupied)} ==>
                  s.credential.Some? && !LeavesRoom(c, output))
    ensures Completion(c, s, output) == Some(CredentialOutputRequired) ==>
              c.identityGrant.None? || T.Trim(c.identityGrant.value.credentialField) == ""
    ensures Completion(c, s, output) == Some(CredentialOutputOccupied) ==>
              c.identityGrant.Some? && T.Trim(c.identityGrant.value.credentialField) in output
  {
  }

  // ---------------------------------------------------------------- the asymmetry of the two capabilities

  /** After a delivery has been counted, staging an erasure is refused and changes nothing. */
  lemma NoErasureAfterDelivery(c: Config, s: State, q: EraseRequest, env: ErasePorts)
    requires s.deliveryCalls != 0
    ensures Erase(c, s, q, env).0 == s && Erase(c, s, q, env).1 in {Err(OperationDenied), Err(AlreadyUsed)}
  {
  }

  /** The reverse is not refused: an earlier erasure does not bear on a delivery. */
  lemma DeliveryIgnoresErasure(c: Config, s: State, q: Request, env: DeliveryPorts, erasures: nat, ok: bool)
    ensures Deliver(c, s.(erasureCalls := erasures, erasureOk := ok), q, env).1 == Deliver(c, s, q, env).1
  {
  }

  // ---------------------------------------------------------------- planned profiles

  /** The call gets as far as the identity backend. */
  predicate Reaches(c: Config, s: State, call: Call) {
    call.DeliverIdentity? && Prepare(c, s, call.request, call.ports).Ok?
  }

  predicate Plans(c: Config, s: State, call: Call) {
    && Reaches(c, s, call) && call.request.binding.Some? && call.request.binding.value.createFields.Some?
    && Prepare(c, s, call.request, call.ports).value.profile.Some?
  }

  function PlanOf(p: Prepared): PlannedProfile
    requires p.profile.Some?
  {
    PlannedProfile(p.profile.value.objectKey, p.profile.value.profileId, p.userId)
  }

  /** The call delivers the user and profile that `e` plans for. */
  predicate DeliversNow(c: Config, s: State, call: Call, e: PlannedProfile) {
    && Reaches(c, s, call) && call.ports.bindOk
    && Prepare(c, s, call.request, call.ports).value.profile.Some?
       && PlanOf(Prepare(c, s, call.request, call.ports).value) == e
  }

  predicate DeliversLater(c: Config, s: State, calls: seq<Call>, e: PlannedProfile)
    decreases |calls|
  {
    calls != [] && (DeliversNow(c, s, calls[0], e) || DeliversLater(c, Step(c, s, calls[0]), calls[1..], e))
  }

  /** No call plans a profile, cannot bind the backend, and is not made good by a later delivery for the same
      user, object and profile. */
  predicate NoOrphan(c: Config, s: State, calls: seq<Call>)
    decreases |calls|
  {
    calls == [] ||
    (var next := Step(c, s, calls[0]);
     && (Plans(c, s, calls[0]) && !calls[0].ports.bindOk ==>
           DeliversLater(c, next, calls[1..], PlanOf(Prepare(c, s, calls[0].request, calls[0].ports).value)))
     && NoOrphan(c, next, calls[1..]))
  }

  predicate DeliveredFor(x: Effect, e: PlannedProfile) {
    && x.Delivered? && x.request.userId == e.userId && x.request.profile.Some?
    && x.request.profile.value.objectKey == e.objectKey && x.request.profile.value.profileId == e.profileId
  }

  ghost predicate HasDelivery(log: seq<Effect>, e: PlannedProfile) { exists x :: x in log && DeliveredFor(x, e) }

  ghost predicate AllDelivered(s: State) { forall e :: e in s.planned ==> HasDelivery(s.log, e) }

  lemma HasDeliveryNext(log: seq<Effect>, x: Effect, e: PlannedProfile)
    ensures HasDelivery(log + [x], e) <==> HasDelivery(log, e) || DeliveredFor(x, e)
  {
    assert forall y :: y in log + [x] <==> y in log || y == x;
  }

  lemma StageDelivers(c: Config, s: State, approval: Approval, request: Mutation, env: ErasePorts, e: PlannedProfile)
    ensures HasDelivery(Stage(c, s, approval, request, env).0.log, e) <==> HasDelivery(s.log, e)
  {
    HasDeliveryNext(s.log, ErasureQueued(approval, env.queued), e);
    HasDeliveryNext(s.log + [ErasureQueued(approval, env.queued)], IdentityDisabled(request, env.disabled), e);
  }

  lemma ProceedDelivers(c: Config, s: State, q: Request, p: Prepared, env: DeliveryPorts, e: PlannedProfile)
    ensures HasDelivery(Proceed(c, s, q, p, env).0.log, e) <==>
            HasDelivery(s.log, e) || (env.bindOk && p.profile.Some? && PlanOf(p) == e)
  {
    HasDeliveryNext(s.log, Delivered(MutationFor(c, q, p), env.answer), e);
  }

  lemma StepDelivers(c: Config, s: State, call: Call, e: PlannedProfile)
    ensures HasDelivery(Step(c, s, call).log, e) <==> HasDelivery(s.log, e) || DeliversNow(c, s, call, e)
  {
    match call
    case DeliverIdentity(q, env) =>
      if Prepare(c, s, q, env).Ok? {
        ProceedDelivers(c, s, q, Prepare(c, s, q, env).value, env, e);
      }
    case StageAccountErasure(q, env) =>
      if PrepareErase(c, s, q, env).Ok? {
        PrepareEraseFirst(c, s, q, env);
        var subject := PrepareErase(c, s, q, env).value;
        StageDelivers(c, s, ApprovalFor(c, s, q, subject), DisableRequest(c, s, q, subject), env, e);
      }
    case ResolveTarget(_) =>
    case DeliverUnit =>
  }

  lemma ProceedPlans(c: Config, s: State, q: Request, p: Prepared, env: DeliveryPorts)
    ensures Proceed(c, s, q, p, env).0.planned == WithProfile(s, q, p).planned
  {
  }

  lemma StepPlans(c: Config, s: State, call: Call)
    ensures Step(c, s, call).planned ==
            if Plans(c, s, call) then s.planned + [PlanOf(Prepare(c, s, call.request, call.ports).value)] else s.planned
  {
    if call.DeliverIdentity? && Prepare(c, s, call.request, call.ports).Ok? {
      ProceedPlans(c, s, call.request, Prepare(c, s, call.request, call.ports).value, call.ports);
    }
  }

  lemma UncountedLogHasNoDelivery(c: Config, s: State, e: PlannedProfile)
    requires Invariant(c, s) && s.deliveryCalls == 0
    ensures !HasDelivery(s.log, e)
  {
    assert s.log == s.log[..|s.log|];
  }

  ghost predicate DeliveredOrLater(c: Config, s: State, calls: seq<Call>) {
    forall e :: e in s.planned ==> Settled(c, s, calls, e)
  }

  lemma LaterShift(c: Config, s: State, calls: seq<Call>, e: PlannedProfile)
    requires calls != []
    ensures var next := Step(c, s, calls[0]);
            HasDelivery(next.log, e) || DeliversLater(c, next, calls[1..], e) <==>
                HasDelivery(s.log, e) || DeliversLater(c, s, calls, e)
  {
    StepDelivers(c, s, calls[0], e);
  }

  /** A profile planned by a call has its delivery in the log at once exactly when that call binds. */
  lemma NewPlan(c: Config, s: State, call: Call)
    requires Invariant(c, s)
    ensures Plans(c, s, call) ==>
              (HasDelivery(Step(c, s, call).log, PlanOf(Prepare(c, s, call.request, call.ports).value)) <==>
               call.ports.bindOk)
  {
    if Plans(c, s, call) {
      var e := PlanOf(Prepare(c, s, call.request, call.ports).value);
      PrepareFirst(c, s, call.request, call.ports);
      UncountedLogHasNoDelivery(c, s, e);
      StepDelivers(c, s, call, e);
    }
  }

  ghost predicate Settled(c: Config, s: State, calls: seq<Call>, e: PlannedProfile) {
    HasDelivery(s.log, e) || DeliversLater(c, s, calls, e)
  }

  lemma DeliveredOrLaterStep(c: Config, s: State, calls: seq<Call>)
    requires Invariant(c, s) && calls != []
    ensures DeliveredOrLater(c, Step(c, s, calls[0]), calls[1..]) <==>
            DeliveredOrLater(c, s, calls)
            && (Plans(c, s, calls[0]) && !calls[0].ports.bindOk ==>
                  DeliversLater(c, Step(c, s, calls[0]), calls[1..],
                      PlanOf(Prepare(c, s, calls[0].request, calls[0].ports).value)))
  {
    var next, rest := Step(c, s, calls[0]), calls[1..];
    StepPlans(c, s, calls[0]);
    forall e ensures Settled(c, next, rest, e) <==> Settled(c, s, calls, e) {
      LaterShift(c, s, calls, e);
    }
    if Plans(c, s, calls[0]) {
      NewPlan(c, s, calls[0]);
      OneMorePlanned(c, s, next, calls, rest, PlanOf(Prepare(c, s, calls[0].request, calls[0].ports).value));
    } else {
      assert next.planned == s.planned;
    }
  }

  lemma OneMorePlanned(c: Config, s: State, next: State, calls: seq<Call>, rest: seq<Call>, e: PlannedProfile)
    requires next.planned == s.planned + [e] && forall x :: Settled(c, next, rest, x) <==> Settled(c, s, calls, x)
    ensures DeliveredOrLater(c, next, rest) <==> DeliveredOrLater(c, s, calls) && Settled(c, next, rest, e)
  {
    assert forall x :: x in next.planned <==> x in s.planned || x == e;
  }

  lemma {:induction false} PlannedFrom(c: Config, s: State, calls: seq<Call>)
    requires Invariant(c, s)
    ensures AllDelivered(Run(c, s, calls)) <==> DeliveredOrLater(c, s, calls) && NoOrphan(c, s, calls)
    decreases |calls|
  {
    if calls != [] {
      StepKeeps(c, s, calls[0]);
      PlannedFrom(c, Step(c, s, calls[0]), calls[1..]);
      DeliveredOrLaterStep(c, s, calls);
    }
  }

  /** A profile is planned before its delivery is counted, so a planned profile may have no delivered user.
      Over every run, each planned profile has one exactly when no call is orphaned. */
  lemma PlannedProfilesDeliveredExactly(c: Config, calls: seq<Call>)
    ensures AllDelivered(Run(c, INITIAL, calls)) <==> NoOrphan(c, INITIAL, calls)
  {
    assert INITIAL.log[..0] == [] && INITIAL.log[0..] == [];
    PlannedFrom(c, INITIAL, calls);
  }

  /** In particular, if every call binds the backend it reaches, every planned profile is delivered. */
  lemma {:induction false} BindingAlwaysDelivers(c: Config, s: State, calls: seq<Call>)
    requires forall i :: 0 <= i < |calls| && calls[i].DeliverIdentity? ==> calls[i].ports.bindOk
    ensures NoOrphan(c, s, calls)
    decreases |calls|
  {
    if calls != [] {
      forall i | 0 <= i < |calls[1..]| && calls[1..][i].DeliverIdentity? ensures calls[1..][i].ports.bindOk {
        assert calls[1..][i] == calls[i + 1];
      }
      BindingAlwaysDelivers(c, Step(c, s, calls[0]), calls[1..]);
    }
  }

  const SAMPLE_CONFIG: Config :=
    Config("w", "x", "k", "u", (o: string) => "p", "e", true, "a", "k", "x", "", true, false,
           Some(IdentityGrant({Create}, [("b", "o")], "")), None)
  const SAMPLE_REQUEST: Request :=
    Request(Create, "", "", "n", map[], 0, WithoutLogin, [], Some(Binding("b", "o", "", 0, Some(map[]), "", "")))
  const SAMPLE_PROFILE: Profile := Profile("b", "o", "p", 0, "", "", Some(map[]))
  const UNBOUND_PORTS: DeliveryPorts := DeliveryPorts(true, Some("r"), None, Some(map[]), false, None)

  /** The sample call gets past every check and plans a profile, whatever else the session holds. */
  lemma SamplePrepared(s: State, ports: DeliveryPorts)
    requires s.deliveryCalls == 0 && s.target == Some("t") && ports.(bindOk := false, answer := None) == UNBOUND_PORTS
    ensures Prepare(SAMPLE_CONFIG, s, SAMPLE_REQUEST, ports) == Ok(Prepared("u", "t", Some(SAMPLE_PROFILE)))
  {
    assert T.Trimmed("") && T.Trimmed("t") && T.Trimmed("b") && T.Trimmed("o") && T.Trimmed("r");
    var granted := SAMPLE_CONFIG.identityGrant.value.bindings;
    assert granted[0] == ("b", "o") && BindingGranted(granted, "b", "o");
    assert Trimmed(SAMPLE_REQUEST.binding.value) == SAMPLE_REQUEST.binding.value;
    var none: Data := map[];
    assert none - {"r"} == none;
    assert PrepareBound(SAMPLE_CONFIG, "t", Create, SAMPLE_REQUEST.binding.value, ports)
        == Ok(Prepared("u", "t", Some(SAMPLE_PROFILE)));
  }

  /** Two calls that cannot bind the backend leave two planned profiles and no delivery at all, and the
      completion check has nothing to object. */
  lemma ProfilePlannedWithoutDelivery()
    ensures var call := DeliverIdentity(SAMPLE_REQUEST, UNBOUND_PORTS);
            var s := Run(SAMPLE_CONFIG, INITIAL, [ResolveTarget("t"), call, call]);
            && s.planned == [PlannedProfile("o", "p", "u"), PlannedProfile("o", "p", "u")] && s.log == []
            && Completion(SAMPLE_CONFIG, s, map[]) == None && !AllDelivered(s)
  {
    var call := DeliverIdentity(SAMPLE_REQUEST, UNBOUND_PORTS);
    var calls := [ResolveTarget("t"), call, call];
    var s0 := INITIAL.(target := Some("t"));
    var plan := PlannedProfile("o", "p", "u");
    SamplePrepared(s0, UNBOUND_PORTS);
    var s1 := s0.(planned := [plan]);
    assert Step(SAMPLE_CONFIG, s0, call) == s1;
    SamplePrepared(s1, UNBOUND_PORTS);
    var s2 := s0.(planned := [plan, plan]);
    assert Step(SAMPLE_CONFIG, s1, call) == s2;
    assert calls[1..] == [call, call] && calls[1..][1..] == [call] && calls[1..][1..][1..] == [];
    assert Run(SAMPLE_CONFIG, s2, []) == s2;
    assert Run(SAMPLE_CONFIG, s1, [call]) == s2;
    assert Run(SAMPLE_CONFIG, s0, [call, call]) == s2;
    assert plan in s2.planned && !HasDelivery(s2.log, plan);
  }

  // ---------------------------------------------------------------- after the commit

  datatype Output = Output(fields: Data, noStore: bool)
  datatype InvocationResult = InvocationResult(record: Option<Output>, objectOutput: Option<Output>, noStore: bool)

  function CredentialValue(k: Credential): Value {
    Value.Object(map["initial_password" := Value.Text(k.password), "must_change_password" := Value.Bool(k.mustChange)])
  }

  /** The credential as the caller sees it: the password and whether it must be changed. */
  lemma CredentialShown(k: Credential)
    ensures CredentialValue(k).Object?
    ensures CredentialValue(k).fields.Keys == {"initial_password", "must_change_password"}
    ensures CredentialValue(k).fields["initial_password"] == Value.Text(k.password)
    ensures CredentialValue(k).fields["must_change_password"] == Value.Bool(k.mustChange)
  {
    assert "initial_password"[0] != "must_change_password"[0];
  }

  function WithCredential(o: Option<Output>, field: string, k: Credential): Option<Output> {
    if o.Some? then Some(Output(o.value.fields[field := CredentialValue(k)], true)) else None
  }

  /** `postCommit`. */
  function PostCommit(c: Config, s: State, r: InvocationResult): (State, InvocationResult) {
    if s.credential.None? || c.identityGrant.None? || CredentialField(c) == "" then (s, r)
    else
      (s.(credential := None),
       InvocationResult(WithCredential(r.record, CredentialField(c), s.credential.value),
           WithCredential(r.objectOutput, CredentialField(c), s.credential.value), true))
  }

  /** Nothing of an output changes but the credential's field. */
  ghost predicate OnlyFieldAdded(before: Option<Output>, after: Option<Output>, field: string, k: Credential) {
    && before.Some? == after.Some?
    && (after.Some? ==>
          && after.value.noStore && field in after.value.fields && after.value.fields[field] == CredentialValue(k)
          && forall g :: g != field ==> (g in after.value.fields <==> g in before.value.fields)
                                        && (g in before.value.fields ==>
                                               after.value.fields[g] == before.value.fields[g]))
  }

  /** The result carries, at the credential's field, what the completion check saw there. */
  ghost predicate CarriesChecked(o: Option<Output>, output: Data, field: string) {
    o.Some? ==>
        (field in o.value.fields <==> field in output) && (field in output ==> o.value.fields[field] == output[field])
  }

  /** No value the handler gave is lost: whatever was occupied is still there. */
  ghost predicate NothingReplaced(before: Option<Output>, after: Option<Output>) {
    before.Some? ==>
      after.Some? && forall g :: Occupied(before.value.fields, g) ==>
          g in after.value.fields && after.value.fields[g] == before.value.fields[g]
  }

  /** The hook replaces a value of the result exactly when the credential's field is occupied there by another. */
  ghost predicate ReplacesOnlyIfOccupied(before: Option<Output>, after: Option<Output>, field: string, k: Credential) {
    NothingReplaced(before, after) <==>
      (before.Some? && Occupied(before.value.fields, field) ==> before.value.fields[field] == CredentialValue(k))
  }

  /** An execution that passed the completion check hands its credential out exactly once: the hook puts it in the
      granted field and nowhere else, marks the result as not to be stored, and forgets it, so that running again
      changes nothing. The handler's output left that field free; where the result still carries what was checked,
      nothing is replaced, and otherwise a value is replaced exactly when something else has occupied the field. */
  lemma CredentialHandedOutOnce(c: Config, s: State, output: Data, r: InvocationResult)
    requires Completion(c, s, output).None?
    ensures var (t, h) := PostCommit(c, s, r);
            && t.credential.None? && PostCommit(c, t, h) == (t, h)
            && (s.credential.None? ==> h == r)
            && (s.credential.Some? ==>
                  var field, k := CredentialField(c), s.credential.value;
                  && h.noStore && !Occupied(output, field)
                  && OnlyFieldAdded(r.record, h.record, field, k)
                  && OnlyFieldAdded(r.objectOutput, h.objectOutput, field, k)
                  && ReplacesOnlyIfOccupied(r.record, h.record, field, k)
                  && ReplacesOnlyIfOccupied(r.objectOutput, h.objectOutput, field, k)
                  && (CarriesChecked(r.record, output, field) ==> NothingReplaced(r.record, h.record))
                  && (CarriesChecked(r.objectOutput, output, field) ==>
                         NothingReplaced(r.objectOutput, h.objectOutput)))
  {
    if s.credential.Some? {
      FieldAdded(r.record, CredentialField(c), s.credential.value);
      FieldAdded(r.objectOutput, CredentialField(c), s.credential.value);
    }
  }

  lemma FieldAdded(o: Option<Output>, field: string, k: Credential)
    ensures OnlyFieldAdded(o, WithCredential(o, field, k), field, k)
    ensures ReplacesOnlyIfOccupied(o, WithCredential(o, field, k), field, k)
  {
    if o.Some? && Occupied(o.value.fields, field) {
      assert WithCredential(o, field, k).value.fields[field] == CredentialValue(k);
    }
  }

  // ---------------------------------------------------------------- who can know the credential

  /** A credential with its password blotted out; only whether it was blank still shows. */
  function MaskCredential(k: Option<Credential>): Option<Credential> {
    if k.None? then None else Some(k.value.(password := if T.Trim(k.value.password) == "" then "" else "*"))
  }

  function MaskAnswer(a: Option<Answer>): Option<Answer> {
    if a.None? then None else Some(a.value.(credential := MaskCredential(a.value.credential)))
  }

  function MaskEffect(e: Effect): Effect {
    match e
    case Delivered(q, a) => Delivered(q, MaskAnswer(a))
    case ErasureQueued(_, _) => e
    case IdentityDisabled(q, a) => IdentityDisabled(q, MaskAnswer(a))
  }

  function MaskLog(log: seq<Effect>): (r: seq<Effect>)
    ensures |r| == |log| && forall i :: 0 <= i < |log| ==> r[i] == MaskEffect(log[i])
  {
    seq(|log|, i requires 0 <= i < |log| => MaskEffect(log[i]))
  }

  function MaskState(s: State): State { s.(credential := MaskCredential(s.credential), log := MaskLog(s.log)) }

  function MaskCall(call: Call): Call {
    match call
    case DeliverIdentity(q, env) => DeliverIdentity(q, env.(answer := MaskAnswer(env.answer)))
    case StageAccountErasure(q, env) => StageAccountErasure(q, env.(disabled := MaskAnswer(env.disabled)))
    case _ => call
  }

  function MaskCalls(calls: seq<Call>): (r: seq<Call>)
    ensures |r| == |calls| && forall i :: 0 <= i < |calls| ==> r[i] == MaskCall(calls[i])
  {
    seq(|calls|, i requires 0 <= i < |calls| => MaskCall(calls[i]))
  }

  /** What a call tells the handler. */
  datatype Reply =
    | DeliveryReply(delivery: Result<Delivery, Error>)
    | ErasureReply(receipt: Result<Queued, Error>)
    | NoReply

  function ReplyTo(c: Config, s: State, call: Call): Reply {
    match call
    case DeliverIdentity(q, env) => DeliveryReply(Deliver(c, s, q, env).1)
    case StageAccountErasure(q, env) => ErasureReply(Erase(c, s, q, env).1)
    case _ => NoReply
  }

  function Replies(c: Config, s: State, calls: seq<Call>): seq<Reply>
    decreases |calls|
  {
    if calls == [] then [] else [ReplyTo(c, s, calls[0])] + Replies(c, Step(c, s, calls[0]), calls[1..])
  }

  lemma MaskLogNext(log: seq<Effect>, e: Effect)
    ensures MaskLog(log + [e]) == MaskLog(log) + [MaskEffect(e)]
  {
  }

  lemma MaskFault(c: Config, request: Mutation, a: Option<Answer>)
    ensures Fault(c, request, MaskAnswer(a)) == Fault(c, request, a)
  {
    assert T.Trimmed("*") && T.Trimmed("");
  }

  lemma MaskSend(c: Config, s: State, request: Mutation, a: Option<Answer>)
    ensures Send(c, MaskState(s), request, MaskAnswer(a)) ==
                (MaskState(Send(c, s, request, a).0), Send(c, s, request, a).1)
  {
    MaskFault(c, request, a);
    MaskLogNext(s.log, Delivered(request, a));
  }

  lemma MaskPrepare(c: Config, s: State, q: Request, env: DeliveryPorts)
    ensures Prepare(c, MaskState(s), q, env.(answer := MaskAnswer(env.answer))) == Prepare(c, s, q, env)
  {
  }

  lemma MaskProceed(c: Config, s: State, q: Request, p: Prepared, env: DeliveryPorts)
    ensures var masked := env.(answer := MaskAnswer(env.answer));
            Proceed(c, MaskState(s), q, p, masked) ==
                (MaskState(Proceed(c, s, q, p, env).0), Proceed(c, s, q, p, env).1)
  {
    assert WithProfile(MaskState(s), q, p) == MaskState(WithProfile(s, q, p));
    MaskSend(c, WithProfile(s, q, p), MutationFor(c, q, p), env.answer);
  }

  lemma MaskStage(c: Config, s: State, approval: Approval, request: Mutation, env: ErasePorts)
    ensures var masked := env.(disabled := MaskAnswer(env.disabled));
            Stage(c, MaskState(s), approval, request, masked) ==
                (MaskState(Stage(c, s, approval, request, env).0), Stage(c, s, approval, request, env).1)
  {
    MaskLogNext(s.log, ErasureQueued(approval, env.queued));
    MaskLogNext(s.log + [ErasureQueued(approval, env.queued)], IdentityDisabled(request, env.disabled));
  }

  lemma MaskPrepareErase(c: Config, s: State, q: EraseRequest, env: ErasePorts)
    ensures PrepareErase(c, MaskState(s), q, env.(disabled := MaskAnswer(env.disabled))) == PrepareErase(c, s, q, env)
  {
  }

  lemma MaskDeliver(c: Config, s: State, q: Request, env: DeliveryPorts)
    ensures var masked := env.(answer := MaskAnswer(env.answer));
            Deliver(c, MaskState(s), q, masked) == (MaskState(Deliver(c, s, q, env).0), Deliver(c, s, q, env).1)
  {
    MaskPrepare(c, s, q, env);
    if Prepare(c, s, q, env).Ok? {
      MaskProceed(c, s, q, Prepare(c, s, q, env).value, env);
    }
  }

  lemma MaskErase(c: Config, s: State, q: EraseRequest, env: ErasePorts)
    ensures var masked := env.(disabled := MaskAnswer(env.disabled));
            Erase(c, MaskState(s), q, masked) == (MaskState(Erase(c, s, q, env).0), Erase(c, s, q, env).1)
  {
    MaskPrepareErase(c, s, q, env);
    if PrepareErase(c, s, q, env).Ok? {
      PrepareEraseFirst(c, s, q, env);
      var subject := PrepareErase(c, s, q, env).value;
      MaskStage(c, s, ApprovalFor(c, s, q, subject), DisableRequest(c, s, q, subject), env);
    }
  }

  /** Nothing a handler is told before the hook runs depends on the password: with every password blotted out,
      each call of every run gets the same reply. The hook alone can put the credential into the result. */
  lemma {:induction false} CredentialInvisible(c: Config, s: State, calls: seq<Call>)
    ensures Replies(c, MaskState(s), MaskCalls(calls)) == Replies(c, s, calls)
    ensures Run(c, MaskState(s), MaskCalls(calls)) == MaskState(Run(c, s, calls))
    decreases |calls|
  {
    if calls != [] {
      var call, rest := calls[0], calls[1..];
      if call.DeliverIdentity? {
        MaskDeliver(c, s, call.request, call.ports);
      } else if call.StageAccountErasure? {
        MaskErase(c, s, call.erase, call.erasePorts);
      }
      assert Step(c, MaskState(s), MaskCall(call)) == MaskState(Step(c, s, call));
      assert ReplyTo(c, MaskState(s), MaskCall(call)) == ReplyTo(c, s, call);
      CredentialInvisible(c, Step(c, s, call), rest);
      assert MaskCalls(calls)[1..] == MaskCalls(rest);
    }
  }

  // ---------------------------------------------------------------- the session

  /** `businessActionExecution`, as far as these capabilities go; `log` is what its backends saw. */
  class CapabilitySession {
    const config: Config
    var target: Option<string>
    var unitDelivered: bool
    var identityDeliveryCalls: nat
    var identityDeliveryOk: bool
    var accountErasureCalls: nat
    var accountErasureOk: bool
    var initialCredential: Option<Credential>
    var planned: seq<PlannedProfile>
    var log: seq<Effect>

    function Contents(): State
      reads this
    {
      State(target, unitDelivered, identityDeliveryCalls, identityDeliveryOk, accountErasureCalls, accountErasureOk,
          initialCredential, planned, log)
    }

    constructor (config: Config)
      ensures this.config == config && Contents() == INITIAL
    {
      this.config := config;
      target, unitDelivered, identityDeliveryCalls, identityDeliveryOk := None, false, 0, false;
      accountErasureCalls, accountErasureOk, initialCredential, planned, log := 0, false, None, [], [];
    }

    method DeliverIdentity(q: Request, env: DeliveryPorts) returns (r: Result<Delivery, Error>)
      modifies this
      ensures (Contents(), r) == Deliver(config, old(Contents()), q, env)
    {
      var prepared := PrepareDelivery(q, env);
      match prepared {
        case Err(e) => return Err(e);
        case Ok(p) =>
          if q.binding.Some? && q.binding.value.createFields.Some? && p.profile.Some? {
            planned := planned + [PlannedProfile(p.profile.value.objectKey, p.profile.value.profileId, p.userId)];
          }
          if !env.bindOk {
            return Err(BackendUnbound);
          }
          r := SendDelivery(MutationFor(config, q, p), env.answer);
      }
    }

    method PrepareDelivery(q: Request, env: DeliveryPorts) returns (r: Result<Prepared, Error>)
      ensures r == Prepare(config, Contents(), q, env)
    {
      if !Granted(config, q.operation) {
        return Err(OperationDenied);
      }
      if identityDeliveryCalls != 0 {
        return Err(AlreadyUsed);
      }
      if q.expectedVersion < 0 {
        return Err(RequestInvalid);
      }
      if T.Trim(q.userId) != "" || T.Trim(q.orgId) != "" {
        return Err(RuntimeOwnedFields);
      }
      var targetId := Target(config, Contents());
      if targetId == "" {
        return Err(TargetUnresolved);
      }
      if !LoginValid(q) {
        return Err(LoginModeInvalid);
      }
      if q.binding.Some? {
        return PrepareBound(config, targetId, q.operation, Trimmed(q.binding.value), env);
      }
      if !q.operation.Create? {
        return Err(ProfileBindingRequired);
      }
      r := if env.beginOk then Ok(Prepared(config.newUserId, targetId, None)) else Err(BeginFailed);
    }

    method SendDelivery(request: Mutation, answer: Option<Answer>) returns (r: Result<Delivery, Error>)
      modifies this
      ensures (Contents(), r) == Send(config, old(Contents()), request, answer)
    {
      identityDeliveryCalls := identityDeliveryCalls + 1;
      log := log + [Delivered(request, answer)];
      var fault := Fault(config, request, answer);
      if fault.Some? {
        return Err(fault.value);
      }
      if answer.value.credential.Some? {
        initialCredential := answer.value.credential;
      }
      identityDeliveryOk := true;
      r := Ok(Visible(answer.value));
    }

    method StageAccountErasure(q: EraseRequest, env: ErasePorts) returns (r: Result<Queued, Error>)
      modifies this
      ensures (Contents(), r) == Erase(config, old(Contents()), q, env)
    {
      var subject := PrepareErase(config, Contents(), q, env);
      if subject.Err? {
        return Err(subject.error);
      }
      var approval := ApprovalFor(config, Contents(), q, subject.value);
      r := QueueAndDisable(approval, DisableRequest(config, Contents(), q, subject.value), env);
    }

    method QueueAndDisable(approval: Approval, request: Mutation, env: ErasePorts) returns (r: Result<Queued, Error>)
      modifies this
      ensures (Contents(), r) == Stage(config, old(Contents()), approval, request, env)
    {
      accountErasureCalls := accountErasureCalls + 1;
      log := log + [ErasureQueued(approval, env.queued)];
      if env.queued.None? {
        return Err(StageFailed);
      }
      log := log + [IdentityDisabled(request, env.disabled)];
      if env.disabled.None? {
        return Err(DisableFailed);
      }
      if !EraseMatches(config, request, env.queued.value, env.disabled.value) {
        return Err(ReceiptMismatch);
      }
      accountErasureOk := true;
      r := Ok(env.queued.value);
    }

    method ValidateCapabilityCompletion(output: Data) returns (error: Option<Error>)
      ensures error == Completion(config, Contents(), output)
    {
      if config.targetGrant && target.None? {
        return Some(TargetUnresolved);
      }
      if config.unitGrant && !unitDelivered {
        return Some(UnitIncomplete);
      }
      if accountErasureCalls != 0 && !accountErasureOk {
        return Some(ErasureIncomplete);
      }
      if identityDeliveryCalls != 0 && !identityDeliveryOk {
        return Some(DeliveryIncomplete);
      }
      if initialCredential.None? {
        return None;
      }
      var field := CredentialField(config);
      if field == "" {
        return Some(CredentialOutputRequired);
      }
      error := if Occupied(output, field) then Some(CredentialOutputOccupied) else None;
    }

    method AfterCommit(r: InvocationResult) returns (h: InvocationResult)
      modifies this`initialCredential
      ensures (Contents(), h) == PostCommit(config, old(Contents()), r)
    {
      h := r;
      if initialCredential.None? || config.identityGrant.None? {
        return;
      }
      var field := CredentialField(config);
      if field == "" {
        return;
      }
      h := h.(record := WithCredential(h.record, field, initialCredential.value));
      h := h.(objectOutput := WithCredential(h.objectOutput, field, initialCredential.value));
      h := h.(noStore := true);
      initialCredential := None;
    }
  }
}
