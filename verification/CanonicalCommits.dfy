/** What a Business Handler staged, turned into the commits of one atomic Action transaction; and the
    view of earlier staged records that later mutations of the same Action are validated against. */
module CanonicalCommits {
  import opened Basics
  import opened Records
  import Text
  import U = UnitOfWork

  datatype Message = Message(id: string, connectorKey: string, connectionKey: string, operation: string,
                             payload: Data, dedupKey: string, fingerprint: string, requestRef: string)

  datatype Intent = Intent(intentId: string, consumerKey: string, connectionKey: string, operationKey: string,
                           contract: string, idempotencyKey: string, payload: Data)

  datatype Notification = Notification(eventType: string, subjectType: string, subjectId: string)

  datatype Audit = Audit(id: string, event: string, objectKey: string, recordId: string)

  datatype WorkflowStart = WorkflowStart(processId: string, intent: string)

  datatype Withdrawal = Withdrawal(processId: string, objectKey: string, recordId: string, workflowKey: string,
                                   commandId: string, withdrawnAt: string)

  /** `RecordMutationCommit`; a plan is known by its canonical commit. */
  datatype Commit = Commit(operation: string, objectKey: string, recordId: string, record: Record,
                           audits: seq<Audit>, outbox: seq<Message>, notifications: seq<Notification>,
                           workflowStarts: seq<WorkflowStart>, withdrawals: seq<Withdrawal>)

  datatype Error =
    | TargetInvalid | IntentNeedsMutation | NotificationNeedsMutation | JobNeedsMutation
    | StartNeedsMutation | WithdrawalNeedsMutation
    | IntentInvalid | GrantDenied | SideEffectOutbox | PhaseInvalid | BindingMismatch | BackendFailed

  // ---------------------------------------------------------------- deduplication identities

  /** `fmt.Sprint` of a payload entry: nil and missing entries print as "<nil>". */
  function Printed(sprint: Value -> string, v: Value): string { if v.Null? then "<nil>" else sprint(v) }

  function EntryKey(batch: string, entry: string): string {
    "batch:" + (Text.Decimal(Text.ByteLen(batch)) + ([':'] + (batch + EntrySuffix(entry))))
  }

  function EntrySuffix(entry: string): string {
    ":entry:" + (Text.Decimal(Text.ByteLen(entry)) + ([':'] + entry))
  }

  /** `DurableIntentBatchEntryKey`. */
  function BatchEntryKey(sprint: Value -> string, payload: Data): string {
    var batch := Text.Trim(Printed(sprint, Get(payload, "batch_key")));
    var entry := Text.Trim(Printed(sprint, Get(payload, "entry_key")));
    if batch == "" || batch == "<nil>" || entry == "" || entry == "<nil>" then "" else EntryKey(batch, entry)
  }

  /** The key of a batch entry in full, and when there is none. */
  lemma BatchEntryKeySpelled(sprint: Value -> string, payload: Data)
    ensures "batch_key" !in payload || "entry_key" !in payload ==> BatchEntryKey(sprint, payload) == ""
    ensures "batch_key" in payload && "entry_key" in payload && payload["batch_key"].Text? && payload["entry_key"].Text?
            && BatchEntryKey(sprint, payload) != "" ==>
              var b := Text.Trim(sprint(payload["batch_key"]));
              var e := Text.Trim(sprint(payload["entry_key"]));
              BatchEntryKey(sprint, payload) ==
                "batch:" + Text.Decimal(Text.ByteLen(b)) + ":" + b + ":entry:" + Text.Decimal(Text.ByteLen(e)) + ":" + e
  {
    assert Text.Trimmed("<nil>");
    if BatchEntryKey(sprint, payload) != "" {
      var b := Text.Trim(Printed(sprint, Get(payload, "batch_key")));
      var e := Text.Trim(Printed(sprint, Get(payload, "entry_key")));
      EntryKeySpelled(b, Text.Decimal(Text.ByteLen(b)), e, Text.Decimal(Text.ByteLen(e)));
    }
  }

  lemma EntryKeySpelled(b: string, m: string, e: string, n: string)
    requires m == Text.Decimal(Text.ByteLen(b)) && n == Text.Decimal(Text.ByteLen(e))
    ensures EntryKey(b, e) == "batch:" + m + ":" + b + ":entry:" + n + ":" + e
  {
    var suffix := ":entry:" + (n + ([':'] + e));
    assert suffix == ":entry:" + n + ":" + e;
    assert EntryKey(b, e) == "batch:" + m + ":" + b + suffix;
  }

  /** The key tells every pair of strings apart, whatever delimiters and digits they contain. */
  lemma EntryKeyInjective(batch: string, entry: string, batch': string, entry': string)
    requires EntryKey(batch, entry) == EntryKey(batch', entry')
    ensures batch == batch' && entry == entry'
  {
    var b, b' := Text.Decimal(Text.ByteLen(batch)), Text.Decimal(Text.ByteLen(batch'));
    var x, x' := EntrySuffix(entry), EntrySuffix(entry');
    AfterPrefix("batch:", b + ([':'] + (batch + x)), b' + ([':'] + (batch' + x')));
    Text.DigitRunUnique(b, batch + x, b', batch' + x', ':');
    Text.DecimalInjective(Text.ByteLen(batch), Text.ByteLen(batch'));
    Text.BytePrefixUnique(batch, x, batch', x');
    EntrySuffixInjective(entry, entry');
  }

  lemma EntrySuffixInjective(entry: string, entry': string)
    requires EntrySuffix(entry) == EntrySuffix(entry')
    ensures entry == entry'
  {
    var e, e' := Text.Decimal(Text.ByteLen(entry)), Text.Decimal(Text.ByteLen(entry'));
    AfterPrefix(":entry:", e + ([':'] + entry), e' + ([':'] + entry'));
    Text.DigitRunUnique(e, entry, e', entry', ':');
  }

  lemma AfterPrefix(p: string, x: string, y: string)
    requires p + x == p + y
    ensures x == y
  {
    assert x == (p + x)[|p|..] && y == (p + y)[|p|..];
  }

  /** Two payloads get the same key exactly when neither has one or both name the same batch and entry. */
  lemma BatchEntryKeyExact(sprint: Value -> string, p: Data, q: Data)
    ensures var pb, pe := Text.Trim(Printed(sprint, Get(p, "batch_key"))),
                Text.Trim(Printed(sprint, Get(p, "entry_key")));
            var qb, qe := Text.Trim(Printed(sprint, Get(q, "batch_key"))),
                Text.Trim(Printed(sprint, Get(q, "entry_key")));
            BatchEntryKey(sprint, p) == BatchEntryKey(sprint, q) <==>
            (BatchEntryKey(sprint, p) == "" && BatchEntryKey(sprint, q) == "")
            || (BatchEntryKey(sprint, p) != "" && pb == qb && pe == qe)
  {
    var pb, pe := Text.Trim(Printed(sprint, Get(p, "batch_key"))), Text.Trim(Printed(sprint, Get(p, "entry_key")));
    var qb, qe := Text.Trim(Printed(sprint, Get(q, "batch_key"))), Text.Trim(Printed(sprint, Get(q, "entry_key")));
    if BatchEntryKey(sprint, p) == BatchEntryKey(sprint, q) && BatchEntryKey(sprint, p) != "" {
      EntryKeyInjective(pb, pe, qb, qe);
    }
  }

  /** The identity an intent names itself: its own key, or the key of its batch entry; empty if neither. */
  function NamedKey(sprint: Value -> string, intent: Intent): string {
    var own := Text.Trim(intent.idempotencyKey);
    if own != "" then own else BatchEntryKey(sprint, intent.payload)
  }

  function FallbackKey(executionId: string, index: nat): string { executionId + ":intent:" + Text.Decimal(index) }

  function DedupKey(sprint: Value -> string, executionId: string, intent: Intent, index: nat): string {
    if NamedKey(sprint, intent) != "" then NamedKey(sprint, intent) else FallbackKey(executionId, index)
  }

  /** Positions are told apart. */
  lemma FallbackKeysDistinct(executionId: string, i: nat, k: nat)
    ensures FallbackKey(executionId, i) == FallbackKey(executionId, k) <==> i == k
  {
    if FallbackKey(executionId, i) == FallbackKey(executionId, k) {
      AfterPrefix(executionId + ":intent:", Text.Decimal(i), Text.Decimal(k));
      Text.DecimalInjective(i, k);
    }
  }

  /** Two intents of one execution get the same identity exactly when they name the same one, or one of them
      names the very text that stands for the other's position: an intent that names nothing never shares the
      identity of another that names nothing. */
  lemma DedupKeysCoincideExactly(sprint: Value -> string, executionId: string, a: Intent, i: nat, b: Intent, k: nat)
    requires i != k
    ensures DedupKey(sprint, executionId, a, i) == DedupKey(sprint, executionId, b, k) <==>
            var x, y := NamedKey(sprint, a), NamedKey(sprint, b);
            (x != "" && x == y) || (x == "" && y == FallbackKey(executionId, i))
            || (y == "" && x == FallbackKey(executionId, k))
  {
    FallbackKeysDistinct(executionId, i, k);
    assert |FallbackKey(executionId, i)| > 0 && |FallbackKey(executionId, k)| > 0;
  }

  /** That case is real: the second intent of execution "x" takes the identity of the first. */
  lemma NamedKeyTakesPosition(sprint: Value -> string, a: Intent, b: Intent)
    requires NamedKey(sprint, a) == "" && b.idempotencyKey == "x:intent:0"
    ensures DedupKey(sprint, "x", a, 0) == DedupKey(sprint, "x", b, 1)
  {
    assert Text.Trimmed(b.idempotencyKey);
    assert Text.Decimal(0) == "0";
    assert FallbackKey("x", 0) == "x:intent:0";
  }

  function IntentId(executionId: string, index: nat): string {
    "durable_intent:" + executionId + ":" + Text.Decimal(index)
  }

  // ---------------------------------------------------------------- building the commits

  function MessageFor(sprint: Value -> string, executionId: string, intent: Intent, index: nat): Message {
    Message(intent.intentId, intent.consumerKey, intent.connectionKey, intent.operationKey, intent.payload,
            DedupKey(sprint, executionId, intent, index), intent.contract, executionId)
  }

  function Messages(sprint: Value -> string, executionId: string, intents: seq<Intent>): (r: seq<Message>)
    ensures |r| == |intents| && forall i :: 0 <= i < |r| ==> r[i] == MessageFor(sprint, executionId, intents[i], i)
  {
    seq(|intents|, i requires 0 <= i < |intents| => MessageFor(sprint, executionId, intents[i], i))
  }

  function NotificationAudit(executionId: string, n: Notification, index: nat): Audit {
    Audit("notification_audit:" + executionId + ":" + Text.Decimal(index), "notification.intent.dispatch",
        n.subjectType, n.subjectId)
  }

  function NotificationAudits(executionId: string, ns: seq<Notification>): (r: seq<Audit>)
    ensures |r| == |ns| && forall i :: 0 <= i < |r| ==> r[i] == NotificationAudit(executionId, ns[i], i)
  {
    seq(|ns|, i requires 0 <= i < |ns| => NotificationAudit(executionId, ns[i], i))
  }

  /** Everything a handler may have staged. */
  datatype Staged = Staged(plans: seq<Commit>, setCommits: seq<Commit>, jobs: seq<Commit>, intents: seq<Intent>,
                           notifications: seq<Notification>, starts: seq<WorkflowStart>, withdrawals: seq<Withdrawal>)

  /** The commit with the staged side effects behind its own. */
  function WithAttachments(c: Commit, sprint: Value -> string, executionId: string, s: Staged): Commit {
    c.(outbox := c.outbox + Messages(sprint, executionId, s.intents),
       notifications := c.notifications + s.notifications,
       audits := c.audits + NotificationAudits(executionId, s.notifications),
       workflowStarts := c.workflowStarts + s.starts,
       withdrawals := c.withdrawals + s.withdrawals)
  }

  /** The commits of a run that staged `s`: its base commits, the last one with the attachments. */
  ghost predicate Built(s: Staged, sprint: Value -> string, executionId: string, base: seq<Commit>,
                        commits: seq<Commit>) {
    && base == s.plans + s.setCommits + s.jobs && base != []
    && commits == base[..|base| - 1] + [WithAttachments(base[|base| - 1], sprint, executionId, s)]
  }

  /** Whether anything was staged that only a business mutation may carry. */
  predicate SideEffectsOnly(s: Staged) {
    && s.plans == [] && s.setCommits == []
    && (s.jobs != [] || s.intents != [] || s.notifications != [] || s.starts != [] || s.withdrawals != [])
  }

  function Canonical(s: Staged, sprint: Value -> string, executionId: string): seq<Commit> {
    var base := s.plans + s.setCommits + s.jobs;
    if base == [] then [] else base[..|base| - 1] + [WithAttachments(base[|base| - 1], sprint, executionId, s)]
  }

  /** `canonicalCommits`. Plans, then set commits, then jobs, in staging order; only the last commit
      gains attachments; any side effect staged without a business mutation is an error. */
  method BuildCommits(s: Staged, sprint: Value -> string, executionId: string, targetOk: bool)
      returns (r: Result<seq<Commit>, Error>)
    ensures r.Ok? <==> targetOk && !SideEffectsOnly(s)
    ensures r.Ok? ==> r.value == Canonical(s, sprint, executionId)
    ensures r.Err? ==>
              r.error == (if !targetOk then TargetInvalid
                          else if s.intents != [] then IntentNeedsMutation
                          else if s.notifications != [] then NotificationNeedsMutation
                          else if s.jobs != [] then JobNeedsMutation
                          else if s.starts != [] then StartNeedsMutation
                          else WithdrawalNeedsMutation)
  {
    var commits: seq<Commit> := [];
    for i := 0 to |s.plans|
      invariant commits == s.plans[..i]
    {
      commits := commits + [s.plans[i]];
    }
    commits := commits + s.setCommits;
    if !targetOk {
      return Err(TargetInvalid);
    }
    if |s.intents| > 0 && |commits| == 0 {
      return Err(IntentNeedsMutation);
    }
    if |s.notifications| > 0 && |commits| == 0 {
      return Err(NotificationNeedsMutation);
    }
    if |s.jobs| > 0 && |commits| == 0 {
      return Err(JobNeedsMutation);
    }
    commits := commits + s.jobs;
    if |commits| == 0 {
      if |s.starts| > 0 {
        return Err(StartNeedsMutation);
      }
      if |s.withdrawals| > 0 {
        return Err(WithdrawalNeedsMutation);
      }
      return Ok([]);
    }
    var last := |commits| - 1;
    var attached := Attach(commits[last], s, sprint, executionId);
    assert commits[last := attached] == commits[..last] + [attached];
    return Ok(commits[last := attached]);
  }

  /** The attachments the last commit gains, in the order they are added. */
  method Attach(c: Commit, s: Staged, sprint: Value -> string, executionId: string) returns (r: Commit)
    ensures r == WithAttachments(c, sprint, executionId, s)
  {
    NothingToAttach(c);
    r := AttachMessages(c, s.intents, sprint, executionId);
    if |s.notifications| > 0 {
      r := AttachNotifications(r, s.notifications, executionId);
    }
    if |s.starts| > 0 {
      r := r.(workflowStarts := r.workflowStarts + s.starts);
    }
    if |s.withdrawals| > 0 {
      r := r.(withdrawals := r.withdrawals + s.withdrawals);
    }
  }

  lemma AppendNext<T>(own: seq<T>, all: seq<T>, index: nat)
    requires index < |all|
    ensures own + all[..index] + [all[index]] == own + all[..index + 1]
  {
  }

  lemma NothingToAttach(c: Commit)
    ensures c.outbox + [] == c.outbox && c.notifications + [] == c.notifications && c.audits + [] == c.audits
    ensures c.workflowStarts + [] == c.workflowStarts && c.withdrawals + [] == c.withdrawals
  {
  }

  method AttachMessages(c: Commit, intents: seq<Intent>, sprint: Value -> string, executionId: string)
      returns (r: Commit)
    ensures r == c.(outbox := c.outbox + Messages(sprint, executionId, intents))
  {
    var outbox := c.outbox;
    ghost var all := Messages(sprint, executionId, intents);
    for index := 0 to |intents|
      invariant outbox == c.outbox + all[..index]
    {
      var message := OneMessage(intents[index], index, sprint, executionId);
      AppendNext(c.outbox, all, index);
      outbox := outbox + [message];
    }
    assert all[..|intents|] == all;
    r := c.(outbox := outbox);
  }

  method OneMessage(i: Intent, index: nat, sprint: Value -> string, executionId: string) returns (m: Message)
    ensures m == MessageFor(sprint, executionId, i, index)
  {
    var key := Text.Trim(i.idempotencyKey);
    if key == "" {
      key := BatchEntryKey(sprint, i.payload);
    }
    assert key == NamedKey(sprint, i);
    if key == "" {
      key := executionId + ":intent:" + Text.Decimal(index);
    }
    m := Message(i.intentId, i.consumerKey, i.connectionKey, i.operationKey, i.payload, key, i.contract, executionId);
  }

  method AttachNotifications(c: Commit, notifications: seq<Notification>, executionId: string) returns (r: Commit)
    ensures r == c.(notifications := c.notifications + notifications,
                audits := c.audits + NotificationAudits(executionId, notifications))
  {
    var audits := c.audits;
    ghost var all := NotificationAudits(executionId, notifications);
    for index := 0 to |notifications|
      invariant audits == c.audits + all[..index]
    {
      var audit := Audit("notification_audit:" + executionId + ":" + Text.Decimal(index),
                       "notification.intent.dispatch",
                         notifications[index].subjectType, notifications[index].subjectId);
      AppendNext(c.audits, all, index);
      audits := audits + [audit];
    }
    assert all[..|notifications|] == all;
    r := c.(notifications := c.notifications + notifications, audits := audits);
  }

  // ---------------------------------------------------------------- conservation

  /** One kind of content over all commits, in order. */
  function Gather<T>(commits: seq<Commit>, part: Commit -> seq<T>): seq<T> {
    if commits == [] then [] else part(commits[0]) + Gather(commits[1..], part)
  }

  lemma {:induction false} GatherLast<T>(init: seq<Commit>, c: Commit, part: Commit -> seq<T>)
    ensures Gather(init + [c], part) == Gather(init, part) + part(c)
  {
    if init == [] {
      assert (init + [c])[1..] == [];
    } else {
      assert (init + [c])[1..] == init[1..] + [c];
      GatherLast(init[1..], c, part);
      JoinAssociative(part(init[0]), Gather(init[1..], part), part(c));
    }
  }

  /** If only the last commit changed, and `part` of it only grew by `extra`, the total grew by `extra`. */
  lemma GatherGrows<T>(base: seq<Commit>, last: Commit, part: Commit -> seq<T>, extra: seq<T>)
    requires base != [] && part(last) == part(base[|base| - 1]) + extra
    ensures Gather(base[..|base| - 1] + [last], part) == Gather(base, part) + extra
  {
    var init := base[..|base| - 1];
    assert base == init + [base[|base| - 1]];
    GatherLast(init, last, part);
    GatherLast(init, base[|base| - 1], part);
    JoinAssociative(Gather(init, part), part(base[|base| - 1]), extra);
  }

  lemma JoinAssociative<T>(a: seq<T>, b: seq<T>, c: seq<T>)
    ensures a + (b + c) == a + b + c
  {
  }

  function OutboxOf(c: Commit): seq<Message> { c.outbox }
  function NotificationsOf(c: Commit): seq<Notification> { c.notifications }
  function StartsOf(c: Commit): seq<WorkflowStart> { c.workflowStarts }
  function WithdrawalsOf(c: Commit): seq<Withdrawal> { c.withdrawals }
  function AuditsOf(c: Commit): seq<Audit> { c.audits }

  /** Nothing staged is lost, doubled or reordered: over all commits, each kind of side effect is what
      the plans, set commits and jobs carried themselves followed by exactly what was staged. */
  lemma MessagesConserved(s: Staged, sprint: Value -> string, executionId: string, base: seq<Commit>,
                          commits: seq<Commit>)
    requires Built(s, sprint, executionId, base, commits)
    ensures Gather(commits, OutboxOf) == Gather(base, OutboxOf) + Messages(sprint, executionId, s.intents)
    ensures Gather(commits, NotificationsOf) == Gather(base, NotificationsOf) + s.notifications
    ensures Gather(commits, AuditsOf) == Gather(base, AuditsOf) + NotificationAudits(executionId, s.notifications)
  {
    var last := WithAttachments(base[|base| - 1], sprint, executionId, s);
    GatherGrows(base, last, OutboxOf, Messages(sprint, executionId, s.intents));
    GatherGrows(base, last, NotificationsOf, s.notifications);
    GatherGrows(base, last, AuditsOf, NotificationAudits(executionId, s.notifications));
  }

  lemma WorkflowsConserved(s: Staged, sprint: Value -> string, executionId: string, base: seq<Commit>,
                           commits: seq<Commit>)
    requires Built(s, sprint, executionId, base, commits)
    ensures Gather(commits, StartsOf) == Gather(base, StartsOf) + s.starts
    ensures Gather(commits, WithdrawalsOf) == Gather(base, WithdrawalsOf) + s.withdrawals
  {
    var last := WithAttachments(base[|base| - 1], sprint, executionId, s);
    GatherGrows(base, last, StartsOf, s.starts);
    GatherGrows(base, last, WithdrawalsOf, s.withdrawals);
  }

  function BaseOf(s: Staged): seq<Commit> { s.plans + s.setCommits + s.jobs }

  /** The same business mutation, whatever side effects travel with it. */
  predicate SameMutation(a: Commit, b: Commit) {
    a.operation == b.operation && a.objectKey == b.objectKey && a.recordId == b.recordId && a.record == b.record
  }

  /** The commits are the staged plans, set commits and jobs, one for one and in order, every one but the last
      exactly as staged. */
  ghost predicate KeepsMutations(s: Staged, commits: seq<Commit>) {
    && |commits| == |BaseOf(s)|
    && (forall i :: 0 <= i < |commits| ==> SameMutation(commits[i], BaseOf(s)[i]))
    && (forall i :: 0 <= i < |commits| - 1 ==> commits[i] == BaseOf(s)[i])
  }

  /** The message says of its intent what the intent says of itself, and names the execution. */
  ghost predicate Carries(m: Message, sprint: Value -> string, executionId: string, i: Intent, index: nat) {
    && m.id == i.intentId && m.connectorKey == i.consumerKey && m.connectionKey == i.connectionKey
    && m.operation == i.operationKey && m.payload == i.payload && m.fingerprint == i.contract
    && m.requestRef == executionId
    && (if Text.Trim(i.idempotencyKey) != "" then m.dedupKey == Text.Trim(i.idempotencyKey)
        else if BatchEntryKey(sprint, i.payload) != "" then m.dedupKey == BatchEntryKey(sprint, i.payload)
        else m.dedupKey == executionId + ":intent:" + Text.Decimal(index))
  }

  /** The audit says that the notification was dispatched, and about what. */
  ghost predicate Witnesses(a: Audit, executionId: string, n: Notification, index: nat) {
    && a.id == "notification_audit:" + executionId + ":" + Text.Decimal(index)
    && a.event == "notification.intent.dispatch" && a.objectKey == n.subjectType && a.recordId == n.subjectId
  }

  /** The messages are those of before followed by one for each intent, in order. */
  ghost predicate OutboxHolds(all: seq<Message>, before: seq<Message>, sprint: Value -> string, executionId: string,
                              intents: seq<Intent>) {
    && |all| == |before| + |intents| && all[..|before|] == before
    && forall k :: 0 <= k < |intents| ==> Carries(all[|before| + k], sprint, executionId, intents[k], k)
  }

  ghost predicate AuditsHold(all: seq<Audit>, before: seq<Audit>, executionId: string, ns: seq<Notification>) {
    && |all| == |before| + |ns| && all[..|before|] == before
    && forall k :: 0 <= k < |ns| ==> Witnesses(all[|before| + k], executionId, ns[k], k)
  }

  lemma MessagesCarry(before: seq<Message>, sprint: Value -> string, executionId: string, intents: seq<Intent>)
    ensures OutboxHolds(before + Messages(sprint, executionId, intents), before, sprint, executionId, intents)
  {
    var all := before + Messages(sprint, executionId, intents);
    forall k | 0 <= k < |intents| ensures Carries(all[|before| + k], sprint, executionId, intents[k], k) {
      assert all[|before| + k] == MessageFor(sprint, executionId, intents[k], k);
    }
  }

  lemma AuditsWitness(before: seq<Audit>, executionId: string, ns: seq<Notification>)
    ensures AuditsHold(before + NotificationAudits(executionId, ns), before, executionId, ns)
  {
  }

  /** Over all commits each kind of side effect is what the plans, set commits and jobs carried themselves followed
      by exactly what was staged, in order: each intent as a message that holds what it holds, each notification
      as it is and with its audit. */
  ghost predicate KeepsSideEffects(s: Staged, sprint: Value -> string, executionId: string, commits: seq<Commit>) {
    && OutboxHolds(Gather(commits, OutboxOf), Gather(BaseOf(s), OutboxOf), sprint, executionId, s.intents)
    && Gather(commits, NotificationsOf) == Gather(BaseOf(s), NotificationsOf) + s.notifications
    && AuditsHold(Gather(commits, AuditsOf), Gather(BaseOf(s), AuditsOf), executionId, s.notifications)
    && Gather(commits, StartsOf) == Gather(BaseOf(s), StartsOf) + s.starts
    && Gather(commits, WithdrawalsOf) == Gather(BaseOf(s), WithdrawalsOf) + s.withdrawals
  }

  ghost predicate Conserves(s: Staged, sprint: Value -> string, executionId: string, commits: seq<Commit>) {
    KeepsMutations(s, commits) && KeepsSideEffects(s, sprint, executionId, commits)
  }

  lemma CanonicalMutations(s: Staged, sprint: Value -> string, executionId: string)
    ensures KeepsMutations(s, Canonical(s, sprint, executionId))
  {
    var base, commits := BaseOf(s), Canonical(s, sprint, executionId);
    if base != [] {
      var n := |base| - 1;
      assert commits == base[..n] + [WithAttachments(base[n], sprint, executionId, s)];
    }
  }

  lemma CanonicalSideEffects(s: Staged, sprint: Value -> string, executionId: string)
    requires !SideEffectsOnly(s)
    ensures KeepsSideEffects(s, sprint, executionId, Canonical(s, sprint, executionId))
  {
    var base, commits := BaseOf(s), Canonical(s, sprint, executionId);
    MessagesCarry(Gather(base, OutboxOf), sprint, executionId, s.intents);
    AuditsWitness(Gather(base, AuditsOf), executionId, s.notifications);
    if base != [] {
      MessagesConserved(s, sprint, executionId, base, commits);
      WorkflowsConserved(s, sprint, executionId, base, commits);
    } else {
      assert s.intents == [] && s.notifications == [] && s.starts == [] && s.withdrawals == [];
      assert Messages(sprint, executionId, []) == [] && NotificationAudits(executionId, []) == [];
    }
  }

  /** Whatever was staged is in the commits: no mutation and no side effect is lost, doubled, changed or moved. */
  lemma CanonicalConserves(s: Staged, sprint: Value -> string, executionId: string)
    requires !SideEffectsOnly(s)
    ensures Conserves(s, sprint, executionId, Canonical(s, sprint, executionId))
  {
    CanonicalMutations(s, sprint, executionId);
    CanonicalSideEffects(s, sprint, executionId);
  }

  // ---------------------------------------------------------------- staging intents

  datatype Mode = CallMode | EnqueueMode | StartMode
  datatype Access = ReadAccess | ReserveAccess | WriteAccess

  datatype ConnectorGrant = ConnectorGrant(connectorKey: string, connectionKey: string, operationKey: string,
                                           contract: string,
                                           mode: Mode, access: Access)

  predicate HexDigit(c: char) { '0' <= c <= '9' || 'a' <= c <= 'f' }

  /** `DurableIntent.Valid`. */
  predicate IntentValid(i: Intent) {
    && Text.Trim(i.consumerKey) != "" && Text.Trim(i.connectionKey) != "" && Text.Trim(i.operationKey) != ""
    && |i.contract| == 64 && forall k :: 0 <= k < 64 ==> HexDigit(i.contract[k])
  }

  predicate Grants(g: ConnectorGrant, i: Intent) {
    g.connectorKey == i.consumerKey && g.connectionKey == i.connectionKey && g.operationKey == i.operationKey
    && g.contract == i.contract
  }

  /** The first grant for the intent, as the list has them. */
  function GrantFor(grants: seq<ConnectorGrant>, i: Intent): Option<ConnectorGrant> {
    if grants == [] then None else if Grants(grants[0], i) then Some(grants[0]) else GrantFor(grants[1..], i)
  }

  /** A grant that lets the intent be sent after the commit. */
  predicate Deferred(g: ConnectorGrant) { !g.mode.CallMode? && !g.access.ReadAccess? }

  function IntentFault(grants: seq<ConnectorGrant>, i: Intent, accepted: bool): Option<Error> {
    if !IntentValid(i) then Some(IntentInvalid)
    else if GrantFor(grants, i).None? then Some(GrantDenied)
    else if !Deferred(GrantFor(grants, i).value) then Some(SideEffectOutbox)
    else if !accepted then Some(BackendFailed)
    else None
  }

  /** The grant that decides is the first in the list that names connector, connection, operation and contract
      of the intent. */
  lemma {:induction false} GrantForExactly(grants: seq<ConnectorGrant>, i: Intent) returns (k: nat)
    ensures k <= |grants|
    ensures GrantFor(grants, i) == if k < |grants| then Some(grants[k]) else None
    ensures k < |grants| ==>
              && grants[k].connectorKey == i.consumerKey && grants[k].connectionKey == i.connectionKey
              && grants[k].operationKey == i.operationKey && grants[k].contract == i.contract
    ensures forall j :: 0 <= j < k ==>
              !(grants[j].connectorKey == i.consumerKey && grants[j].connectionKey == i.connectionKey
                && grants[j].operationKey == i.operationKey && grants[j].contract == i.contract)
  {
    k := 0;
    if grants != [] && !Grants(grants[0], i) {
      var rest := GrantForExactly(grants[1..], i);
      assert forall j :: 0 < j < |grants| ==> grants[j] == grants[1..][j - 1];
      k := rest + 1;
    }
  }

  /** An intent is refused for the first of these: it is malformed, nothing grants it, its grant is not one for
      sending after the commit, the catalog does not accept it. */
  lemma IntentFaultExactly(grants: seq<ConnectorGrant>, i: Intent, accepted: bool)
    ensures var formed := && Text.Trim(i.consumerKey) != "" && Text.Trim(i.connectionKey) != ""
                          && Text.Trim(i.operationKey) != "" && |i.contract| == 64
                          && forall c :: c in i.contract ==> c in "0123456789abcdef";
            var grant, fault := GrantFor(grants, i), IntentFault(grants, i, accepted);
            && (fault == Some(IntentInvalid) <==> !formed)
            && (fault == Some(GrantDenied) <==> formed && grant.None?)
            && (fault == Some(SideEffectOutbox) <==>
                formed && grant.Some? && (grant.value.mode.CallMode? || grant.value.access.ReadAccess?))
            && (fault.None? <==>
                formed && accepted && grant.Some? && (grant.value.mode.EnqueueMode? || grant.value.mode.StartMode?)
                && (grant.value.access.ReserveAccess? || grant.value.access.WriteAccess?))
            && (fault.Some? ==> fault.value in {IntentInvalid, GrantDenied, SideEffectOutbox, BackendFailed})
  {
    HexDigits();
    assert (forall c :: c in i.contract ==> c in "0123456789abcdef") <==>
           (forall k :: 0 <= k < |i.contract| ==> HexDigit(i.contract[k]));
  }

  lemma HexDigits()
    ensures forall c :: HexDigit(c) <==> c in "0123456789abcdef"
  {
    forall c ensures HexDigit(c) <==> c in "0123456789abcdef" {
      var all := "0123456789abcdef";
      if '0' <= c <= '9' {
        assert all[c as int - '0' as int] == c;
      } else if 'a' <= c <= 'f' {
        assert all[c as int - 'a' as int + 10] == c;
      }
    }
  }

  lemma IntentIdExample()
    ensures IntentId("exec", 3) == "durable_intent:exec:3"
  {
    assert Text.Decimal(3) == "3";
  }

  /** `durableIntentGrant`. */
  method DurableIntentGrant(grants: seq<ConnectorGrant>, i: Intent) returns (g: Option<ConnectorGrant>)
    ensures g == GrantFor(grants, i)
  {
    assert grants[0..] == grants;
    for k := 0 to |grants|
      invariant GrantFor(grants, i) == GrantFor(grants[k..], i)
    {
      assert grants[k..][1..] == grants[k + 1..];
      if Grants(grants[k], i) {
        return Some(grants[k]);
      }
    }
    g := None;
  }

  // ---------------------------------------------------------------- staging withdrawals

  datatype WorkflowGrant = WorkflowGrant(key: string, operations: seq<string>)

  /** `hasWorkflowOperationGrant`. */
  predicate WorkflowGranted(grants: seq<WorkflowGrant>, key: string, operation: string) {
    && Text.Trim(key) != ""
    && exists g, o :: g in grants && o in g.operations && Text.Trim(g.key) == key && Text.Trim(o) == operation
  }

  const WITHDRAW_OPERATION: string := "withdraw"

  datatype WithdrawalRequest = WithdrawalRequest(workflowKey: string, processId: string, objectKey: string,
                                                 recordId: string)
  datatype WithdrawalReceipt = WithdrawalReceipt(processId: string, commandId: string, withdrawnAt: string)

  function ReceiptOf(w: Withdrawal): WithdrawalReceipt { WithdrawalReceipt(w.processId, w.commandId, w.withdrawnAt) }

  predicate StagedFor(w: Withdrawal, q: WithdrawalRequest) { w.processId == Text.Trim(q.processId) }

  predicate SameBinding(w: Withdrawal, q: WithdrawalRequest) {
    w.objectKey == Text.Trim(q.objectKey) && w.recordId == Text.Trim(q.recordId)
    && w.workflowKey == Text.Trim(q.workflowKey)
  }

  function FirstStaged(ws: seq<Withdrawal>, q: WithdrawalRequest): Option<Withdrawal> {
    if ws == [] then None else if StagedFor(ws[0], q) then Some(ws[0]) else FirstStaged(ws[1..], q)
  }

  /** One call: what is staged afterwards, and the answer. `answer` is what the workflow backend makes of it. */
  datatype WithdrawCall = WithdrawCall(request: WithdrawalRequest, phase: U.Phase, answer: Option<Withdrawal>)

  function Withdraw(grants: seq<WorkflowGrant>, ws: seq<Withdrawal>, c: WithdrawCall)
      : (seq<Withdrawal>, Result<WithdrawalReceipt, Error>) {
    if !WorkflowGranted(grants, Text.Trim(c.request.workflowKey), WITHDRAW_OPERATION) then (ws, Err(GrantDenied))
    else if U.Terminal(c.phase) then (ws, Err(PhaseInvalid))
    else if FirstStaged(ws, c.request).Some? then
      var w := FirstStaged(ws, c.request).value;
      (ws, if SameBinding(w, c.request) then Ok(ReceiptOf(w)) else Err(BindingMismatch))
    else if c.answer.None? then (ws, Err(BackendFailed))
    else (ws + [c.answer.value], Ok(ReceiptOf(c.answer.value)))
  }

  function WithdrawAll(grants: seq<WorkflowGrant>, ws: seq<Withdrawal>, calls: seq<WithdrawCall>): seq<Withdrawal>
    decreases |calls|
  {
    if calls == [] then ws else WithdrawAll(grants, Withdraw(grants, ws, calls[0]).0, calls[1..])
  }

  lemma {:induction false} FirstStagedExactly(ws: seq<Withdrawal>, q: WithdrawalRequest)
    ensures FirstStaged(ws, q).None? <==> forall i :: 0 <= i < |ws| ==> !StagedFor(ws[i], q)
    ensures FirstStaged(ws, q).Some? ==> FirstStaged(ws, q).value in ws && StagedFor(FirstStaged(ws, q).value, q)
  {
    if ws != [] {
      FirstStagedExactly(ws[1..], q);
      assert ws == [ws[0]] + ws[1..];
    }
  }

  lemma {:induction false} FirstStagedAppend(ws: seq<Withdrawal>, w: Withdrawal, q: WithdrawalRequest)
    requires FirstStaged(ws, q).None?
    ensures FirstStaged(ws + [w], q) == if StagedFor(w, q) then Some(w) else None
  {
    if ws == [] {
      assert (ws + [w])[1..] == [];
    } else {
      assert (ws + [w])[1..] == ws[1..] + [w];
      FirstStagedAppend(ws[1..], w, q);
    }
  }

  /** Some grant names the workflow asked for, and "withdraw" among its operations, blanks aside. */
  ghost predicate MayWithdraw(grants: seq<WorkflowGrant>, q: WithdrawalRequest) {
    && Text.Trim(q.workflowKey) != ""
    && exists i, k :: 0 <= i < |grants| && 0 <= k < |grants[i].operations|
                      && Text.Trim(grants[i].key) == Text.Trim(q.workflowKey)
                      && Text.Trim(grants[i].operations[k]) == "withdraw"
  }

  lemma WithdrawGrantExactly(grants: seq<WorkflowGrant>, q: WithdrawalRequest)
    ensures WorkflowGranted(grants, Text.Trim(q.workflowKey), WITHDRAW_OPERATION) <==> MayWithdraw(grants, q)
  {
    var key := Text.Trim(q.workflowKey);
    assert Text.Trim(key) == key;
    if WorkflowGranted(grants, key, WITHDRAW_OPERATION) {
      var g, o :| g in grants && o in g.operations && Text.Trim(g.key) == key && Text.Trim(o) == WITHDRAW_OPERATION;
      var i :| 0 <= i < |grants| && grants[i] == g;
      var k :| 0 <= k < |g.operations| && g.operations[k] == o;
    }
    if i, k :| 0 <= i < |grants| && 0 <= k < |grants[i].operations| && Text.Trim(grants[i].key) == key
               && Text.Trim(grants[i].operations[k]) == "withdraw" {
      assert grants[i] in grants && grants[i].operations[k] in grants[i].operations;
    }
  }

  ghost predicate ProcessStaged(ws: seq<Withdrawal>, q: WithdrawalRequest) {
    exists i :: 0 <= i < |ws| && ws[i].processId == Text.Trim(q.processId)
  }

  /** What one call does: it needs a grant for withdrawing that workflow and a unit of work that has not ended;
      a process not staged yet is staged as the backend answers, and its receipt is that answer's. */
  lemma WithdrawExactly(grants: seq<WorkflowGrant>, ws: seq<Withdrawal>, c: WithdrawCall)
    ensures var r := Withdraw(grants, ws, c).1;
            var ended, known := c.phase.Committed? || c.phase.RolledBack?, ProcessStaged(ws, c.request);
            && (r == Err(GrantDenied) <==> !MayWithdraw(grants, c.request))
            && (r == Err(PhaseInvalid) <==> MayWithdraw(grants, c.request) && ended)
            && (r == Err(BackendFailed) <==> MayWithdraw(grants, c.request) && !ended && !known && c.answer.None?)
            && (r == Err(BindingMismatch) ==> known)
            && (Withdraw(grants, ws, c).0 ==
                if MayWithdraw(grants, c.request) && !ended && !known && c.answer.Some? then ws + [c.answer.value]
                else ws)
            && (r.Ok? && !known ==>
                  && c.answer.Some? && r.value.processId == c.answer.value.processId
                  && r.value.commandId == c.answer.value.commandId && r.value.withdrawnAt == c.answer.value.withdrawnAt)
  {
    WithdrawGrantExactly(grants, c.request);
    StagedExactly(ws, c.request);
  }

  lemma StagedExactly(ws: seq<Withdrawal>, q: WithdrawalRequest)
    ensures FirstStaged(ws, q).Some? <==> ProcessStaged(ws, q)
  {
    FirstStagedExactly(ws, q);
  }

  /** A process withdrawn a second time, with the same request, stages nothing and gets the first answer again
      exactly when the backend named the process and binding that were asked for. */
  lemma WithdrawTwiceExactly(grants: seq<WorkflowGrant>, ws: seq<Withdrawal>, c: WithdrawCall, again: WithdrawCall)
    requires |Withdraw(grants, ws, c).0| > |ws| && again.request == c.request && !U.Terminal(again.phase)
    ensures c.answer.Some?
    ensures Withdraw(grants, Withdraw(grants, ws, c).0, again) == Withdraw(grants, ws, c) <==>
            && c.answer.value.processId == Text.Trim(c.request.processId)
            && c.answer.value.objectKey == Text.Trim(c.request.objectKey)
            && c.answer.value.recordId == Text.Trim(c.request.recordId)
            && c.answer.value.workflowKey == Text.Trim(c.request.workflowKey)
    ensures again.answer.Some? ==>
              (|Withdraw(grants, Withdraw(grants, ws, c).0, again).0| == |ws| + 2 <==>
                  c.answer.value.processId != Text.Trim(c.request.processId))
  {
    FirstStagedAppend(ws, c.answer.value, c.request);
    var staged := ws + [c.answer.value];
    assert again.answer.Some? ==> |staged + [again.answer.value]| == |ws| + 2;
  }

  /** A backend that answers for another process has it staged twice, concretely. */
  lemma OtherProcessStagedTwice()
    ensures var grants := [WorkflowGrant("w", ["withdraw"])];
            var c := WithdrawCall(WithdrawalRequest("w", "p", "o", "r"), U.Prewrite,
                         Some(Withdrawal("x", "o", "r", "w", "1", "t")));
            WithdrawAll(grants, [], [c, c]) == [c.answer.value, c.answer.value]
  {
    var grants := [WorkflowGrant("w", ["withdraw"])];
    var c := WithdrawCall(WithdrawalRequest("w", "p", "o", "r"), U.Prewrite,
                 Some(Withdrawal("x", "o", "r", "w", "1", "t")));
    assert Text.Trimmed("w") && Text.Trimmed("p") && Text.Trimmed("withdraw");
    assert grants[0] in grants && grants[0].operations[0] in grants[0].operations;
    assert WorkflowGranted(grants, "w", WITHDRAW_OPERATION);
    var w := c.answer.value;
    assert Withdraw(grants, [], c).0 == [w];
    FirstStagedAppend([], w, c.request);
    assert [] + [w] == [w];
    assert Withdraw(grants, [w], c).0 == [w, w];
    assert [c, c][1..] == [c] && [c][1..] == [];
    assert WithdrawAll(grants, [w, w], []) == [w, w];
    assert WithdrawAll(grants, [w], [c]) == [w, w];
  }

  ghost predicate DistinctProcesses(ws: seq<Withdrawal>) {
    forall i, j :: 0 <= i < j < |ws| ==> ws[i].processId != ws[j].processId
  }

  /** The backend answers about the process it was asked about. */
  predicate Echoes(c: WithdrawCall) { c.answer.Some? ==> StagedFor(c.answer.value, c.request) }

  /** Over every sequence of calls, a backend that does so has each process withdrawn at most once. */
  lemma {:induction false} WithdrawnOnce(grants: seq<WorkflowGrant>, ws: seq<Withdrawal>, calls: seq<WithdrawCall>)
    requires DistinctProcesses(ws) && forall i :: 0 <= i < |calls| ==> Echoes(calls[i])
    ensures DistinctProcesses(WithdrawAll(grants, ws, calls))
    decreases |calls|
  {
    if calls != [] {
      var c := calls[0];
      FirstStagedExactly(ws, c.request);
      assert DistinctProcesses(Withdraw(grants, ws, c).0);
      WithdrawnOnce(grants, Withdraw(grants, ws, c).0, calls[1..]);
    }
  }

  // ---------------------------------------------------------------- the session

  /** The staging lists of `businessActionExecution`. */
  class Session {
    const executionId: string
    const connectorGrants: seq<ConnectorGrant>
    const workflowGrants: seq<WorkflowGrant>
    var intents: seq<Intent>
    var workflowWithdrawals: seq<Withdrawal>

    /** Staged intents carry pairwise distinct identities, and each was granted for sending after the commit. */
    ghost predicate Valid()
      reads this
    {
      forall i :: 0 <= i < |intents| ==>
        intents[i].intentId == IntentId(executionId, i) && IntentValid(intents[i])
        && GrantFor(connectorGrants, intents[i]).Some? && Deferred(GrantFor(connectorGrants, intents[i]).value)
    }

    constructor (executionId: string, connectorGrants: seq<ConnectorGrant>, workflowGrants: seq<WorkflowGrant>)
      ensures Valid() && intents == [] && workflowWithdrawals == []
      ensures this.executionId == executionId && this.connectorGrants == connectorGrants
              && this.workflowGrants == workflowGrants
    {
      this.executionId, this.connectorGrants, this.workflowGrants := executionId, connectorGrants, workflowGrants;
      intents, workflowWithdrawals := [], [];
    }

    /** `StageDurableIntent`; `accepted` is what the published intent catalog says. */
    method StageDurableIntent(intent: Intent, accepted: bool) returns (r: Result<string, Error>)
      requires Valid()
      modifies this`intents
      ensures Valid()
      ensures IntentFault(connectorGrants, intent, accepted).Some? ==>
                r == Err(IntentFault(connectorGrants, intent, accepted).value) && intents == old(intents)
      ensures IntentFault(connectorGrants, intent, accepted).None? ==>
                r == Ok(IntentId(executionId, |old(intents)|))
                && intents == old(intents) + [intent.(intentId := r.value)]
    {
      if !IntentValid(intent) {
        return Err(IntentInvalid);
      }
      var grant := DurableIntentGrant(connectorGrants, intent);
      if grant.None? {
        return Err(GrantDenied);
      }
      if grant.value.mode.CallMode? || grant.value.access.ReadAccess? {
        return Err(SideEffectOutbox);
      }
      if !accepted {
        return Err(BackendFailed);
      }
      var id := "durable_intent:" + executionId + ":" + Text.Decimal(|intents|);
      GrantIgnoresId(connectorGrants, intent, id);
      intents := intents + [intent.(intentId := id)];
      return Ok(id);
    }

    /** `StageWorkflowWithdrawal`. */
    method StageWorkflowWithdrawal(c: WithdrawCall) returns (r: Result<WithdrawalReceipt, Error>)
      modifies this`workflowWithdrawals
      ensures (workflowWithdrawals, r) == Withdraw(workflowGrants, old(workflowWithdrawals), c)
    {
      if !WorkflowGranted(workflowGrants, Text.Trim(c.request.workflowKey), WITHDRAW_OPERATION) {
        return Err(GrantDenied);
      }
      if !c.phase.Prewrite? && !c.phase.Writing? {
        return Err(PhaseInvalid);
      }
      for i := 0 to |workflowWithdrawals|
        invariant workflowWithdrawals == old(workflowWithdrawals)
        invariant FirstStaged(workflowWithdrawals, c.request) == FirstStaged(workflowWithdrawals[i..], c.request)
      {
        var staged := workflowWithdrawals[i];
        if StagedFor(staged, c.request) {
          if !SameBinding(staged, c.request) {
            return Err(BindingMismatch);
          }
          return Ok(ReceiptOf(staged));
        }
      }
      if c.answer.None? {
        return Err(BackendFailed);
      }
      workflowWithdrawals := workflowWithdrawals + [c.answer.value];
      return Ok(ReceiptOf(c.answer.value));
    }
  }

  lemma {:induction false} GrantIgnoresId(grants: seq<ConnectorGrant>, i: Intent, id: string)
    ensures GrantFor(grants, i.(intentId := id)) == GrantFor(grants, i)
  {
    if grants != [] {
      GrantIgnoresId(grants[1..], i, id);
    }
  }

  /** Two intents staged in one execution never share an identity. */
  lemma IntentIdsDistinct(executionId: string, i: nat, k: nat)
    requires i != k
    ensures IntentId(executionId, i) != IntentId(executionId, k)
  {
    var p := "durable_intent:" + executionId + ":";
    if IntentId(executionId, i) == IntentId(executionId, k) {
      AfterPrefix(p, Text.Decimal(i), Text.Decimal(k));
      Text.DecimalInjective(i, k);
    }
  }

  // ---------------------------------------------------------------- planned relation records

  type Overlay = map<string, map<string, Record>>

  /** `plannedRelationRecordIdentity`: object and record id, if both are named. */
  function PlannedIdentity(c: Commit): Option<(string, string)> {
    var objectKey := Text.Trim(c.objectKey);
    var own := Text.Trim(c.record.id);
    var recordId := if own == "" then Text.Trim(c.recordId) else own;
    if objectKey != "" && recordId != "" then Some((objectKey, recordId)) else None
  }

  /** A plan concerns the record its own record names, or if that names none the one the commit names. */
  lemma PlannedIdentityExactly(c: Commit, objectKey: string, id: string)
    ensures PlannedIdentity(c) == Some((objectKey, id)) <==>
            && objectKey != "" && id != "" && objectKey == Text.Trim(c.objectKey)
            && (id == Text.Trim(c.record.id) || (Text.Trim(c.record.id) == "" && id == Text.Trim(c.recordId)))
  {
  }

  function Visible(o: Overlay, objectKey: string, id: string): Option<Record> {
    if objectKey in o && id in o[objectKey] then Some(o[objectKey][id]) else None
  }

  /** The last plan in the list that concerns the record. */
  function LastPlan(plans: seq<Commit>, objectKey: string, id: string): Option<Commit>
    decreases |plans|
  {
    if plans == [] then None
    else
      var last := plans[|plans| - 1];
      if PlannedIdentity(last) == Some((objectKey, id)) then Some(last)
      else LastPlan(plans[..|plans| - 1], objectKey, id)
  }

  /** What replaying the plans leaves of the record: the last plan's contents, unless it deletes. */
  function Replayed(plans: seq<Commit>, objectKey: string, id: string): Option<Record> {
    var last := LastPlan(plans, objectKey, id);
    if last.None? || last.value.operation == "delete" then None else Some(last.value.record.(id := id))
  }

  ghost predicate Agrees(o: Overlay, plans: seq<Commit>) {
    forall objectKey, id :: Visible(o, objectKey, id) == Replayed(plans, objectKey, id)
  }

  /** What one more plan does to a record. */
  lemma ReplayedStep(plans: seq<Commit>, c: Commit, objectKey: string, id: string)
    ensures Replayed(plans + [c], objectKey, id) ==
            if PlannedIdentity(c) != Some((objectKey, id)) then Replayed(plans, objectKey, id)
            else if c.operation == "delete" then None
            else Some(c.record.(id := id))
  {
    assert (plans + [c])[..|plans|] == plans;
  }

  /** One turn of the loop. */
  method Replay(o: Overlay, commit: Commit) returns (r: Overlay)
    ensures forall objectKey, id ::
              Visible(r, objectKey, id) ==
              if PlannedIdentity(commit) != Some((objectKey, id)) then Visible(o, objectKey, id)
              else if commit.operation == "delete" then None
              else Some(commit.record.(id := id))
  {
    var identity := PlannedIdentity(commit);
    if identity.None? {
      return o;
    }
    var (objectKey, id) := identity.value;
    if commit.operation == "delete" {
      r := Remove(o, objectKey, id);
    } else {
      r := Store(o, objectKey, id, commit.record.(id := id));
    }
  }

  method Remove(o: Overlay, objectKey: string, id: string) returns (r: Overlay)
    ensures Visible(r, objectKey, id) == None
    ensures forall k, j :: (k, j) != (objectKey, id) ==> Visible(r, k, j) == Visible(o, k, j)
  {
    r := o;
    if objectKey in r {
      r := r[objectKey := r[objectKey] - {id}];
    }
  }

  method Store(o: Overlay, objectKey: string, id: string, record: Record) returns (r: Overlay)
    ensures Visible(r, objectKey, id) == Some(record)
    ensures forall k, j :: (k, j) != (objectKey, id) ==> Visible(r, k, j) == Visible(o, k, j)
  {
    r := o;
    if objectKey !in r {
      r := r[objectKey := map[]];
    }
    r := r[objectKey := r[objectKey][id := record]];
  }

  /** `withPlannedRelationRecords`: the overlay shows every record exactly as replaying the plan list
      leaves it, for every list of creates, updates, restores and deletes. */
  method PlannedRelationRecords(plans: seq<Commit>) returns (records: Overlay)
    ensures Agrees(records, plans)
  {
    records := map[];
    for i := 0 to |plans|
      invariant Agrees(records, plans[..i])
    {
      ghost var before := records;
      records := Replay(records, plans[i]);
      assert plans[..i + 1] == plans[..i] + [plans[i]];
      forall objectKey, id ensures Visible(records, objectKey, id) == Replayed(plans[..i + 1], objectKey, id) {
        ReplayedStep(plans[..i], plans[i], objectKey, id);
        assert Visible(before, objectKey, id) == Replayed(plans[..i], objectKey, id);
      }
    }
    assert plans[..|plans|] == plans;
  }
}
