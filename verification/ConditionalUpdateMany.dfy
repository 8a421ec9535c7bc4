/** One set UPDATE in place of N planned updates, over records that cover an exact set of business values. */
module ConditionalUpdateMany {
  import opened Basics
  import opened Records
  import Text
  import Ordering
  import Names

  datatype Field = Field(key: string, kind: string)
  datatype Schema = Schema(key: string, fields: seq<Field>)

  /** The canonical commit of one record's own conditional update. */
  datatype Member = Member(
    operation: string, schema: Schema, recordId: string, data: Data,
    updateBy: string, updatedAt: string, scope: string,
    localizedValues: seq<string>, predicates: seq<string>,
    audit: Option<string>, audits: seq<string>, outbox: seq<string>, workflowIntents: seq<string>,
        notifications: seq<string>)

  /** The set commit that replaces them. */
  datatype SetCommit = SetCommit(
    schema: Schema, leadId: string, ownerOrg: string, updateBy: string, updatedAt: string, scope: string,
    patch: Data, recordIds: seq<string>,
    audits: seq<string>, outbox: seq<string>, workflowIntents: seq<string>, notifications: seq<string>)

  datatype Error =
    | RecordSetInvalid | PlanFailed | PlanInvalid | NonUniform | ScopeMismatch | CoverageInvalid | CoverageMismatch

  /** The planner behind `PlanConditionalUpdateLockedRecord`: any function of the locked record. */
  type Planner = Record -> Option<Member>

  // ---------------------------------------------------------------- patches

  function FieldKeys(schema: Schema): set<string> { set f | f in schema.fields :: f.key }

  /** The schema fields on which the two differ, with their new values. */
  function Changed(schema: Schema, before: Data, after: Data): Data {
    map key | key in FieldKeys(schema) && Get(before, key) != Get(after, key) :: Get(after, key)
  }

  /** `changedRecordFields`. */
  method ChangedRecordFields(schema: Schema, before: Data, after: Data) returns (result: Data)
    ensures result == Changed(schema, before, after)
  {
    result := map[];
    for i := 0 to |schema.fields|
      invariant forall key :: key in result <==>
        (exists k :: 0 <= k < i && schema.fields[k].key == key) && Get(before, key) != Get(after, key)
      invariant forall key :: key in result ==> result[key] == Get(after, key)
    {
      var key := schema.fields[i].key;
      if Get(before, key) != Get(after, key) {
        result := result[key := Get(after, key)];
      }
    }
    assert forall key :: key in FieldKeys(schema) <==>
               exists k :: 0 <= k < |schema.fields| && schema.fields[k].key == key;
  }

  /** Overlaying the patch on the record it was computed from gives the planned record on every schema
      field, and changes nothing else. */
  lemma OverlayIsPlan(schema: Schema, before: Data, after: Data, key: string)
    ensures key in FieldKeys(schema) ==> Get(before + Changed(schema, before, after), key) == Get(after, key)
    ensures key !in FieldKeys(schema) ==> Get(before + Changed(schema, before, after), key) == Get(before, key)
  {
  }

  /** The plan gives the field `key` of the schema the new value `value`. */
  ghost predicate Changes(m: Member, r: Record, key: string, value: Value) {
    && (exists i :: 0 <= i < |m.schema.fields| && m.schema.fields[i].key == key)
    && Get(r.data, key) != Get(m.data, key) && value == Get(m.data, key)
  }

  /** A patch holds what the plan changes and nothing else. */
  lemma ChangedExactly(m: Member, r: Record, key: string, value: Value)
    ensures var patch := Changed(m.schema, r.data, m.data);
            key in patch && patch[key] == value <==> Changes(m, r, key, value)
  {
    if key in FieldKeys(m.schema) {
      var f :| f in m.schema.fields && f.key == key;
      var i :| 0 <= i < |m.schema.fields| && m.schema.fields[i] == f;
    }
  }

  // ---------------------------------------------------------------- planning

  function Ids(records: seq<Record>): (ids: seq<string>)
    ensures |ids| == |records| && forall i :: 0 <= i < |records| ==> ids[i] == records[i].id
  {
    seq(|records|, i requires 0 <= i < |records| => records[i].id)
  }

  /** What the record's own plan would change. */
  function PatchOf(plan: Planner, r: Record): Data {
    if plan(r).None? then map[] else Changed(plan(r).value.schema, r.data, plan(r).value.data)
  }

  function ScopeOf(plan: Planner, r: Record): string { if plan(r).None? then "" else plan(r).value.scope }

  predicate MemberMatches(objectKey: string, r: Record, m: Member) {
    && m.operation == "update" && m.schema.key == objectKey && m.recordId == r.id
    && m.localizedValues == [] && m.predicates == []
  }

  /** The error the i-th record raises, given that the earlier ones raised none. */
  function CheckAt(objectKey: string, plan: Planner, records: seq<Record>, i: nat): Option<Error>
    requires i < |records|
  {
    var r := records[i];
    if Text.Trim(r.id) == "" || r.id in Ids(records[..i]) then Some(RecordSetInvalid)
    else if plan(r).None? then Some(PlanFailed)
    else if !MemberMatches(objectKey, r, plan(r).value) then Some(PlanInvalid)
    else if PatchOf(plan, r) == map[] then Some(NonUniform)
    else if i == 0 then None
    else if PatchOf(plan, records[0]) != PatchOf(plan, r) then Some(NonUniform)
    else if r.ownerOrg != records[0].ownerOrg || ScopeOf(plan, records[0]) != ScopeOf(plan, r) then Some(ScopeMismatch)
    else None
  }

  /** None of the first `n` records raises an error. */
  ghost predicate Clean(objectKey: string, plan: Planner, records: seq<Record>, n: nat)
    requires n <= |records|
  {
    forall i :: 0 <= i < n ==> CheckAt(objectKey, plan, records, i).None?
  }

  ghost predicate Uniform(objectKey: string, plan: Planner, records: seq<Record>) {
    Clean(objectKey, plan, records, |records|)
  }

  /** A record that can be planned on its own: it is named, none before it has its name, and its plan is a plain
      update of that very record. */
  ghost predicate Plannable(objectKey: string, plan: Planner, records: seq<Record>, i: nat)
    requires i < |records|
  {
    && Text.Trim(records[i].id) != "" && (forall k :: 0 <= k < i ==> records[k].id != records[i].id)
    && plan(records[i]).Some?
    && var m := plan(records[i]).value;
       && m.operation == "update" && m.schema.key == objectKey && m.recordId == records[i].id
       && m.localizedValues == [] && m.predicates == []
  }

  /** Its plan changes something, and the same fields to the same values as the plan of the first. */
  ghost predicate SameChanges(plan: Planner, records: seq<Record>, i: nat)
    requires i < |records| && plan(records[i]).Some? && plan(records[0]).Some?
  {
    && (exists key, value :: Changes(plan(records[i]).value, records[i], key, value))
    && forall key, value :: Changes(plan(records[i]).value, records[i], key, value) <==>
                            Changes(plan(records[0]).value, records[0], key, value)
  }

  ghost predicate SameOwner(plan: Planner, records: seq<Record>, i: nat)
    requires i < |records| && plan(records[i]).Some? && plan(records[0]).Some?
  {
    records[i].ownerOrg == records[0].ownerOrg && plan(records[i]).value.scope == plan(records[0]).value.scope
  }

  lemma SamePatchExactly(plan: Planner, records: seq<Record>, i: nat)
    requires i < |records| && plan(records[i]).Some? && plan(records[0]).Some?
    ensures SameChanges(plan, records, i) <==>
            PatchOf(plan, records[i]) != map[] && PatchOf(plan, records[i]) == PatchOf(plan, records[0])
  {
    var m, first := plan(records[i]).value, plan(records[0]).value;
    var mine, theirs := PatchOf(plan, records[i]), PatchOf(plan, records[0]);
    forall key, value
      ensures key in mine && mine[key] == value <==> Changes(m, records[i], key, value)
      ensures key in theirs && theirs[key] == value <==> Changes(first, records[0], key, value)
    {
      ChangedExactly(m, records[i], key, value);
      ChangedExactly(first, records[0], key, value);
    }
    if mine != map[] {
      var key :| key in mine;
      assert Changes(m, records[i], key, mine[key]);
    }
    if SameChanges(plan, records, i) {
      forall key | key in mine ensures key in theirs && theirs[key] == mine[key] {
        assert Changes(m, records[i], key, mine[key]);
      }
      forall key | key in theirs ensures key in mine {
        assert Changes(first, records[0], key, theirs[key]);
      }
      assert mine == theirs;
    }
  }

  /** Which error a record raises: it cannot be planned on its own, its changes are not those of the first, or it
      is another's. */
  lemma CheckExactly(objectKey: string, plan: Planner, records: seq<Record>, i: nat)
    requires i < |records| && (i > 0 ==> plan(records[0]).Some?)
    ensures var e := CheckAt(objectKey, plan, records, i);
            && (e in {Some(RecordSetInvalid), Some(PlanFailed), Some(PlanInvalid)} <==>
                !Plannable(objectKey, plan, records, i))
            && (e == Some(RecordSetInvalid) <==>
                Text.Trim(records[i].id) == "" || exists k :: 0 <= k < i && records[k].id == records[i].id)
            && (e == Some(PlanFailed) ==> plan(records[i]).None?)
            && (e == Some(PlanInvalid) ==> plan(records[i]).Some?)
            && (Plannable(objectKey, plan, records, i) ==>
                  && (e == Some(NonUniform) <==> !SameChanges(plan, records, i))
                  && (e == Some(ScopeMismatch) <==>
                      SameChanges(plan, records, i) && !SameOwner(plan, records, i))
                  && (e.None? <==> SameChanges(plan, records, i) && SameOwner(plan, records, i)))
  {
    assert (exists k :: 0 <= k < i && records[k].id == records[i].id) <==> records[i].id in Ids(records[..i]) by {
      assert forall k :: 0 <= k < i ==> Ids(records[..i])[k] == records[k].id;
    }
    if plan(records[i]).Some? {
      SamePatchExactly(plan, records, i);
    }
  }

  /** Planning succeeds exactly when every record can be planned on its own, all have the same changes, and all have
      the same owner and scope. */
  lemma UniformExactly(objectKey: string, plan: Planner, records: seq<Record>)
    ensures Uniform(objectKey, plan, records) <==>
            forall i :: 0 <= i < |records| ==>
              && Plannable(objectKey, plan, records, i) && plan(records[0]).Some?
              && SameChanges(plan, records, i) && SameOwner(plan, records, i)
  {
    if records != [] {
      CheckExactly(objectKey, plan, records, 0);
      if plan(records[0]).Some? {
        forall i | 0 <= i < |records|
          ensures CheckAt(objectKey, plan, records, i).None? <==>
                  && Plannable(objectKey, plan, records, i) && plan(records[0]).Some?
                  && SameChanges(plan, records, i) && SameOwner(plan, records, i)
        {
          CheckExactly(objectKey, plan, records, i);
        }
      } else {
        assert !Plannable(objectKey, plan, records, 0);
        assert CheckAt(objectKey, plan, records, 0).Some?;
      }
    }
  }

  ghost predicate FirstError(objectKey: string, plan: Planner, records: seq<Record>, i: nat, e: Error)
    requires i < |records|
  {
    Clean(objectKey, plan, records, i) && CheckAt(objectKey, plan, records, i) == Some(e)
  }

  function MemberAudits(m: Member): seq<string> { (if m.audit.Some? then [m.audit.value] else []) + m.audits }

  /** A member's own audit comes before its further ones. */
  lemma MemberAuditsExactly(m: Member)
    ensures m.audit.None? ==> MemberAudits(m) == m.audits
    ensures m.audit.Some? ==> MemberAudits(m) != [] && MemberAudits(m)[0] == m.audit.value
                              && MemberAudits(m)[1..] == m.audits
  {
  }

  /** One list per member, joined in record order. */
  function Joined(plan: Planner, records: seq<Record>, part: Member -> seq<string>): seq<string>
    decreases |records|
  {
    if records == [] then []
    else
      var last := plan(records[|records| - 1]);
      Joined(plan, records[..|records| - 1], part) + if last.Some? then part(last.value) else []
  }

  function Outbox(m: Member): seq<string> { m.outbox }
  function Intents(m: Member): seq<string> { m.workflowIntents }
  function Notifications(m: Member): seq<string> { m.notifications }

  /** The commit carries every member's side effects, in order, and the common patch. */
  ghost predicate Carries(plan: Planner, records: seq<Record>, c: SetCommit) {
    && c.audits == Joined(plan, records, MemberAudits) && c.outbox == Joined(plan, records, Outbox)
    && c.workflowIntents == Joined(plan, records, Intents) && c.notifications == Joined(plan, records, Notifications)
    && forall i :: 0 <= i < |records| ==>
           PatchOf(plan, records[i]) == c.patch && records[i].ownerOrg == c.ownerOrg
           && ScopeOf(plan, records[i]) == c.scope
  }

  /** The result commit as the first record started it. */
  ghost predicate Leads(plan: Planner, records: seq<Record>, c: SetCommit)
    requires records != []
  {
    && c.patch == PatchOf(plan, records[0]) && c.ownerOrg == records[0].ownerOrg && c.scope == ScopeOf(plan, records[0])
    && c.leadId == records[0].id && plan(records[0]).Some?
    && var first := plan(records[0]).value;
       c.schema == first.schema && c.updateBy == first.updateBy && c.updatedAt == first.updatedAt
  }

  /** One turn of the planning loop: record `index` joins the commit, or raises its error. */
  method PlanRecord(objectKey: string, plan: Planner, records: seq<Record>, index: nat, seen: set<string>,
                    sofar: SetCommit)
    returns (r: Result<SetCommit, Error>)
    requires index < |records| && seen == Ordering.Elements(Ids(records[..index]))
    requires index > 0 ==> Leads(plan, records, sofar)
    ensures r.Err? <==> CheckAt(objectKey, plan, records, index).Some?
    ensures r.Err? ==> CheckAt(objectKey, plan, records, index) == Some(r.error)
    ensures r.Ok? ==> plan(records[index]).Some? && r.value.recordIds == sofar.recordIds + [records[index].id]
    ensures r.Ok? ==> Leads(plan, records, r.value) && JoinsTo(plan(records[index]).value, sofar, r.value)
    ensures r.Ok? ==>
                PatchOf(plan, records[index]) == r.value.patch && records[index].ownerOrg == r.value.ownerOrg
                && ScopeOf(plan, records[index]) == r.value.scope
    ensures r.Ok? && index > 0 ==>
                r.value.patch == sofar.patch && r.value.ownerOrg == sofar.ownerOrg && r.value.scope == sofar.scope
  {
    var before := records[index];
    assert before.id in seen <==> before.id in Ids(records[..index]);
    if Text.Trim(before.id) == "" || before.id in seen {
      return Err(RecordSetInvalid);
    }
    if plan(before).None? {
      return Err(PlanFailed);
    }
    var member := plan(before).value;
    if !MemberMatches(objectKey, before, member) {
      return Err(PlanInvalid);
    }
    var patch := ChangedRecordFields(member.schema, before.data, member.data);
    if patch == map[] || (index > 0 && sofar.patch != patch) {
      return Err(NonUniform);
    }
    var result := sofar;
    if index == 0 {
      result := result.(schema := member.schema, leadId := before.id, ownerOrg := before.ownerOrg,
                        updateBy := member.updateBy, updatedAt := member.updatedAt, scope := member.scope,
                            patch := patch);
    } else if before.ownerOrg != result.ownerOrg || member.scope != result.scope {
      return Err(ScopeMismatch);
    }
    result := result.(
      recordIds := result.recordIds + [before.id],
      audits := result.audits + ((if member.audit.Some? then [member.audit.value] else []) + member.audits),
      outbox := result.outbox + member.outbox,
      workflowIntents := result.workflowIntents + member.workflowIntents,
      notifications := result.notifications + member.notifications);
    return Ok(result);
  }

  /** `planConditionalUpdateMany`. It succeeds exactly when no record raises an error, and otherwise
      reports the first one. On success the ids are the locked ids in strictly increasing order. */
  method PlanConditionalUpdateMany(objectKey: string, plan: Planner, records: seq<Record>)
      returns (r: Result<(SetCommit, seq<string>), Error>)
    ensures r.Ok? <==> Uniform(objectKey, plan, records)
    ensures r.Err? ==> exists i: nat :: i < |records| && FirstError(objectKey, plan, records, i, r.error)
    ensures r.Ok? ==> Carries(plan, records, r.value.0)
    ensures r.Ok? && records != [] ==> Leads(plan, records, r.value.0)
    ensures r.Ok? ==> r.value.0.recordIds == r.value.1 && SortedIds(records, r.value.1)
  {
    var all := PlanAll(objectKey, plan, records);
    if all.Err? {
      return Err(all.error);
    }
    UniformIds(objectKey, plan, records);
    var ids := Ordering.Sort(all.value.recordIds, Ordering.Self);
    return Ok((all.value.(recordIds := ids), ids));
  }

  method PlanAll(objectKey: string, plan: Planner, records: seq<Record>) returns (r: Result<SetCommit, Error>)
    ensures r.Ok? ==>
                Uniform(objectKey, plan, records) && Carries(plan, records, r.value)
                && r.value.recordIds == Ids(records)
    ensures r.Ok? && records != [] ==> Leads(plan, records, r.value)
    ensures r.Err? ==> exists i: nat :: i < |records| && FirstError(objectKey, plan, records, i, r.error)
  {
    var result := SetCommit(Schema("", []), "", "", "", "", "", map[], [], [], [], [], []);
    var seen: set<string> := {};
    for index := 0 to |records|
      invariant result.recordIds == Ids(records[..index]) && seen == Ordering.Elements(result.recordIds)
      invariant Clean(objectKey, plan, records, index)
      invariant index > 0 ==> Leads(plan, records, result)
      invariant Carries(plan, records[..index], result)
    {
      var next := PlanRecord(objectKey, plan, records, index, seen, result);
      if next.Err? {
        assert FirstError(objectKey, plan, records, index, next.error);
        return Err(next.error);
      }
      TakeNext(records, index);
      CarriesStep(plan, records[..index], records[index], result, next.value);
      result := next.value;
      seen := seen + {records[index].id};
    }
    assert records[..|records|] == records;
    return Ok(result);
  }

  lemma TakeNext(records: seq<Record>, index: nat)
    requires index < |records|
    ensures records[..index + 1] == records[..index] + [records[index]]
    ensures Ids(records[..index + 1]) == Ids(records[..index]) + [records[index].id]
    ensures Ordering.Elements(Ids(records[..index + 1])) == Ordering.Elements(Ids(records[..index]))
            + {records[index].id}
  {
    assert Ids(records[..index + 1]) == Ids(records[..index]) + [records[index].id];
  }

  lemma UniformIds(objectKey: string, plan: Planner, records: seq<Record>)
    requires Uniform(objectKey, plan, records)
    ensures SortedIds(records, Ordering.Sort(Ids(records), Ordering.Self))
  {
    forall i, k | 0 <= i < k < |records| ensures Ids(records)[i] != Ids(records)[k] {
      assert CheckAt(objectKey, plan, records, k).None?;
      assert Ids(records[..k])[i] == records[i].id;
    }
    Ordering.SortStrict(Ids(records), Ordering.Self);
  }

  /** The records' ids, each once, in increasing order. */
  ghost predicate SortedIds(records: seq<Record>, ids: seq<string>) {
    Ordering.StrictlySorted(ids, Ordering.Self) && Ordering.Elements(ids) == Ordering.Elements(Ids(records))
    && |ids| == |records|
  }

  /** `next` is `prior` with the member's side effects appended. */
  ghost predicate JoinsTo(m: Member, prior: SetCommit, next: SetCommit) {
    && next.audits == prior.audits + MemberAudits(m) && next.outbox == prior.outbox + m.outbox
    && next.workflowIntents == prior.workflowIntents + m.workflowIntents && next.notifications == prior.notifications
       + m.notifications
  }

  lemma CarriesStep(plan: Planner, done: seq<Record>, r: Record, prior: SetCommit, next: SetCommit)
    requires Carries(plan, done, prior) && plan(r).Some? && JoinsTo(plan(r).value, prior, next)
    requires PatchOf(plan, r) == next.patch && r.ownerOrg == next.ownerOrg && ScopeOf(plan, r) == next.scope
    requires done != [] ==> next.patch == prior.patch && next.ownerOrg == prior.ownerOrg && next.scope == prior.scope
    ensures Carries(plan, done + [r], next)
  {
    var all := done + [r];
    assert all[..|all| - 1] == done;
  }

  // ---------------------------------------------------------------- one set update for N updates

  type Store = map<string, Data>

  /** Every member's own commit, applied one after the other. */
  function UpdateEach(store: Store, plan: Planner, records: seq<Record>): Store
    decreases |records|
  {
    if records == [] then store
    else
      var r := records[|records| - 1];
      var s := UpdateEach(store, plan, records[..|records| - 1]);
      if plan(r).Some? then s[r.id := plan(r).value.data] else s
  }

  /** The set commit: one patch over the named records. */
  function UpdateSet(store: Store, ids: seq<string>, patch: Data): Store {
    map id | id in store :: if id in ids then store[id] + patch else store[id]
  }

  lemma {:induction false} UpdateEachAt(store: Store, plan: Planner, records: seq<Record>, id: string)
    requires forall i, k :: 0 <= i < k < |records| ==> records[i].id != records[k].id
    requires forall i :: 0 <= i < |records| ==> records[i].id in store
    ensures UpdateEach(store, plan, records).Keys == store.Keys
    ensures id in store && (forall i :: 0 <= i < |records| ==> records[i].id != id) ==>
                UpdateEach(store, plan, records)[id] == store[id]
    ensures forall i :: 0 <= i < |records| && records[i].id == id && plan(records[i]).Some? ==>
              UpdateEach(store, plan, records)[id] == plan(records[i]).value.data
    decreases |records|
  {
    if records != [] {
      UpdateEachAt(store, plan, records[..|records| - 1], id);
    }
  }

  /** Whenever planning succeeds, the one set update and the N planned updates leave the same records:
      the same ids, nothing changed outside the locked set, and inside it every schema field as its own
      plan would have left it. */
  lemma SetUpdateMeansEachUpdate(objectKey: string, plan: Planner, records: seq<Record>, c: SetCommit, store: Store,
                                 id: string)
    requires Uniform(objectKey, plan, records) && Carries(plan, records, c) && SortedIds(records, c.recordIds)
    requires forall i :: 0 <= i < |records| ==> records[i].id in store && store[records[i].id] == records[i].data
    requires id in store
    ensures UpdateSet(store, c.recordIds, c.patch).Keys == UpdateEach(store, plan, records).Keys == store.Keys
    ensures id !in c.recordIds ==>
                UpdateSet(store, c.recordIds, c.patch)[id] == UpdateEach(store, plan, records)[id] == store[id]
    ensures forall i, key ::
              (0 <= i < |records| && records[i].id == id && plan(records[i]).Some?
               && key in FieldKeys(plan(records[i]).value.schema)) ==>
              Get(UpdateSet(store, c.recordIds, c.patch)[id], key) == Get(UpdateEach(store, plan, records)[id], key)
  {
    UniformDistinct(objectKey, plan, records);
    UpdateEachAt(store, plan, records, id);
    assert forall i :: 0 <= i < |records| ==> Ids(records)[i] == records[i].id;
    assert id in c.recordIds <==> id in Ordering.Elements(Ids(records));
    if id !in c.recordIds {
      forall i | 0 <= i < |records| ensures records[i].id != id {
        assert Ids(records)[i] in Ids(records);
      }
    }
    forall i, key | 0 <= i < |records| && records[i].id == id && plan(records[i]).Some?
    && key in FieldKeys(plan(records[i]).value.schema)
      ensures Get(UpdateSet(store, c.recordIds, c.patch)[id], key) == Get(UpdateEach(store, plan, records)[id], key)
    {
      assert Ids(records)[i] in Ids(records);
      OverlayIsPlan(plan(records[i]).value.schema, records[i].data, plan(records[i]).value.data, key);
    }
  }

  // ---------------------------------------------------------------- who updated, and when

  type Stamps = map<string, (string, string)>

  function StampOf(plan: Planner, r: Record): (string, string) {
    if plan(r).None? then ("", "") else (plan(r).value.updateBy, plan(r).value.updatedAt)
  }

  /** The stamps every member's own commit would leave. */
  function StampEach(stamps: Stamps, plan: Planner, records: seq<Record>): Stamps
    decreases |records|
  {
    if records == [] then stamps
    else
      var r := records[|records| - 1];
      StampEach(stamps, plan, records[..|records| - 1])[r.id := StampOf(plan, r)]
  }

  /** The stamp the set commit puts on every record it names. */
  function StampSet(stamps: Stamps, c: SetCommit): Stamps {
    map id | id in stamps :: if id in c.recordIds then (c.updateBy, c.updatedAt) else stamps[id]
  }

  lemma {:induction false} StampEachAt(stamps: Stamps, plan: Planner, records: seq<Record>, id: string)
    requires forall i, k :: 0 <= i < k < |records| ==> records[i].id != records[k].id
    requires forall i :: 0 <= i < |records| ==> records[i].id in stamps
    ensures StampEach(stamps, plan, records).Keys == stamps.Keys
    ensures id in stamps && (forall i :: 0 <= i < |records| ==> records[i].id != id) ==>
              StampEach(stamps, plan, records)[id] == stamps[id]
    ensures forall i :: 0 <= i < |records| && records[i].id == id ==>
              StampEach(stamps, plan, records)[id] == StampOf(plan, records[i])
    decreases |records|
  {
    if records != [] {
      StampEachAt(stamps, plan, records[..|records| - 1], id);
    }
  }

  lemma UniformDistinct(objectKey: string, plan: Planner, records: seq<Record>)
    requires Uniform(objectKey, plan, records)
    ensures forall i, k :: 0 <= i < k < |records| ==> records[i].id != records[k].id
  {
    forall i, k | 0 <= i < k < |records| ensures records[i].id != records[k].id {
      assert CheckAt(objectKey, plan, records, k).None?;
      assert Ids(records[..k])[i] == records[i].id;
    }
  }

  ghost predicate SameStamps(plan: Planner, records: seq<Record>) {
    forall i :: 0 <= i < |records| ==> StampOf(plan, records[i]) == StampOf(plan, records[0])
  }

  /** Planning compares patches, owners and scopes, but not who updated and when: the stamps the set commit leaves
      are those of the N own plans exactly when all members carry the stamp of the first. */
  lemma StampsAgreeExactly(objectKey: string, plan: Planner, records: seq<Record>, c: SetCommit, stamps: Stamps)
    requires Uniform(objectKey, plan, records) && records != []
    requires Leads(plan, records, c) && SortedIds(records, c.recordIds)
    requires forall i :: 0 <= i < |records| ==> records[i].id in stamps
    ensures StampSet(stamps, c) == StampEach(stamps, plan, records) <==> SameStamps(plan, records)
  {
    UniformDistinct(objectKey, plan, records);
    var all, each := StampSet(stamps, c), StampEach(stamps, plan, records);
    forall id ensures id in c.recordIds <==> id in Ids(records) {
      assert id in c.recordIds <==> id in Ordering.Elements(Ids(records));
    }
    forall i | 0 <= i < |records|
      ensures records[i].id in all && all[records[i].id] == StampOf(plan, records[0])
      ensures records[i].id in each && each[records[i].id] == StampOf(plan, records[i])
    {
      assert Ids(records)[i] in Ids(records);
      StampEachAt(stamps, plan, records, records[i].id);
    }
    forall id | id in stamps && id !in c.recordIds ensures id in each && all[id] == each[id] {
      forall i | 0 <= i < |records| ensures records[i].id != id {
        assert Ids(records)[i] in Ids(records);
      }
      StampEachAt(stamps, plan, records, id);
    }
    StampEachAt(stamps, plan, records, records[0].id);
    if SameStamps(plan, records) {
      forall id | id in stamps ensures all[id] == each[id] {
        if id in c.recordIds {
          var i :| 0 <= i < |records| && Ids(records)[i] == id;
        }
      }
      assert all == each;
    }
  }

  /** A planner that stamps each record with a time of its own. */
  function OwnTimes(r: Record): Option<Member> {
    Some(Member("update", Schema("o", [Field("f", "text")]), r.id, map["f" := Value.Text("x")], "u", r.id, "", [], [],
                None, [], [], [], []))
  }

  /** Planning accepts two records stamped with different times, concretely. */
  lemma DifferentTimesAccepted()
    ensures var records := [Record("a", "", "", map[]), Record("b", "", "", map[])];
            Uniform("o", OwnTimes, records) && !SameStamps(OwnTimes, records)
  {
    var records := [Record("a", "", "", map[]), Record("b", "", "", map[])];
    var schema := Schema("o", [Field("f", "text")]);
    assert Text.Trimmed("a") && Text.Trimmed("b");
    assert schema.fields[0] == Field("f", "text") && "f" in FieldKeys(schema);
    forall i | 0 <= i < 2 ensures PatchOf(OwnTimes, records[i]) == map["f" := Value.Text("x")] {
      var none: Data := map[];
      assert forall f :: f in schema.fields ==> f.key == "f";
    }
    assert Ids(records[..1])[0] == "a" && |Ids(records[..1])| == 1;
    assert StampOf(OwnTimes, records[1]) != StampOf(OwnTimes, records[0]);
  }

  // ---------------------------------------------------------------- exact coverage

  /** What coverage asks of other packages: `fmt.Sprint`, the field normaliser and the typed JSON key.
      Any of them may be any function; the last two may fail. */
  datatype Ports = Ports(sprint: Value -> string, normalize: (Field, Value) -> Option<Value>,
                         keyOf: Value -> Option<string>)

  datatype Coverage = Coverage(field: string, values: seq<Value>)

  /** `conditionalUpdateManyCoverageField`: the first field with that name, or the built-in identity. */
  function CoverageField(schema: Schema, raw: string): Option<Field> {
    if Text.Trim(raw) == "id" then Some(Field("id", "text")) else FirstField(schema.fields, Text.Trim(raw))
  }

  function FirstField(fields: seq<Field>, key: string): Option<Field> {
    if fields == [] then None
    else if Text.Trim(fields[0].key) == key then Some(fields[0])
    else FirstField(fields[1..], key)
  }

  /** `conditionalUpdateManyCoverageValue`, with a nil answer counted as a failure by both callers. */
  function CoverageValue(p: Ports, field: Field, value: Value): Option<Value> {
    if field.key == "id" then
      var text := Text.Trim(p.sprint(value));
      if value.Null? || text == "" then None else Some(Value.Text(text))
    else
      var n := p.normalize(field, value);
      if n.None? || n.value.Null? then None else n
  }

  function RecordValue(field: Field, r: Record): Value {
    if field.key == "id" then Value.Text(r.id) else Get(r.data, field.key)
  }

  /** The normalised key a raw value stands for. */
  function KeyOf(p: Ports, field: Field, value: Value): Option<string> {
    var v := CoverageValue(p, field, value);
    if v.None? then None else p.keyOf(v.value)
  }

  /** The field coverage is about: the built-in identity, or the first of the schema under that name. */
  lemma CoverageFieldExactly(schema: Schema, raw: string) returns (k: nat)
    ensures k <= |schema.fields|
    ensures CoverageField(schema, raw) ==
            if Text.Trim(raw) == "id" then Some(Field("id", "text"))
            else if k < |schema.fields| then Some(schema.fields[k]) else None
    ensures k < |schema.fields| ==> Text.Trim(schema.fields[k].key) == Text.Trim(raw)
    ensures forall j :: 0 <= j < k ==> Text.Trim(schema.fields[j].key) != Text.Trim(raw)
  {
    k := FirstFieldExactly(schema.fields, Text.Trim(raw));
  }

  lemma {:induction false} FirstFieldExactly(fields: seq<Field>, key: string) returns (k: nat)
    ensures k <= |fields| && FirstField(fields, key) == if k < |fields| then Some(fields[k]) else None
    ensures k < |fields| ==> Text.Trim(fields[k].key) == key
    ensures forall j :: 0 <= j < k ==> Text.Trim(fields[j].key) != key
  {
    k := 0;
    if fields != [] && Text.Trim(fields[0].key) != key {
      var rest := FirstFieldExactly(fields[1..], key);
      assert forall j :: 0 < j < |fields| ==> fields[j] == fields[1..][j - 1];
      k := rest + 1;
    }
  }

  /** The key of a record: that of its identity as text, or of what the normaliser makes of the field, if it makes
      anything of it. */
  lemma RecordKeyExactly(p: Ports, field: Field, r: Record, key: string)
    ensures KeyOf(p, field, RecordValue(field, r)) == Some(key) <==>
            if field.key == "id" then
              var id := Text.Trim(p.sprint(Value.Text(r.id)));
              id != "" && p.keyOf(Value.Text(id)) == Some(key)
            else
              var stored := if field.key in r.data then r.data[field.key] else Null;
              && p.normalize(field, stored).Some? && !p.normalize(field, stored).value.Null?
              && p.keyOf(p.normalize(field, stored).value) == Some(key)
  {
  }

  /** The key an expected value stands for, likewise; an identity that is null stands for none. */
  lemma ValueKeyExactly(p: Ports, field: Field, v: Value, key: string)
    ensures KeyOf(p, field, v) == Some(key) <==>
            if field.key == "id" then
              var id := Text.Trim(p.sprint(v));
              !v.Null? && id != "" && p.keyOf(Value.Text(id)) == Some(key)
            else
              && p.normalize(field, v).Some? && !p.normalize(field, v).value.Null?
              && p.keyOf(p.normalize(field, v).value) == Some(key)
  {
  }

  ghost predicate DistinctKeys(keys: seq<Option<string>>) {
    && (forall i :: 0 <= i < |keys| ==> keys[i].Some?)
    && (forall i, k :: 0 <= i < k < |keys| ==> keys[i] != keys[k])
  }

  function RawKeys(p: Ports, field: Field, values: seq<Value>): (r: seq<Option<string>>)
    ensures |r| == |values| && forall i :: 0 <= i < |values| ==> r[i] == KeyOf(p, field, values[i])
  {
    seq(|values|, i requires 0 <= i < |values| => KeyOf(p, field, values[i]))
  }

  function ValueKeys(p: Ports, values: seq<Value>): (r: seq<Option<string>>)
    ensures |r| == |values| && forall i :: 0 <= i < |values| ==> r[i] == p.keyOf(values[i])
  {
    seq(|values|, i requires 0 <= i < |values| => p.keyOf(values[i]))
  }

  function RecordKeys(p: Ports, field: Field, records: seq<Record>): (r: seq<Option<string>>)
    ensures |r| == |records| && forall i :: 0 <= i < |records| ==>
                r[i] == KeyOf(p, field, RecordValue(field, records[i]))
  {
    seq(|records|, i requires 0 <= i < |records| => KeyOf(p, field, RecordValue(field, records[i])))
  }

  /** `normalizeConditionalUpdateManyCoverage`. */
  method NormalizeCoverage(p: Ports, schema: Schema, coverage: Coverage, expectedCount: int)
      returns (r: Result<Coverage, Error>)
    ensures var field := CoverageField(schema, coverage.field);
            r.Ok? <==>
                field.Some? && |coverage.values| == expectedCount
                && DistinctKeys(RawKeys(p, field.value, coverage.values))
    ensures r.Ok? ==>
              var field := CoverageField(schema, coverage.field).value;
              && r.value.field == field.key && |r.value.values| == |coverage.values|
              && ValueKeys(p, r.value.values) == RawKeys(p, field, coverage.values)
    ensures r.Err? ==> r.error == CoverageInvalid
  {
    var field := CoverageField(schema, coverage.field);
    if field.None? || |coverage.values| != expectedCount {
      return Err(CoverageInvalid);
    }
    var values: seq<Value>, seen: set<string> := [], {};
    ghost var keys := RawKeys(p, field.value, coverage.values);
    for i := 0 to |coverage.values|
      invariant |values| == i && ValueKeys(p, values) == keys[..i]
      invariant DistinctKeys(keys[..i]) && seen == Known(keys[..i])
    {
      KeysStep(keys, i);
      var current := CoverageValue(p, field.value, coverage.values[i]);
      if current.None? {
        return Err(CoverageInvalid);
      }
      var key := p.keyOf(current.value);
      if key.None? || key.value in seen {
        return Err(CoverageInvalid);
      }
      seen := seen + {key.value};
      assert ValueKeys(p, values + [current.value]) == ValueKeys(p, values) + [key];
      values := values + [current.value];
    }
    assert keys[..|keys|] == keys;
    return Ok(Coverage(field.value.key, values));
  }

  /** One more key keeps the keys distinct exactly when it is defined and new. */
  lemma KeysStep(keys: seq<Option<string>>, i: nat)
    requires i < |keys| && DistinctKeys(keys[..i])
    ensures keys[..i + 1] == keys[..i] + [keys[i]]
    ensures keys[i].Some? && keys[i].value !in Known(keys[..i]) ==>
              DistinctKeys(keys[..i + 1]) && Known(keys[..i + 1]) == Known(keys[..i]) + {keys[i].value}
    ensures keys[i].None? || keys[i].value in Known(keys[..i]) ==> !DistinctKeys(keys)
  {
    if keys[i].Some? {
      KnownGrows(keys[..i], keys[i].value);
      if keys[i].value in Known(keys[..i]) {
        var k :| 0 <= k < i && keys[..i][k] == keys[i];
        assert keys[k] == keys[i];
      }
    }
  }

  function Known(keys: seq<Option<string>>): set<string> { set k | k in keys && k.Some? :: k.value }

  /** The expected values' keys and the records' keys are the same set, each met exactly once. */
  ghost predicate CoversExactly(expected: seq<Option<string>>, actual: seq<Option<string>>) {
    DistinctKeys(expected) && DistinctKeys(actual) && Known(expected) == Known(actual)
  }

  lemma {:induction false} KnownSize(keys: seq<Option<string>>)
    requires DistinctKeys(keys)
    ensures |Known(keys)| == |keys|
  {
    if keys != [] {
      var t := keys[..|keys| - 1];
      KnownSize(t);
      var last := keys[|keys| - 1].value;
      assert keys == t + [Some(last)];
      assert Known(keys) == Known(t) + {last};
      assert last !in Known(t);
    }
  }

  /** The first loop of the validation: the expected keys, each defined and new. */
  method ExpectedKeys(p: Ports, values: seq<Value>) returns (r: Option<set<string>>)
    ensures r.Some? <==> DistinctKeys(ValueKeys(p, values))
    ensures r.Some? ==> r.value == Known(ValueKeys(p, values))
  {
    var expected: set<string> := {};
    ghost var keys := ValueKeys(p, values);
    for i := 0 to |values|
      invariant DistinctKeys(keys[..i]) && expected == Known(keys[..i])
    {
      KeysStep(keys, i);
      var key := p.keyOf(values[i]);
      if key.None? || key.value in expected {
        return None;
      }
      expected := expected + {key.value};
    }
    assert keys[..|keys|] == keys;
    return Some(expected);
  }

  lemma KnownGrows(keys: seq<Option<string>>, k: string)
    ensures Known(keys + [Some(k)]) == Known(keys) + {k}
    ensures DistinctKeys(keys) && k !in Known(keys) ==> DistinctKeys(keys + [Some(k)])
  {
    var all := keys + [Some(k)];
    assert forall x :: x in all <==> x in keys || x == Some(k);
    if DistinctKeys(keys) && k !in Known(keys) {
      forall i | 0 <= i < |keys| ensures keys[i] != Some(k) {
        assert keys[i] in keys;
      }
    }
  }

  /** `validateConditionalUpdateManyExactCoverage`: it accepts exactly the locked sets that cover the
      expected values one to one. */
  method ValidateExactCoverage(p: Ports, schema: Schema, coverage: Coverage, records: seq<Record>) returns (ok: bool)
    ensures var field := CoverageField(schema, coverage.field);
            ok <==> field.Some? && CoversExactly(ValueKeys(p, coverage.values), RecordKeys(p, field.value, records))
  {
    var field := CoverageField(schema, coverage.field);
    if field.None? {
      return false;
    }
    var expected := ExpectedKeys(p, coverage.values);
    if expected.None? {
      return false;
    }
    var actual: set<string> := {};
    ghost var keys := RecordKeys(p, field.value, records);
    for i := 0 to |records|
      invariant DistinctKeys(keys[..i]) && actual == Known(keys[..i]) && actual <= expected.value
    {
      KeysStep(keys, i);
      var normalized := CoverageValue(p, field.value, RecordValue(field.value, records[i]));
      if normalized.None? {
        return false;
      }
      var key := p.keyOf(normalized.value);
      assert keys[i] in keys;
      if key.None? || key.value !in expected.value || key.value in actual {
        return false;
      }
      actual := actual + {key.value};
    }
    assert keys[..|keys|] == keys;
    if |actual| == |expected.value| {
      Names.SameSizeSubset(actual, expected.value);
    }
    return |actual| == |expected.value|;
  }

  /** When normalisation and validation both accept, expected values and locked records correspond one
      to one by normalised key: every expected value names exactly one record, every record carries
      exactly one expected value, and there are as many of one as of the other. */
  lemma OneToOne(expected: seq<Option<string>>, actual: seq<Option<string>>)
    requires CoversExactly(expected, actual)
    ensures |expected| == |actual|
    ensures forall j :: 0 <= j < |expected| ==> exists i :: 0 <= i < |actual| && actual[i] == expected[j]
    ensures forall i :: 0 <= i < |actual| ==> exists j :: 0 <= j < |expected| && actual[i] == expected[j]
    ensures forall i, j, k ::
              (0 <= i < |actual| && 0 <= j < |expected| && 0 <= k < |expected|
               && actual[i] == expected[j] && actual[i] == expected[k]) ==> j == k
    ensures forall i, j, k ::
              (0 <= i < |actual| && 0 <= j < |expected| && 0 <= k < |actual|
               && actual[i] == expected[j] && actual[k] == expected[j]) ==> i == k
  {
    KnownSize(expected);
    KnownSize(actual);
    forall j | 0 <= j < |expected| ensures exists i :: 0 <= i < |actual| && actual[i] == expected[j] {
      assert expected[j] in expected;
      assert expected[j].value in Known(actual);
    }
    forall i | 0 <= i < |actual| ensures exists j :: 0 <= j < |expected| && actual[i] == expected[j] {
      assert actual[i] in actual;
      assert actual[i].value in Known(expected);
    }
  }

  lemma {:induction false} FirstFieldStable(fields: seq<Field>, key: string)
    requires FirstField(fields, key).Some?
    ensures FirstField(fields, Text.Trim(FirstField(fields, key).value.key)) == FirstField(fields, key)
    ensures Text.Trim(FirstField(fields, key).value.key) == key
  {
    if Text.Trim(fields[0].key) != key {
      FirstFieldStable(fields[1..], key);
    }
  }

  /** Validation looks the normalised coverage up under the same field the request named. */
  lemma NormalizedFieldStable(schema: Schema, raw: string)
    requires CoverageField(schema, raw).Some?
    ensures CoverageField(schema, CoverageField(schema, raw).value.key) == CoverageField(schema, raw)
  {
    if Text.Trim(raw) == "id" {
      assert Text.Trimmed("id");
    } else {
      FirstFieldStable(schema.fields, Text.Trim(raw));
    }
  }

  /** The request's coverage, checked end to end: normalise, lock, validate. */
  method CheckCoverage(p: Ports, schema: Schema, coverage: Coverage, expectedCount: int, records: seq<Record>)
      returns (ok: bool)
    ensures var field := CoverageField(schema, coverage.field);
            ok <==> field.Some? && |coverage.values| == expectedCount
                    && CoversExactly(RawKeys(p, field.value, coverage.values), RecordKeys(p, field.value, records))
  {
    var normalized := NormalizeCoverage(p, schema, coverage, expectedCount);
    if normalized.Err? {
      return false;
    }
    NormalizedFieldStable(schema, coverage.field);
    ok := ValidateExactCoverage(p, schema, normalized.value, records);
  }
}
