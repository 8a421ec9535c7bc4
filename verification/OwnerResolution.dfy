/** Which operation or handler owns a published action: the authored effect set is brought into canonical
    form and matched against what the candidate is capable of. */
module OwnerResolution {
  import opened Basics
  import opened Ordering
  import opened Names
  import H = Handlers
  import Text

  datatype Effect = Effect(objectKey: string, fields: seq<string>, operations: seq<string>)
  datatype EffectSet = EffectSet(read: seq<Effect>, write: seq<Effect>)

  function EffectKey(e: Effect): string { e.objectKey }

  const READ_OPERATIONS: set<string> := {"get", "get_for_update", "optional", "list", "exists", "count",
      "conditional_update_many"}
  const WRITE_OPERATIONS: set<string> := {"create", "update", "conditional_update", "conditional_update_many",
      "delete", "restore"}

  /** The text of a rejection is not modelled, only that there is one. */
  datatype Rejected = Rejected

  // ---------------------------------------------------------------- published effects

  ghost predicate NamesValid(names: seq<string>) {
    Distinct(TrimAll(names)) && "" !in Elements(TrimAll(names))
  }

  /** `normalizedUniqueStrings`. */
  method NormalizedUniqueStrings(values: seq<string>) returns (r: Result<seq<string>, Rejected>)
    ensures r == if NamesValid(values) then Ok(Canonical(values)) else Err(Rejected)
  {
    var result: seq<string> := [];
    var seen: set<string> := {};
    ghost var trimmed := TrimAll(values);
    for i := 0 to |values|
      invariant result == trimmed[..i] && seen == Elements(result) && Distinct(result) && "" !in seen
    {
      var value := Text.Trim(values[i]);
      NextName(trimmed, i);
      assert value in Elements(trimmed);
      if value == "" || value in seen {
        return Err(Rejected);
      }
      seen := seen + {value};
      result := result + [value];
    }
    assert trimmed[..|values|] == trimmed;
    r := Ok(Sort(result, Self));
  }

  ghost predicate EffectValid(e: Effect, allowed: set<string>) {
    && Text.Trim(e.objectKey) != "" && NamesValid(e.fields) && NamesValid(e.operations)
    && Elements(TrimAll(e.operations)) <= allowed
  }

  ghost predicate EachValid(es: seq<Effect>, allowed: set<string>) {
    forall i :: 0 <= i < |es| ==> EffectValid(es[i], allowed)
  }

  ghost predicate EffectsValid(es: seq<Effect>, allowed: set<string>) {
    EachValid(es, allowed) && Distinct(TrimmedKeys(es, EffectKey))
  }

  function NormalEffect(e: Effect): Effect {
    Effect(Text.Trim(e.objectKey), Canonical(e.fields), Canonical(e.operations))
  }

  function NormalEach(es: seq<Effect>): (r: seq<Effect>)
    ensures |r| == |es| && forall i :: 0 <= i < |es| ==> r[i] == NormalEffect(es[i])
  {
    seq(|es|, i requires 0 <= i < |es| => NormalEffect(es[i]))
  }

  function NormalEffects(es: seq<Effect>): seq<Effect> { Sort(NormalEach(es), EffectKey) }

  ghost function Published(es: seq<Effect>, allowed: set<string>): Result<seq<Effect>, Rejected> {
    if EffectsValid(es, allowed) then Ok(NormalEffects(es)) else Err(Rejected)
  }

  /** The loop that holds each operation against the direction's vocabulary. */
  method OperationsAllowed(operations: seq<string>, allowed: set<string>) returns (ok: bool)
    ensures ok <==> Elements(operations) <= allowed
  {
    for i := 0 to |operations|
      invariant forall k :: 0 <= k < i ==> operations[k] in allowed
    {
      assert operations[i] in Elements(operations);
      if operations[i] !in allowed {
        return false;
      }
    }
    ok := true;
  }

  method NormalizeEffect(e: Effect, allowed: set<string>) returns (r: Result<Effect, Rejected>)
    requires Text.Trim(e.objectKey) != ""
    ensures r == if EffectValid(e, allowed) then Ok(NormalEffect(e)) else Err(Rejected)
  {
    var fields := NormalizedUniqueStrings(e.fields);
    if fields.Err? {
      return Err(Rejected);
    }
    var operations := NormalizedUniqueStrings(e.operations);
    if operations.Err? {
      return Err(Rejected);
    }
    var allAllowed := OperationsAllowed(operations.value, allowed);
    if !allAllowed {
      return Err(Rejected);
    }
    r := Ok(Effect(Text.Trim(e.objectKey), fields.value, operations.value));
  }

  lemma NextEffect(es: seq<Effect>, i: nat, allowed: set<string>)
    requires i < |es|
    ensures EachValid(es[..i + 1], allowed) <==> EachValid(es[..i], allowed) && EffectValid(es[i], allowed)
    ensures EachValid(es, allowed) ==> EachValid(es[..i + 1], allowed)
    ensures NormalEach(es[..i + 1]) == NormalEach(es[..i]) + [NormalEffect(es[i])]
  {
    var longer := es[..i + 1];
    assert longer == es[..i] + [es[i]];
    if EachValid(longer, allowed) {
      assert EffectValid(longer[i], allowed);
      forall k | 0 <= k < i ensures EffectValid(es[..i][k], allowed) {
        assert EffectValid(longer[k], allowed);
      }
    }
    if EachValid(es, allowed) {
      forall k | 0 <= k < i + 1 ensures EffectValid(longer[k], allowed) {
        assert EffectValid(es[k], allowed);
      }
    }
  }

  /** `normalizePublishedEffects`. */
  method NormalizePublishedEffects(values: seq<Effect>, allowed: set<string>) returns (r: Result<seq<Effect>, Rejected>)
    ensures r == Published(values, allowed)
  {
    var result: seq<Effect> := [];
    var objects: set<string> := {};
    ghost var keys := TrimmedKeys(values, EffectKey);
    for i := 0 to |values|
      invariant objects == Elements(keys[..i]) && Distinct(keys[..i])
      invariant EachValid(values[..i], allowed) && result == NormalEach(values[..i])
    {
      var key := Text.Trim(values[i].objectKey);
      assert keys[i] == key;
      NextName(keys, i);
      NextEffect(values, i, allowed);
      if key == "" || key in objects {
        return Err(Rejected);
      }
      objects := objects + {key};
      var effect := NormalizeEffect(values[i], allowed);
      if effect.Err? {
        return Err(Rejected);
      }
      result := result + [effect.value];
    }
    assert keys[..|values|] == keys && values[..|values|] == values;
    r := Ok(Sort(result, EffectKey));
  }

  // ---------------------------------------------------------------- the canonical form of a published list

  ghost predicate CanonicalEffects(es: seq<Effect>) {
    StrictlySorted(es, EffectKey) && forall e :: e in es ==> StrictlySorted(e.operations, Self)
  }

  lemma NormalEffectsCanonical(es: seq<Effect>, allowed: set<string>)
    requires EffectsValid(es, allowed)
    ensures CanonicalEffects(NormalEffects(es)) && Elements(NormalEffects(es)) == Elements(NormalEach(es))
            && |NormalEffects(es)| == |es|
  {
    var ns := NormalEach(es);
    forall i, j | 0 <= i < j < |ns| ensures EffectKey(ns[i]) != EffectKey(ns[j]) {
      assert TrimmedKeys(es, EffectKey)[i] != TrimmedKeys(es, EffectKey)[j];
    }
    SortStrict(ns, EffectKey);
    forall e | e in NormalEffects(es) ensures StrictlySorted(e.operations, Self) {
      assert e in Elements(ns);
      var i :| 0 <= i < |ns| && ns[i] == e;
      assert EffectValid(es[i], allowed);
      CanonicalStrict(es[i].operations);
    }
  }

  // ---------------------------------------------------------------- reordering what was authored

  /** What an author wrote, order and blanks aside. */
  ghost function Loose(e: Effect): (string, multiset<string>, multiset<string>) {
    (Text.Trim(e.objectKey), multiset(TrimAll(e.fields)), multiset(TrimAll(e.operations)))
  }

  ghost predicate SomeLike(e: Effect, es: seq<Effect>) {
    exists i :: 0 <= i < |es| && Loose(es[i]) == Loose(e)
  }

  ghost predicate AllLike(xs: seq<Effect>, ys: seq<Effect>) {
    forall i :: 0 <= i < |xs| ==> SomeLike(xs[i], ys)
  }

  /** The same effects in any order, each naming the same fields and operations in any order. */
  ghost predicate Reordered(xs: seq<Effect>, ys: seq<Effect>) {
    |xs| == |ys| && AllLike(xs, ys) && AllLike(ys, xs)
  }

  lemma LooseNames(xs: seq<string>, ys: seq<string>)
    requires multiset(TrimAll(xs)) == multiset(TrimAll(ys))
    ensures NamesValid(xs) <==> NamesValid(ys)
    ensures Elements(TrimAll(xs)) == Elements(TrimAll(ys))
    ensures NamesValid(xs) ==> Canonical(xs) == Canonical(ys)
  {
    SameBag(TrimAll(xs), TrimAll(ys));
    DistinctBySize(TrimAll(xs));
    DistinctBySize(TrimAll(ys));
    if NamesValid(xs) {
      CanonicalUnique(xs, ys);
    }
  }

  lemma LooseEffects(a: Effect, b: Effect, allowed: set<string>)
    requires Loose(a) == Loose(b)
    ensures EffectValid(a, allowed) <==> EffectValid(b, allowed)
    ensures EffectValid(a, allowed) ==> NormalEffect(a) == NormalEffect(b)
  {
    LooseNames(a.fields, b.fields);
    LooseNames(a.operations, b.operations);
  }

  lemma ReorderedKeys(xs: seq<Effect>, ys: seq<Effect>)
    requires AllLike(xs, ys)
    ensures Elements(TrimmedKeys(xs, EffectKey)) <= Elements(TrimmedKeys(ys, EffectKey))
  {
    forall k | k in Elements(TrimmedKeys(xs, EffectKey)) ensures k in Elements(TrimmedKeys(ys, EffectKey)) {
      var i :| 0 <= i < |xs| && TrimmedKeys(xs, EffectKey)[i] == k;
      assert SomeLike(xs[i], ys);
      var j :| 0 <= j < |ys| && Loose(ys[j]) == Loose(xs[i]);
      assert TrimmedKeys(ys, EffectKey)[j] == k;
    }
  }

  lemma ReorderedDistinct(xs: seq<Effect>, ys: seq<Effect>)
    requires |xs| == |ys| && AllLike(xs, ys) && AllLike(ys, xs) && Distinct(TrimmedKeys(xs, EffectKey))
    ensures Distinct(TrimmedKeys(ys, EffectKey))
  {
    assert Elements(TrimmedKeys(xs, EffectKey)) <= Elements(TrimmedKeys(ys, EffectKey)) by { ReorderedKeys(xs, ys); }
    assert Elements(TrimmedKeys(ys, EffectKey)) <= Elements(TrimmedKeys(xs, EffectKey)) by { ReorderedKeys(ys, xs); }
    SameSizeDistinct(TrimmedKeys(xs, EffectKey), TrimmedKeys(ys, EffectKey));
  }

  lemma SameSizeDistinct(xs: seq<string>, ys: seq<string>)
    requires |xs| == |ys| && Elements(xs) == Elements(ys) && Distinct(xs)
    ensures Distinct(ys)
  {
    DistinctBySize(xs);
    DistinctBySize(ys);
  }

  lemma ReorderedEach(xs: seq<Effect>, ys: seq<Effect>, allowed: set<string>)
    requires EachValid(xs, allowed) && AllLike(ys, xs)
    ensures EachValid(ys, allowed)
  {
    forall j | 0 <= j < |ys| ensures EffectValid(ys[j], allowed) {
      assert SomeLike(ys[j], xs);
      var i :| 0 <= i < |xs| && Loose(xs[i]) == Loose(ys[j]);
      LooseEffects(xs[i], ys[j], allowed);
    }
  }

  lemma ReorderedValid(xs: seq<Effect>, ys: seq<Effect>, allowed: set<string>)
    requires Reordered(xs, ys) && EffectsValid(xs, allowed)
    ensures EffectsValid(ys, allowed)
  {
    ReorderedEach(xs, ys, allowed);
    ReorderedDistinct(xs, ys);
  }

  lemma ReorderedElements(xs: seq<Effect>, ys: seq<Effect>, allowed: set<string>)
    requires EffectsValid(xs, allowed) && AllLike(xs, ys)
    ensures Elements(NormalEach(xs)) <= Elements(NormalEach(ys))
  {
    forall e | e in Elements(NormalEach(xs)) ensures e in Elements(NormalEach(ys)) {
      var i :| 0 <= i < |xs| && NormalEach(xs)[i] == e;
      assert EffectValid(xs[i], allowed) && SomeLike(xs[i], ys);
      var j :| 0 <= j < |ys| && Loose(ys[j]) == Loose(xs[i]);
      LooseEffects(xs[i], ys[j], allowed);
      assert NormalEach(ys)[j] == e;
    }
  }

  lemma ReorderedNormal(xs: seq<Effect>, ys: seq<Effect>, allowed: set<string>)
    requires EffectsValid(xs, allowed) && EffectsValid(ys, allowed)
    requires AllLike(xs, ys) && AllLike(ys, xs)
    ensures NormalEffects(xs) == NormalEffects(ys)
  {
    assert Elements(NormalEach(xs)) <= Elements(NormalEach(ys)) by { ReorderedElements(xs, ys, allowed); }
    assert Elements(NormalEach(ys)) <= Elements(NormalEach(xs)) by { ReorderedElements(ys, xs, allowed); }
    NormalEffectsCanonical(xs, allowed);
    NormalEffectsCanonical(ys, allowed);
    CanonicalEffectsUnique(NormalEffects(xs), NormalEffects(ys));
  }

  lemma CanonicalEffectsUnique(xs: seq<Effect>, ys: seq<Effect>)
    requires CanonicalEffects(xs) && CanonicalEffects(ys) && Elements(xs) == Elements(ys)
    ensures xs == ys
  {
    StrictlySortedUnique(xs, ys, EffectKey);
  }

  /** Reordering authored lists changes neither whether they are accepted nor their canonical form. */
  lemma ReorderedPublished(xs: seq<Effect>, ys: seq<Effect>, allowed: set<string>)
    requires Reordered(xs, ys)
    ensures Published(xs, allowed) == Published(ys, allowed)
  {
    if EffectsValid(xs, allowed) {
      ReorderedValid(xs, ys, allowed);
      ReorderedNormal(xs, ys, allowed);
    } else if EffectsValid(ys, allowed) {
      ReorderedValid(ys, xs, allowed);
    }
  }

  // ---------------------------------------------------------------- matching against a capability

  /** The entry a map built from the list holds for a key: the last one. */
  function LastFor(es: seq<Effect>, key: string): Option<Effect> {
    if es == [] then None
    else if es[|es| - 1].objectKey == key then Some(es[|es| - 1])
    else LastFor(es[..|es| - 1], key)
  }

  predicate Covered(e: Effect, expected: Option<Effect>) {
    expected.Some? && (e.operations == [] || e.operations == expected.value.operations)
  }

  predicate ListMatches(published: seq<Effect>, capability: seq<Effect>) {
    |published| == |capability| && forall i :: 0 <= i < |published| ==>
        Covered(published[i], LastFor(capability, published[i].objectKey))
  }

  /** `effectCapabilityListMatches`. */
  method EffectCapabilityListMatches(published: seq<Effect>, capability: seq<Effect>) returns (ok: bool)
    ensures ok == ListMatches(published, capability)
  {
    if |published| != |capability| {
      return false;
    }
    var byObject: map<string, Effect> := map[];
    for i := 0 to |capability|
      invariant forall k :: k in byObject <==> LastFor(capability[..i], k).Some?
      invariant forall k :: k in byObject ==> LastFor(capability[..i], k) == Some(byObject[k])
    {
      assert capability[..i + 1][..i] == capability[..i];
      byObject := byObject[capability[i].objectKey := capability[i]];
    }
    assert capability[..|capability|] == capability;
    for i := 0 to |published|
      invariant forall k :: 0 <= k < i ==> Covered(published[k], LastFor(capability, published[k].objectKey))
    {
      var key := published[i].objectKey;
      if key !in byObject {
        assert !Covered(published[i], LastFor(capability, published[i].objectKey));
        return false;
      }
      var same := SameStrings(published[i].operations, byObject[key].operations);
      if |published[i].operations| > 0 && !same {
        assert !Covered(published[i], LastFor(capability, published[i].objectKey));
        return false;
      }
    }
    ok := true;
  }

  /** `sameStrings`. */
  method SameStrings(left: seq<string>, right: seq<string>) returns (same: bool)
    ensures same <==> left == right
  {
    if |left| != |right| {
      return false;
    }
    for i := 0 to |left|
      invariant left[..i] == right[..i]
    {
      if left[i] != right[i] {
        return false;
      }
    }
    same := true;
  }

  /** The objects a list of effects touches. */
  ghost function Objects(es: seq<Effect>): set<string> { set e | e in es :: e.objectKey }

  lemma {:induction false} LastForFinds(es: seq<Effect>, key: string)
    ensures LastFor(es, key).Some? <==> key in Objects(es)
    ensures LastFor(es, key).Some? ==> LastFor(es, key).value in es && LastFor(es, key).value.objectKey == key
  {
    if es != [] {
      var last := es[|es| - 1];
      LastForFinds(es[..|es| - 1], key);
      assert es == es[..|es| - 1] + [last];
      assert last in es;
    }
  }

  lemma StrictlySortedObjects(es: seq<Effect>)
    requires StrictlySorted(es, EffectKey)
    ensures |Objects(es)| == |es|
    ensures forall e, f :: e in es && f in es && e.objectKey == f.objectKey ==> e == f
  {
    var keys := seq(|es|, i requires 0 <= i < |es| => es[i].objectKey);
    forall i, j | 0 <= i < j < |es| ensures keys[i] != keys[j] {
      LessTrichotomy(EffectKey(es[i]), EffectKey(es[j]));
    }
    DistinctBySize(keys);
    forall e, f | e in es && f in es && e.objectKey == f.objectKey ensures e == f {
      var i :| 0 <= i < |es| && es[i] == e;
      var j :| 0 <= j < |es| && es[j] == f;
      assert keys[i] == keys[j];
    }
    assert Objects(es) == Elements(keys) by {
      forall k | k in Objects(es) ensures k in Elements(keys) {
        var i :| 0 <= i < |es| && es[i].objectKey == k;
        assert keys[i] == k;
      }
      forall k | k in Elements(keys) ensures k in Objects(es) {
        var i :| 0 <= i < |es| && keys[i] == k;
        assert es[i] in es;
      }
    }
  }

  ghost predicate OperationsAgree(published: seq<Effect>, capability: seq<Effect>) {
    forall e, f :: e in published && f in capability && e.objectKey == f.objectKey ==>
      e.operations == [] || Elements(e.operations) == Elements(f.operations)
  }

  lemma CoveredExactly(e: Effect, capability: seq<Effect>)
    requires CanonicalEffects(capability) && StrictlySorted(e.operations, Self)
    ensures Covered(e, LastFor(capability, e.objectKey)) <==>
            e.objectKey in Objects(capability)
            && forall f :: f in capability && e.objectKey == f.objectKey ==>
                   e.operations == [] || Elements(e.operations) == Elements(f.operations)
  {
    LastForFinds(capability, e.objectKey);
    StrictlySortedObjects(capability);
    var found := LastFor(capability, e.objectKey);
    if found.Some? && Elements(e.operations) == Elements(found.value.operations) {
      StrictlySortedUnique(e.operations, found.value.operations, Self);
    }
  }

  /** On canonical lists, matching is equality of the object sets and of each explicit operation set. */
  lemma MatchesExactly(published: seq<Effect>, capability: seq<Effect>)
    requires CanonicalEffects(published) && CanonicalEffects(capability)
    ensures ListMatches(published, capability) <==>
                Objects(published) == Objects(capability) && OperationsAgree(published, capability)
  {
    StrictlySortedObjects(published);
    StrictlySortedObjects(capability);
    forall i | 0 <= i < |published|
      ensures Covered(published[i], LastFor(capability, published[i].objectKey)) <==>
              published[i].objectKey in Objects(capability)
              && forall f :: f in capability && published[i].objectKey == f.objectKey ==>
                 published[i].operations == [] || Elements(published[i].operations) == Elements(f.operations)
    {
      assert published[i] in published;
      CoveredExactly(published[i], capability);
    }
    if ListMatches(published, capability) {
      assert Objects(published) <= Objects(capability);
      SameSizeSubset(Objects(published), Objects(capability));
    }
  }

  // ---------------------------------------------------------------- what a handler is capable of

  /** The trimmed operations of one direction. */
  function Directed(operations: seq<string>, direction: set<string>): seq<string> {
    if operations == [] then []
    else
      var rest := Directed(operations[..|operations| - 1], direction);
      var o := Text.Trim(operations[|operations| - 1]);
      if o in direction then rest + [o] else rest
  }

  function Capability(cs: seq<H.ObjectCapability>, direction: set<string>): seq<Effect> {
    if cs == [] then []
    else
      var rest, c := Capability(cs[..|cs| - 1], direction), cs[|cs| - 1];
      var operations := Directed(c.operations, direction);
      if operations == [] then rest else rest + [Effect(Text.Trim(c.objectKey), [], operations)]
  }

  /** `effectSetFromHandlerCapabilities`. */
  method EffectSetFromHandlerCapabilities(cs: seq<H.ObjectCapability>) returns (r: EffectSet)
    ensures r == EffectSet(Capability(cs, READ_OPERATIONS), Capability(cs, WRITE_OPERATIONS))
  {
    r := EffectSet([], []);
    for i := 0 to |cs|
      invariant r == EffectSet(Capability(cs[..i], READ_OPERATIONS), Capability(cs[..i], WRITE_OPERATIONS))
    {
      assert cs[..i + 1][..i] == cs[..i];
      var read, write := SplitOperations(cs[i].operations, READ_OPERATIONS, WRITE_OPERATIONS);
      if |read| > 0 {
        r := r.(read := r.read + [Effect(Text.Trim(cs[i].objectKey), [], read)]);
      }
      if |write| > 0 {
        r := r.(write := r.write + [Effect(Text.Trim(cs[i].objectKey), [], write)]);
      }
    }
    assert cs[..|cs|] == cs;
  }

  method SplitOperations(operations: seq<string>, reading: set<string>, writing: set<string>)
      returns (read: seq<string>, write: seq<string>)
    ensures read == Directed(operations, reading) && write == Directed(operations, writing)
  {
    read, write := [], [];
    for i := 0 to |operations|
      invariant read == Directed(operations[..i], reading) && write == Directed(operations[..i], writing)
    {
      assert operations[..i + 1][..i] == operations[..i];
      var o := Text.Trim(operations[i]);
      if o in reading {
        read := read + [o];
      }
      if o in writing {
        write := write + [o];
      }
    }
    assert operations[..|operations|] == operations;
  }

  /** The operations of one direction that a canonical capability list holds on an object. */
  ghost function Held(cs: seq<H.ObjectCapability>, key: string, direction: set<string>): set<string> {
    set c, o | c in cs && c.objectKey == key && o in c.operations && o in direction :: o
  }

  lemma {:induction false} DirectedExactly(operations: seq<string>, direction: set<string>)
    requires AllTrimmed(operations) && StrictlySorted(operations, Self)
    ensures StrictlySorted(Directed(operations, direction), Self)
    ensures Elements(Directed(operations, direction)) == Elements(operations) * direction
  {
    if operations != [] {
      var n := |operations| - 1;
      var front, last := operations[..n], operations[n];
      DirectedExactly(front, direction);
      assert operations == front + [last];
      var kept := Directed(front, direction);
      forall i | 0 <= i < |kept| ensures Less(Self(kept[i]), Self(last)) {
        assert kept[i] in Elements(kept);
        var j :| 0 <= j < |front| && front[j] == kept[i];
        assert Less(Self(operations[j]), Self(operations[n]));
      }
      ElementsAppend(front, [last]);
      ElementsAppend(kept, [last]);
      assert Elements([last]) == {last};
    }
  }

  /** A list of effects says exactly what a capability list holds in one direction. */
  ghost predicate Says(es: seq<Effect>, cs: seq<H.ObjectCapability>, direction: set<string>) {
    && (forall key :: key in Objects(es) <==> Held(cs, key, direction) != {})
    && (forall e :: e in es ==> Elements(e.operations) == Held(cs, e.objectKey, direction))
  }

  lemma HeldNext(cs: seq<H.ObjectCapability>, c: H.ObjectCapability, key: string, direction: set<string>)
    requires forall i :: 0 <= i < |cs| ==> cs[i].objectKey != c.objectKey
    ensures Held(cs + [c], key, direction) == if key == c.objectKey then Elements(c.operations) * direction
            else Held(cs, key, direction)
  {
    assert c in cs + [c];
  }

  lemma SaysNext(es: seq<Effect>, cs: seq<H.ObjectCapability>, c: H.ObjectCapability, operations: seq<string>,
                 direction: set<string>)
    requires Says(es, cs, direction) && Elements(operations) == Elements(c.operations) * direction
    requires forall i :: 0 <= i < |cs| ==> cs[i].objectKey != c.objectKey
    ensures operations == [] ==> Says(es, cs + [c], direction)
    ensures operations != [] ==> Says(es + [Effect(c.objectKey, [], operations)], cs + [c], direction)
  {
    assert Held(cs, c.objectKey, direction) == {};
    assert c.objectKey !in Objects(es);
    var added := Effect(c.objectKey, [], operations);
    var longer := if operations == [] then es else es + [added];
    forall key ensures key in Objects(longer) <==> Held(cs + [c], key, direction) != {} {
      HeldNext(cs, c, key, direction);
      if operations != [] {
        assert operations[0] in Elements(operations);
        assert added in longer && forall e :: e in longer <==> e in es || e == added;
      }
    }
    forall e | e in longer ensures Elements(e.operations) == Held(cs + [c], e.objectKey, direction) {
      HeldNext(cs, c, e.objectKey, direction);
      if e in es {
        assert e.objectKey in Objects(es);
      }
    }
  }

  lemma {:induction false} CapabilityExactly(cs: seq<H.ObjectCapability>, direction: set<string>, allowed: set<string>)
    requires H.CanonicalObjects(cs, allowed)
    ensures CanonicalEffects(Capability(cs, direction)) && Says(Capability(cs, direction), cs, direction)
  {
    if cs != [] {
      var n := |cs| - 1;
      var front, c := cs[..n], cs[n];
      CapabilityExactly(front, direction, allowed);
      assert H.CanonicalCapability(c, allowed) && cs == front + [c];
      DirectedExactly(c.operations, direction);
      var es, operations := Capability(front, direction), Directed(c.operations, direction);
      forall i | 0 <= i < |front| ensures front[i].objectKey != c.objectKey && Less(front[i].objectKey, c.objectKey) {
        assert Less(H.CapabilityKey(cs[i]), H.CapabilityKey(cs[n]));
        LessTrichotomy(front[i].objectKey, c.objectKey);
      }
      SaysNext(es, front, c, operations, direction);
      EffectsBelow(es, front, c.objectKey, direction);
    }
  }

  lemma EffectsBelow(es: seq<Effect>, cs: seq<H.ObjectCapability>, key: string, direction: set<string>)
    requires Says(es, cs, direction) && forall i :: 0 <= i < |cs| ==> Less(cs[i].objectKey, key)
    ensures forall i :: 0 <= i < |es| ==> Less(es[i].objectKey, key)
  {
    forall i | 0 <= i < |es| ensures Less(es[i].objectKey, key) {
      assert es[i] in es && es[i].objectKey in Objects(es);
      var o :| o in Held(cs, es[i].objectKey, direction);
    }
  }

  /** Authored effects of one direction against a canonical handler, in terms of sets alone. */
  ghost predicate AsksWhatIsHeld(published: seq<Effect>, cs: seq<H.ObjectCapability>, direction: set<string>) {
    && (forall key :: key in Elements(TrimmedKeys(published, EffectKey)) <==> Held(cs, key, direction) != {})
    && ExplicitHeld(published, cs, direction)
  }

  ghost predicate ExplicitHeld(published: seq<Effect>, cs: seq<H.ObjectCapability>, direction: set<string>) {
    forall i :: 0 <= i < |published| && published[i].operations != [] ==>
      Elements(TrimAll(published[i].operations)) == Held(cs, Text.Trim(published[i].objectKey), direction)
  }

  lemma NormalElements(es: seq<Effect>, e: Effect)
    ensures e in NormalEffects(es) <==> exists i :: 0 <= i < |es| && NormalEffect(es[i]) == e
  {
    var ns, r := NormalEach(es), NormalEffects(es);
    SameBag(r, ns);
    assert e in r <==> e in Elements(r);
    assert e in ns <==> e in Elements(ns);
    if e in ns {
      var i :| 0 <= i < |ns| && ns[i] == e;
      assert NormalEffect(es[i]) == e;
    }
    if i :| 0 <= i < |es| && NormalEffect(es[i]) == e {
      assert ns[i] == e;
    }
  }

  lemma NormalObjects(es: seq<Effect>)
    ensures Objects(NormalEffects(es)) == Elements(TrimmedKeys(es, EffectKey))
  {
    var r := NormalEffects(es);
    forall k | k in Objects(r) ensures k in Elements(TrimmedKeys(es, EffectKey)) {
      var e :| e in r && e.objectKey == k;
      NormalElements(es, e);
      var i :| 0 <= i < |es| && NormalEffect(es[i]) == e;
      assert TrimmedKeys(es, EffectKey)[i] == k;
    }
    forall k | k in Elements(TrimmedKeys(es, EffectKey)) ensures k in Objects(r) {
      var i :| 0 <= i < |es| && TrimmedKeys(es, EffectKey)[i] == k;
      NormalElements(es, NormalEffect(es[i]));
    }
  }

  lemma AgreeMeansHeld(published: seq<Effect>, cs: seq<H.ObjectCapability>, direction: set<string>, es: seq<Effect>)
    requires Says(es, cs, direction)
    ensures Objects(NormalEffects(published)) == Objects(es) && OperationsAgree(NormalEffects(published), es) ==>
              ExplicitHeld(published, cs, direction)
  {
    if Objects(NormalEffects(published)) == Objects(es) && OperationsAgree(NormalEffects(published), es) {
      forall i | 0 <= i < |published| && published[i].operations != []
        ensures Elements(TrimAll(published[i].operations)) == Held(cs, Text.Trim(published[i].objectKey), direction)
      {
        var e := NormalEffect(published[i]);
        NormalElements(published, e);
        assert e.objectKey in Objects(NormalEffects(published));
        assert e.objectKey in Objects(es);
        var f :| f in es && f.objectKey == e.objectKey;
      }
    }
  }

  lemma HeldMeansAgree(published: seq<Effect>, cs: seq<H.ObjectCapability>, direction: set<string>, es: seq<Effect>)
    requires Says(es, cs, direction) && ExplicitHeld(published, cs, direction)
    ensures OperationsAgree(NormalEffects(published), es)
  {
    forall e, f | e in NormalEffects(published) && f in es && e.objectKey == f.objectKey
      ensures e.operations == [] || Elements(e.operations) == Elements(f.operations)
    {
      NormalElements(published, e);
      var i :| 0 <= i < |published| && NormalEffect(published[i]) == e;
      if e.operations != [] {
        assert Elements(e.operations) == Held(cs, Text.Trim(published[i].objectKey), direction);
      }
    }
  }

  /** A published effect list matches a registry-normalised handler exactly when the objects are the same
      set, and every explicit operation list is, as a set, what the handler holds on that object. */
  lemma HandlerMatchesExactly(published: seq<Effect>, cs: seq<H.ObjectCapability>, direction: set<string>,
                              allowed: set<string>)
    requires EffectsValid(published, direction) && H.CanonicalObjects(cs, allowed)
    ensures ListMatches(NormalEffects(published), Capability(cs, direction)) <==>
                AsksWhatIsHeld(published, cs, direction)
  {
    var es := Capability(cs, direction);
    assert CanonicalEffects(NormalEffects(published)) by { NormalEffectsCanonical(published, direction); }
    CapabilityExactly(cs, direction, allowed);
    MatchesExactly(NormalEffects(published), es);
    NormalObjects(published);
    if Objects(NormalEffects(published)) == Objects(es) {
      if OperationsAgree(NormalEffects(published), es) {
        AgreeMeansHeld(published, cs, direction, es);
      }
      if ExplicitHeld(published, cs, direction) {
        HeldMeansAgree(published, cs, direction, es);
      }
    }
  }

  // ---------------------------------------------------------------- file capabilities

  ghost predicate FilesMatch(published: seq<string>, descriptor: seq<string>) {
    |published| == |descriptor| && NamesValid(published)
    && Elements(TrimAll(descriptor)) <= Elements(TrimAll(published))
  }

  /** `actionFileCapabilitiesMatch`. */
  method ActionFileCapabilitiesMatch(published: seq<string>, descriptor: seq<string>) returns (ok: bool)
    ensures ok == FilesMatch(published, descriptor)
  {
    if |published| != |descriptor| {
      return false;
    }
    var want: set<string> := {};
    ghost var names := TrimAll(published);
    for i := 0 to |published|
      invariant want == Elements(names[..i]) && Distinct(names[..i]) && "" !in want
    {
      var value := Text.Trim(published[i]);
      NextName(names, i);
      assert value in Elements(names);
      if value == "" || value in want {
        return false;
      }
      want := want + {value};
    }
    assert names[..|published|] == names;
    ok := AllWanted(descriptor, want);
  }

  method AllWanted(descriptor: seq<string>, want: set<string>) returns (ok: bool)
    ensures ok <==> Elements(TrimAll(descriptor)) <= want
  {
    ghost var names := TrimAll(descriptor);
    for i := 0 to |descriptor|
      invariant forall k :: 0 <= k < i ==> names[k] in want
    {
      assert names[i] in Elements(names);
      if Text.Trim(descriptor[i]) !in want {
        return false;
      }
    }
    ok := true;
  }

  /** Against a canonical descriptor the file lists match exactly when they are the same set, each name once. */
  lemma FilesMatchExactly(published: seq<string>, descriptor: seq<string>, allowed: set<string>)
    requires H.CanonicalNames(descriptor, allowed)
    ensures FilesMatch(published, descriptor) <==>
                NamesValid(published) && Elements(TrimAll(published)) == Elements(descriptor)
  {
    assert TrimAll(descriptor) == descriptor;
    StrictlySortedDistinct(descriptor);
    DistinctBySize(descriptor);
    DistinctBySize(TrimAll(published));
    if FilesMatch(published, descriptor) {
      SameSizeSubset(Elements(descriptor), Elements(TrimAll(published)));
    }
  }

  /** Without that canonical form the length test is not enough: a repeated name hides a missing one. */
  lemma RepeatedFileNameMatches()
    ensures FilesMatch(["open_verified", "verify_clean"], ["verify_clean", "verify_clean"])
    ensures "open_verified" !in ["verify_clean", "verify_clean"]
  {
    var p, d := ["open_verified", "verify_clean"], ["verify_clean", "verify_clean"];
    assert p[0][0] == 'o' && p[1][0] == 'v';
    assert Text.Trimmed(p[0]) && Text.Trimmed(p[1]);
    assert TrimAll(p) == p && TrimAll(d) == d;
    assert p[1] in p;
  }

  // ---------------------------------------------------------------- resolution

  datatype Definition = Definition(key: string, objectKey: string, effectSet: Option<EffectSet>,
                                   fileOperations: seq<string>)
  datatype SystemOperation = SystemOperation(key: string, writeOperation: string)

  datatype Owner = SystemOwner(key: string) | HandlerOwner(descriptor: H.Descriptor)
  datatype Resolution = Resolution(owner: Owner, effectSet: EffectSet)
  datatype Error = InvalidEffectSet | BothOwners | CapabilityMismatch | NoOwner

  /** Both directions, or neither. */
  function Both(read: Result<seq<Effect>, Rejected>, write: Result<seq<Effect>, Rejected>)
      : Result<Option<EffectSet>, Rejected> {
    if read.Err? || write.Err? then Err(Rejected) else Ok(Some(EffectSet(read.value, write.value)))
  }

  ghost function NormalizedWithin(es: EffectSet, reading: set<string>, writing: set<string>)
      : Result<Option<EffectSet>, Rejected> {
    Both(Published(es.read, reading), Published(es.write, writing))
  }

  ghost function Normalized(es: Option<EffectSet>): Result<Option<EffectSet>, Rejected> {
    if es.None? then Ok(None) else NormalizedWithin(es.value, READ_OPERATIONS, WRITE_OPERATIONS)
  }

  function SystemEffects(objectKey: string, operation: string): EffectSet {
    EffectSet([], [Effect(Text.Trim(objectKey), [], [Text.Trim(operation)])])
  }

  function HandlerEffects(d: H.Descriptor): EffectSet {
    EffectSet(Capability(d.objects, READ_OPERATIONS), Capability(d.objects, WRITE_OPERATIONS))
  }

  predicate Matches(published: Option<EffectSet>, capability: EffectSet) {
    published.None? || (ListMatches(published.value.read, capability.read)
        && ListMatches(published.value.write, capability.write))
  }

  function Selected(published: Option<EffectSet>, derived: EffectSet): EffectSet {
    if published.Some? then published.value else derived
  }

  function Decide(published: Option<EffectSet>, objectKey: string, system: Option<SystemOperation>,
                  handler: Option<H.Descriptor>, files: bool)
    : Result<Resolution, Error>
  {
    if system.Some? && handler.Some? then Err(BothOwners)
    else if system.Some? && Matches(published, SystemEffects(objectKey, system.value.writeOperation)) then
      Ok(Resolution(SystemOwner(system.value.key),
          Selected(published, SystemEffects(objectKey, system.value.writeOperation))))
    else if handler.Some? && Matches(published, HandlerEffects(handler.value)) && files then
      Ok(Resolution(HandlerOwner(handler.value), Selected(published, HandlerEffects(handler.value))))
    else if system.Some? || handler.Some? then Err(CapabilityMismatch)
    else Err(NoOwner)
  }

  ghost function Resolve(a: Definition, system: Option<SystemOperation>, handler: Option<H.Descriptor>)
      : Result<Resolution, Error> {
    if Normalized(a.effectSet).Err? then Err(InvalidEffectSet)
    else Decide(Normalized(a.effectSet).value, a.objectKey, system, handler, handler.Some?
        && FilesMatch(a.fileOperations, handler.value.files))
  }

  /** `effectCapabilityMatches`, or no effect set was published. */
  method EffectCapabilityMatches(published: Option<EffectSet>, capability: EffectSet) returns (ok: bool)
    ensures ok == Matches(published, capability)
  {
    if published.None? {
      return true;
    }
    ok := EffectCapabilityListMatches(published.value.read, capability.read);
    if ok {
      ok := EffectCapabilityListMatches(published.value.write, capability.write);
    }
  }

  /** `normalizePublishedEffectSet`. */
  method NormalizePublishedEffectSet(es: Option<EffectSet>) returns (r: Result<Option<EffectSet>, Rejected>)
    ensures r == Normalized(es)
  {
    if es.None? {
      return Ok(None);
    }
    var read := NormalizePublishedEffects(es.value.read, READ_OPERATIONS);
    if read.Err? {
      return Err(Rejected);
    }
    var write := NormalizePublishedEffects(es.value.write, WRITE_OPERATIONS);
    if write.Err? {
      return Err(Rejected);
    }
    r := Ok(Some(EffectSet(read.value, write.value)));
  }

  /** `resolvePublishedActionOwner`. */
  method ResolvePublishedActionOwner(a: Definition, system: Option<SystemOperation>, handler: Option<H.Descriptor>)
    returns (r: Result<Resolution, Error>)
    ensures r == Resolve(a, system, handler)
  {
    var published := NormalizePublishedEffectSet(a.effectSet);
    if published.Err? {
      return Err(InvalidEffectSet);
    }
    var systemEffect, handlerEffect := EffectSet([], []), EffectSet([], []);
    var systemEligible, handlerEligible := false, false;
    if system.Some? {
      systemEffect := SystemEffects(a.objectKey, system.value.writeOperation);
      systemEligible := EffectCapabilityMatches(published.value, systemEffect);
    }
    if handler.Some? {
      handlerEffect := EffectSetFromHandlerCapabilities(handler.value.objects);
      handlerEligible := EffectCapabilityMatches(published.value, handlerEffect);
      if handlerEligible {
        handlerEligible := ActionFileCapabilitiesMatch(a.fileOperations, handler.value.files);
      }
    }
    if system.Some? && handler.Some? {
      return Err(BothOwners);
    }
    if systemEligible {
      return Ok(Resolution(SystemOwner(system.value.key), Selected(published.value, systemEffect)));
    }
    if handlerEligible {
      return Ok(Resolution(HandlerOwner(handler.value), Selected(published.value, handlerEffect)));
    }
    r := if system.Some? || handler.Some? then Err(CapabilityMismatch) else Err(NoOwner);
  }

  // ---------------------------------------------------------------- what resolution promises

  /** The authored list is acceptable and asks for what is held. */
  ghost predicate SideAsks(es: seq<Effect>, cs: seq<H.ObjectCapability>, direction: set<string>) {
    EffectsValid(es, direction) && AsksWhatIsHeld(es, cs, direction)
  }

  ghost predicate SideMatches(es: seq<Effect>, cs: seq<H.ObjectCapability>, direction: set<string>) {
    Published(es, direction).Ok? && ListMatches(Published(es, direction).value, Capability(cs, direction))
  }

  lemma SideExactly(es: seq<Effect>, cs: seq<H.ObjectCapability>, direction: set<string>, allowed: set<string>)
    requires H.CanonicalObjects(cs, allowed)
    ensures SideMatches(es, cs, direction) <==> SideAsks(es, cs, direction)
  {
    if EffectsValid(es, direction) {
      HandlerMatchesExactly(es, cs, direction, allowed);
    }
  }

  ghost predicate AsksBoth(es: EffectSet, cs: seq<H.ObjectCapability>, reading: set<string>, writing: set<string>) {
    SideAsks(es.read, cs, reading) && SideAsks(es.write, cs, writing)
  }

  ghost predicate MatchesWithin(es: EffectSet, cs: seq<H.ObjectCapability>, reading: set<string>,
                                writing: set<string>) {
    var r := NormalizedWithin(es, reading, writing);
    r.Ok? && Matches(r.value, EffectSet(Capability(cs, reading), Capability(cs, writing)))
  }

  lemma MatchesSides(read: Result<seq<Effect>, Rejected>, write: Result<seq<Effect>, Rejected>, capability: EffectSet)
    ensures Both(read, write).Ok? && Matches(Both(read, write).value, capability) <==>
            read.Ok? && ListMatches(read.value, capability.read) && write.Ok?
            && ListMatches(write.value, capability.write)
  {
  }

  lemma SetMatchesExactly(es: EffectSet, cs: seq<H.ObjectCapability>, reading: set<string>, writing: set<string>,
                          allowed: set<string>)
    requires H.CanonicalObjects(cs, allowed)
    ensures MatchesWithin(es, cs, reading, writing) <==> AsksBoth(es, cs, reading, writing)
  {
    MatchesSides(Published(es.read, reading), Published(es.write, writing),
        EffectSet(Capability(cs, reading), Capability(cs, writing)));
    assert SideMatches(es.read, cs, reading) <==>
               SideAsks(es.read, cs, reading) by { SideExactly(es.read, cs, reading, allowed); }
    assert SideMatches(es.write, cs, writing) <==>
               SideAsks(es.write, cs, writing) by { SideExactly(es.write, cs, writing, allowed); }
  }

  lemma HandlerDecided(published: Option<EffectSet>, objectKey: string, system: Option<SystemOperation>,
                       d: H.Descriptor, files: bool)
    ensures Decide(published, objectKey, system, Some(d), files).Ok? <==>
                system.None? && Matches(published, HandlerEffects(d)) && files
  {
  }

  /** A handler owns the action exactly when it is the only candidate, the published effects are, as sets,
      what it holds in each direction, and the file operations are the same set. */
  lemma HandlerOwnsExactly(a: Definition, system: Option<SystemOperation>, d: H.Descriptor)
    requires H.CanonicalForm(d)
    ensures Resolve(a, system, Some(d)).Ok? <==>
            && system.None?
            && (a.effectSet.Some? ==> AsksBoth(a.effectSet.value, d.objects, READ_OPERATIONS, WRITE_OPERATIONS))
            && NamesValid(a.fileOperations) && Elements(TrimAll(a.fileOperations)) == Elements(d.files)
  {
    FilesMatchExactly(a.fileOperations, d.files, H.FILE_OPERATIONS);
    var files := FilesMatch(a.fileOperations, d.files);
    if a.effectSet.Some? {
      SetMatchesExactly(a.effectSet.value, d.objects, READ_OPERATIONS, WRITE_OPERATIONS, H.ALLOWED_OPERATIONS);
    }
    if Normalized(a.effectSet).Ok? {
      HandlerDecided(Normalized(a.effectSet).value, a.objectKey, system, d, files);
    }
  }

  /** The published set asks for one write on the action's object, and for nothing else. */
  ghost predicate AsksOneWrite(es: EffectSet, key: string, operation: string, writing: set<string>) {
    && es.read == [] && |es.write| == 1 && EffectsValid(es.write, writing) && Text.Trim(es.write[0].objectKey) == key
    && (es.write[0].operations == [] || Elements(TrimAll(es.write[0].operations)) == {operation})
  }

  lemma NormalOne(e: Effect)
    ensures NormalEffects([e]) == [NormalEffect(e)]
  {
    assert NormalEach([e]) == [NormalEffect(e)];
    assert [NormalEffect(e)][1..] == [];
  }

  lemma OneOperation(operations: seq<string>, operation: string)
    requires NamesValid(operations)
    ensures Canonical(operations) == [operation] <==> Elements(TrimAll(operations)) == {operation}
  {
    assert Elements([operation]) == {operation};
    if Elements(TrimAll(operations)) == {operation} {
      CanonicalStrict(operations);
      StrictlySortedUnique(Canonical(operations), [operation], Self);
    }
  }

  lemma OneWriteMatches(es: seq<Effect>, key: string, operation: string, writing: set<string>)
    requires EffectsValid(es, writing)
    ensures ListMatches(NormalEffects(es), [Effect(key, [], [operation])]) <==>
            |es| == 1 && Text.Trim(es[0].objectKey) == key
            && (es[0].operations == [] || Elements(TrimAll(es[0].operations)) == {operation})
  {
    assert |NormalEffects(es)| == |es| by { NormalEffectsCanonical(es, writing); }
    if |es| == 1 {
      NormalOne(es[0]);
      assert es == [es[0]];
      assert EffectValid(es[0], writing);
      OneOperation(es[0].operations, operation);
      var capability := [Effect(key, [], [operation])];
      assert capability[..0] == [];
      assert LastFor(capability, Text.Trim(es[0].objectKey)).Some? <==> Text.Trim(es[0].objectKey) == key;
    }
  }

  lemma SystemSetMatches(es: EffectSet, key: string, operation: string, reading: set<string>, writing: set<string>)
    ensures (var r := NormalizedWithin(es, reading, writing);
             r.Ok? && Matches(r.value, EffectSet([], [Effect(key, [], [operation])]))) <==>
                 AsksOneWrite(es, key, operation, writing)
  {
    MatchesSides(Published(es.read, reading), Published(es.write, writing),
        EffectSet([], [Effect(key, [], [operation])]));
    if EffectsValid(es.read, reading) {
      assert |NormalEffects(es.read)| == |es.read| by { NormalEffectsCanonical(es.read, reading); }
    }
    if EffectsValid(es.write, writing) {
      OneWriteMatches(es.write, key, operation, writing);
    }
  }

  lemma SystemDecided(published: Option<EffectSet>, objectKey: string, system: SystemOperation,
                      handler: Option<H.Descriptor>, files: bool)
    ensures Decide(published, objectKey, Some(system), handler, files).Ok? <==>
            handler.None? && Matches(published, SystemEffects(objectKey, system.writeOperation))
  {
  }

  /** A system operation owns the action exactly when it is the only candidate and the published effects, if
      any, are its one write on the action's own object. */
  lemma SystemOwnsExactly(a: Definition, system: SystemOperation, handler: Option<H.Descriptor>)
    ensures Resolve(a, Some(system), handler).Ok? <==>
            handler.None?
            && (a.effectSet.Some? ==>
                  AsksOneWrite(a.effectSet.value, Text.Trim(a.objectKey), Text.Trim(system.writeOperation),
                      WRITE_OPERATIONS))
  {
    if a.effectSet.Some? {
      SystemSetMatches(a.effectSet.value, Text.Trim(a.objectKey), Text.Trim(system.writeOperation), READ_OPERATIONS,
          WRITE_OPERATIONS);
    }
    if Normalized(a.effectSet).Ok? {
      SystemDecided(Normalized(a.effectSet).value, a.objectKey, system, handler,
                    handler.Some? && FilesMatch(a.fileOperations, handler.value.files));
    }
  }

  /** Two effects name the same object, the same fields and the same operations, order and blanks aside. */
  ghost predicate SameContent(authored: Effect, e: Effect) {
    && e.objectKey == Text.Trim(authored.objectKey)
    && Elements(e.fields) == Elements(TrimAll(authored.fields)) && |e.fields| == |authored.fields|
    && Elements(e.operations) == Elements(TrimAll(authored.operations)) && |e.operations| == |authored.operations|
  }

  /** A list holds what was authored: as many effects, each authored one in it, and none that was not authored. */
  ghost predicate HoldsAuthored(authored: seq<Effect>, es: seq<Effect>) {
    && |es| == |authored| && StrictlySorted(es, EffectKey)
    && (forall i :: 0 <= i < |authored| ==> HasContent(es, authored[i]))
    && (forall i :: 0 <= i < |es| ==> Authored(authored, es[i]))
  }

  ghost predicate HasContent(es: seq<Effect>, authored: Effect) { exists e :: e in es && SameContent(authored, e) }

  ghost predicate Authored(authored: seq<Effect>, e: Effect) {
    exists i :: 0 <= i < |authored| && SameContent(authored[i], e)
  }

  lemma PublishedKeeps(es: seq<Effect>, allowed: set<string>)
    requires EffectsValid(es, allowed)
    ensures HoldsAuthored(es, NormalEffects(es))
  {
    var r := NormalEffects(es);
    NormalEffectsCanonical(es, allowed);
    forall i | 0 <= i < |es| ensures HasContent(r, es[i]) {
      var e := NormalEffect(es[i]);
      NormalElements(es, e);
      assert SameContent(es[i], e);
    }
    forall k | 0 <= k < |r| ensures Authored(es, r[k]) {
      NormalElements(es, r[k]);
      var i :| 0 <= i < |es| && NormalEffect(es[i]) == r[k];
      assert SameContent(es[i], r[k]);
    }
  }

  /** Why an action gets no owner: its own effect set is not acceptable, two candidates, none, or the one candidate
      is not capable of what was published. */
  lemma RefusedExactly(a: Definition, system: Option<SystemOperation>, handler: Option<H.Descriptor>)
    ensures var r := Resolve(a, system, handler);
            var invalid := a.effectSet.Some? && !(EffectsValid(a.effectSet.value.read, READ_OPERATIONS)
                                                  && EffectsValid(a.effectSet.value.write, WRITE_OPERATIONS));
            && (r == Err(InvalidEffectSet) <==> invalid)
            && (r == Err(BothOwners) <==> !invalid && system.Some? && handler.Some?)
            && (r == Err(NoOwner) <==> !invalid && system.None? && handler.None?)
            && (r == Err(CapabilityMismatch) ==> system.Some? != handler.Some?)
  {
  }

  lemma {:induction false} CapabilityNamesNoFields(cs: seq<H.ObjectCapability>, direction: set<string>)
    ensures forall e :: e in Capability(cs, direction) ==> e.fields == []
  {
    if cs != [] {
      CapabilityNamesNoFields(cs[..|cs| - 1], direction);
    }
  }

  lemma DecidedOwner(published: Option<EffectSet>, objectKey: string, system: Option<SystemOperation>,
                     handler: Option<H.Descriptor>, files: bool)
    requires Decide(published, objectKey, system, handler, files).Ok?
    ensures var r := Decide(published, objectKey, system, handler, files).value;
            && system.Some? != handler.Some?
            && (system.Some? ==> r.owner == SystemOwner(system.value.key))
            && (handler.Some? ==> r.owner == HandlerOwner(handler.value))
            && (published.Some? ==> r.effectSet == published.value)
            && (published.None? && system.Some? ==>
                  r.effectSet == SystemEffects(objectKey, system.value.writeOperation))
            && (published.None? && handler.Some? ==> r.effectSet == HandlerEffects(handler.value))
  {
  }

  lemma PublishedSetKeeps(es: EffectSet, reading: set<string>, writing: set<string>)
    requires NormalizedWithin(es, reading, writing).Ok?
    ensures var r := NormalizedWithin(es, reading, writing).value;
            r.Some? && HoldsAuthored(es.read, r.value.read) && HoldsAuthored(es.write, r.value.write)
  {
    assert HoldsAuthored(es.read, NormalEffects(es.read)) by { PublishedKeeps(es.read, reading); }
    assert HoldsAuthored(es.write, NormalEffects(es.write)) by { PublishedKeeps(es.write, writing); }
  }

  /** The effects say what the capabilities hold, and name no field. */
  ghost predicate DerivedFrom(es: seq<Effect>, cs: seq<H.ObjectCapability>, direction: set<string>) {
    Says(es, cs, direction) && forall e :: e in es ==> e.fields == []
  }

  lemma CapabilityDerived(cs: seq<H.ObjectCapability>, direction: set<string>, allowed: set<string>)
    requires H.CanonicalObjects(cs, allowed)
    ensures DerivedFrom(Capability(cs, direction), cs, direction)
  {
    CapabilityExactly(cs, direction, allowed);
    CapabilityNamesNoFields(cs, direction);
  }

  /** Who owns a resolved action and what it may touch: the one candidate; and what was published, or if nothing
      was, the one write of the system operation or all that the handler holds in each direction. */
  lemma ResolvedExactly(a: Definition, system: Option<SystemOperation>, handler: Option<H.Descriptor>)
    requires Resolve(a, system, handler).Ok? && (handler.Some? ==> H.CanonicalForm(handler.value))
    ensures var r := Resolve(a, system, handler).value;
            && system.Some? != handler.Some?
            && (system.Some? ==> r.owner == SystemOwner(system.value.key))
            && (handler.Some? ==> r.owner == HandlerOwner(handler.value))
            && (a.effectSet.Some? ==>
                  HoldsAuthored(a.effectSet.value.read, r.effectSet.read)
                  && HoldsAuthored(a.effectSet.value.write, r.effectSet.write))
            && (a.effectSet.None? && system.Some? ==>
                  r.effectSet == EffectSet([], [Effect(Text.Trim(a.objectKey), [],
                                                       [Text.Trim(system.value.writeOperation)])]))
            && (a.effectSet.None? && handler.Some? ==>
                  && DerivedFrom(r.effectSet.read, handler.value.objects, READ_OPERATIONS)
                  && DerivedFrom(r.effectSet.write, handler.value.objects, WRITE_OPERATIONS))
  {
    var published := Normalized(a.effectSet).value;
    var files := handler.Some? && FilesMatch(a.fileOperations, handler.value.files);
    DecidedOwner(published, a.objectKey, system, handler, files);
    if a.effectSet.Some? {
      PublishedSetKeeps(a.effectSet.value, READ_OPERATIONS, WRITE_OPERATIONS);
    } else if handler.Some? {
      CapabilityDerived(handler.value.objects, READ_OPERATIONS, H.ALLOWED_OPERATIONS);
      CapabilityDerived(handler.value.objects, WRITE_OPERATIONS, H.ALLOWED_OPERATIONS);
    }
  }

  /** Every operation a handler may be granted on an object has a direction, except the reading of notification
      recipients; one has both. */
  lemma DirectionsCover()
    ensures H.ALLOWED_OPERATIONS == READ_OPERATIONS + WRITE_OPERATIONS + {"notification_recipient"}
    ensures READ_OPERATIONS * WRITE_OPERATIONS == {"conditional_update_many"}
  {
    assert "count"[3] == 'n' && "create"[3] == 'a';
  }

  // ---------------------------------------------------------------- resolving what was resolved

  ghost predicate FormedNames(xs: seq<string>) { AllTrimmed(xs) && StrictlySorted(xs, Self) && "" !in Elements(xs) }

  ghost predicate Formed(e: Effect, allowed: set<string>) {
    && Text.Trimmed(e.objectKey) && e.objectKey != "" && FormedNames(e.fields) && FormedNames(e.operations)
    && Elements(e.operations) <= allowed
  }

  /** The form a resolved effect list has. */
  ghost predicate FormedList(es: seq<Effect>, allowed: set<string>) {
    StrictlySorted(es, EffectKey) && forall i :: 0 <= i < |es| ==> Formed(es[i], allowed)
  }

  lemma FormedEffectFixed(e: Effect, allowed: set<string>)
    requires Formed(e, allowed)
    ensures EffectValid(e, allowed) && NormalEffect(e) == e
  {
    CanonicalFixed(e.fields);
    CanonicalFixed(e.operations);
  }

  /** A list in that form is accepted as published, and is its own canonical form. */
  lemma FormedListFixed(es: seq<Effect>, allowed: set<string>)
    requires FormedList(es, allowed)
    ensures Published(es, allowed) == Ok(es)
  {
    forall i | 0 <= i < |es| ensures EffectValid(es[i], allowed) && NormalEffect(es[i]) == es[i] {
      FormedEffectFixed(es[i], allowed);
    }
    assert NormalEach(es) == es;
    forall i, j | 0 <= i < j < |es| ensures TrimmedKeys(es, EffectKey)[i] != TrimmedKeys(es, EffectKey)[j] {
      LessTrichotomy(EffectKey(es[i]), EffectKey(es[j]));
    }
    assert EffectsValid(es, allowed);
    NormalEffectsCanonical(es, allowed);
    StrictlySortedUnique(NormalEffects(es), es, EffectKey);
  }

  lemma NormalNamesFormed(xs: seq<string>)
    requires NamesValid(xs)
    ensures FormedNames(Canonical(xs))
  {
    CanonicalStrict(xs);
    H.CanonicalNamesTrimmed(xs);
  }

  lemma PublishedFormed(es: seq<Effect>, allowed: set<string>)
    requires EffectsValid(es, allowed)
    ensures FormedList(NormalEffects(es), allowed)
  {
    NormalEffectsCanonical(es, allowed);
    var r := NormalEffects(es);
    forall k | 0 <= k < |r| ensures Formed(r[k], allowed) {
      NormalElements(es, r[k]);
      var i :| 0 <= i < |es| && NormalEffect(es[i]) == r[k];
      assert EffectValid(es[i], allowed);
      NormalNamesFormed(es[i].fields);
      NormalNamesFormed(es[i].operations);
    }
  }

  lemma {:induction false} DirectedTrimmed(operations: seq<string>, direction: set<string>)
    requires AllTrimmed(operations)
    ensures AllTrimmed(Directed(operations, direction))
  {
    if operations != [] {
      DirectedTrimmed(operations[..|operations| - 1], direction);
    }
  }

  lemma {:induction false} CapabilityFormed(cs: seq<H.ObjectCapability>, direction: set<string>, allowed: set<string>)
    requires H.CanonicalObjects(cs, allowed) && "" !in direction
    ensures forall i :: 0 <= i < |Capability(cs, direction)| ==> Formed(Capability(cs, direction)[i], direction)
  {
    if cs != [] {
      var n := |cs| - 1;
      CapabilityFormed(cs[..n], direction, allowed);
      assert H.CanonicalCapability(cs[n], allowed);
      DirectedExactly(cs[n].operations, direction);
      DirectedTrimmed(cs[n].operations, direction);
    }
  }

  lemma HandlerListFormed(cs: seq<H.ObjectCapability>, direction: set<string>, allowed: set<string>)
    requires H.CanonicalObjects(cs, allowed) && "" !in direction
    ensures FormedList(Capability(cs, direction), direction)
  {
    CapabilityExactly(cs, direction, allowed);
    CapabilityFormed(cs, direction, allowed);
  }

  /** A formed list matches a capability list with the same objects and operations: itself. */
  lemma MatchesItself(es: seq<Effect>, allowed: set<string>)
    requires FormedList(es, allowed)
    ensures ListMatches(es, es)
  {
    assert CanonicalEffects(es) by {
      forall e | e in es ensures StrictlySorted(e.operations, Self) {
        var i :| 0 <= i < |es| && es[i] == e;
        assert Formed(es[i], allowed);
      }
    }
    StrictlySortedObjects(es);
    MatchesExactly(es, es);
  }

  ghost predicate FormedSet(es: EffectSet, reading: set<string>, writing: set<string>) {
    FormedList(es.read, reading) && FormedList(es.write, writing)
  }

  lemma FormedSetFixed(es: EffectSet, reading: set<string>, writing: set<string>)
    requires FormedSet(es, reading, writing)
    ensures NormalizedWithin(es, reading, writing) == Ok(Some(es)) && Matches(Some(es), es)
  {
    FormedListFixed(es.read, reading);
    FormedListFixed(es.write, writing);
    MatchesItself(es.read, reading);
    MatchesItself(es.write, writing);
  }

  lemma PublishedSetFormed(es: EffectSet, reading: set<string>, writing: set<string>)
    ensures NormalizedWithin(es, reading, writing).Ok? ==>
              var r := NormalizedWithin(es, reading, writing).value;
              r.Some? && FormedSet(r.value, reading, writing)
  {
    if NormalizedWithin(es, reading, writing).Ok? {
      PublishedFormed(es.read, reading);
      PublishedFormed(es.write, writing);
    }
  }

  lemma NoBlankOperation()
    ensures "" !in READ_OPERATIONS && "" !in WRITE_OPERATIONS
  {
  }

  lemma DecideAgain(published: Option<EffectSet>, objectKey: string, system: Option<SystemOperation>,
                    handler: Option<H.Descriptor>, files: bool)
    requires Decide(published, objectKey, system, handler, files).Ok?
    requires Matches(Some(Decide(published, objectKey, system, handler, files).value.effectSet),
                     Decide(None, objectKey, system, handler, files).value.effectSet)
    ensures var r := Decide(published, objectKey, system, handler, files).value;
            Decide(Some(r.effectSet), objectKey, system, handler, files) == Ok(r)
  {
  }

  /** What a resolved handler action was given as its effect set resolves to the same handler with the same
      effect set again: the catalog may be resolved any number of times. */
  lemma ResolvingAgain(a: Definition, d: H.Descriptor)
    requires H.CanonicalForm(d) && Resolve(a, None, Some(d)).Ok?
    ensures var r := Resolve(a, None, Some(d)).value;
            Resolve(a.(effectSet := Some(r.effectSet)), None, Some(d)) == Ok(r)
  {
    var r := Resolve(a, None, Some(d)).value;
    var files := FilesMatch(a.fileOperations, d.files);
    NoBlankOperation();
    assert FormedSet(HandlerEffects(d), READ_OPERATIONS, WRITE_OPERATIONS) by {
      HandlerListFormed(d.objects, READ_OPERATIONS, H.ALLOWED_OPERATIONS);
      HandlerListFormed(d.objects, WRITE_OPERATIONS, H.ALLOWED_OPERATIONS);
    }
    if a.effectSet.Some? {
      PublishedSetFormed(a.effectSet.value, READ_OPERATIONS, WRITE_OPERATIONS);
    }
    assert FormedSet(r.effectSet, READ_OPERATIONS, WRITE_OPERATIONS);
    FormedSetFixed(r.effectSet, READ_OPERATIONS, WRITE_OPERATIONS);
    assert Normalized(Some(r.effectSet)) == Ok(Some(r.effectSet));
    DecideAgain(Normalized(a.effectSet).value, a.objectKey, None, Some(d), files);
  }

  lemma SystemWriteFormed(key: string, operation: string, writing: set<string>)
    requires Text.Trimmed(key) && Text.Trimmed(operation)
    ensures var es := [Effect(key, [], [operation])];
            EffectsValid(es, writing) <==> key != "" && operation != "" && operation in writing
    ensures key != "" && operation != "" && operation in writing ==> FormedList([Effect(key, [], [operation])], writing)
  {
    var e := Effect(key, [], [operation]);
    assert TrimAll([operation]) == [operation] && Elements([operation]) == {operation};
    assert TrimAll([]) == [] && Elements(TrimAll([])) == {};
    assert EffectsValid([e], writing) ==> EffectValid([e][0], writing);
    if key != "" && operation != "" && operation in writing {
      assert Formed(e, writing);
      FormedEffectFixed(e, writing);
    }
  }

  lemma SystemAgainPublished(a: Definition, system: SystemOperation)
    requires a.effectSet.Some?
    ensures Resolve(a, Some(system), None).Ok? ==>
              var r := Resolve(a, Some(system), None).value;
              Resolve(a.(effectSet := Some(r.effectSet)), Some(system), None) == Ok(r)
  {
    if Resolve(a, Some(system), None).Ok? {
      var r := Resolve(a, Some(system), None).value;
      var published := Normalized(a.effectSet).value;
      assert published.Some? && Normalized(published) == Ok(published) by {
        PublishedSetFormed(a.effectSet.value, READ_OPERATIONS, WRITE_OPERATIONS);
        FormedSetFixed(published.value, READ_OPERATIONS, WRITE_OPERATIONS);
      }
      assert published == Some(r.effectSet);
    }
  }

  /** For a system action that holds exactly when its effects were published, or the effects derived for it
      could have been: an action without an object, or an operation that is not a write, resolves once and
      then is refused. */
  lemma SystemResolvingAgainExactly(a: Definition, system: SystemOperation)
    requires Resolve(a, Some(system), None).Ok?
    ensures var r := Resolve(a, Some(system), None).value;
            Resolve(a.(effectSet := Some(r.effectSet)), Some(system), None) == Ok(r) <==>
            a.effectSet.Some? || (Text.Trim(a.objectKey) != "" && Text.Trim(system.writeOperation) in WRITE_OPERATIONS)
  {
    NoBlankOperation();
    if a.effectSet.Some? {
      SystemAgainPublished(a, system);
    } else {
      var key, operation := Text.Trim(a.objectKey), Text.Trim(system.writeOperation);
      var es := SystemEffects(a.objectKey, system.writeOperation);
      SystemWriteFormed(key, operation, WRITE_OPERATIONS);
      if key != "" && operation in WRITE_OPERATIONS {
        assert FormedSet(es, READ_OPERATIONS, WRITE_OPERATIONS);
        FormedSetFixed(es, READ_OPERATIONS, WRITE_OPERATIONS);
        DecideAgain(None, a.objectKey, Some(system), None, false);
      } else {
        SystemOwnsExactly(a.(effectSet := Some(es)), system, None);
      }
    }
  }

  /** Such an action, concretely: it names no object. */
  lemma SystemRefusedSecondTime()
    ensures var a, system := Definition("a", "", None, []), SystemOperation("s", "create");
            Resolve(a, Some(system), None).Ok?
            && Resolve(a.(effectSet := Some(SystemEffects("", "create"))), Some(system), None) != Resolve(a,
                   Some(system), None)
  {
    var a, system := Definition("a", "", None, []), SystemOperation("s", "create");
    assert Text.Trimmed("");
    SystemOwnsExactly(a, system, None);
    SystemResolvingAgainExactly(a, system);
  }

  ghost predicate SameAuthored(a: Definition, b: Definition) {
    && a.objectKey == b.objectKey && (a.effectSet.Some? <==> b.effectSet.Some?)
    && (a.effectSet.Some? ==> Reordered(a.effectSet.value.read, b.effectSet.value.read))
    && (a.effectSet.Some? ==> Reordered(a.effectSet.value.write, b.effectSet.value.write))
    && multiset(TrimAll(a.fileOperations)) == multiset(TrimAll(b.fileOperations))
  }

  lemma ReorderedFiles(p: seq<string>, q: seq<string>, descriptor: seq<string>)
    requires multiset(TrimAll(p)) == multiset(TrimAll(q))
    ensures FilesMatch(p, descriptor) == FilesMatch(q, descriptor)
  {
    LooseNames(p, q);
    SameBag(TrimAll(p), TrimAll(q));
  }

  lemma ReorderedSets(a: EffectSet, b: EffectSet, reading: set<string>, writing: set<string>)
    requires Reordered(a.read, b.read) && Reordered(a.write, b.write)
    ensures NormalizedWithin(a, reading, writing) == NormalizedWithin(b, reading, writing)
  {
    assert Published(a.read, reading) == Published(b.read, reading) by { ReorderedPublished(a.read, b.read, reading); }
    assert Published(a.write, writing) ==
               Published(b.write, writing) by { ReorderedPublished(a.write, b.write, writing); }
  }

  /** Reordering what was authored, on the action's side, never changes the outcome. */
  lemma ReorderedSameOwner(a: Definition, b: Definition, system: Option<SystemOperation>, handler: Option<H.Descriptor>)
    requires SameAuthored(a, b)
    ensures Resolve(a, system, handler) == Resolve(b, system, handler)
  {
    assert Normalized(a.effectSet) == Normalized(b.effectSet) by {
      if a.effectSet.Some? {
        ReorderedSets(a.effectSet.value, b.effectSet.value, READ_OPERATIONS, WRITE_OPERATIONS);
      }
    }
    if handler.Some? {
      ReorderedFiles(a.fileOperations, b.fileOperations, handler.value.files);
    }
  }

  ghost function Outcome(r: Result<Resolution, Error>): Result<EffectSet, Error> {
    if r.Ok? then Ok(r.value.effectSet) else Err(r.error)
  }

  lemma SameCapabilities(a: Definition, system: Option<SystemOperation>, d: H.Descriptor, e: H.Descriptor)
    requires d.objects == e.objects && d.files == e.files
    ensures Outcome(Resolve(a, system, Some(d))) == Outcome(Resolve(a, system, Some(e)))
  {
    assert HandlerEffects(d) == HandlerEffects(e);
  }

  /** Reordering on the handler's side does not either, once the registry has normalised it. */
  lemma ReorderedHandlerSameOutcome(a: Definition, system: Option<SystemOperation>, d: H.Descriptor, e: H.Descriptor,
                                    n: H.Descriptor, m: H.Descriptor)
    requires n == H.Normal(d) && m == H.Normal(e)
    requires H.Grants(d.objects) == H.Grants(e.objects) && Elements(TrimAll(d.files)) == Elements(TrimAll(e.files))
    ensures H.Validation(n).None? && H.Validation(m).None? ==>
              Outcome(Resolve(a, system, Some(n))) == Outcome(Resolve(a, system, Some(m)))
  {
    if H.Validation(n).None? && H.Validation(m).None? {
      assert n.objects == m.objects && n.files == m.files by { H.NormalFormsAgree(d, e); }
      SameCapabilities(a, system, n, m);
    }
  }
}
