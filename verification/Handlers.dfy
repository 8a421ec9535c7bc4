/** Lists of names as authored: blanks around a name do not count, nor does the order. */
module Names {
  import opened Ordering
  import Text

  function TrimAll(xs: seq<string>): (r: seq<string>)
    ensures |r| == |xs| && forall i :: 0 <= i < |xs| ==> r[i] == Text.Trim(xs[i])
  {
    seq(|xs|, i requires 0 <= i < |xs| => Text.Trim(xs[i]))
  }

  /** The keys of a list, blanks aside. */
  function TrimmedKeys<T>(xs: seq<T>, key: T -> string): (r: seq<string>)
    ensures |r| == |xs| && forall i :: 0 <= i < |xs| ==> r[i] == Text.Trim(key(xs[i]))
  {
    seq(|xs|, i requires 0 <= i < |xs| => Text.Trim(key(xs[i])))
  }

  ghost predicate Distinct(xs: seq<string>) {
    forall i, j :: 0 <= i < j < |xs| ==> xs[i] != xs[j]
  }

  ghost predicate AllTrimmed(xs: seq<string>) {
    forall i :: 0 <= i < |xs| ==> Text.Trimmed(xs[i])
  }

  /** The canonical list of a bag of names. */
  function Canonical(xs: seq<string>): (r: seq<string>)
    ensures |r| == |xs| && Elements(r) == Elements(TrimAll(xs))
  {
    var r := Sort(TrimAll(xs), Self);
    assert |r| == |xs| && Elements(r) == Elements(TrimAll(xs)) by { SameBag(r, TrimAll(xs)); }
    r
  }

  /** A list repeats nothing exactly when it is as long as its set of elements. */
  lemma {:induction false} DistinctBySize(xs: seq<string>)
    ensures |Elements(xs)| <= |xs|
    ensures Distinct(xs) <==> |Elements(xs)| == |xs|
  {
    if xs == [] {
      assert Elements(xs) == {};
    } else {
      var last := |xs| - 1;
      var rest := xs[..last];
      DistinctBySize(rest);
      NextName(xs, last);
      assert xs[..last + 1] == xs;
    }
  }

  /** One more name: what the loops over names learn. */
  lemma NextName(xs: seq<string>, i: nat)
    requires i < |xs|
    ensures Elements(xs[..i + 1]) == Elements(xs[..i]) + {xs[i]}
    ensures Distinct(xs[..i + 1]) <==> Distinct(xs[..i]) && xs[i] !in Elements(xs[..i])
    ensures Distinct(xs) ==> Distinct(xs[..i + 1])
  {
    assert xs[..i + 1] == xs[..i] + [xs[i]];
    if xs[i] in Elements(xs[..i]) {
      var k :| 0 <= k < i && xs[..i][k] == xs[i];
      assert xs[..i + 1][k] == xs[..i + 1][i];
    }
  }

  lemma CanonicalStrict(xs: seq<string>)
    requires Distinct(TrimAll(xs))
    ensures StrictlySorted(Canonical(xs), Self)
  {
    SortStrict(TrimAll(xs), Self);
  }

  /** Two lists that hold the same names, each once, have one canonical list. */
  lemma CanonicalUnique(xs: seq<string>, ys: seq<string>)
    requires Distinct(TrimAll(xs)) && Distinct(TrimAll(ys)) && Elements(TrimAll(xs)) == Elements(TrimAll(ys))
    ensures Canonical(xs) == Canonical(ys)
  {
    CanonicalStrict(xs);
    CanonicalStrict(ys);
    StrictlySortedUnique(Canonical(xs), Canonical(ys), Self);
  }

  lemma StrictlySortedDistinct(xs: seq<string>)
    requires StrictlySorted(xs, Self)
    ensures Distinct(xs)
  {
    forall i, j | 0 <= i < j < |xs| ensures xs[i] != xs[j] {
      LessTrichotomy(xs[i], xs[j]);
    }
  }

  /** What is already canonical stays as it is. */
  lemma CanonicalFixed(xs: seq<string>)
    requires StrictlySorted(xs, Self) && AllTrimmed(xs)
    ensures TrimAll(xs) == xs && Distinct(xs) && Canonical(xs) == xs
  {
    assert TrimAll(xs) == xs;
    StrictlySortedDistinct(xs);
    CanonicalStrict(xs);
    StrictlySortedUnique(Canonical(xs), xs, Self);
  }

  lemma SameSizeSubset(a: set<string>, b: set<string>)
    requires a <= b && |a| == |b|
    ensures a == b
  {
    assert |b - a| == 0;
  }
}

/** The descriptor of a business handler: how it is normalised, and what makes it valid. */
module Handlers {
  import opened Basics
  import opened Ordering
  import opened Names
  import Text

  datatype ObjectCapability = ObjectCapability(objectKey: string, operations: seq<string>)

  /** `typesNamed` and `othersValid` stand for the type-name patterns and for the checks of the remaining
      capability kinds, which neither the registry nor owner resolution looks into. */
  datatype Descriptor = Descriptor(actionKey: string, inputType: string, outputType: string, revision: string,
                                   objects: seq<ObjectCapability>, files: seq<string>, typesNamed: bool,
                                       othersValid: bool)

  datatype Error = KeyRequired | ContractRequired | ContractInvalid | RevisionRequired | CapabilityInvalid

  function CapabilityKey(c: ObjectCapability): string { c.objectKey }

  // ---------------------------------------------------------------- normalisation

  function NormalCapability(c: ObjectCapability): ObjectCapability {
    ObjectCapability(Text.Trim(c.objectKey), Canonical(c.operations))
  }

  function NormalCapabilities(cs: seq<ObjectCapability>): (r: seq<ObjectCapability>)
    ensures |r| == |cs| && forall i :: 0 <= i < |cs| ==> r[i] == NormalCapability(cs[i])
  {
    seq(|cs|, i requires 0 <= i < |cs| => NormalCapability(cs[i]))
  }

  function Normal(d: Descriptor): Descriptor {
    d.(actionKey := Text.Trim(d.actionKey), inputType := Text.Trim(d.inputType), outputType := Text.Trim(d.outputType),
       revision := Text.Trim(d.revision), objects := Sort(NormalCapabilities(d.objects), CapabilityKey),
           files := Canonical(d.files))
  }

  /** Trims every name of a list in place, then sorts it. */
  method NormalizeNames(names: seq<string>) returns (r: seq<string>)
    ensures r == Canonical(names)
  {
    r := names;
    for i := 0 to |r|
      invariant |r| == |names| && (forall k :: 0 <= k < i ==> r[k] == Text.Trim(names[k])) && r[i..] == names[i..]
    {
      assert r[i] == r[i..][0] == names[i];
      r := r[i := Text.Trim(r[i])];
      assert r[i + 1..] == names[i..][1..];
    }
    assert r == TrimAll(names);
    r := Sort(r, Self);
  }

  method NormalizeCapabilities(cs: seq<ObjectCapability>) returns (r: seq<ObjectCapability>)
    ensures r == Sort(NormalCapabilities(cs), CapabilityKey)
  {
    r := cs;
    for i := 0 to |cs|
      invariant |r| == |cs| && (forall k :: i <= k < |cs| ==> r[k] == cs[k])
      invariant forall k :: 0 <= k < i ==> r[k] == NormalCapability(cs[k])
    {
      var operations := NormalizeNames(r[i].operations);
      r := r[i := ObjectCapability(Text.Trim(r[i].objectKey), operations)];
    }
    assert r == NormalCapabilities(cs);
    r := Sort(r, CapabilityKey);
  }

  /** `normalizeHandlerDescriptor`. */
  method NormalizeHandlerDescriptor(d: Descriptor) returns (result: Descriptor)
    ensures result == Normal(d)
  {
    var objects := NormalizeCapabilities(d.objects);
    var files := NormalizeNames(d.files);
    result := d.(actionKey := Text.Trim(d.actionKey), inputType := Text.Trim(d.inputType),
        outputType := Text.Trim(d.outputType),
                 revision := Text.Trim(d.revision), objects := objects, files := files);
  }

  // ---------------------------------------------------------------- validity

  const ALLOWED_OPERATIONS: set<string> := {
    "get", "get_for_update", "optional", "list", "exists", "count", "create", "update", "conditional_update", "delete",
        "restore",
    "conditional_update_many", "notification_recipient" }

  const FILE_OPERATIONS: set<string> := {"verify_clean", "open_verified", "issue_download", "create_derived",
      "run_business_job"}

  ghost predicate DistinctWithin(names: seq<string>, vocabulary: set<string>) {
    Distinct(TrimAll(names)) && Elements(TrimAll(names)) <= vocabulary
  }

  ghost predicate CapabilityValid(c: ObjectCapability, allowed: set<string>) {
    Text.Trim(c.objectKey) != "" && c.operations != [] && DistinctWithin(c.operations, allowed)
  }

  ghost predicate EachValid(cs: seq<ObjectCapability>, allowed: set<string>) {
    forall i :: 0 <= i < |cs| ==> CapabilityValid(cs[i], allowed)
  }

  ghost predicate ObjectsValid(cs: seq<ObjectCapability>, allowed: set<string>) {
    EachValid(cs, allowed) && Distinct(TrimmedKeys(cs, CapabilityKey))
  }

  lemma NextCapability(cs: seq<ObjectCapability>, i: nat, allowed: set<string>)
    requires i < |cs|
    ensures EachValid(cs[..i + 1], allowed) <==> EachValid(cs[..i], allowed) && CapabilityValid(cs[i], allowed)
    ensures EachValid(cs, allowed) ==> EachValid(cs[..i + 1], allowed)
  {
    var longer := cs[..i + 1];
    assert longer == cs[..i] + [cs[i]];
    if EachValid(longer, allowed) {
      assert CapabilityValid(longer[i], allowed);
      forall k | 0 <= k < i ensures CapabilityValid(cs[..i][k], allowed) {
        assert CapabilityValid(longer[k], allowed);
      }
    }
    if EachValid(cs, allowed) {
      forall k | 0 <= k < i + 1 ensures CapabilityValid(longer[k], allowed) {
        assert CapabilityValid(cs[k], allowed);
      }
    }
  }

  method ValidateCapability(c: ObjectCapability, allowed: set<string>) returns (valid: bool)
    ensures valid <==> CapabilityValid(c, allowed)
  {
    if Text.Trim(c.objectKey) == "" || |c.operations| == 0 {
      return false;
    }
    valid := ValidateNames(c.operations, allowed);
  }

  ghost function Validation(d: Descriptor): Option<Error> {
    if Text.Trim(d.actionKey) == "" then Some(KeyRequired)
    else if Text.Trim(d.inputType) == "" || Text.Trim(d.outputType) == "" then Some(ContractRequired)
    else if !d.typesNamed then Some(ContractInvalid)
    else if Text.Trim(d.revision) == "" then Some(RevisionRequired)
    else if !ObjectsValid(d.objects, ALLOWED_OPERATIONS) then Some(CapabilityInvalid)
    else if !DistinctWithin(d.files, FILE_OPERATIONS) || !d.othersValid then Some(CapabilityInvalid)
    else None
  }

  /** Rejects a name outside the vocabulary, and a name met before. */
  method ValidateNames(names: seq<string>, vocabulary: set<string>) returns (valid: bool)
    ensures valid <==> DistinctWithin(names, vocabulary)
  {
    var seen: set<string> := {};
    ghost var trimmed := TrimAll(names);
    for i := 0 to |names|
      invariant seen == Elements(trimmed[..i]) && seen <= vocabulary && Distinct(trimmed[..i])
    {
      var name := Text.Trim(names[i]);
      NextName(trimmed, i);
      assert name in Elements(trimmed);
      if name !in vocabulary || name in seen {
        return false;
      }
      seen := seen + {name};
    }
    assert trimmed[..|names|] == trimmed;
    valid := true;
  }

  method ValidateObjects(cs: seq<ObjectCapability>, allowed: set<string>) returns (valid: bool)
    ensures valid <==> ObjectsValid(cs, allowed)
  {
    var objects: set<string> := {};
    ghost var keys := TrimmedKeys(cs, CapabilityKey);
    for i := 0 to |cs|
      invariant objects == Elements(keys[..i]) && Distinct(keys[..i]) && EachValid(cs[..i], allowed)
    {
      var key := Text.Trim(cs[i].objectKey);
      assert keys[i] == key;
      NextName(keys, i);
      NextCapability(cs, i, allowed);
      if key in objects {
        return false;
      }
      objects := objects + {key};
      var capability := ValidateCapability(cs[i], allowed);
      if !capability {
        return false;
      }
    }
    assert keys[..|cs|] == keys && cs[..|cs|] == cs;
    valid := true;
  }

  /** `HandlerDescriptor.Validate`. */
  method Validate(d: Descriptor) returns (error: Option<Error>)
    ensures error == Validation(d)
  {
    if Text.Trim(d.actionKey) == "" {
      return Some(KeyRequired);
    }
    if Text.Trim(d.inputType) == "" || Text.Trim(d.outputType) == "" {
      return Some(ContractRequired);
    }
    if !d.typesNamed {
      return Some(ContractInvalid);
    }
    if Text.Trim(d.revision) == "" {
      return Some(RevisionRequired);
    }
    var objects := ValidateObjects(d.objects, ALLOWED_OPERATIONS);
    if !objects {
      return Some(CapabilityInvalid);
    }
    var files := ValidateNames(d.files, FILE_OPERATIONS);
    if !files || !d.othersValid {
      return Some(CapabilityInvalid);
    }
    error := None;
  }

  /** Names, each once when blanks are left aside, all from the vocabulary. */
  ghost predicate NamesSound(names: seq<string>, vocabulary: set<string>) {
    && (forall i :: 0 <= i < |names| ==> Text.Trim(names[i]) in vocabulary)
    && forall i, j :: 0 <= i < j < |names| ==> Text.Trim(names[i]) != Text.Trim(names[j])
  }

  lemma NamesSoundExactly(names: seq<string>, vocabulary: set<string>)
    ensures DistinctWithin(names, vocabulary) <==> NamesSound(names, vocabulary)
  {
    var trimmed := TrimAll(names);
    assert forall i :: 0 <= i < |names| ==> trimmed[i] in Elements(trimmed);
    if NamesSound(names, vocabulary) {
      forall name | name in Elements(trimmed) ensures name in vocabulary {
        var i :| 0 <= i < |names| && trimmed[i] == name;
      }
      assert Distinct(trimmed);
    }
    if DistinctWithin(names, vocabulary) {
      forall i, j | 0 <= i < j < |names| ensures Text.Trim(names[i]) != Text.Trim(names[j]) {
        assert trimmed[i] != trimmed[j];
      }
    }
  }

  /** Capabilities, each for an object of its own, with operations from the vocabulary and none twice. */
  ghost predicate ObjectsSound(cs: seq<ObjectCapability>, vocabulary: set<string>) {
    && (forall i :: 0 <= i < |cs| ==>
          Text.Trim(cs[i].objectKey) != "" && cs[i].operations != [] && NamesSound(cs[i].operations, vocabulary))
    && forall i, j :: 0 <= i < j < |cs| ==> Text.Trim(cs[i].objectKey) != Text.Trim(cs[j].objectKey)
  }

  lemma ObjectsSoundExactly(cs: seq<ObjectCapability>, vocabulary: set<string>)
    ensures ObjectsValid(cs, vocabulary) <==> ObjectsSound(cs, vocabulary)
  {
    var keys := TrimmedKeys(cs, CapabilityKey);
    forall i | 0 <= i < |cs| ensures DistinctWithin(cs[i].operations, vocabulary) <==>
                                     NamesSound(cs[i].operations, vocabulary) {
      NamesSoundExactly(cs[i].operations, vocabulary);
    }
    assert forall i :: 0 <= i < |cs| ==> keys[i] == Text.Trim(cs[i].objectKey);
    if ObjectsValid(cs, vocabulary) {
      forall i | 0 <= i < |cs| ensures CapabilityValid(cs[i], vocabulary) {}
      forall i, j | 0 <= i < j < |cs| ensures Text.Trim(cs[i].objectKey) != Text.Trim(cs[j].objectKey) {
        assert keys[i] != keys[j];
      }
    }
  }

  /** A descriptor is valid exactly when it is named, typed and versioned and its capabilities are sound, and the
      error otherwise is that of the first of these that fails. */
  lemma ValidationExactly(d: Descriptor)
    ensures var keyed := Text.Trim(d.actionKey) != "";
            var typed := Text.Trim(d.inputType) != "" && Text.Trim(d.outputType) != "";
            var versioned := Text.Trim(d.revision) != "";
            var sound := && ObjectsSound(d.objects, ALLOWED_OPERATIONS) && NamesSound(d.files, FILE_OPERATIONS)
                         && d.othersValid;
            && (Validation(d).None? <==> keyed && typed && d.typesNamed && versioned && sound)
            && (Validation(d) == Some(KeyRequired) <==> !keyed)
            && (Validation(d) == Some(ContractRequired) <==> keyed && !typed)
            && (Validation(d) == Some(ContractInvalid) <==> keyed && typed && !d.typesNamed)
            && (Validation(d) == Some(RevisionRequired) <==> keyed && typed && d.typesNamed && !versioned)
  {
    ObjectsSoundExactly(d.objects, ALLOWED_OPERATIONS);
    NamesSoundExactly(d.files, FILE_OPERATIONS);
  }

  // ---------------------------------------------------------------- the canonical form

  ghost predicate CanonicalNames(names: seq<string>, vocabulary: set<string>) {
    AllTrimmed(names) && StrictlySorted(names, Self) && Elements(names) <= vocabulary
  }

  ghost predicate CanonicalCapability(c: ObjectCapability, allowed: set<string>) {
    Text.Trimmed(c.objectKey) && c.objectKey != "" && c.operations != [] && CanonicalNames(c.operations, allowed)
  }

  ghost predicate CanonicalObjects(cs: seq<ObjectCapability>, allowed: set<string>) {
    StrictlySorted(cs, CapabilityKey) && forall i :: 0 <= i < |cs| ==> CanonicalCapability(cs[i], allowed)
  }

  /** The form every bound descriptor has. */
  ghost predicate CanonicalForm(d: Descriptor) {
    Text.Trimmed(d.actionKey) && d.actionKey != "" && CanonicalObjects(d.objects, ALLOWED_OPERATIONS)
    && CanonicalNames(d.files, FILE_OPERATIONS)
  }

  lemma CanonicalNamesTrimmed(names: seq<string>)
    ensures AllTrimmed(Canonical(names))
  {
    var r := Canonical(names);
    forall i | 0 <= i < |r| ensures Text.Trimmed(r[i]) {
      assert r[i] in Elements(r);
    }
  }

  /** Normalisation keeps what was granted, and validity with it. */
  lemma NormalNamesValid(names: seq<string>, vocabulary: set<string>)
    ensures DistinctWithin(Canonical(names), vocabulary) <==> DistinctWithin(names, vocabulary)
    ensures DistinctWithin(names, vocabulary) ==> CanonicalNames(Canonical(names), vocabulary)
  {
    var r := Canonical(names);
    CanonicalNamesTrimmed(names);
    assert TrimAll(r) == r;
    DistinctBySize(TrimAll(names));
    DistinctBySize(r);
    if DistinctWithin(names, vocabulary) {
      CanonicalStrict(names);
    }
  }

  lemma NormalCapabilityValid(c: ObjectCapability, allowed: set<string>)
    ensures CapabilityValid(NormalCapability(c), allowed) <==> CapabilityValid(c, allowed)
    ensures CapabilityValid(c, allowed) ==> CanonicalCapability(NormalCapability(c), allowed)
  {
    NormalNamesValid(c.operations, allowed);
    assert Text.Trimmed(Text.Trim(c.objectKey));
  }

  lemma NormalEachCanonical(cs: seq<ObjectCapability>, r: seq<ObjectCapability>, i: nat, allowed: set<string>)
    requires multiset(r) == multiset(NormalCapabilities(cs)) && i < |r| && CapabilityValid(r[i], allowed)
    ensures CanonicalCapability(r[i], allowed)
  {
    var ns := NormalCapabilities(cs);
    SameBag(r, ns);
    assert r[i] in Elements(r);
    assert r[i] in ns;
    var k :| 0 <= k < |ns| && ns[k] == r[i];
    NormalCapabilityValid(cs[k], allowed);
  }

  lemma SortedDistinctStrict(r: seq<ObjectCapability>)
    requires Sorted(r, CapabilityKey) && Distinct(TrimmedKeys(r, CapabilityKey))
    requires forall i :: 0 <= i < |r| ==> Text.Trimmed(r[i].objectKey)
    ensures StrictlySorted(r, CapabilityKey)
  {
    var keys := TrimmedKeys(r, CapabilityKey);
    forall i, j | 0 <= i < j < |r| ensures Less(CapabilityKey(r[i]), CapabilityKey(r[j])) {
      assert keys[i] == r[i].objectKey && keys[j] == r[j].objectKey;
      LessTrichotomy(CapabilityKey(r[i]), CapabilityKey(r[j]));
    }
  }

  lemma NormalObjectsCanonical(cs: seq<ObjectCapability>, allowed: set<string>)
    ensures ObjectsValid(Sort(NormalCapabilities(cs), CapabilityKey), allowed) ==>
              CanonicalObjects(Sort(NormalCapabilities(cs), CapabilityKey), allowed)
  {
    var r := Sort(NormalCapabilities(cs), CapabilityKey);
    if ObjectsValid(r, allowed) {
      forall i | 0 <= i < |r| ensures CanonicalCapability(r[i], allowed) {
        assert CapabilityValid(r[i], allowed);
        NormalEachCanonical(cs, r, i, allowed);
      }
      SortedDistinctStrict(r);
    }
  }

  lemma ValidationNeeds(d: Descriptor)
    requires Validation(d).None?
    ensures Text.Trim(d.actionKey) != "" && ObjectsValid(d.objects, ALLOWED_OPERATIONS)
            && DistinctWithin(d.files, FILE_OPERATIONS)
  {
  }

  lemma CanonicalActionKey(key: string)
    requires Text.Trim(Text.Trim(key)) != ""
    ensures Text.Trimmed(Text.Trim(key)) && Text.Trim(key) != ""
  {
  }

  /** Every descriptor that passes validation after normalisation is in canonical form. */
  lemma ValidatedIsCanonical(d: Descriptor)
    ensures Validation(Normal(d)).None? ==> CanonicalForm(Normal(d))
  {
    if Validation(Normal(d)).None? {
      ValidationNeeds(Normal(d));
      NormalObjectsCanonical(d.objects, ALLOWED_OPERATIONS);
      NormalNamesValid(d.files, FILE_OPERATIONS);
      CanonicalActionKey(d.actionKey);
    }
  }

  ghost function Grant(c: ObjectCapability): (string, set<string>) {
    (Text.Trim(c.objectKey), Elements(TrimAll(c.operations)))
  }

  /** What a capability list grants, order and blanks aside. */
  ghost function Grants(cs: seq<ObjectCapability>): set<(string, set<string>)> {
    set c | c in cs :: Grant(c)
  }

  /** Two capability lists in canonical form that grant the same are the same list. */
  lemma CanonicalObjectsUnique(cs: seq<ObjectCapability>, ds: seq<ObjectCapability>, allowed: set<string>)
    requires CanonicalObjects(cs, allowed) && CanonicalObjects(ds, allowed) && Grants(cs) == Grants(ds)
    ensures cs == ds
  {
    GrantsIncluded(cs, ds, allowed);
    GrantsIncluded(ds, cs, allowed);
    StrictlySortedUnique(cs, ds, CapabilityKey);
  }

  lemma GrantsIncluded(cs: seq<ObjectCapability>, ds: seq<ObjectCapability>, allowed: set<string>)
    requires CanonicalObjects(cs, allowed) && CanonicalObjects(ds, allowed) && Grants(cs) <= Grants(ds)
    ensures Elements(cs) <= Elements(ds)
  {
    forall c | c in cs ensures c in ds {
      assert Grant(c) in Grants(ds);
      var d :| d in ds && Grant(d) == Grant(c);
      assert CanonicalCapability(c, allowed) && CanonicalCapability(d, allowed);
      assert TrimAll(c.operations) == c.operations && TrimAll(d.operations) == d.operations;
      StrictlySortedUnique(c.operations, d.operations, Self);
      assert c == d;
    }
  }

  lemma NormalGrant(c: ObjectCapability)
    ensures Grant(NormalCapability(c)) == Grant(c)
  {
    CanonicalNamesTrimmed(c.operations);
    assert TrimAll(Canonical(c.operations)) == Canonical(c.operations);
    assert Text.Trimmed(Text.Trim(c.objectKey));
  }

  lemma NormalGrants(cs: seq<ObjectCapability>)
    ensures Grants(Sort(NormalCapabilities(cs), CapabilityKey)) == Grants(cs)
  {
    var ns := NormalCapabilities(cs);
    var r := Sort(ns, CapabilityKey);
    SameBag(r, ns);
    forall g ensures g in Grants(r) <==> g in Grants(cs) {
      if g in Grants(r) {
        var c :| c in r && g == Grant(c);
        assert c in Elements(r);
        var k :| 0 <= k < |ns| && ns[k] == c;
        NormalGrant(cs[k]);
        assert cs[k] in cs;
      }
      if g in Grants(cs) {
        var c :| c in cs && g == Grant(c);
        var k :| 0 <= k < |cs| && cs[k] == c;
        NormalGrant(c);
        assert ns[k] in Elements(ns);
        assert ns[k] in r;
      }
    }
  }

  /** Normalisation trims the names, sorts the lists and changes nothing else: the same is granted. */
  lemma NormalKeeps(d: Descriptor)
    ensures Normal(d).actionKey == Text.Trim(d.actionKey) && Normal(d).revision == Text.Trim(d.revision)
    ensures Normal(d).inputType == Text.Trim(d.inputType) && Normal(d).outputType == Text.Trim(d.outputType)
    ensures Normal(d).typesNamed == d.typesNamed && Normal(d).othersValid == d.othersValid
    ensures Grants(Normal(d).objects) == Grants(d.objects) && |Normal(d).objects| == |d.objects|
    ensures Elements(Normal(d).files) == Elements(TrimAll(d.files)) && |Normal(d).files| == |d.files|
    ensures Sorted(Normal(d).objects, CapabilityKey) && Sorted(Normal(d).files, Self)
  {
    NormalGrants(d.objects);
    SameBag(Normal(d).objects, NormalCapabilities(d.objects));
  }

  /** Normalising accepted descriptors forgets order and blanks, and nothing else: same grants, same form. */
  lemma NormalFormsAgree(d: Descriptor, e: Descriptor)
    ensures Validation(Normal(d)).None? && Validation(Normal(e)).None? ==>
              (Normal(d).objects == Normal(e).objects <==> Grants(d.objects) == Grants(e.objects))
              && (Normal(d).files == Normal(e).files <==> Elements(TrimAll(d.files)) == Elements(TrimAll(e.files)))
  {
    NormalGrants(d.objects);
    NormalGrants(e.objects);
    ValidatedIsCanonical(d);
    ValidatedIsCanonical(e);
    if Validation(Normal(d)).None? && Validation(Normal(e)).None? {
      CanonicalFormsAgree(Normal(d), Normal(e));
    }
  }

  lemma CanonicalFormsAgree(d: Descriptor, e: Descriptor)
    requires CanonicalForm(d) && CanonicalForm(e)
    ensures Grants(d.objects) == Grants(e.objects) ==> d.objects == e.objects
    ensures Elements(d.files) == Elements(e.files) ==> d.files == e.files
  {
    if Grants(d.objects) == Grants(e.objects) {
      CanonicalObjectsUnique(d.objects, e.objects, ALLOWED_OPERATIONS);
    }
    if Elements(d.files) == Elements(e.files) {
      StrictlySortedUnique(d.files, e.files, Self);
    }
  }
}
