/** The project extension registry: registration at startup, freezing, look-up, and the descriptor list
    that identifies a release. */
module Registry {
  import opened Basics
  import opened Ordering
  import H = Handlers
  import Text

  datatype Kind = BusinessHandler | AssigneeResolver | WorkspaceBootstrap

  datatype Handler = Handler(id: nat, descriptor: H.Descriptor)

  /** The other two kinds keep the identity they are registered under; `valid` is what their validators say. */
  datatype Contract = Contract(key: string, revision: string, valid: bool)
  datatype Extension = Extension(id: nat, contract: Contract)

  datatype HandlerBinding = HandlerBinding(descriptor: H.Descriptor, handler: Handler)
  datatype ExtensionBinding = ExtensionBinding(contract: Contract, extension: Extension)

  /** An absent entry is a nil in the generated composition. */
  datatype Extensions = Extensions(handlers: seq<Option<Handler>>, resolvers: seq<Option<Extension>>,
                                   bootstrap: Option<Extension>)

  datatype Error =
    | Required(kind: Kind) | HandlerInvalid(reason: H.Error) | ContractInvalid(kind: Kind) | Duplicate(kind: Kind,
        key: string) | Frozen

  datatype State = State(frozen: bool, handlers: map<string, HandlerBinding>, resolvers: map<string, ExtensionBinding>,
                         bootstrap: Option<ExtensionBinding>)

  const EMPTY := State(false, map[], map[], None)

  // ---------------------------------------------------------------- preparing a set, outside the lock

  datatype Registration<B> = Registration(key: string, binding: B)

  ghost function PreparedHandler(h: Option<Handler>): Result<Registration<HandlerBinding>, Error> {
    if h.None? then Err(Required(BusinessHandler))
    else
      var d := H.Normal(h.value.descriptor);
      match H.Validation(d)
      case Some(reason) => Err(HandlerInvalid(reason))
      case None => Ok(Registration(Text.Trim(d.actionKey), HandlerBinding(d, h.value)))
  }

  function NormalContract(c: Contract): Contract { c.(key := Text.Trim(c.key), revision := Text.Trim(c.revision)) }

  function PreparedResolver(r: Option<Extension>): Result<Registration<ExtensionBinding>, Error> {
    if r.None? then Err(Required(AssigneeResolver))
    else
      var c := NormalContract(r.value.contract);
      if !c.valid then Err(ContractInvalid(AssigneeResolver))
      else Ok(Registration(Text.Trim(c.key), ExtensionBinding(c, r.value)))
  }

  ghost function PreparedHandlers(hs: seq<Option<Handler>>): (r: seq<Result<Registration<HandlerBinding>, Error>>)
    ensures |r| == |hs| && forall i :: 0 <= i < |hs| ==> r[i] == PreparedHandler(hs[i])
  {
    seq(|hs|, i requires 0 <= i < |hs| => PreparedHandler(hs[i]))
  }

  function PreparedResolvers(rs: seq<Option<Extension>>): (r: seq<Result<Registration<ExtensionBinding>, Error>>)
    ensures |r| == |rs| && forall i :: 0 <= i < |rs| ==> r[i] == PreparedResolver(rs[i])
  {
    seq(|rs|, i requires 0 <= i < |rs| => PreparedResolver(rs[i]))
  }

  function Keys<B>(rs: seq<Registration<B>>): set<string> { set i | 0 <= i < |rs| :: rs[i].key }

  lemma KeysNext<B>(rs: seq<Registration<B>>, r: Registration<B>)
    ensures Keys(rs + [r]) == Keys(rs) + {r.key} == Keys([r] + rs)
  {
    var after, before := rs + [r], [r] + rs;
    assert after[|rs|] == r && forall i :: 0 <= i < |rs| ==> after[i] == rs[i];
    forall k ensures k in Keys(before) <==> k in Keys(rs) + {r.key} {
      if k in Keys(rs) {
        var i :| 0 <= i < |rs| && rs[i].key == k;
        assert before[i + 1].key == k;
      }
      if k == r.key {
        assert before[0].key == k;
      }
    }
  }

  /** Walks the prepared entries in order; the first failure, or the first repeated key, ends it. */
  function Collect<B>(items: seq<Result<Registration<B>, Error>>, kind: Kind, done: seq<Registration<B>>)
      : Result<seq<Registration<B>>, Error> {
    if items == [] then Ok(done)
    else
      match items[0]
      case Err(e) => Err(e)
      case Ok(r) => if r.key in Keys(done) then Err(Duplicate(kind, r.key)) else Collect(items[1..], kind, done + [r])
  }

  lemma CollectNext<B>(items: seq<Result<Registration<B>, Error>>, i: nat, kind: Kind, done: seq<Registration<B>>)
    requires i < |items|
    ensures Collect(items[i..], kind, done) ==
            if items[i].Err? then Err(items[i].error)
            else if items[i].value.key in Keys(done) then Err(Duplicate(kind, items[i].value.key))
            else Collect(items[i + 1..], kind, done + [items[i].value])
  {
    assert items[i..][1..] == items[i + 1..];
  }

  method PrepareHandler(h: Option<Handler>) returns (r: Result<Registration<HandlerBinding>, Error>)
    ensures r == PreparedHandler(h)
  {
    if h.None? {
      return Err(Required(BusinessHandler));
    }
    var descriptor := H.NormalizeHandlerDescriptor(h.value.descriptor);
    var invalid := H.Validate(descriptor);
    if invalid.Some? {
      return Err(HandlerInvalid(invalid.value));
    }
    r := Ok(Registration(Text.Trim(descriptor.actionKey), HandlerBinding(descriptor, h.value)));
  }

  method PrepareResolver(h: Option<Extension>) returns (r: Result<Registration<ExtensionBinding>, Error>)
    ensures r == PreparedResolver(h)
  {
    if h.None? {
      return Err(Required(AssigneeResolver));
    }
    var contract := NormalContract(h.value.contract);
    if !contract.valid {
      return Err(ContractInvalid(AssigneeResolver));
    }
    r := Ok(Registration(Text.Trim(contract.key), ExtensionBinding(contract, h.value)));
  }

  method PrepareHandlers(hs: seq<Option<Handler>>) returns (r: Result<seq<Registration<HandlerBinding>>, Error>)
    ensures r == Collect(PreparedHandlers(hs), BusinessHandler, [])
  {
    ghost var items := PreparedHandlers(hs);
    var registrations: seq<Registration<HandlerBinding>> := [];
    var seen: set<string> := {};
    assert items[0..] == items;
    for i := 0 to |hs|
      invariant seen == Keys(registrations)
      invariant Collect(items[i..], BusinessHandler, registrations) == Collect(items, BusinessHandler, [])
    {
      CollectNext(items, i, BusinessHandler, registrations);
      var prepared := PrepareHandler(hs[i]);
      if prepared.Err? {
        return Err(prepared.error);
      }
      if prepared.value.key in seen {
        return Err(Duplicate(BusinessHandler, prepared.value.key));
      }
      KeysNext(registrations, prepared.value);
      seen := seen + {prepared.value.key};
      registrations := registrations + [prepared.value];
    }
    r := Ok(registrations);
  }

  method PrepareResolvers(hs: seq<Option<Extension>>) returns (r: Result<seq<Registration<ExtensionBinding>>, Error>)
    ensures r == Collect(PreparedResolvers(hs), AssigneeResolver, [])
  {
    ghost var items := PreparedResolvers(hs);
    var registrations: seq<Registration<ExtensionBinding>> := [];
    var seen: set<string> := {};
    assert items[0..] == items;
    for i := 0 to |hs|
      invariant seen == Keys(registrations)
      invariant Collect(items[i..], AssigneeResolver, registrations) == Collect(items, AssigneeResolver, [])
    {
      CollectNext(items, i, AssigneeResolver, registrations);
      var prepared := PrepareResolver(hs[i]);
      if prepared.Err? {
        return Err(prepared.error);
      }
      if prepared.value.key in seen {
        return Err(Duplicate(AssigneeResolver, prepared.value.key));
      }
      KeysNext(registrations, prepared.value);
      seen := seen + {prepared.value.key};
      registrations := registrations + [prepared.value];
    }
    r := Ok(registrations);
  }

  // ---------------------------------------------------------------- registering, under the lock

  function FirstBound<B>(rs: seq<Registration<B>>, m: map<string, B>, kind: Kind): Option<Error> {
    if rs == [] then None else if rs[0].key in m then Some(Duplicate(kind, rs[0].key)) else FirstBound(rs[1..], m, kind)
  }

  function BindAll<B>(rs: seq<Registration<B>>, m: map<string, B>): map<string, B> {
    if rs == [] then m else BindAll(rs[1..], m[rs[0].key := rs[0].binding])
  }

  function BootstrapBinding(e: Extension): ExtensionBinding { ExtensionBinding(NormalContract(e.contract), e) }

  function WithBootstrap(slot: Option<ExtensionBinding>, e: Option<Extension>): Option<ExtensionBinding> {
    if e.Some? then Some(BootstrapBinding(e.value)) else slot
  }

  function Bind(s: State, hs: seq<Registration<HandlerBinding>>, rs: seq<Registration<ExtensionBinding>>,
                bootstrap: Option<Extension>)
    : (State, Option<Error>)
  {
    if s.frozen then (s, Some(Frozen))
    else if bootstrap.Some? && s.bootstrap.Some? then (s, Some(Duplicate(WorkspaceBootstrap, "")))
    else if FirstBound(hs, s.handlers, BusinessHandler).Some? then (s, FirstBound(hs, s.handlers, BusinessHandler))
    else if FirstBound(rs, s.resolvers, AssigneeResolver).Some? then (s, FirstBound(rs, s.resolvers, AssigneeResolver))
    else (State(false, BindAll(hs, s.handlers), BindAll(rs, s.resolvers), WithBootstrap(s.bootstrap, bootstrap)), None)
  }

  ghost function Register(s: State, x: Extensions): (State, Option<Error>) {
    if x.bootstrap.Some? && !x.bootstrap.value.contract.valid then (s, Some(ContractInvalid(WorkspaceBootstrap)))
    else
      match Collect(PreparedHandlers(x.handlers), BusinessHandler, [])
      case Err(e) => (s, Some(e))
      case Ok(hs) =>
        match Collect(PreparedResolvers(x.resolvers), AssigneeResolver, [])
        case Err(e) => (s, Some(e))
        case Ok(rs) => Bind(s, hs, rs, x.bootstrap)
  }

  ghost function RegisterOne(s: State, h: Option<Handler>): (State, Option<Error>) {
    match PreparedHandler(h)
    case Err(e) => (s, Some(e))
    case Ok(r) =>
      if s.frozen then (s, Some(Frozen))
      else if r.key in s.handlers then (s, Some(Duplicate(BusinessHandler, r.key)))
      else (s.(handlers := s.handlers[r.key := r.binding]), None)
  }

  /** Registering one handler is registering the set that holds it alone. */
  lemma OneHandlerIsASet(s: State, h: Option<Handler>)
    ensures RegisterOne(s, h) == Register(s, Extensions([h], [], None))
  {
    assert PreparedHandlers([h]) == [PreparedHandler(h)] && PreparedResolvers([]) == [];
    CollectOne(PreparedHandler(h), BusinessHandler);
    match PreparedHandler(h)
    case Err(_) =>
    case Ok(r) => BindOne(s, r);
  }

  lemma CollectOne<B>(item: Result<Registration<B>, Error>, kind: Kind)
    ensures Collect([item], kind, []) == if item.Err? then Err(item.error) else Ok([item.value])
  {
    var none: seq<Registration<B>> := [];
    assert [item][1..] == [] && Keys(none) == {};
    if item.Ok? {
      assert none + [item.value] == [item.value];
    }
  }

  lemma BindOne(s: State, r: Registration<HandlerBinding>)
    ensures Bind(s, [r], [], None) ==
            if s.frozen then (s, Some(Frozen))
            else if r.key in s.handlers then (s, Some(Duplicate(BusinessHandler, r.key)))
            else (s.(handlers := s.handlers[r.key := r.binding]), None)
  {
    assert [r][1..] == [];
    var none: seq<Registration<ExtensionBinding>> := [];
    assert FirstBound(none, s.resolvers, AssigneeResolver).None? && BindAll(none, s.resolvers) == s.resolvers;
    assert FirstBound([r][1..], s.handlers, BusinessHandler).None?;
    var bound := s.handlers[r.key := r.binding];
    assert BindAll([r][1..], bound) == bound;
  }

  // ---------------------------------------------------------------- exactly when a set is accepted

  ghost predicate AllReady<B>(items: seq<Result<Registration<B>, Error>>) {
    && (forall i :: 0 <= i < |items| ==> items[i].Ok?)
    && (forall i, j :: 0 <= i < j < |items| ==> items[i].value.key != items[j].value.key)
  }

  ghost predicate NoneIn<B>(items: seq<Result<Registration<B>, Error>>, keys: set<string>) {
    forall i :: 0 <= i < |items| ==> items[i].Ok? && items[i].value.key !in keys
  }

  function Values<B>(items: seq<Result<Registration<B>, Error>>): (r: seq<Registration<B>>)
    requires forall i :: 0 <= i < |items| ==> items[i].Ok?
    ensures |r| == |items| && forall i :: 0 <= i < |items| ==> r[i] == items[i].value
  {
    seq(|items|, i requires 0 <= i < |items| => items[i].value)
  }

  /** A list of entries goes through exactly when each entry does and no key repeats. */
  lemma {:induction false} CollectExactly<B>(items: seq<Result<Registration<B>, Error>>, kind: Kind,
                                             done: seq<Registration<B>>)
    ensures Collect(items, kind, done).Ok? <==> AllReady(items) && NoneIn(items, Keys(done))
  {
    if items != [] && items[0].Ok? && items[0].value.key !in Keys(done) {
      var r := items[0].value;
      CollectExactly(items[1..], kind, done + [r]);
      KeysNext(done, r);
      ReadyStep(items, Keys(done));
    }
  }

  lemma {:induction false} CollectValues<B>(items: seq<Result<Registration<B>, Error>>, kind: Kind,
                                            done: seq<Registration<B>>)
    requires Collect(items, kind, done).Ok? && forall i :: 0 <= i < |items| ==> items[i].Ok?
    ensures Collect(items, kind, done).value == done + Values(items)
  {
    if items != [] {
      var r, rest := items[0].value, items[1..];
      CollectValues(rest, kind, done + [r]);
      assert done + [r] + Values(rest) == done + Values(items);
    }
  }

  lemma ReadyStep<B>(items: seq<Result<Registration<B>, Error>>, keys: set<string>)
    requires items != [] && items[0].Ok? && items[0].value.key !in keys
    ensures AllReady(items) && NoneIn(items, keys) <==>
                AllReady(items[1..]) && NoneIn(items[1..], keys + {items[0].value.key})
  {
    var rest := items[1..];
    assert forall i :: 0 <= i < |rest| ==> rest[i] == items[i + 1];
    if AllReady(items) && NoneIn(items, keys) {
      forall i | 0 <= i < |rest| ensures rest[i].value.key != items[0].value.key {
        assert rest[i] == items[i + 1];
      }
    }
    if AllReady(rest) && NoneIn(rest, keys + {items[0].value.key}) {
      forall i | 0 <= i < |items| ensures items[i].Ok? && items[i].value.key !in keys {
        if i > 0 {
          assert rest[i - 1] == items[i];
        }
      }
      forall i, j | 0 <= i < j < |items| ensures items[i].value.key != items[j].value.key {
        assert rest[j - 1] == items[j];
        if i > 0 {
          assert rest[i - 1] == items[i];
        }
      }
    }
  }

  /** Everything a set asks for, before the registry is looked at: no entry missing or invalid, no key twice. */
  ghost predicate Ready(x: Extensions) {
    && (x.bootstrap.Some? ==> x.bootstrap.value.contract.valid)
    && AllReady(PreparedHandlers(x.handlers)) && AllReady(PreparedResolvers(x.resolvers))
  }

  ghost function HandlersOf(x: Extensions): map<string, HandlerBinding>
    requires Ready(x)
  {
    BindAll(Values(PreparedHandlers(x.handlers)), map[])
  }

  ghost function ResolversOf(x: Extensions): map<string, ExtensionBinding>
    requires Ready(x)
  {
    BindAll(Values(PreparedResolvers(x.resolvers)), map[])
  }

  ghost predicate Accepts(s: State, x: Extensions) {
    && !s.frozen && Ready(x) && !(x.bootstrap.Some? && s.bootstrap.Some?)
    && HandlersOf(x).Keys !! s.handlers.Keys && ResolversOf(x).Keys !! s.resolvers.Keys
  }

  ghost function Extended(s: State, x: Extensions): State
    requires Ready(x)
  {
    State(false, s.handlers + HandlersOf(x), s.resolvers + ResolversOf(x), WithBootstrap(s.bootstrap, x.bootstrap))
  }

  lemma {:induction false} BindAllAdds<B>(rs: seq<Registration<B>>, m: map<string, B>)
    ensures BindAll(rs, m) == m + BindAll(rs, map[])
    ensures BindAll(rs, map[]).Keys == Keys(rs)
  {
    if rs != [] {
      var k, b, rest := rs[0].key, rs[0].binding, rs[1..];
      BindAllAdds(rest, m[k := b]);
      BindAllAdds(rest, map[k := b]);
      assert m[k := b] + BindAll(rest, map[]) == m + (map[k := b] + BindAll(rest, map[]));
      assert rs == [rs[0]] + rest;
      KeysNext(rest, rs[0]);
    }
  }

  lemma {:induction false} FirstBoundExactly<B>(rs: seq<Registration<B>>, m: map<string, B>, kind: Kind)
    ensures FirstBound(rs, m, kind).None? <==> Keys(rs) !! m.Keys
  {
    if rs != [] {
      FirstBoundExactly(rs[1..], m, kind);
      assert rs == [rs[0]] + rs[1..];
      KeysNext(rs[1..], rs[0]);
    }
  }

  lemma BindExactly(s: State, hs: seq<Registration<HandlerBinding>>, rs: seq<Registration<ExtensionBinding>>,
                    bootstrap: Option<Extension>)
    ensures var (t, e) := Bind(s, hs, rs, bootstrap);
            if !s.frozen && !(bootstrap.Some? && s.bootstrap.Some?) && BindAll(hs, map[]).Keys !! s.handlers.Keys
               && BindAll(rs, map[]).Keys !! s.resolvers.Keys
            then e.None? && t == State(false, s.handlers + BindAll(hs, map[]), s.resolvers + BindAll(rs, map[]),
                WithBootstrap(s.bootstrap, bootstrap))
            else e.Some? && t == s
  {
    BindAllAdds(hs, s.handlers);
    BindAllAdds(rs, s.resolvers);
    FirstBoundExactly(hs, s.handlers, BusinessHandler);
    FirstBoundExactly(rs, s.resolvers, AssigneeResolver);
  }

  /** Registration is atomic: the whole set is bound, exactly when nothing in it is missing, invalid, repeated
      or already bound and the registry is open; otherwise nothing changes. */
  lemma RegisterExactly(s: State, x: Extensions)
    ensures Register(s, x).1.None? <==> Accepts(s, x)
    ensures Register(s, x).0 == if Accepts(s, x) then Extended(s, x) else s
  {
    var hs, rs := PreparedHandlers(x.handlers), PreparedResolvers(x.resolvers);
    CollectExactly(hs, BusinessHandler, []);
    CollectExactly(rs, AssigneeResolver, []);
    assert AllReady(hs) ==> NoneIn(hs, Keys<HandlerBinding>([]));
    assert AllReady(rs) ==> NoneIn(rs, Keys<ExtensionBinding>([]));
    if AllReady(hs) && AllReady(rs) {
      CollectValues(hs, BusinessHandler, []);
      CollectValues(rs, AssigneeResolver, []);
      assert [] + Values(hs) == Values(hs) && [] + Values(rs) == Values(rs);
      BindExactly(s, Values(hs), Values(rs), x.bootstrap);
    }
  }

  // ---------------------------------------------------------------- what is refused, and how

  /** Handlers are ready exactly when none is nil, each is valid once normalised, and no two have the same key when
      blanks are left aside. */
  lemma HandlersReadyExactly(xs: seq<Option<Handler>>)
    ensures AllReady(PreparedHandlers(xs)) <==>
            && (forall i :: 0 <= i < |xs| ==>
                  xs[i].Some? && H.Validation(H.Normal(xs[i].value.descriptor)).None?)
            && (forall i, j :: 0 <= i < j < |xs| ==>
                  Text.Trim(xs[i].value.descriptor.actionKey) != Text.Trim(xs[j].value.descriptor.actionKey))
  {
    var hs := PreparedHandlers(xs);
    forall i | 0 <= i < |xs|
      ensures hs[i].Ok? <==> xs[i].Some? && H.Validation(H.Normal(xs[i].value.descriptor)).None?
      ensures hs[i].Ok? ==> hs[i].value.key == Text.Trim(xs[i].value.descriptor.actionKey)
    {
      HandlerPreparedExactly(xs[i]);
    }
  }

  /** Resolvers likewise. */
  lemma ResolversReadyExactly(xs: seq<Option<Extension>>)
    ensures AllReady(PreparedResolvers(xs)) <==>
            && (forall i :: 0 <= i < |xs| ==> xs[i].Some? && xs[i].value.contract.valid)
            && (forall i, j :: 0 <= i < j < |xs| ==>
                  Text.Trim(xs[i].value.contract.key) != Text.Trim(xs[j].value.contract.key))
  {
    var rs := PreparedResolvers(xs);
    forall i | 0 <= i < |xs|
      ensures rs[i].Ok? <==> xs[i].Some? && xs[i].value.contract.valid
      ensures rs[i].Ok? ==> rs[i].value.key == Text.Trim(xs[i].value.contract.key)
    {
      ResolverPreparedExactly(xs[i]);
    }
  }

  /** One handler: what it is registered as, or why it is not. */
  lemma HandlerPreparedExactly(h: Option<Handler>)
    ensures PreparedHandler(h) == Err(Required(BusinessHandler)) <==> h.None?
    ensures h.Some? ==>
              var d := H.Normal(h.value.descriptor);
              if H.Validation(d).Some? then PreparedHandler(h) == Err(HandlerInvalid(H.Validation(d).value))
              else PreparedHandler(h) == Ok(Registration(Text.Trim(h.value.descriptor.actionKey),
                                                         HandlerBinding(d, h.value)))
  {
    if h.Some? {
      assert Text.Trimmed(Text.Trim(h.value.descriptor.actionKey));
    }
  }

  /** One resolver: its key and revision are trimmed, nothing else of it changes. */
  lemma ResolverPreparedExactly(r: Option<Extension>)
    ensures PreparedResolver(r) == Err(Required(AssigneeResolver)) <==> r.None?
    ensures r.Some? ==>
              var c := r.value.contract;
              if !c.valid then PreparedResolver(r) == Err(ContractInvalid(AssigneeResolver))
              else PreparedResolver(r) ==
                   Ok(Registration(Text.Trim(c.key),
                                   ExtensionBinding(Contract(Text.Trim(c.key), Text.Trim(c.revision), true), r.value)))
  {
    if r.Some? {
      assert Text.Trimmed(Text.Trim(r.value.contract.key));
    }
  }

  /** The i-th entry is the first that fails, or the first whose key an earlier one has. */
  ghost predicate FirstBad<B>(items: seq<Result<Registration<B>, Error>>, kind: Kind, i: nat, e: Error) {
    && i < |items| && AllReady(items[..i])
    && if items[i].Err? then e == items[i].error
       else
         && e == Duplicate(kind, items[i].value.key)
         && exists k :: 0 <= k < i && items[k].Ok? && items[k].value.key == items[i].value.key
  }

  lemma KeyAmong<B>(items: seq<Result<Registration<B>, Error>>, n: nat, key: string)
    requires n <= |items| && forall k :: 0 <= k < n ==> items[k].Ok?
    ensures key in Keys(Values(items[..n])) <==> exists k :: 0 <= k < n && items[k].value.key == key
  {
    var values := Values(items[..n]);
    assert forall k :: 0 <= k < n ==> values[k] == items[k].value;
  }

  lemma {:induction false} CollectRefusal<B>(items: seq<Result<Registration<B>, Error>>, kind: Kind, n: nat)
      returns (i: nat)
    requires n <= |items| && AllReady(items[..n])
    requires Collect(items[n..], kind, Values(items[..n])).Err?
    ensures FirstBad(items, kind, i, Collect(items[n..], kind, Values(items[..n])).error)
    decreases |items| - n
  {
    var done := Values(items[..n]);
    i := n;
    if n < |items| {
      CollectNext(items, n, kind, done);
      assert forall k :: 0 <= k < n ==> items[..n][k] == items[k];
      if items[n].Ok? {
        KeyAmong(items, n, items[n].value.key);
        if items[n].value.key !in Keys(done) {
          assert items[..n + 1] == items[..n] + [items[n]];
          assert AllReady(items[..n + 1]);
          assert Values(items[..n + 1]) == done + [items[n].value];
          i := CollectRefusal(items, kind, n + 1);
        }
      }
    }
  }

  /** The i-th registration is the first whose key is bound already. */
  ghost predicate FirstClash<B>(rs: seq<Registration<B>>, bound: set<string>, kind: Kind, i: nat, e: Error) {
    && i < |rs| && rs[i].key in bound && e == Duplicate(kind, rs[i].key)
    && forall k :: 0 <= k < i ==> rs[k].key !in bound
  }

  lemma {:induction false} FirstBoundRefusal<B>(rs: seq<Registration<B>>, m: map<string, B>, kind: Kind)
      returns (i: nat)
    requires FirstBound(rs, m, kind).Some?
    ensures FirstClash(rs, m.Keys, kind, i, FirstBound(rs, m, kind).value)
  {
    i := 0;
    if rs[0].key !in m {
      var k := FirstBoundRefusal(rs[1..], m, kind);
      assert forall j :: 0 < j < |rs| ==> rs[j] == rs[1..][j - 1];
      i := k + 1;
    }
  }

  /** What a refused set is refused for: an invalid bootstrap, the first handler that is bad in itself or repeats
      one, the same for resolvers, a closed registry, a second bootstrap, the first handler and then the first
      resolver whose key is taken; whichever comes first. */
  ghost predicate RefusedFor(s: State, x: Extensions, e: Error) {
    var hs, rs := PreparedHandlers(x.handlers), PreparedResolvers(x.resolvers);
    if x.bootstrap.Some? && !x.bootstrap.value.contract.valid then e == ContractInvalid(WorkspaceBootstrap)
    else if !AllReady(hs) then exists i: nat :: FirstBad(hs, BusinessHandler, i, e)
    else if !AllReady(rs) then exists i: nat :: FirstBad(rs, AssigneeResolver, i, e)
    else if s.frozen then e == Frozen
    else if x.bootstrap.Some? && s.bootstrap.Some? then e == Duplicate(WorkspaceBootstrap, "")
    else if exists i :: 0 <= i < |hs| && hs[i].value.key in s.handlers then
      exists i: nat :: FirstClash(Values(hs), s.handlers.Keys, BusinessHandler, i, e)
    else exists i: nat :: FirstClash(Values(rs), s.resolvers.Keys, AssigneeResolver, i, e)
  }

  lemma BindRefusal(s: State, hs: seq<Registration<HandlerBinding>>, rs: seq<Registration<ExtensionBinding>>,
                    bootstrap: Option<Extension>)
    requires Bind(s, hs, rs, bootstrap).1.Some?
    ensures var e := Bind(s, hs, rs, bootstrap).1.value;
            if s.frozen then e == Frozen
            else if bootstrap.Some? && s.bootstrap.Some? then e == Duplicate(WorkspaceBootstrap, "")
            else if exists i :: 0 <= i < |hs| && hs[i].key in s.handlers then
              exists i: nat :: FirstClash(hs, s.handlers.Keys, BusinessHandler, i, e)
            else exists i: nat :: FirstClash(rs, s.resolvers.Keys, AssigneeResolver, i, e)
  {
    if !s.frozen && !(bootstrap.Some? && s.bootstrap.Some?) {
      FirstBoundExactly(hs, s.handlers, BusinessHandler);
      assert FirstBound(hs, s.handlers, BusinessHandler).Some? <==>
             exists i :: 0 <= i < |hs| && hs[i].key in s.handlers by {
        if i :| 0 <= i < |hs| && hs[i].key in s.handlers {
          assert hs[i].key in Keys(hs);
        }
      }
      if FirstBound(hs, s.handlers, BusinessHandler).Some? {
        var i := FirstBoundRefusal(hs, s.handlers, BusinessHandler);
      } else {
        var i := FirstBoundRefusal(rs, s.resolvers, AssigneeResolver);
      }
    }
  }

  lemma CollectedValues<B>(items: seq<Result<Registration<B>, Error>>, kind: Kind) returns (i: nat)
    ensures AllReady(items) ==> Collect(items, kind, []) == Ok(Values(items))
    ensures !AllReady(items) ==>
              Collect(items, kind, []).Err? && FirstBad(items, kind, i, Collect(items, kind, []).error)
  {
    i := 0;
    CollectExactly(items, kind, []);
    assert AllReady(items) ==> NoneIn(items, Keys<B>([]));
    if AllReady(items) {
      CollectValues(items, kind, []);
      assert [] + Values(items) == Values(items);
    } else {
      assert items[0..] == items && items[..0] == [];
      assert Values(items[..0]) == [];
      i := CollectRefusal(items, kind, 0);
    }
  }

  lemma RegisterRefusal(s: State, x: Extensions)
    requires Register(s, x).1.Some?
    ensures RefusedFor(s, x, Register(s, x).1.value)
  {
    var hs, rs := PreparedHandlers(x.handlers), PreparedResolvers(x.resolvers);
    if !(x.bootstrap.Some? && !x.bootstrap.value.contract.valid) {
      var i := CollectedValues(hs, BusinessHandler);
      if AllReady(hs) {
        var j := CollectedValues(rs, AssigneeResolver);
        if AllReady(rs) {
          BindRefusal(s, Values(hs), Values(rs), x.bootstrap);
          assert forall k :: 0 <= k < |hs| ==> Values(hs)[k] == hs[k].value;
        }
      }
    }
  }

  // ---------------------------------------------------------------- runs

  datatype Call = RegisterHandler(handler: Option<Handler>) | RegisterSet(extensions: Extensions) | Freeze

  ghost function Step(s: State, c: Call): (State, Option<Error>) {
    match c
    case RegisterHandler(h) => RegisterOne(s, h)
    case RegisterSet(x) => Register(s, x)
    case Freeze => (s.(frozen := true), None)
  }

  ghost function Run(s: State, calls: seq<Call>): State
    decreases |calls|
  {
    if calls == [] then s else Run(Step(s, calls[0]).0, calls[1..])
  }

  /** What every bound entry looks like. */
  ghost predicate HandlerSound(k: string, b: HandlerBinding) {
    && b.descriptor.actionKey == k && b.descriptor == H.Normal(b.handler.descriptor) && H.CanonicalForm(b.descriptor)
  }

  ghost predicate ResolverSound(k: string, b: ExtensionBinding) {
    b.contract.key == k && b.contract == NormalContract(b.extension.contract) && b.contract.valid
  }

  ghost predicate Invariant(s: State) {
    && (forall k :: k in s.handlers ==> HandlerSound(k, s.handlers[k]))
    && (forall k :: k in s.resolvers ==> ResolverSound(k, s.resolvers[k]))
  }

  /** Bindings are only ever added: none is lost or rebound, and a frozen registry does not change at all. */
  ghost predicate Grows(s: State, t: State) {
    && (forall k :: k in s.handlers ==> k in t.handlers && t.handlers[k] == s.handlers[k])
    && (forall k :: k in s.resolvers ==> k in t.resolvers && t.resolvers[k] == s.resolvers[k])
    && (s.bootstrap.Some? ==> t.bootstrap == s.bootstrap)
    && (s.frozen ==> t == s)
  }

  lemma CallStep(s: State, c: Call)
    ensures Step(s, c).1.Some? ==> Step(s, c).0 == s
    ensures Grows(s, Step(s, c).0)
  {
    match c
    case RegisterHandler(h) =>
      OneHandlerIsASet(s, h);
      RegisterExactly(s, Extensions([h], [], None));
    case RegisterSet(x) => RegisterExactly(s, x);
    case Freeze =>
  }

  /** Over every run of registrations and freezes. */
  lemma {:induction false} BindingsOnlyGrow(s: State, calls: seq<Call>)
    ensures Grows(s, Run(s, calls))
    decreases |calls|
  {
    if calls != [] {
      CallStep(s, calls[0]);
      BindingsOnlyGrow(Step(s, calls[0]).0, calls[1..]);
    }
  }

  lemma {:induction false} BoundComesFrom<B>(rs: seq<Registration<B>>, m: map<string, B>, k: string)
    requires k in BindAll(rs, m)
    ensures (exists i :: 0 <= i < |rs| && rs[i] == Registration(k, BindAll(rs, m)[k]))
            || (k in m && BindAll(rs, m)[k] == m[k])
  {
    if rs != [] {
      var next := m[rs[0].key := rs[0].binding];
      BoundComesFrom(rs[1..], next, k);
      if i :| 0 <= i < |rs[1..]| && rs[1..][i] == Registration(k, BindAll(rs, m)[k]) {
        assert rs[i + 1] == rs[1..][i];
      } else if k == rs[0].key {
        assert rs[0] == Registration(k, BindAll(rs, m)[k]);
      }
    }
  }

  lemma PreparedSound(h: Option<Handler>)
    ensures PreparedHandler(h).Ok? ==>
              var r := PreparedHandler(h).value;
              HandlerSound(r.key, r.binding) && Some(r.binding.handler) == h
  {
    if PreparedHandler(h).Ok? {
      H.ValidatedIsCanonical(h.value.descriptor);
    }
  }

  lemma PreparedResolverSound(h: Option<Extension>)
    requires PreparedResolver(h).Ok?
    ensures var r := PreparedResolver(h).value; ResolverSound(r.key, r.binding)
  {
    assert Text.Trimmed(Text.Trim(h.value.contract.key));
  }

  lemma HandlersSound(x: Extensions)
    requires Ready(x)
    ensures forall k :: k in HandlersOf(x) ==> HandlerSound(k, HandlersOf(x)[k])
  {
    var hs := PreparedHandlers(x.handlers);
    forall k | k in HandlersOf(x) ensures HandlerSound(k, HandlersOf(x)[k]) {
      BoundComesFrom(Values(hs), map[], k);
      var i :| 0 <= i < |hs| && Values(hs)[i] == Registration(k, HandlersOf(x)[k]);
      assert hs[i] == PreparedHandler(x.handlers[i]);
      PreparedSound(x.handlers[i]);
    }
  }

  lemma ResolversSound(x: Extensions)
    requires Ready(x)
    ensures forall k :: k in ResolversOf(x) ==> ResolverSound(k, ResolversOf(x)[k])
  {
    var rs := PreparedResolvers(x.resolvers);
    forall k | k in ResolversOf(x) ensures ResolverSound(k, ResolversOf(x)[k]) {
      BoundComesFrom(Values(rs), map[], k);
      var i :| 0 <= i < |rs| && Values(rs)[i] == Registration(k, ResolversOf(x)[k]);
      assert rs[i] == PreparedResolver(x.resolvers[i]);
      PreparedResolverSound(x.resolvers[i]);
    }
  }

  lemma RegisterKeeps(s: State, x: Extensions)
    requires Invariant(s)
    ensures Invariant(Register(s, x).0)
  {
    RegisterExactly(s, x);
    if Accepts(s, x) {
      HandlersSound(x);
      ResolversSound(x);
    }
  }

  /** In every reachable registry each key is the key of the normalised descriptor bound to it. */
  lemma {:induction false} InvariantAlways(s: State, calls: seq<Call>)
    requires Invariant(s)
    ensures Invariant(Run(s, calls))
    decreases |calls|
  {
    if calls != [] {
      var c := calls[0];
      if c.RegisterHandler? {
        OneHandlerIsASet(s, c.handler);
        RegisterKeeps(s, Extensions([c.handler], [], None));
      } else if c.RegisterSet? {
        RegisterKeeps(s, c.extensions);
      }
      InvariantAlways(Step(s, c).0, calls[1..]);
    }
  }

  // ---------------------------------------------------------------- order independence

  /** A startup registers several sets and fails with the first that fails. */
  ghost function Startup(s: Option<State>, sets: seq<Extensions>): Option<State> { Fold(s, sets, Added) }

  ghost function Added(s: Option<State>, x: Extensions): Option<State> {
    if s.None? || Register(s.value, x).1.Some? then None else Some(Register(s.value, x).0)
  }

  lemma AddedExactly(s: State, x: Extensions)
    ensures Added(Some(s), x) == if Accepts(s, x) then Some(Extended(s, x)) else None
  {
    RegisterExactly(s, x);
  }

  lemma AddedCommute(s: Option<State>, x: Extensions, y: Extensions)
    ensures Added(Added(s, x), y) == Added(Added(s, y), x)
  {
    if s.Some? {
      AddedExactly(s.value, x);
      AddedExactly(s.value, y);
      if Accepts(s.value, x) {
        AddedExactly(Extended(s.value, x), y);
      }
      if Accepts(s.value, y) {
        AddedExactly(Extended(s.value, y), x);
      }
      if Ready(x) && Ready(y) {
        ExtendedCommute(s.value, x, y);
      }
    }
  }

  lemma ExtendedCommute(s: State, x: Extensions, y: Extensions)
    requires Ready(x) && Ready(y)
    ensures Accepts(s, x) && Accepts(Extended(s, x), y) <==> Accepts(s, y) && Accepts(Extended(s, y), x)
    ensures Accepts(s, x) && Accepts(Extended(s, x), y) ==> Extended(Extended(s, x), y) == Extended(Extended(s, y), x)
  {
    DisjointCommute(s.handlers, HandlersOf(x), HandlersOf(y));
    DisjointCommute(s.resolvers, ResolversOf(x), ResolversOf(y));
  }

  lemma DisjointCommute<B>(m: map<string, B>, a: map<string, B>, b: map<string, B>)
    ensures a.Keys !! m.Keys && b.Keys !! (m + a).Keys <==> b.Keys !! m.Keys && a.Keys !! (m + b).Keys
    ensures a.Keys !! m.Keys && b.Keys !! (m + a).Keys ==> m + a + b == m + b + a
  {
    assert (m + a).Keys == m.Keys + a.Keys && (m + b).Keys == m.Keys + b.Keys;
  }

  /** The order in which sets are registered decides neither success nor the registry that results. */
  lemma OrderDoesNotMatter(s: Option<State>, xs: seq<Extensions>, ys: seq<Extensions>)
    requires multiset(xs) == multiset(ys)
    ensures Startup(s, xs) == Startup(s, ys)
  {
    assert Commutes(Added) by {
      forall t, x, y ensures Added(Added(t, x), y) == Added(Added(t, y), x) {
        AddedCommute(t, x, y);
      }
    }
    FoldAnyOrder(s, xs, ys, Added);
  }

  // ---------------------------------------------------------------- descriptors

  datatype Payload = HandlerPayload(descriptor: H.Descriptor) | ContractPayload(contract: Contract)
  datatype Envelope = Envelope(kind: Kind, key: string, payload: Payload)

  function KindName(k: Kind): string {
    match k
    case BusinessHandler => "business_handler"
    case AssigneeResolver => "workflow_assignee_resolver"
    case WorkspaceBootstrap => "workspace_bootstrap"
  }

  function SortKey(e: Envelope): string { KindName(e.kind) + ['\0'] + e.key }

  /** The separator keeps kind and key apart whatever the key holds. */
  lemma SortKeyInjective(a: Envelope, b: Envelope)
    requires SortKey(a) == SortKey(b)
    ensures a.kind == b.kind && a.key == b.key
  {
    var ka, kb, s := KindName(a.kind), KindName(b.kind), SortKey(a);
    assert s[0] == ka[0] == kb[0] && s[4] == ka[4] == kb[4];
    assert ka == kb;
    assert a.key == s[|ka| + 1..] == b.key;
  }

  function HandlerEnvelope(b: HandlerBinding): Envelope {
    Envelope(BusinessHandler, b.descriptor.actionKey, HandlerPayload(b.descriptor))
  }
  function ResolverEnvelope(b: ExtensionBinding): Envelope {
    Envelope(AssigneeResolver, b.contract.key, ContractPayload(b.contract))
  }
  function BootstrapEnvelope(b: ExtensionBinding): Envelope {
    Envelope(WorkspaceBootstrap, b.contract.key, ContractPayload(b.contract))
  }

  ghost function Envelopes(s: State): set<Envelope> {
    (set k | k in s.handlers :: HandlerEnvelope(s.handlers[k]))
    + (set k | k in s.resolvers :: ResolverEnvelope(s.resolvers[k]))
    + (if s.bootstrap.Some? then {BootstrapEnvelope(s.bootstrap.value)} else {})
  }

  /** The envelopes of a reachable registry: one for each binding, under its key and with what is bound there. */
  lemma EnvelopesExactly(s: State, e: Envelope)
    requires Invariant(s)
    ensures e in Envelopes(s) <==>
            || (e.kind.BusinessHandler? && e.key in s.handlers
                && e.payload == HandlerPayload(s.handlers[e.key].descriptor))
            || (e.kind.AssigneeResolver? && e.key in s.resolvers
                && e.payload == ContractPayload(s.resolvers[e.key].contract))
            || (e.kind.WorkspaceBootstrap? && s.bootstrap.Some? && e.key == s.bootstrap.value.contract.key
                && e.payload == ContractPayload(s.bootstrap.value.contract))
  {
    KeysAgree(s);
    if e.kind.BusinessHandler? && e.key in s.handlers && e.payload == HandlerPayload(s.handlers[e.key].descriptor) {
      assert e == HandlerEnvelope(s.handlers[e.key]);
    }
    if e.kind.AssigneeResolver? && e.key in s.resolvers && e.payload == ContractPayload(s.resolvers[e.key].contract) {
      assert e == ResolverEnvelope(s.resolvers[e.key]);
    }
  }

  /** The release identity list of a registry: one envelope for each thing registered, in strict order. */
  ghost predicate IsDescriptorList(s: State, list: seq<Envelope>) {
    StrictlySorted(list, SortKey) && Elements(list) == Envelopes(s)
  }

  /** Whatever order a startup registered its sets in, and whatever order the maps were walked in, the
      descriptor list is the same. */
  lemma DescriptorsOrderIndependent(xs: seq<Extensions>, ys: seq<Extensions>, list: seq<Envelope>)
    requires multiset(xs) == multiset(ys) && Startup(Some(EMPTY), xs).Some?
    requires IsDescriptorList(Startup(Some(EMPTY), xs).value, list)
    ensures Startup(Some(EMPTY), ys).Some?
    ensures forall other :: IsDescriptorList(Startup(Some(EMPTY), ys).value, other) ==> other == list
  {
    OrderDoesNotMatter(Some(EMPTY), xs, ys);
    forall other | IsDescriptorList(Startup(Some(EMPTY), ys).value, other) ensures other == list {
      StrictlySortedUnique(list, other, SortKey);
    }
  }

  /** Walking a map: each key once, in an order nobody may rely on. */
  method Iterate<B>(m: map<string, B>) returns (keys: seq<string>)
    ensures DistinctKeys(keys, Self) && forall k :: k in keys <==> k in m
  {
    keys := [];
    var left := m.Keys;
    while left != {}
      invariant DistinctKeys(keys, Self) && left <= m.Keys
      invariant forall k :: k in keys <==> k in m && k !in left
      decreases left
    {
      var k :| k in left;
      assert forall i :: 0 <= i < |keys| ==> keys[i] in keys;
      keys := keys + [k];
      left := left - {k};
    }
  }

  ghost predicate ListsKind(list: seq<Envelope>, kind: Kind, all: set<Envelope>) {
    DistinctKeys(list, SortKey) && (forall e :: e in list ==> e.kind == kind) && Elements(list) == all
  }

  method ListEnvelopes<B>(m: map<string, B>, kind: Kind, envelope: B -> Envelope) returns (list: seq<Envelope>)
    requires forall k :: k in m ==> envelope(m[k]).kind == kind && envelope(m[k]).key == k
    ensures ListsKind(list, kind, set k | k in m :: envelope(m[k]))
  {
    var keys := Iterate(m);
    list := [];
    for i := 0 to |keys|
      invariant |list| == i && forall j :: 0 <= j < i ==> keys[j] in m && list[j] == envelope(m[keys[j]])
    {
      assert keys[i] in keys;
      list := list + [envelope(m[keys[i]])];
    }
    forall i, j | 0 <= i < j < |list| ensures SortKey(list[i]) != SortKey(list[j]) {
      assert Self(keys[i]) != Self(keys[j]);
      if SortKey(list[i]) == SortKey(list[j]) {
        SortKeyInjective(list[i], list[j]);
      }
    }
    forall k | k in m ensures envelope(m[k]) in list {
      assert k in keys;
      var i :| 0 <= i < |keys| && keys[i] == k;
      assert list[i] == envelope(m[k]);
    }
    assert forall e :: e in list ==> exists i :: 0 <= i < |list| && list[i] == e;
  }

  lemma KindsApart(a: seq<Envelope>, b: seq<Envelope>)
    requires DistinctKeys(a, SortKey) && DistinctKeys(b, SortKey)
    requires forall e, f :: e in a && f in b ==> e.kind != f.kind
    ensures DistinctKeys(a + b, SortKey) && Elements(a + b) == Elements(a) + Elements(b)
  {
    forall i, j | 0 <= i < j < |a + b| ensures SortKey((a + b)[i]) != SortKey((a + b)[j]) {
      if i < |a| <= j && SortKey((a + b)[i]) == SortKey((a + b)[j]) {
        assert a[i] in a && b[j - |a|] in b;
        SortKeyInjective(a[i], b[j - |a|]);
      }
    }
  }

  lemma KeysAgree(s: State)
    requires Invariant(s)
    ensures forall k :: k in s.handlers ==> HandlerEnvelope(s.handlers[k]).key == k
    ensures forall k :: k in s.resolvers ==> ResolverEnvelope(s.resolvers[k]).key == k
  {
    forall k | k in s.handlers ensures HandlerEnvelope(s.handlers[k]).key == k {
      assert HandlerSound(k, s.handlers[k]);
    }
    forall k | k in s.resolvers ensures ResolverEnvelope(s.resolvers[k]).key == k {
      assert ResolverSound(k, s.resolvers[k]);
    }
  }

  lemma ListAssembled(s: State, handlers: seq<Envelope>, resolvers: seq<Envelope>, bootstrap: seq<Envelope>)
    requires ListsKind(handlers, BusinessHandler, set k | k in s.handlers :: HandlerEnvelope(s.handlers[k]))
    requires ListsKind(resolvers, AssigneeResolver, set k | k in s.resolvers :: ResolverEnvelope(s.resolvers[k]))
    requires bootstrap == if s.bootstrap.Some? then [BootstrapEnvelope(s.bootstrap.value)] else []
    ensures IsDescriptorList(s, Sort(handlers + resolvers + bootstrap, SortKey))
  {
    var slot := if s.bootstrap.Some? then {BootstrapEnvelope(s.bootstrap.value)} else {};
    assert ListsKind(bootstrap, WorkspaceBootstrap, slot);
    ThreeKinds(handlers, resolvers, bootstrap, Elements(handlers), Elements(resolvers), slot);
    SortStrict(handlers + resolvers + bootstrap, SortKey);
  }

  lemma ThreeKinds(a: seq<Envelope>, b: seq<Envelope>, c: seq<Envelope>, x: set<Envelope>, y: set<Envelope>,
                   z: set<Envelope>)
    requires ListsKind(a, BusinessHandler, x) && ListsKind(b, AssigneeResolver, y)
             && ListsKind(c, WorkspaceBootstrap, z)
    ensures DistinctKeys(a + b + c, SortKey) && Elements(a + b + c) == x + y + z
  {
    assert DistinctKeys(a + b, SortKey) && Elements(a + b) == x + y by { KindsApart(a, b); }
    KindsApart(a + b, c);
  }

  method Assemble(s: State) returns (list: seq<Envelope>)
    requires forall k :: k in s.handlers ==> HandlerEnvelope(s.handlers[k]).key == k
    requires forall k :: k in s.resolvers ==> ResolverEnvelope(s.resolvers[k]).key == k
    ensures IsDescriptorList(s, list)
  {
    var handlers := ListEnvelopes(s.handlers, BusinessHandler, HandlerEnvelope);
    var resolvers := ListEnvelopes(s.resolvers, AssigneeResolver, ResolverEnvelope);
    var bootstrap := if s.bootstrap.Some? then [BootstrapEnvelope(s.bootstrap.value)] else [];
    ListAssembled(s, handlers, resolvers, bootstrap);
    list := Sort(handlers + resolvers + bootstrap, SortKey);
  }

  // ---------------------------------------------------------------- the registry itself

  /** The loop that refuses a set with a key already bound. */
  method CheckUnbound<B>(rs: seq<Registration<B>>, m: map<string, B>, kind: Kind) returns (e: Option<Error>)
    ensures e == FirstBound(rs, m, kind)
  {
    assert rs[0..] == rs;
    for i := 0 to |rs|
      invariant FirstBound(rs, m, kind) == FirstBound(rs[i..], m, kind)
    {
      assert rs[i..][1..] == rs[i + 1..];
      if rs[i].key in m {
        return Some(Duplicate(kind, rs[i].key));
      }
    }
    e := None;
  }

  /** The loop that binds what was prepared. */
  method BindEach<B>(rs: seq<Registration<B>>, m: map<string, B>) returns (bound: map<string, B>)
    ensures bound == BindAll(rs, m)
  {
    bound := m;
    assert rs[0..] == rs;
    for i := 0 to |rs|
      invariant BindAll(rs[i..], bound) == BindAll(rs, m)
    {
      assert rs[i..][1..] == rs[i + 1..];
      bound := bound[rs[i].key := rs[i].binding];
    }
  }

  class ProjectExtensionRegistry {
    var frozen: bool
    var businessHandlerBindings: map<string, HandlerBinding>
    var assigneeResolverBindings: map<string, ExtensionBinding>
    var workspaceBootstrap: Option<ExtensionBinding>

    function Contents(): State
      reads this
    {
      State(frozen, businessHandlerBindings, assigneeResolverBindings, workspaceBootstrap)
    }

    constructor ()
      ensures Contents() == EMPTY && Invariant(Contents())
    {
      frozen, businessHandlerBindings, assigneeResolverBindings, workspaceBootstrap := false, map[], map[], None;
    }

    method RegisterBusinessHandler(h: Option<Handler>) returns (error: Option<Error>)
      modifies this
      ensures (Contents(), error) == RegisterOne(old(Contents()), h)
    {
      var prepared := PrepareHandler(h);
      if prepared.Err? {
        return Some(prepared.error);
      }
      if frozen {
        return Some(Frozen);
      }
      if prepared.value.key in businessHandlerBindings {
        return Some(Duplicate(BusinessHandler, prepared.value.key));
      }
      businessHandlerBindings := businessHandlerBindings[prepared.value.key := prepared.value.binding];
      error := None;
    }

    method RegisterAssigneeResolver(r: Option<Extension>) returns (error: Option<Error>)
      modifies this
      ensures (Contents(), error) == Register(old(Contents()), Extensions([], [r], None))
    {
      error := RegisterProjectExtensions(Extensions([], [r], None));
    }

    method RegisterProjectExtensions(x: Extensions) returns (error: Option<Error>)
      modifies this
      ensures (Contents(), error) == Register(old(Contents()), x)
    {
      if x.bootstrap.Some? && !x.bootstrap.value.contract.valid {
        return Some(ContractInvalid(WorkspaceBootstrap));
      }
      var handlers := PrepareHandlers(x.handlers);
      if handlers.Err? {
        return Some(handlers.error);
      }
      var resolvers := PrepareResolvers(x.resolvers);
      if resolvers.Err? {
        return Some(resolvers.error);
      }
      error := BindPrepared(handlers.value, resolvers.value, x.bootstrap);
    }

    /** The region under the registry's lock. */
    method BindPrepared(hs: seq<Registration<HandlerBinding>>, rs: seq<Registration<ExtensionBinding>>,
                        bootstrap: Option<Extension>)
      returns (error: Option<Error>)
      modifies this
      ensures (Contents(), error) == Bind(old(Contents()), hs, rs, bootstrap)
    {
      if frozen {
        return Some(Frozen);
      }
      if bootstrap.Some? && workspaceBootstrap.Some? {
        return Some(Duplicate(WorkspaceBootstrap, ""));
      }
      error := CheckUnbound(hs, businessHandlerBindings, BusinessHandler);
      if error.Some? {
        return;
      }
      error := CheckUnbound(rs, assigneeResolverBindings, AssigneeResolver);
      if error.Some? {
        return;
      }
      businessHandlerBindings := BindEach(hs, businessHandlerBindings);
      assigneeResolverBindings := BindEach(rs, assigneeResolverBindings);
      if bootstrap.Some? {
        workspaceBootstrap := Some(BootstrapBinding(bootstrap.value));
      }
    }

    method Freeze()
      modifies this
      ensures (Contents(), None) == Step(old(Contents()), Call.Freeze)
    {
      frozen := true;
    }

    /** What was registered under a key is found under every spelling of it, and nothing else is. */
    method FindBusinessHandler(actionKey: string) returns (binding: Option<HandlerBinding>)
      requires Invariant(Contents())
      ensures binding.Some? <==> exists k :: k in businessHandlerBindings && k == Text.Trim(actionKey)
      ensures binding.Some? ==>
                  binding.value.descriptor.actionKey == Text.Trim(actionKey)
                  && H.CanonicalForm(binding.value.descriptor)
      ensures binding.Some? ==> businessHandlerBindings[Text.Trim(actionKey)] == binding.value
    {
      var key := Text.Trim(actionKey);
      binding := if key in businessHandlerBindings then Some(businessHandlerBindings[key]) else None;
      assert binding.Some? ==> HandlerSound(key, businessHandlerBindings[key]);
    }

    method Descriptors() returns (list: seq<Envelope>)
      requires Invariant(Contents())
      ensures IsDescriptorList(Contents(), list)
    {
      KeysAgree(Contents());
      list := Assemble(Contents());
    }
  }

  // ---------------------------------------------------------------- a registration lasts

  /** Every handler of an accepted set stays bound, under its trimmed key, to its normalised descriptor. */
  lemma RegisteredForever(s: State, x: Extensions, i: nat, calls: seq<Call>)
    requires i < |x.handlers|
    ensures Register(s, x).1.None? ==>
              x.handlers[i].Some?
              && var h := x.handlers[i].value;
                 var key := Text.Trim(h.descriptor.actionKey);
                 var t := Run(Register(s, x).0, calls);
                 key in t.handlers && t.handlers[key] == HandlerBinding(H.Normal(h.descriptor), h)
  {
    RegisterExactly(s, x);
    if Register(s, x).1.None? {
      var items := PreparedHandlers(x.handlers);
      assert items[i] == PreparedHandler(x.handlers[i]);
      var r := items[i].value;
      PreparedSound(x.handlers[i]);
      BoundAt(Values(items), i);
      BindingsOnlyGrow(Register(s, x).0, calls);
      assert r.key in Register(s, x).0.handlers;
    }
  }

  /** So does every resolver, under its trimmed key, and the bootstrap, each with its key and revision trimmed. */
  lemma ResolverRegisteredForever(s: State, x: Extensions, i: nat, calls: seq<Call>)
    requires i < |x.resolvers| && Register(s, x).1.None?
    ensures x.resolvers[i].Some?
    ensures var e := x.resolvers[i].value;
            var key, t := Text.Trim(e.contract.key), Run(Register(s, x).0, calls);
            && key in t.resolvers
            && t.resolvers[key] == ExtensionBinding(Contract(key, Text.Trim(e.contract.revision), true), e)
  {
    RegisterExactly(s, x);
    var items := PreparedResolvers(x.resolvers);
    assert items[i] == PreparedResolver(x.resolvers[i]);
    ResolverPreparedExactly(x.resolvers[i]);
    var r := items[i].value;
    BoundAt(Values(items), i);
    BindingsOnlyGrow(Register(s, x).0, calls);
    assert r.key in Register(s, x).0.resolvers;
  }

  lemma BootstrapRegisteredForever(s: State, x: Extensions, calls: seq<Call>)
    requires x.bootstrap.Some? && Register(s, x).1.None?
    ensures var e, t := x.bootstrap.value, Run(Register(s, x).0, calls);
            var c := Contract(Text.Trim(e.contract.key), Text.Trim(e.contract.revision), true);
            t.bootstrap == Some(ExtensionBinding(c, e))
  {
    RegisterExactly(s, x);
    BindingsOnlyGrow(Register(s, x).0, calls);
  }

  lemma BoundAt<B>(rs: seq<Registration<B>>, i: nat)
    requires i < |rs| && forall a, b :: 0 <= a < b < |rs| ==> rs[a].key != rs[b].key
    ensures rs[i].key in BindAll(rs, map[]) && BindAll(rs, map[])[rs[i].key] == rs[i].binding
  {
    BindAllAdds(rs, map[]);
    assert rs[i].key in Keys(rs);
    BoundComesFrom(rs, map[], rs[i].key);
  }
}
