/** Query filters: the validity test at the edge, and the compilation of filter trees into the record
    store's expressions. */
module RecordFilters {
  import opened Basics
  import opened Records
  import Text

  /** A node as authored. `value` is `Null` when the handler set none. */
  datatype Filter = Filter(field: string, operator: string, value: Value, values: seq<Value>, children: seq<Filter>)

  datatype Operator =
    | AndOp | OrOp | NotOp | Eq | Ne | Gt | Gte | Lt | Lte | Contains | In | NotIn | IsNull | IsNotNull
    | Unsupported(name: string)
  {
    predicate Junction() { AndOp? || OrOp? }
    predicate Connective() { Junction() || NotOp? }
    predicate Comparison() { Eq? || Ne? || Gt? || Gte? || Lt? || Lte? }
    predicate Membership() { In? || NotIn? }
    predicate NullTest() { IsNull? || IsNotNull? }
  }

  datatype Expression = Expression(operator: Operator, field: string, value: Value, values: seq<Value>,
                                   children: seq<Expression>)

  datatype Error = FilterInvalid(field: string, operator: Operator) | OperatorUnsupported(name: string)

  // ---------------------------------------------------------------- validity

  predicate RuntimeOwned(field: string) {
    var f := Text.Lower(Text.Trim(field));
    f == "workspace_id" || f == "owner_org_id" || f == "owner_user_id"
  }

  /** The three fields, whatever the case and the space around them. */
  lemma OwnedExactly(field: string)
    ensures RuntimeOwned(field) <==>
            Text.Lower(Text.Trim(field)) in {"workspace_id", "owner_org_id", "owner_user_id"}
  {
  }

  /** Some node of the forest names a field Runtime owns. */
  predicate MentionsOwned(filters: seq<Filter>) {
    filters != [] && (RuntimeOwned(filters[0].field) || MentionsOwned(filters[0].children)
        || MentionsOwned(filters[1..]))
  }

  /** `recordQueryContainsRuntimeOwnedFilter`. */
  method ContainsRuntimeOwned(filters: seq<Filter>) returns (owned: bool)
    ensures owned == MentionsOwned(filters)
    decreases filters
  {
    assert filters[0..] == filters;
    for i := 0 to |filters|
      invariant MentionsOwned(filters) == MentionsOwned(filters[i..])
    {
      assert filters[i..][1..] == filters[i + 1..];
      if RuntimeOwned(filters[i].field) {
        return true;
      }
      var inside := ContainsRuntimeOwned(filters[i].children);
      if inside {
        return true;
      }
    }
    owned := false;
  }

  datatype Operation = GetOne | GetForUpdate | ListAll | Exists | Count | OtherOperation

  /** `storeOrganization` tells, when a catalog reference is given, whether it resolves. */
  datatype Query = Query(operation: Operation, objectKey: string, recordId: string, filters: seq<Filter>, sorts: nat,
                         projection: nat,
                         limit: int, afterId: string, storeOrganization: Option<bool>)

  predicate Plain(q: Query) {
    q.storeOrganization.None? && q.sorts == 0 && q.projection == 0 && q.limit == 0 && Text.Trim(q.afterId) == ""
  }

  /** `RecordQuery.Valid`. */
  predicate QueryValid(q: Query) {
    && Text.Trim(q.objectKey) != "" && q.limit >= 0
    && match q.operation
       case GetOne => Plain(q) && Text.Trim(q.recordId) != "" && q.filters == []
       case GetForUpdate => Plain(q) && Text.Trim(q.recordId) != "" && q.filters == []
       case ListAll => Text.Trim(q.recordId) == "" && !MentionsOwned(q.filters)
       && (q.storeOrganization.Some? ==> q.storeOrganization.value)
       case Exists => Plain(q) && Text.Trim(q.recordId) == "" && !MentionsOwned(q.filters)
       case Count => Plain(q) && Text.Trim(q.recordId) == "" && !MentionsOwned(q.filters)
       case OtherOperation => false
  }

  /** A valid query is for one record by its id and nothing else, or for the records that meet its filters, none of
      which names a field Runtime owns; only a list may sort, project, page or go to a store's organization. */
  lemma QueryValidExactly(q: Query)
    ensures var one := q.operation.GetOne? || q.operation.GetForUpdate?;
            var many := q.operation.ListAll? || q.operation.Exists? || q.operation.Count?;
            QueryValid(q) <==>
            && Text.Trim(q.objectKey) != "" && q.limit >= 0 && (one || many)
            && (one <==> Text.Trim(q.recordId) != "") && (one ==> q.filters == []) && !MentionsOwned(q.filters)
            && (q.storeOrganization.Some? ==> q.operation.ListAll? && q.storeOrganization.value)
            && (!q.operation.ListAll? ==>
                  q.sorts == 0 && q.projection == 0 && q.limit == 0 && Text.Trim(q.afterId) == "")
  {
  }

  // ---------------------------------------------------------------- compilation

  /** The word a node names its operator with. */
  function WordOf(f: Filter): string { Text.Lower(Text.Trim(f.operator)) }

  /** What the compiler's switch makes of a word; no word means equality. */
  function Named(word: string): Operator {
    if word == "" || word == "eq" then Eq
    else if word == "ne" then Ne
    else if word == "gt" then Gt
    else if word == "gte" then Gte
    else if word == "lt" then Lt
    else if word == "lte" then Lte
    else if word == "contains" then Contains
    else if word == "in" then In
    else if word == "not_in" then NotIn
    else if word == "is_null" then IsNull
    else if word == "is_not_null" then IsNotNull
    else if word == "and" then AndOp
    else if word == "or" then OrOp
    else if word == "not" then NotOp
    else Unsupported(word)
  }

  function OperatorOf(f: Filter): Operator { Named(WordOf(f)) }

  /** The expression a node makes of itself, its children aside. */
  function NodeExpression(operator: Operator, field: string, f: Filter): Result<Expression, Error> {
    var bare := Expression(operator, "", Null, [], []);
    var invalid := Err(FilterInvalid(field, operator));
    if operator.Junction() then
      if field != "" || !f.value.Null? || f.values != [] || |f.children| < 2 then invalid else Ok(bare)
    else if operator.NotOp? then
      if field != "" || !f.value.Null? || f.values != [] || |f.children| != 1 then invalid else Ok(bare)
    else if operator.Comparison() then
      if field == "" || f.value.Null? || f.values != [] || f.children != [] then invalid
      else Ok(bare.(field := field, value := f.value))
    else if operator.Contains? then
      if !f.value.Text? || field == "" || f.values != [] || f.children != [] then invalid
      else Ok(bare.(field := field, value := f.value))
    else if operator.Membership() then
      if field == "" || !f.value.Null? || f.values == [] || f.children != [] then invalid
      else Ok(bare.(field := field, values := f.values))
    else if operator.NullTest() then
      if field == "" || !f.value.Null? || f.values != [] || f.children != [] then invalid
      else Ok(bare.(field := field))
    else Err(OperatorUnsupported(operator.name))
  }

  function CompileNode(f: Filter): Result<Expression, Error>
    decreases f, 1
  {
    match NodeExpression(OperatorOf(f), Text.Trim(f.field), f)
    case Err(e) => Err(e)
    case Ok(node) =>
      match CompileNodes(f.children)
      case Err(e) => Err(e)
      case Ok(children) => Ok(node.(children := children))
  }

  function CompileNodes(filters: seq<Filter>): Result<seq<Expression>, Error>
    decreases filters, 0
  {
    if filters == [] then Ok([])
    else Joined(CompileNode(filters[0]), CompileNodes(filters[1..]))
  }

  /** The first failure in order wins. */
  function Joined(first: Result<Expression, Error>, rest: Result<seq<Expression>, Error>)
      : Result<seq<Expression>, Error> {
    match first
    case Err(e) => Err(e)
    case Ok(x) => match rest case Err(e) => Err(e) case Ok(xs) => Ok([x] + xs)
  }

  function Prepended(done: seq<Expression>, rest: Result<seq<Expression>, Error>): Result<seq<Expression>, Error> {
    match rest case Err(e) => Err(e) case Ok(xs) => Ok(done + xs)
  }

  lemma PrependedNext(done: seq<Expression>, filters: seq<Filter>, i: nat)
    requires i < |filters|
    ensures Prepended(done, CompileNodes(filters[i..])) ==
            match CompileNode(filters[i])
            case Err(e) => Err(e)
            case Ok(x) => Prepended(done + [x], CompileNodes(filters[i + 1..]))
  {
    assert filters[i..][1..] == filters[i + 1..];
    match CompileNode(filters[i])
    case Err(e) =>
    case Ok(x) =>
      match CompileNodes(filters[i + 1..])
      case Err(e) =>
      case Ok(xs) => assert done + ([x] + xs) == done + [x] + xs;
  }

  /** `actionRecordFilterNode`. */
  method ActionRecordFilterNode(f: Filter) returns (r: Result<Expression, Error>)
    ensures r == CompileNode(f)
    decreases f, 1
  {
    var node := NodeExpression(OperatorOf(f), Text.Trim(f.field), f);
    if node.Err? {
      return node;
    }
    var children := ConvertEach(f.children);
    match children
    case Err(e) => r := Err(e);
    case Ok(converted) => r := Ok(node.value.(children := converted));
  }

  /** The loop both compilers run over their filters: it stops at the first that fails. */
  method ConvertEach(filters: seq<Filter>) returns (r: Result<seq<Expression>, Error>)
    ensures r == CompileNodes(filters)
    decreases filters, 0
  {
    var children := [];
    assert filters[0..] == filters;
    EmptyPrefix(CompileNodes(filters));
    for i := 0 to |filters|
      invariant Prepended(children, CompileNodes(filters[i..])) == CompileNodes(filters)
    {
      PrependedNext(children, filters, i);
      var child := ActionRecordFilterNode(filters[i]);
      if child.Err? {
        return Err(child.error);
      }
      children := children + [child.value];
    }
    assert children + [] == children;
    r := Ok(children);
  }

  lemma EmptyPrefix(r: Result<seq<Expression>, Error>)
    ensures Prepended([], r) == r
  {
    match r
    case Err(_) =>
    case Ok(xs) => assert [] + xs == xs;
  }

  /** No filters, no expression; one filter stands for itself. */
  function Combined(children: seq<Expression>): Option<Expression> {
    if children == [] then None
    else Some(if |children| == 1 then children[0] else Expression(AndOp, "", Null, [], children))
  }

  function Compile(filters: seq<Filter>): Result<Option<Expression>, Error> {
    match CompileNodes(filters)
    case Err(e) => Err(e)
    case Ok(children) => Ok(Combined(children))
  }

  /** `actionRecordFilterExpression`. */
  method ActionRecordFilterExpression(filters: seq<Filter>) returns (r: Result<Option<Expression>, Error>)
    ensures r == Compile(filters)
  {
    if |filters| == 0 {
      return Ok(None);
    }
    var converted := ConvertEach(filters);
    match converted
    case Err(e) => r := Err(e);
    case Ok(children) =>
      if |children| == 1 {
        return Ok(Some(children[0]));
      }
      CompiledNodesShaped(filters);
      r := Ok(Some(Expression(AndOp, "", Null, [], children)));
  }

  // ---------------------------------------------------------------- well-formedness at every depth

  /** How each operator shapes a node of a compiled tree. */
  predicate Shaped(e: Expression) {
    if e.operator.Connective() then
      && e.field == "" && e.value.Null? && e.values == []
      && if e.operator.Junction() then |e.children| >= 2 else |e.children| == 1
    else
      && !e.operator.Unsupported? && e.children == [] && e.field != "" && Text.Trimmed(e.field)
      && (e.operator.Membership() <==> e.values != [])
      && (e.operator.Membership() || e.operator.NullTest() <==> e.value.Null?)
      && (e.operator.Contains? ==> e.value.Text?)
  }

  predicate WellFormed(es: seq<Expression>) {
    es == [] || (Shaped(es[0]) && WellFormed(es[0].children) && WellFormed(es[1..]))
  }

  predicate NamesOwned(es: seq<Expression>) {
    es != [] && (RuntimeOwned(es[0].field) || NamesOwned(es[0].children) || NamesOwned(es[1..]))
  }

  lemma NothingOwned()
    ensures !RuntimeOwned("")
  {
    assert Text.Trimmed("");
    assert |Text.Lower("")| == 0;
  }

  /** Trimming a name neither hides an owned field nor makes one. */
  lemma OwnedAfterTrim(field: string, name: string)
    requires name == Text.Trim(field) || name == ""
    ensures RuntimeOwned(name) ==> RuntimeOwned(field)
  {
    if name == "" {
      NothingOwned();
    } else {
      assert Text.Trimmed(name);
    }
  }

  /** One node of the output, against the node it comes from. */
  lemma NodeGoverned(operator: Operator, field: string, f: Filter, children: seq<Expression>)
    requires Text.Trimmed(field) && |children| == |f.children| && NodeExpression(operator, field, f).Ok?
    ensures var e := NodeExpression(operator, field, f).value.(children := children);
            Shaped(e) && (e.field == field || e.field == "")
  {
  }

  lemma CompiledNodeGoverned(f: Filter)
    requires CompileNode(f).Ok? && |CompileNodes(f.children).value| == |f.children|
    ensures CompileNode(f).value.children == CompileNodes(f.children).value && Shaped(CompileNode(f).value)
    ensures RuntimeOwned(CompileNode(f).value.field) ==> RuntimeOwned(f.field)
  {
    var o, field, children := OperatorOf(f), Text.Trim(f.field), CompileNodes(f.children).value;
    NodeGoverned(o, field, f, children);
    var e := CompileNode(f).value;
    assert e == NodeExpression(o, field, f).value.(children := children);
    OwnedAfterTrim(f.field, e.field);
  }

  lemma {:induction false} CompiledNodesShaped(filters: seq<Filter>)
    requires CompileNodes(filters).Ok?
    ensures |CompileNodes(filters).value| == |filters| && WellFormed(CompileNodes(filters).value)
  {
    if filters != [] {
      var f := filters[0];
      CompiledNodesShaped(f.children);
      CompiledNodesShaped(filters[1..]);
      CompiledNodeGoverned(f);
      var e, rest := CompileNode(f).value, CompileNodes(filters[1..]).value;
      assert CompileNodes(filters).value == [e] + rest;
      assert ([e] + rest)[1..] == rest;
    }
  }

  lemma {:induction false} CompiledNodesGoverned(filters: seq<Filter>)
    requires CompileNodes(filters).Ok?
    ensures NamesOwned(CompileNodes(filters).value) ==> MentionsOwned(filters)
  {
    if filters != [] {
      var f := filters[0];
      CompiledNodesGoverned(f.children);
      CompiledNodesGoverned(filters[1..]);
      CompiledNodesShaped(f.children);
      CompiledNodeGoverned(f);
      var e, rest := CompileNode(f).value, CompileNodes(filters[1..]).value;
      assert CompileNodes(filters).value == [e] + rest;
      assert ([e] + rest)[1..] == rest;
    }
  }

  // ---------------------------------------------------------------- which queries compile

  predicate Compares(word: string) {
    word == "" || word == "eq" || word == "ne" || word == "gt" || word == "gte" || word == "lt" || word == "lte"
  }

  /** What an authored node must look like, by its word. */
  predicate Demanded(word: string, field: string, f: Filter) {
    if word == "and" || word == "or" then field == "" && f.value.Null? && f.values == [] && |f.children| >= 2
    else if word == "not" then field == "" && f.value.Null? && f.values == [] && |f.children| == 1
    else
      && field != "" && f.children == []
      && if word == "in" || word == "not_in" then f.value.Null? && f.values != []
         else if word == "is_null" || word == "is_not_null" then f.value.Null? && f.values == []
         else if word == "contains" then f.value.Text? && f.values == []
         else Compares(word) && !f.value.Null? && f.values == []
  }

  lemma NamedExactly(word: string)
    ensures Named(word).Junction() <==> word == "and" || word == "or"
    ensures Named(word).NotOp? <==> word == "not"
    ensures Named(word).Membership() <==> word == "in" || word == "not_in"
    ensures Named(word).NullTest() <==> word == "is_null" || word == "is_not_null"
    ensures Named(word).Contains? <==> word == "contains"
    ensures Named(word).Comparison() <==> Compares(word)
    ensures Named(word).Unsupported? ==> Named(word).name == word
  {
    assert "and"[0] == 'a' && "or"[0] == 'o' && "not"[0] == 'n' && "eq"[0] == 'e' && "ne"[0] == 'n' && "gt"[0] == 'g';
    assert "lt"[0] == 'l' && "contains"[0] == 'c' && "in"[0] == 'i' && "not_in"[0] == 'n' && "is_null"[0] == 'i';
  }

  /** The error of the first node, in reading order and parents before children, that is not as demanded. */
  function FirstFault(filters: seq<Filter>): Option<Error> {
    if filters == [] then None
    else
      var f := filters[0];
      if !Demanded(WordOf(f), Text.Trim(f.field), f) then
        Some(if Named(WordOf(f)).Unsupported? then OperatorUnsupported(WordOf(f))
             else FilterInvalid(Text.Trim(f.field), Named(WordOf(f))))
      else if FirstFault(f.children).Some? then FirstFault(f.children)
      else FirstFault(filters[1..])
  }

  lemma NodeCompilesExactly(word: string, field: string, f: Filter)
    ensures NodeExpression(Named(word), field, f).Ok? <==> Demanded(word, field, f)
    ensures NodeExpression(Named(word), field, f).Err? ==>
              NodeExpression(Named(word), field, f).error ==
              if Named(word).Unsupported? then OperatorUnsupported(word) else FilterInvalid(field, Named(word))
  {
    NamedExactly(word);
  }

  lemma {:induction false} NodesCompileExactly(filters: seq<Filter>)
    ensures CompileNodes(filters).Ok? <==> FirstFault(filters).None?
    ensures CompileNodes(filters).Err? ==> FirstFault(filters) == Some(CompileNodes(filters).error)
  {
    if filters != [] {
      var f, rest := filters[0], filters[1..];
      NodesCompileExactly(f.children);
      NodesCompileExactly(rest);
      NodeCompilesExactly(WordOf(f), Text.Trim(f.field), f);
      NodeFault(f);
    }
  }

  lemma NodeFault(f: Filter)
    ensures var node := NodeExpression(OperatorOf(f), Text.Trim(f.field), f);
            CompileNode(f).Ok? <==> node.Ok? && CompileNodes(f.children).Ok?
    ensures var node := NodeExpression(OperatorOf(f), Text.Trim(f.field), f);
            CompileNode(f).Err? ==>
              CompileNode(f).error == if node.Err? then node.error else CompileNodes(f.children).error
  {
  }

  ghost predicate EveryNodeDemanded(filters: seq<Filter>) {
    filters == [] ||
    (Demanded(WordOf(filters[0]), Text.Trim(filters[0].field), filters[0])
        && EveryNodeDemanded(filters[0].children) && EveryNodeDemanded(filters[1..]))
  }

  lemma {:induction false} FaultlessExactly(filters: seq<Filter>)
    ensures FirstFault(filters).None? <==> EveryNodeDemanded(filters)
  {
    if filters != [] {
      FaultlessExactly(filters[0].children);
      FaultlessExactly(filters[1..]);
    }
  }

  /** A filter list compiles exactly when every node at every depth looks as its word demands, and otherwise the
      error is that of the first node that does not. */
  lemma CompilesExactly(filters: seq<Filter>)
    ensures Compile(filters).Ok? <==> EveryNodeDemanded(filters)
    ensures Compile(filters).Err? ==> FirstFault(filters) == Some(Compile(filters).error)
  {
    NodesCompileExactly(filters);
    FaultlessExactly(filters);
  }

  // ---------------------------------------------------------------- which compiled queries the store takes

  const STORE_DEPTH: nat := 16

  /** What the store checks of a node itself. */
  predicate NodeAccepted(e: Expression) {
    && !e.operator.Unsupported? && (e.operator.Junction() ==> |e.children| >= 2)
       && (e.operator.NotOp? ==> |e.children| == 1)
    && (e.operator.Contains? ==> e.value.Text?) && (e.operator.Membership() ==> e.values != [])
  }

  /** `recordFilterPredicate` succeeds on every one of these siblings at this depth. */
  predicate StoreAccepts(es: seq<Expression>, depth: nat) {
    es == [] ||
    (&& depth <= STORE_DEPTH && NodeAccepted(es[0])
     && (es[0].operator.Connective() ==> StoreAccepts(es[0].children, depth + 1)) && StoreAccepts(es[1..], depth))
  }

  /** No authored node lies more than `levels` below these siblings. */
  predicate Within(filters: seq<Filter>, levels: int) {
    filters == [] || (levels >= 0 && Within(filters[0].children, levels - 1) && Within(filters[1..], levels))
  }

  predicate TreeWithin(es: seq<Expression>, levels: int) {
    es == [] || (levels >= 0 && TreeWithin(es[0].children, levels - 1) && TreeWithin(es[1..], levels))
  }

  /** A well formed tree fails the store's checks only by its depth. */
  lemma {:induction false} StoreChecksDepth(es: seq<Expression>, depth: nat)
    requires WellFormed(es)
    ensures StoreAccepts(es, depth) <==> TreeWithin(es, STORE_DEPTH - depth)
  {
    if es != [] {
      StoreChecksDepth(es[0].children, depth + 1);
      StoreChecksDepth(es[1..], depth);
    }
  }

  lemma CompiledSplit(filters: seq<Filter>)
    requires filters != [] && CompileNodes(filters).Ok?
    ensures CompileNode(filters[0]).Ok? && CompileNodes(filters[1..]).Ok?
    ensures var es := CompileNodes(filters).value;
            es != [] && es[0] == CompileNode(filters[0]).value && es[1..] == CompileNodes(filters[1..]).value
  {
    var e, rest := CompileNode(filters[0]).value, CompileNodes(filters[1..]).value;
    assert CompileNodes(filters).value == [e] + rest;
    assert ([e] + rest)[1..] == rest;
  }

  lemma CompiledChildren(f: Filter)
    requires CompileNode(f).Ok?
    ensures CompileNodes(f.children).Ok? && CompileNode(f).value.children == CompileNodes(f.children).value
  {
  }

  /** Compilation keeps the depth of the authored tree. */
  lemma {:induction false} CompiledDepth(filters: seq<Filter>, levels: int)
    requires CompileNodes(filters).Ok?
    ensures TreeWithin(CompileNodes(filters).value, levels) <==> Within(filters, levels)
  {
    if filters != [] {
      CompiledSplit(filters);
      CompiledChildren(filters[0]);
      CompiledDepth(filters[0].children, levels - 1);
      CompiledDepth(filters[1..], levels);
      DepthSplit(CompileNodes(filters).value, levels);
    }
  }

  lemma DepthSplit(es: seq<Expression>, levels: int)
    requires es != []
    ensures TreeWithin(es, levels) <==>
            levels >= 0 && TreeWithin(es[0].children, levels - 1) && TreeWithin(es[1..], levels)
  {
  }

  lemma CombinedAccepted(children: seq<Expression>)
    requires children != []
    ensures StoreAccepts([Combined(children).value], 0) <==> StoreAccepts(children, if |children| == 1 then 0 else 1)
  {
    var e := Combined(children).value;
    if |children| == 1 {
      assert children == [e];
    } else {
      assert [e][1..] == [];
    }
  }

  /** The store takes a compiled query exactly when no authored node lies more than 16 levels down, counting the
      conjunction that several filters are put under as a level of its own. */
  lemma StoreAcceptsExactly(filters: seq<Filter>)
    requires filters != [] && Compile(filters).Ok?
    ensures Compile(filters).value.Some?
    ensures StoreAccepts([Compile(filters).value.value], 0) <==> Within(filters, if |filters| == 1 then 16 else 15)
  {
    CompiledNodesShaped(filters);
    CombinedAccepted(CompileNodes(filters).value);
    StoreChecksDepth(CompileNodes(filters).value, if |filters| == 1 then 0 else 1);
    CompiledDepth(filters, if |filters| == 1 then 16 else 15);
  }

  // ---------------------------------------------------------------- meaning

  datatype Truth = True | False | Unknown

  function Not(t: Truth): Truth { match t case True => False case False => True case Unknown => Unknown }

  function And(a: Truth, b: Truth): Truth {
    if a.False? || b.False? then False else if a.True? && b.True? then True else Unknown
  }

  function Or(a: Truth, b: Truth): Truth { Not(And(Not(a), Not(b))) }

  function AndAll(ts: seq<Truth>): Truth { if ts == [] then True else And(ts[0], AndAll(ts[1..])) }
  function OrAll(ts: seq<Truth>): Truth { if ts == [] then False else Or(ts[0], OrAll(ts[1..])) }

  /** How the database compares two present values; its collation is a parameter. */
  type Comparer = (Operator, Value, Value) -> bool

  /** One test of one stored value: a null operand makes any comparison unknown. */
  function Compared(cmp: Comparer, o: Operator, stored: Value, wanted: Value): Truth {
    if stored.Null? || wanted.Null? then Unknown else if cmp(o, stored, wanted) then True else False
  }

  function AnyEqual(cmp: Comparer, stored: Value, wanted: seq<Value>): Truth {
    if wanted == [] then False else Or(Compared(cmp, Eq, stored, wanted[0]), AnyEqual(cmp, stored, wanted[1..]))
  }

  function Test(cmp: Comparer, row: Data, o: Operator, field: string, value: Value, values: seq<Value>): Truth {
    var stored := Get(row, field);
    match o
    case In => AnyEqual(cmp, stored, values)
    case NotIn => Not(AnyEqual(cmp, stored, values))
    case IsNull => if stored.Null? then True else False
    case IsNotNull => if stored.Null? then False else True
    case _ => Compared(cmp, o, stored, value)
  }

  function Connected(o: Operator, children: seq<Truth>, test: Truth): Truth {
    if o.AndOp? then AndAll(children)
    else if o.OrOp? then OrAll(children)
    else if o.NotOp? && |children| == 1 then Not(children[0])
    else test
  }

  function Known(b: bool): Truth { if b then True else False }

  /** Whether a stored value is among some: yes if it equals one of them, unknown if it does not but it or one of
      them is null. */
  function Among(cmp: Comparer, stored: Value, wanted: seq<Value>): Truth {
    if wanted == [] then False
    else if stored.Null? then Unknown
    else if exists v :: v in wanted && !v.Null? && cmp(Eq, stored, v) then True
    else if Null in wanted then Unknown
    else False
  }

  /** What one authored node means, by its word, when its children mean `children`. */
  function NodeMeans(cmp: Comparer, stored: Value, word: string, f: Filter, children: seq<Truth>): Truth {
    if word == "and" then AndAll(children)
    else if word == "or" then OrAll(children)
    else if word == "not" then if |children| == 1 then Not(children[0]) else Unknown
    else if word == "is_null" then Known(stored.Null?)
    else if word == "is_not_null" then Known(!stored.Null?)
    else if word == "in" then Among(cmp, stored, f.values)
    else if word == "not_in" then Not(Among(cmp, stored, f.values))
    else if stored.Null? || f.value.Null? then Unknown
    else if word == "" || word == "eq" then Known(cmp(Eq, stored, f.value))
    else if word == "ne" then Known(cmp(Ne, stored, f.value))
    else if word == "gt" then Known(cmp(Gt, stored, f.value))
    else if word == "gte" then Known(cmp(Gte, stored, f.value))
    else if word == "lt" then Known(cmp(Lt, stored, f.value))
    else if word == "lte" then Known(cmp(Lte, stored, f.value))
    else if word == "contains" then Known(cmp(Contains, stored, f.value))
    else Unknown
  }

  /** What authored filters mean on a row. */
  function Means(cmp: Comparer, row: Data, filters: seq<Filter>): (r: seq<Truth>)
    ensures |r| == |filters|
  {
    if filters == [] then []
    else
      var f := filters[0];
      [NodeMeans(cmp, Get(row, Text.Trim(f.field)), WordOf(f), f, Means(cmp, row, f.children))]
      + Means(cmp, row, filters[1..])
  }

  /** How the store evaluates expressions on a row. */
  function Evaluate(cmp: Comparer, row: Data, es: seq<Expression>): (r: seq<Truth>)
    ensures |r| == |es|
  {
    if es == [] then []
    else
      var e := es[0];
      [Connected(e.operator, Evaluate(cmp, row, e.children), Test(cmp, row, e.operator, e.field, e.value, e.values))]
      + Evaluate(cmp, row, es[1..])
  }

  lemma {:induction false} AmongExactly(cmp: Comparer, stored: Value, wanted: seq<Value>)
    ensures AnyEqual(cmp, stored, wanted) == Among(cmp, stored, wanted)
  {
    if wanted != [] {
      var rest := wanted[1..];
      AmongExactly(cmp, stored, rest);
      assert forall v :: v in wanted <==> v == wanted[0] || v in rest;
    }
  }

  lemma NodeTests(cmp: Comparer, row: Data, word: string, field: string, f: Filter, children: seq<Truth>)
    requires Demanded(word, field, f) && |children| == |f.children|
    ensures Connected(Named(word), children, Test(cmp, row, Named(word), field, f.value, f.values)) ==
            NodeMeans(cmp, Get(row, field), word, f, children)
  {
    AmongExactly(cmp, Get(row, field), f.values);
    WordsApart(word);
  }

  /** No word is two operators. */
  lemma WordsApart(word: string)
    ensures word == "and" ==> Named(word) == AndOp
    ensures word == "or" ==> Named(word) == OrOp
    ensures word == "not" ==> Named(word) == NotOp
    ensures word == "is_null" ==> Named(word) == IsNull
    ensures word == "is_not_null" ==> Named(word) == IsNotNull
    ensures word == "in" ==> Named(word) == In
    ensures word == "not_in" ==> Named(word) == NotIn
  {
    NamedExactly(word);
  }

  lemma NodeMeaning(cmp: Comparer, row: Data, word: string, field: string, f: Filter, children: seq<Truth>)
    requires |children| == |f.children| && NodeExpression(Named(word), field, f).Ok?
    ensures var e := NodeExpression(Named(word), field, f).value;
            Connected(e.operator, children, Test(cmp, row, e.operator, e.field, e.value, e.values))
            == NodeMeans(cmp, Get(row, field), word, f, children)
  {
    NodeCompilesExactly(word, field, f);
    NodeTests(cmp, row, word, field, f, children);
    NodeKeeps(cmp, row, Named(word), field, f, children);
  }

  lemma NodeKeeps(cmp: Comparer, row: Data, operator: Operator, field: string, f: Filter, children: seq<Truth>)
    requires |children| == |f.children| && NodeExpression(operator, field, f).Ok?
    ensures var e := NodeExpression(operator, field, f).value;
            Connected(e.operator, children, Test(cmp, row, e.operator, e.field, e.value, e.values))
            == Connected(operator, children, Test(cmp, row, operator, field, f.value, f.values))
  {
  }

  lemma {:induction false} NodesMeaning(cmp: Comparer, row: Data, filters: seq<Filter>)
    requires CompileNodes(filters).Ok?
    ensures Evaluate(cmp, row, CompileNodes(filters).value) == Means(cmp, row, filters)
  {
    if filters != [] {
      var f := filters[0];
      NodesMeaning(cmp, row, f.children);
      NodesMeaning(cmp, row, filters[1..]);
      NodeMeaning(cmp, row, WordOf(f), Text.Trim(f.field), f, Means(cmp, row, f.children));
      var e, rest := CompileNode(f).value, CompileNodes(filters[1..]).value;
      assert ([e] + rest)[1..] == rest;
    }
  }

  lemma CompiledList(filters: seq<Filter>, cmp: Comparer, row: Data)
    requires CompileNodes(filters).Ok? && filters != []
    ensures var e := Combined(CompileNodes(filters).value).value;
            && WellFormed([e]) && (NamesOwned([e]) ==> MentionsOwned(filters))
            && Evaluate(cmp, row, [e])[0] == AndAll(Means(cmp, row, filters))
  {
    CompiledNodesShaped(filters);
    CompiledNodesGoverned(filters);
    NodesMeaning(cmp, row, filters);
    CombinedMeaning(CompileNodes(filters).value, cmp, row);
  }

  lemma CombinedMeaning(children: seq<Expression>, cmp: Comparer, row: Data)
    requires children != [] && WellFormed(children)
    ensures var e := Combined(children).value;
            && WellFormed([e]) && NamesOwned([e]) == NamesOwned(children)
            && Evaluate(cmp, row, [e])[0] == AndAll(Evaluate(cmp, row, children))
  {
    var e := Combined(children).value;
    if |children| == 1 {
      assert children == [e];
      assert Evaluate(cmp, row, children) == [Evaluate(cmp, row, children)[0]];
      AndAllOne(Evaluate(cmp, row, children)[0]);
    } else {
      NothingOwned();
      assert [e][1..] == [];
    }
  }

  lemma ValidNamesNothingOwned(q: Query)
    requires QueryValid(q)
    ensures !MentionsOwned(q.filters)
  {
  }

  /** For every valid query whose filters compile: the compiled tree is well formed at every depth, names
      no Runtime-owned field, and selects a row exactly as the conjunction of the authored filters does. */
  lemma CompiledQuery(q: Query, cmp: Comparer, row: Data)
    requires QueryValid(q) && Compile(q.filters).Ok?
    ensures Compile(q.filters).value.None? <==> q.filters == []
    ensures q.filters != [] ==>
              var e := Compile(q.filters).value.value;
              && WellFormed([e]) && !NamesOwned([e])
              && Evaluate(cmp, row, [e])[0] == AndAll(Means(cmp, row, q.filters))
  {
    ValidNamesNothingOwned(q);
    if q.filters != [] {
      CompiledNodesShaped(q.filters);
      CompiledList(q.filters, cmp, row);
    }
  }

  lemma AndAllOne(t: Truth)
    ensures AndAll([t]) == t
  {
    assert [t][1..] == [];
  }

  /** A null never matches a value test, and a not node around the test does not make it match. */
  lemma NullNeverMatches(cmp: Comparer, row: Data, f: Filter)
    requires Demanded(WordOf(f), Text.Trim(f.field), f) && Get(row, Text.Trim(f.field)).Null?
    requires WordOf(f) !in ["and", "or", "not", "is_null", "is_not_null"]
    ensures Means(cmp, row, [f]) == [Unknown]
    ensures Means(cmp, row, [Filter("", "not", Null, [], [f])]) == [Unknown]
  {
    var outer := Filter("", "not", Null, [], [f]);
    MeansOne(cmp, row, f);
    MeansOne(cmp, row, outer);
    NullUnknown(cmp, WordOf(f), f);
    assert Text.Trimmed("not") && Text.Lower("not") == "not";
    NotMeans(cmp, Get(row, Text.Trim(outer.field)), outer, Means(cmp, row, [f]));
  }

  lemma MeansOne(cmp: Comparer, row: Data, f: Filter)
    ensures Means(cmp, row, [f]) ==
            [NodeMeans(cmp, Get(row, Text.Trim(f.field)), WordOf(f), f, Means(cmp, row, f.children))]
  {
    assert [f][1..] == [];
  }

  lemma NotMeans(cmp: Comparer, stored: Value, f: Filter, children: seq<Truth>)
    requires |children| == 1
    ensures NodeMeans(cmp, stored, "not", f, children) == Not(children[0])
  {
    assert "not"[0] != "and"[0] && "not"[0] != "or"[0];
  }

  lemma NullUnknown(cmp: Comparer, word: string, f: Filter)
    requires word !in ["and", "or", "not", "is_null", "is_not_null"]
    requires Demanded(word, Text.Trim(f.field), f)
    ensures NodeMeans(cmp, Null, word, f, Means(cmp, map[], f.children)) == Unknown
  {
    var names := ["and", "or", "not", "is_null", "is_not_null"];
    assert names[0] in names && names[1] in names && names[2] in names && names[3] in names && names[4] in names;
  }

  /** A conjunction is false exactly when a part is and true exactly when all are; a disjunction the other way
      round. Whatever is neither is unknown. */
  lemma {:induction false} AndAllExactly(ts: seq<Truth>)
    ensures AndAll(ts) == if False in ts then False else if Unknown in ts then Unknown else True
    ensures OrAll(ts) == if True in ts then True else if Unknown in ts then Unknown else False
  {
    if ts != [] {
      AndAllExactly(ts[1..]);
      assert forall t :: t in ts <==> t == ts[0] || t in ts[1..];
    }
  }
}
