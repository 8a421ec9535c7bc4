/** The decoder for a Business Handler's output: exactly one JSON object, no name repeated at any depth.

    Section 4 of RFC 8259 says object names SHOULD be unique; here a repeated name is an error. The
    `encoding/json` tokenizer is modelled as a stream of delimiters and scalars with its own position
    checks; separators are part of it, and misplaced ones show up as `Malformed`. */
module HandlerOutput {
  import opened Basics

  datatype Scalar = Str(s: string) | Num(text: string) | Bool(b: bool) | Null

  datatype Token = ObjectOpen | ObjectClose | ArrayOpen | ArrayClose | Atom(scalar: Scalar) | Malformed

  /** What the decoder returns: Go maps and slices. */
  datatype Value = Plain(scalar: Scalar) | List(items: seq<Value>) | Object(fields: map<string, Value>)

  datatype Error = EndOfInput | Syntax | NotAnObject | Duplicate(name: string) | TrailingInput

  // ---------------------------------------------------------------- documents

  /** A JSON text as written: members in order, names possibly repeated. */
  datatype Json = Leaf(scalar: Scalar) | Arr(items: seq<Json>) | Obj(members: seq<Member>)

  datatype Member = Member(name: string, value: Json)

  function Print(j: Json): seq<Token>
    decreases j, 1
  {
    match j
    case Leaf(s) => [Atom(s)]
    case Arr(items) => [ArrayOpen] + PrintItems(items) + [ArrayClose]
    case Obj(members) => [ObjectOpen] + PrintMembers(members) + [ObjectClose]
  }

  function PrintItems(items: seq<Json>): seq<Token>
    decreases items, 0
  {
    if items == [] then [] else Print(items[0]) + PrintItems(items[1..])
  }

  function PrintMembers(members: seq<Member>): seq<Token>
    decreases members, 0
  {
    if members == [] then [] else [Atom(Str(members[0].name))] + Print(members[0].value) + PrintMembers(members[1..])
  }

  ghost predicate DistinctNames(members: seq<Member>) {
    forall i, k :: 0 <= i < k < |members| ==> members[i].name != members[k].name
  }

  /** No object at any depth repeats a name. */
  ghost predicate NoRepeats(j: Json) {
    match j
    case Leaf(_) => true
    case Arr(items) => forall i :: 0 <= i < |items| ==> NoRepeats(items[i])
    case Obj(members) => DistinctNames(members) && forall i :: 0 <= i < |members| ==> NoRepeats(members[i].value)
  }

  function Meaning(j: Json): Value
    decreases j, 1
  {
    match j
    case Leaf(s) => Plain(s)
    case Arr(items) => List(MeaningItems(items))
    case Obj(members) => Object(MeaningMembers(map[], members))
  }

  function MeaningItems(items: seq<Json>): seq<Value>
    decreases items, 0
  {
    if items == [] then [] else [Meaning(items[0])] + MeaningItems(items[1..])
  }

  /** Members written one after the other into a map. */
  function MeaningMembers(into: map<string, Value>, members: seq<Member>): map<string, Value>
    decreases members, 0
  {
    if members == [] then into
    else MeaningMembers(into[members[0].name := Meaning(members[0].value)], members[1..])
  }

  // ---------------------------------------------------------------- the decoder as a function

  datatype Parsed = Parsed(value: Value, rest: seq<Token>) | Failed(error: Error)

  function ParseValue(ts: seq<Token>): (p: Parsed)
    ensures p.Parsed? ==> |p.rest| < |ts|
    decreases |ts|, 0
  {
    if ts == [] then Failed(EndOfInput)
    else
      match ts[0]
      case Atom(s) => Parsed(Plain(s), ts[1..])
      case ObjectOpen => ParseMembers(ts[1..], map[])
      case ArrayOpen => ParseItems(ts[1..], [])
      case _ => Failed(Syntax)
  }

  function ParseMembers(ts: seq<Token>, into: map<string, Value>): (p: Parsed)
    ensures p.Parsed? ==> |p.rest| < |ts|
    decreases |ts|, 1
  {
    if ts == [] then Failed(EndOfInput)
    else
      match ts[0]
      case ObjectClose => Parsed(Object(into), ts[1..])
      case Atom(Str(name)) =>
        if name in into then Failed(Duplicate(name))
        else
          var v := ParseValue(ts[1..]);
          if v.Failed? then v else ParseMembers(v.rest, into[name := v.value])
      case _ => Failed(Syntax)
  }

  function ParseItems(ts: seq<Token>, sofar: seq<Value>): (p: Parsed)
    ensures p.Parsed? ==> |p.rest| < |ts|
    decreases |ts|, 1
  {
    if ts == [] then Failed(EndOfInput)
    else if ts[0].ArrayClose? then Parsed(List(sofar), ts[1..])
    else
      var v := ParseValue(ts);
      if v.Failed? then v else ParseItems(v.rest, sofar + [v.value])
  }

  function DecodeOutput(ts: seq<Token>): Result<map<string, Value>, Error> {
    if ts != [] && !ts[0].ObjectOpen? && (ts[0].Atom? || ts[0].ArrayOpen?) then Err(NotAnObject)
    else
      match ParseValue(ts)
      case Failed(e) => Err(e)
      case Parsed(v, rest) =>
        if !v.Object? then Err(NotAnObject)
        else if rest == [] then Ok(v.fields)
        else Err(if rest[0].Atom? || rest[0].ObjectOpen? || rest[0].ArrayOpen? then TrailingInput else Syntax)
  }

  // ---------------------------------------------------------------- every success is a document

  lemma {:induction false} ValueSound(ts: seq<Token>) returns (j: Json)
    requires ParseValue(ts).Parsed?
    ensures ts == Print(j) + ParseValue(ts).rest && NoRepeats(j) && Meaning(j) == ParseValue(ts).value
    decreases |ts|, 0
  {
    var p := ParseValue(ts);
    match ts[0] {
      case Atom(s) =>
        j := Leaf(s);
        assert ts == [ts[0]] + ts[1..];
      case ObjectOpen =>
        var members := MembersSound(ts[1..], map[]);
        j := Obj(members);
        assert ts == [ts[0]] + ts[1..];
        assert Print(j) + p.rest == [ObjectOpen] + (PrintMembers(members) + ([ObjectClose] + p.rest));
      case ArrayOpen =>
        var items := ItemsSound(ts[1..], []);
        j := Arr(items);
        assert ts == [ts[0]] + ts[1..];
        assert Print(j) + p.rest == [ArrayOpen] + (PrintItems(items) + ([ArrayClose] + p.rest));
        assert [] + MeaningItems(items) == MeaningItems(items);
    }
  }

  ghost predicate FreshMembers(members: seq<Member>, into: map<string, Value>) {
    DistinctNames(members) && forall i :: 0 <= i < |members| ==> NoRepeats(members[i].value) && members[i].name !in into
  }

  lemma FreshStep(members: seq<Member>, into: map<string, Value>, v: Value)
    requires members != []
    ensures FreshMembers(members, into) <==>
            members[0].name !in into && NoRepeats(members[0].value)
            && FreshMembers(members[1..], into[members[0].name := v])
  {
    var t := members[1..];
    assert forall i :: 0 <= i < |t| ==> t[i] == members[i + 1];
    assert forall i :: 1 <= i < |members| ==> members[i] == t[i - 1];
  }

  lemma PrintMembersHead(name: string, j: Json, more: seq<Member>, rest: seq<Token>, end: seq<Token>)
    requires rest == PrintMembers(more) + end
    ensures PrintMembers([Member(name, j)] + more) + end == [Atom(Str(name))] + (Print(j) + rest)
  {
    assert ([Member(name, j)] + more)[1..] == more;
  }

  lemma {:induction false} MembersSound(ts: seq<Token>, into: map<string, Value>) returns (members: seq<Member>)
    requires ParseMembers(ts, into).Parsed?
    ensures ts == PrintMembers(members) + ([ObjectClose] + ParseMembers(ts, into).rest)
    ensures FreshMembers(members, into)
    ensures ParseMembers(ts, into).value == Object(MeaningMembers(into, members))
    decreases |ts|, 1
  {
    var p := ParseMembers(ts, into);
    assert ts == [ts[0]] + ts[1..];
    if ts[0].ObjectClose? {
      members := [];
    } else {
      var name := ts[0].scalar.s;
      var v := ParseValue(ts[1..]);
      var j := ValueSound(ts[1..]);
      var more := MembersSound(v.rest, into[name := v.value]);
      members := [Member(name, j)] + more;
      assert members[1..] == more;
      PrintMembersHead(name, j, more, v.rest, [ObjectClose] + p.rest);
      FreshStep(members, into, v.value);
    }
  }

  lemma ItemsHead(j: Json, more: seq<Json>, rest: seq<Token>, end: seq<Token>, sofar: seq<Value>)
    requires rest == PrintItems(more) + end
    ensures PrintItems([j] + more) + end == Print(j) + rest
    ensures sofar + [Meaning(j)] + MeaningItems(more) == sofar + MeaningItems([j] + more)
  {
    assert ([j] + more)[1..] == more;
  }

  lemma {:induction false} ItemsSound(ts: seq<Token>, sofar: seq<Value>) returns (items: seq<Json>)
    requires ParseItems(ts, sofar).Parsed?
    ensures ts == PrintItems(items) + ([ArrayClose] + ParseItems(ts, sofar).rest)
    ensures forall i :: 0 <= i < |items| ==> NoRepeats(items[i])
    ensures ParseItems(ts, sofar).value == List(sofar + MeaningItems(items))
    decreases |ts|, 1
  {
    var p := ParseItems(ts, sofar);
    if ts[0].ArrayClose? {
      items := [];
      assert ts == [ts[0]] + ts[1..];
    } else {
      var v := ParseValue(ts);
      var j := ValueSound(ts);
      var more := ItemsSound(v.rest, sofar + [v.value]);
      items := [j] + more;
      ItemsHead(j, more, v.rest, [ArrayClose] + p.rest, sofar);
    }
  }

  // ---------------------------------------------------------------- every document is decided

  /** Reading a printed document succeeds with its meaning, and stops right behind it, exactly when no
      object in it repeats a name. */
  lemma {:induction false} PrintedValue(j: Json, rest: seq<Token>)
    ensures NoRepeats(j) ==> ParseValue(Print(j) + rest) == Parsed(Meaning(j), rest)
    ensures !NoRepeats(j) ==> ParseValue(Print(j) + rest).Failed? && ParseValue(Print(j) + rest).error.Duplicate?
    decreases j, 1
  {
    var ts := Print(j) + rest;
    match j {
      case Leaf(s) =>
        assert ts[1..] == rest;
      case Obj(members) =>
        assert ts[1..] == PrintMembers(members) + ([ObjectClose] + rest);
        PrintedMembers(members, map[], rest);
      case Arr(items) =>
        assert ts[1..] == PrintItems(items) + ([ArrayClose] + rest);
        PrintedItems(items, [], rest);
        assert [] + MeaningItems(items) == MeaningItems(items);
    }
  }

  lemma {:induction false} PrintedMembers(members: seq<Member>, into: map<string, Value>, rest: seq<Token>)
    ensures var p := ParseMembers(PrintMembers(members) + ([ObjectClose] + rest), into);
            && (FreshMembers(members, into) ==> p == Parsed(Object(MeaningMembers(into, members)), rest))
            && (!FreshMembers(members, into) ==> p.Failed? && p.error.Duplicate?)
    decreases members, 0
  {
    var ts := PrintMembers(members) + ([ObjectClose] + rest);
    if members == [] {
      assert ts == [ObjectClose] + rest && ts[1..] == rest;
    } else {
      var Member(name, j) := members[0];
      var tail := PrintMembers(members[1..]) + ([ObjectClose] + rest);
      assert ts == [Atom(Str(name))] + (Print(j) + tail);
      assert ts[0] == Atom(Str(name)) && ts[1..] == Print(j) + tail;
      PrintedValue(j, tail);
      FreshStep(members, into, Meaning(j));
      PrintedMembers(members[1..], into[name := Meaning(j)], rest);
    }
  }

  ghost predicate FreshItems(items: seq<Json>) { forall i :: 0 <= i < |items| ==> NoRepeats(items[i]) }

  lemma FreshItemsStep(items: seq<Json>)
    requires items != []
    ensures FreshItems(items) <==> NoRepeats(items[0]) && FreshItems(items[1..])
  {
    assert forall i :: 1 <= i < |items| ==> items[i] == items[1..][i - 1];
  }

  lemma {:induction false} PrintedItems(items: seq<Json>, sofar: seq<Value>, rest: seq<Token>)
    ensures var p := ParseItems(PrintItems(items) + ([ArrayClose] + rest), sofar);
            && (FreshItems(items) ==> p == Parsed(List(sofar + MeaningItems(items)), rest))
            && (!FreshItems(items) ==> p.Failed? && p.error.Duplicate?)
    decreases items, 0
  {
    var ts := PrintItems(items) + ([ArrayClose] + rest);
    if items == [] {
      assert ts == [ArrayClose] + rest && ts[1..] == rest && sofar + [] == sofar;
    } else {
      var j := items[0];
      var tail := PrintItems(items[1..]) + ([ArrayClose] + rest);
      assert ts == Print(j) + tail;
      assert ts[0] == Print(j)[0];
      PrintedValue(j, tail);
      FreshItemsStep(items);
      PrintedItems(items[1..], sofar + [Meaning(j)], rest);
      assert sofar + [Meaning(j)] + MeaningItems(items[1..]) == sofar + MeaningItems(items);
    }
  }

  /** The decoder succeeds exactly on the token streams of one object with no repeated name at any depth
      and nothing behind it, and then returns that object's meaning. */
  lemma DecodeExactly(ts: seq<Token>, out: map<string, Value>)
    ensures DecodeOutput(ts) == Ok(out) <==>
            exists j: Json :: j.Obj? && NoRepeats(j) && ts == Print(j) && Meaning(j) == Object(out)
  {
    if DecodeOutput(ts) == Ok(out) {
      var j := ValueSound(ts);
      assert Print(j) + [] == Print(j);
      assert ts[0] == Print(j)[0];
    }
    if j: Json :| j.Obj? && NoRepeats(j) && ts == Print(j) && Meaning(j) == Object(out) {
      PrintedValue(j, []);
      assert Print(j) + [] == Print(j);
    }
  }

  /** A document that repeats a name anywhere is rejected, and an object for that very reason. */
  lemma RepeatsRejected(j: Json)
    requires !NoRepeats(j)
    ensures DecodeOutput(Print(j)).Err? && (j.Obj? ==> DecodeOutput(Print(j)).error.Duplicate?)
  {
    PrintedValue(j, []);
    assert Print(j) + [] == Print(j);
    assert Print(j)[0] == if j.Obj? then ObjectOpen else ArrayOpen;
  }

  /** Nothing, a document that is no object, and anything behind an object are each told apart. */
  lemma OtherRejections(j: Json, rest: seq<Token>)
    ensures DecodeOutput([]) == Err(EndOfInput)
    ensures !j.Obj? ==> DecodeOutput(Print(j) + rest) == Err(NotAnObject)
    ensures j.Obj? && NoRepeats(j) && rest != [] ==>
              DecodeOutput(Print(j) + rest) ==
              Err(if rest[0].Atom? || rest[0].ObjectOpen? || rest[0].ArrayOpen? then TrailingInput else Syntax)
  {
    PrintedValue(j, rest);
    assert (Print(j) + rest)[0] == Print(j)[0];
  }

  // ---------------------------------------------------------------- the decoder as it runs

  datatype Position = Top | InArray | AtName | AtMember

  /** `json.Decoder` behind `Token` and `More`. */
  class Tokenizer {
    var unread: seq<Token>
    var position: Position
    var outer: seq<Position>

    constructor (ts: seq<Token>)
      ensures unread == ts && position == Top && outer == []
    {
      unread, position, outer := ts, Top, [];
    }

    /** Where a value leaves the tokenizer that was at `p`. */
    static function AfterValue(p: Position): Position { if p.AtMember? then AtName else p }

    predicate More()
      reads this
    {
      unread != [] && !unread[0].ArrayClose? && !unread[0].ObjectClose?
    }

    /** The next token, checked against the position as the library does. */
    method Next() returns (r: Result<Token, Error>)
      modifies this
      ensures r.Ok? ==> old(unread) != [] && r.value == old(unread)[0] && unread == old(unread)[1..]
      ensures old(unread) == [] ==> r == Err(EndOfInput)
      ensures old(unread) != [] ==>
                var t := old(unread)[0];
                r == if Allowed(t, old(position), old(outer)) then Ok(t) else Err(Syntax)
      ensures r.Ok? ==>
                match r.value
                case Atom(_) => outer == old(outer) && position == if old(position).AtName? then AtMember
                else AfterValue(old(position))
                case ObjectOpen => outer == old(outer) + [old(position)] && position == AtName
                case ArrayOpen => outer == old(outer) + [old(position)] && position == InArray
                case _ =>
                  && old(outer) != [] && outer == old(outer)[..|old(outer)| - 1]
                  && position == AfterValue(old(outer)[|old(outer)| - 1])
    {
      if unread == [] {
        return Err(EndOfInput);
      }
      var t := unread[0];
      if !Allowed(t, position, outer) {
        return Err(Syntax);
      }
      unread := unread[1..];
      if t.Atom? {
        position := if position.AtName? then AtMember else AfterValue(position);
      } else if t.ObjectOpen? || t.ArrayOpen? {
        outer, position := outer + [position], if t.ObjectOpen? then AtName else InArray;
      } else {
        outer, position := outer[..|outer| - 1], AfterValue(outer[|outer| - 1]);
      }
      return Ok(t);
    }

    static predicate Allowed(t: Token, position: Position, outer: seq<Position>) {
      match t
      case Atom(s) => position.AtName? ==> s.Str?
      case ObjectOpen => !position.AtName?
      case ArrayOpen => !position.AtName?
      case ObjectClose => position.AtName? && outer != []
      case ArrayClose => position.InArray? && outer != []
      case Malformed => false
    }

    /** `consumeBusinessHandlerJSONValue`. */
    method ConsumeValue(requireObject: bool) returns (r: Result<Value, Error>)
      requires !position.AtName? && (position.InArray? ==> More())
      modifies this
      ensures match ParseValue(old(unread))
              case Parsed(v, rest) =>
                if requireObject && !old(unread)[0].ObjectOpen? then r == Err(NotAnObject)
                else r == Ok(v) && unread == rest && position == AfterValue(old(position)) && outer == old(outer)
              case Failed(e) =>
                r == Err(if requireObject && old(unread) != [] && old(unread)[0].ArrayOpen? then NotAnObject else e)
      ensures r.Ok? && requireObject ==> r.value.Object?
      decreases |unread|, 1
    {
      var token := Next();
      if token.Err? {
        return Err(token.error);
      }
      if requireObject && !token.value.ObjectOpen? {
        return Err(NotAnObject);
      }
      if token.value.Atom? {
        r := Ok(Plain(token.value.scalar));
      } else if token.value.ObjectOpen? {
        r := ConsumeMembers();
      } else {
        r := ConsumeItems();
      }
    }

    method ConsumeMembers() returns (r: Result<Value, Error>)
      requires position.AtName? && outer != []
      modifies this
      ensures match ParseMembers(old(unread), map[])
              case Parsed(v, rest) =>
                && r == Ok(v) && v.Object? && unread == rest && outer == old(outer)[..|old(outer)| - 1]
                && position == AfterValue(old(outer)[|old(outer)| - 1])
              case Failed(e) => r == Err(e)
      decreases |unread|, 2
    {
      var output: map<string, Value>, seen: set<string> := map[], {};
      while More()
        invariant position.AtName? && outer == old(outer) && seen == output.Keys && |unread| <= |old(unread)|
        invariant ParseMembers(old(unread), map[]) == ParseMembers(unread, output)
        decreases |unread|
      {
        var name := Next();
        if name.Err? {
          return Err(name.error);
        }
        var key := name.value.scalar.s;
        if key in seen {
          return Err(Duplicate(key));
        }
        seen := seen + {key};
        var value := ConsumeValue(false);
        if value.Err? {
          return Err(value.error);
        }
        output := output[key := value.value];
      }
      var close := Next();
      if close.Err? {
        return Err(close.error);
      }
      return Ok(Object(output));
    }

    method ConsumeItems() returns (r: Result<Value, Error>)
      requires position.InArray? && outer != []
      modifies this
      ensures match ParseItems(old(unread), [])
              case Parsed(v, rest) =>
                && r == Ok(v) && v.List? && unread == rest && outer == old(outer)[..|old(outer)| - 1]
                && position == AfterValue(old(outer)[|old(outer)| - 1])
              case Failed(e) => r == Err(e)
      decreases |unread|, 2
    {
      var output: seq<Value> := [];
      while More()
        invariant position.InArray? && outer == old(outer) && |unread| <= |old(unread)|
        invariant ParseItems(old(unread), []) == ParseItems(unread, output)
        decreases |unread|
      {
        var value := ConsumeValue(false);
        if value.Err? {
          return Err(value.error);
        }
        output := output + [value.value];
      }
      var close := Next();
      if close.Err? {
        return Err(close.error);
      }
      return Ok(List(output));
    }
  }

  /** `decodeBusinessHandlerOutput`. */
  method DecodeBusinessHandlerOutput(payload: seq<Token>) returns (r: Result<map<string, Value>, Error>)
    ensures r == DecodeOutput(payload)
    ensures r.Ok? <==> exists j: Json :: j.Obj? && NoRepeats(j) && payload == Print(j)
  {
    var decoder := new Tokenizer(payload);
    var value := decoder.ConsumeValue(true);
    if value.Err? {
      r := Err(value.error);
    } else {
      var trailing := decoder.Next();
      r := if trailing == Err(EndOfInput) then Ok(value.value.fields)
           else if trailing.Ok? then Err(TrailingInput) else Err(trailing.error);
    }
    if r.Ok? {
      DecodeExactly(payload, r.value);
    }
    if j: Json :| j.Obj? && NoRepeats(j) && payload == Print(j) {
      DecodeExactly(payload, Meaning(j).fields);
    }
  }
}
