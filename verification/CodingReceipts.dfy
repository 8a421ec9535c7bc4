/** The coding runtime's file tool behind idempotency receipts: hash-guarded writes, replays, reconciliation
    after a lost answer, and the closing of a scope. */
module CodingReceipts {
  import opened Basics
  import Text

  // ---------------------------------------------------------------- counting and replacing text

  /** `strings.Count`: occurrences from the left that do not overlap; the empty text is found around every
      code point. */
  function Count(s: string, needle: string): nat {
    if needle == "" then |s| + 1
    else if |s| < |needle| then 0
    else if needle <= s then 1 + Count(s[|needle|..], needle)
    else Count(s[1..], needle)
  }

  /** `strings.Replace` with a limit of one. */
  function ReplaceFirst(s: string, needle: string, substitute: string): string {
    if |s| < |needle| then s
    else if needle <= s then substitute + s[|needle|..]
    else [s[0]] + ReplaceFirst(s[1..], needle, substitute)
  }

  /** `strings.Replace` without a limit. */
  function ReplaceAll(s: string, needle: string, substitute: string): string {
    if needle == "" then (if s == "" then substitute else substitute + [s[0]] + ReplaceAll(s[1..], needle, substitute))
    else if |s| < |needle| then s
    else if needle <= s then substitute + ReplaceAll(s[|needle|..], needle, substitute)
    else [s[0]] + ReplaceAll(s[1..], needle, substitute)
  }

  ghost predicate OccursAt(s: string, needle: string, i: nat) { i + |needle| <= |s| && s[i..i + |needle|] == needle }

  ghost predicate FirstAt(s: string, needle: string, i: nat) {
    OccursAt(s, needle, i) && forall j: nat :: j < i ==> !OccursAt(s, needle, j)
  }

  lemma ShiftFirst(s: string, needle: string, k: nat)
    requires s != "" && |s| >= |needle| && !(needle <= s) && FirstAt(s[1..], needle, k)
    ensures FirstAt(s, needle, k + 1)
  {
    assert s[0..|needle|] == s[..|needle|];
    assert s[k + 1..k + 1 + |needle|] == s[1..][k..k + |needle|];
    forall j: nat | 0 < j < k + 1 ensures !OccursAt(s, needle, j) {
      assert !OccursAt(s[1..], needle, j - 1);
      assert j + |needle| <= |s| ==> s[1..][j - 1..j - 1 + |needle|] == s[j..j + |needle|];
    }
  }

  lemma ShiftReplaced(s: string, from: nat, to: nat, substitute: string)
    requires s != "" && from <= to <= |s| - 1
    ensures [s[0]] + (s[1..][..from] + substitute + s[1..][to..]) == s[..from + 1] + substitute + s[to + 1..]
  {
    assert s[1..][to..] == s[to + 1..];
    assert [s[0]] + s[1..][..from] == s[..from + 1];
  }

  /** The first occurrence is replaced in place, and everything around it is kept. */
  lemma {:induction false} ReplaceFirstExactly(s: string, needle: string, substitute: string) returns (i: nat)
    requires Count(s, needle) > 0
    ensures FirstAt(s, needle, i)
    ensures ReplaceFirst(s, needle, substitute) == s[..i] + substitute + s[i + |needle|..]
  {
    if needle <= s {
      i := 0;
      assert s[0..|needle|] == needle;
      assert s[..0] + substitute == substitute;
    } else {
      var k := ReplaceFirstExactly(s[1..], needle, substitute);
      i := k + 1;
      ShiftFirst(s, needle, k);
      ShiftReplaced(s, k, k + |needle|, substitute);
    }
  }

  lemma {:induction false} CountZero(s: string, needle: string, j: nat)
    requires needle != "" && Count(s, needle) == 0
    ensures !OccursAt(s, needle, j)
  {
    if |s| >= |needle| {
      if j == 0 {
        assert s[0..|needle|] == s[..|needle|];
      } else if j + |needle| <= |s| {
        CountZero(s[1..], needle, j - 1);
        assert s[1..][j - 1..j - 1 + |needle|] == s[j..j + |needle|];
      }
    }
  }

  /** Behind the first occurrence the count starts afresh. */
  lemma {:induction false} CountBehindFirst(s: string, needle: string, i: nat)
    requires needle != "" && FirstAt(s, needle, i)
    ensures Count(s, needle) == 1 + Count(s[i + |needle|..], needle)
  {
    if i == 0 {
      assert s[0..|needle|] == s[..|needle|];
    } else {
      assert !OccursAt(s, needle, 0) && s[0..|needle|] == s[..|needle|];
      assert s[1..][i - 1..i - 1 + |needle|] == s[i..i + |needle|];
      forall j: nat | j < i - 1 ensures !OccursAt(s[1..], needle, j) {
        assert !OccursAt(s, needle, j + 1);
        assert j + |needle| <= |s[1..]| ==> s[1..][j..j + |needle|] == s[j + 1..j + 1 + |needle|];
      }
      CountBehindFirst(s[1..], needle, i - 1);
      assert s[1..][i - 1 + |needle|..] == s[i + |needle|..];
    }
  }

  ghost predicate NoneOverlaps(s: string, needle: string, i: nat) {
    forall j: nat :: i < j < i + |needle| ==> !OccursAt(s, needle, j)
  }

  /** A text counted once occurs only once exactly when no second occurrence overlaps the first: occurrences
      that overlap are counted as one. */
  lemma OnlyOccurrenceExactly(s: string, needle: string, i: nat)
    requires Count(s, needle) == 1 && FirstAt(s, needle, i)
    ensures (forall j: nat :: OccursAt(s, needle, j) ==> j == i) <==> NoneOverlaps(s, needle, i)
  {
    if needle != "" {
      CountBehindFirst(s, needle, i);
      var behind := s[i + |needle|..];
      forall j: nat | j >= i + |needle| ensures !OccursAt(s, needle, j) {
        CountZero(behind, needle, j - i - |needle|);
        assert j + |needle| <= |s| ==> behind[j - i - |needle|..j - i] == s[j..j + |needle|];
      }
    }
  }

  /** The text between the occurrences that are replaced, from left to right. */
  function Pieces(s: string, needle: string): (r: seq<string>)
    ensures r != []
  {
    if needle == "" then (if s == "" then ["", ""] else [""] + Longer(s[0], Pieces(s[1..], needle)))
    else if |s| < |needle| then [s]
    else if needle <= s then [""] + Pieces(s[|needle|..], needle)
    else Longer(s[0], Pieces(s[1..], needle))
  }

  function Longer(c: char, pieces: seq<string>): (r: seq<string>)
    requires pieces != []
    ensures r != []
  {
    [[c] + pieces[0]] + pieces[1..]
  }

  /** The pieces with one text put between each two of them. */
  function Glue(pieces: seq<string>, between: string): string
    requires pieces != []
  {
    if |pieces| == 1 then pieces[0] else pieces[0] + (between + Glue(pieces[1..], between))
  }

  lemma GlueLonger(c: char, pieces: seq<string>, between: string)
    requires pieces != []
    ensures Glue(Longer(c, pieces), between) == [c] + Glue(pieces, between)
  {
    assert Longer(c, pieces)[1..] == pieces[1..];
    if |pieces| > 1 {
      assert [c] + pieces[0] + (between + Glue(pieces[1..], between)) ==
                 [c] + (pieces[0] + (between + Glue(pieces[1..], between)));
    }
  }

  lemma GlueFirst(pieces: seq<string>, between: string)
    requires pieces != []
    ensures Glue([""] + pieces, between) == between + Glue(pieces, between)
  {
    assert ([""] + pieces)[1..] == pieces;
    assert "" + (between + Glue(pieces, between)) == between + Glue(pieces, between);
  }

  /** Replacing everywhere keeps the pieces and exchanges what stands between them: glued with the old text
      they are the old contents, glued with the new text they are the new contents. */
  lemma {:induction false} ReplaceAllExactly(s: string, needle: string, substitute: string)
    ensures Glue(Pieces(s, needle), needle) == s
    ensures Glue(Pieces(s, needle), substitute) == ReplaceAll(s, needle, substitute)
    ensures |Pieces(s, needle)| == Count(s, needle) + 1
  {
    if needle == "" && s == "" {
      assert ["", ""] == [""] + [""];
      GlueFirst([""], needle);
      GlueFirst([""], substitute);
      assert needle + "" == "" && substitute + "" == substitute;
    } else if needle == "" {
      var rest := Pieces(s[1..], needle);
      ReplaceAllExactly(s[1..], needle, substitute);
      GlueFirst(Longer(s[0], rest), needle);
      GlueFirst(Longer(s[0], rest), substitute);
      GlueLonger(s[0], rest, needle);
      GlueLonger(s[0], rest, substitute);
      assert needle + ([s[0]] + s[1..]) == s;
      assert substitute + ([s[0]] + ReplaceAll(s[1..], needle, substitute)) == ReplaceAll(s, needle, substitute);
    } else if |s| < |needle| {
    } else if needle <= s {
      ReplaceAllExactly(s[|needle|..], needle, substitute);
      GlueFirst(Pieces(s[|needle|..], needle), needle);
      GlueFirst(Pieces(s[|needle|..], needle), substitute);
    } else {
      ReplaceAllExactly(s[1..], needle, substitute);
      GlueLonger(s[0], Pieces(s[1..], needle), needle);
      GlueLonger(s[0], Pieces(s[1..], needle), substitute);
    }
  }

  /** No occurrence is left between the replaced ones. */
  lemma {:induction false} PiecesFree(s: string, needle: string, k: nat, j: nat)
    requires needle != "" && k < |Pieces(s, needle)|
    ensures !OccursAt(Pieces(s, needle)[k], needle, j)
    decreases |s|
  {
    if |s| < |needle| {
    } else if needle <= s {
      if k > 0 {
        PiecesFree(s[|needle|..], needle, k - 1, j);
      }
    } else {
      var rest := Pieces(s[1..], needle);
      if k > 0 {
        PiecesFree(s[1..], needle, k, j);
      } else {
        if j > 0 {
          PiecesFree(s[1..], needle, 0, j - 1);
        }
        ReplaceAllExactly(s[1..], needle, "");
        assert rest[0] <= s[1..];
        ExtendedFree(s, rest[0], needle, j);
      }
    }
  }

  lemma ExtendedFree(s: string, piece: string, needle: string, j: nat)
    requires s != "" && !(needle <= s) && piece <= s[1..] && (j > 0 ==> !OccursAt(piece, needle, j - 1))
    ensures !OccursAt([s[0]] + piece, needle, j)
  {
    var longer := [s[0]] + piece;
    assert longer <= s;
    if j == 0 {
      assert |longer| >= |needle| ==> longer[0..|needle|] == s[..|needle|];
    } else {
      assert j + |needle| <= |longer| ==> longer[j..j + |needle|] == piece[j - 1..j - 1 + |needle|];
    }
  }

  // ---------------------------------------------------------------- requests and answers

  datatype Scope = Scope(runtimeId: string, workspaceId: string, userId: string, conversationId: string, runId: string)

  datatype Tool = FileWrite | FileEdit | OtherTool | UnknownTool

  datatype Arguments = Arguments(path: string, content: string, expectedSha256: string, oldText: string,
                                 newText: string,
                                 createDirectories: bool, replaceAll: bool)

  /** `validJson` and `arguments` are what decoding makes of the raw arguments. */
  datatype Request = Request(scope: Scope, tool: Tool, validJson: bool, arguments: Option<Arguments>,
                             idempotencyKey: string, reconcile: bool)

  datatype Status = Completed | Failed | Uncertain

  /** The error codes, `coding_` left out of each. */
  datatype Code =
    | NoError | ScopeInvalid | InputInvalid | ReceiptLost | PathInvalid | FileUnavailable | VersionConflict
    | EditMatchInvalid | FileInvalid | WriteFailed | Foreign(id: nat)

  datatype Payload =
    | FileChange(operation: Tool, path: string, previousSha256: string, sha256: string, bytes: nat, reconciled: bool)
    | ErrorOnly
    | Opaque(id: nat)

  datatype Answer = Answer(status: Status, errorCode: Code, content: Payload)

  function Fails(code: Code): Answer { Answer(Failed, code, ErrorOnly) }
  const RECEIPT_UNAVAILABLE := Answer(Uncertain, ReceiptLost, ErrorOnly)

  /** A file holds text, or bytes that are not UTF-8. */
  datatype Content = Utf8(text: string) | Binary(id: nat)
  type Files = map<string, Content>
  type Receipts = map<string, Answer>

  /** What the operating system does during one call, and what any other tool answers. */
  datatype Environment = Environment(readFails: bool, mkdirFails: bool, tempFails: bool, writeFails: bool,
                                     renameFails: bool, other: Answer)

  /** SHA-256 in hexadecimal, and the cleaning of a relative path. */
  datatype Platform = Platform(digest: string -> string, clean: string -> Option<string>)

  ghost predicate HexDigests(p: Platform) { forall s :: |p.digest(s)| == 64 }

  const MAX_FILE_BYTES: nat := 1048576

  // ---------------------------------------------------------------- file write, as a function of the files

  datatype Effect = Effect(files: Files, answer: Answer, wrote: bool)

  predicate GuardHolds(p: Platform, files: Files, path: string, expected: string) {
    if expected == MISSING then path !in files
    else path in files && files[path].Utf8? && p.digest(files[path].text) == expected
  }

  function Before(files: Files, path: string): string {
    if path in files && files[path].Utf8? then files[path].text else ""
  }

  /** The text a write or edit would leave, if its match is valid. */
  function After(before: string, a: Arguments, edit: bool): Option<string> {
    if !edit then Some(a.content)
    else
      var n := Count(before, a.oldText);
      if n == 0 || (n > 1 && !a.replaceAll) then None
      else Some(if a.replaceAll then ReplaceAll(before, a.oldText, a.newText)
          else ReplaceFirst(before, a.oldText, a.newText))
  }

  function Operation(edit: bool): Tool { if edit then FileEdit else FileWrite }

  function Changed(p: Platform, files: Files, path: string, after: string, edit: bool): Answer {
    var previous := if path in files then p.digest(Before(files, path)) else MISSING;
    Answer(Completed, NoError, FileChange(Operation(edit), path, previous, p.digest(after), Text.ByteLen(after), false))
  }

  const MISSING: string := "missing"

  function Put(p: Platform, files: Files, path: string, after: string, a: Arguments, edit: bool, env: Environment)
      : Effect {
    if Text.ByteLen(after) > MAX_FILE_BYTES then Effect(files, Fails(FileInvalid), false)
    else if (a.createDirectories && env.mkdirFails) || env.tempFails || env.writeFails || env.renameFails then
      Effect(files, Fails(WriteFailed), false)
    else Effect(files[path := Utf8(after)], Changed(p, files, path, after, edit), true)
  }

  function Write(p: Platform, files: Files, arguments: Option<Arguments>, edit: bool, reconcile: bool,
                 env: Environment): Effect {
    if arguments.None? then Effect(files, Fails(InputInvalid), false)
    else
      var a := arguments.value;
      if p.clean(a.path).None? then Effect(files, Fails(PathInvalid), false)
      else
        var path := p.clean(a.path).value;
        var before := Before(files, path);
        if env.readFails || (path in files && files[path].Binary?) then Effect(files, Fails(FileUnavailable), false)
        else if reconcile && !edit && path in files && p.digest(before) == p.digest(a.content) then
          Effect(files, Answer(Completed, NoError,
              FileChange(FileWrite, path, a.expectedSha256, p.digest(before), Text.ByteLen(before), true)), false)
        else if !GuardHolds(p, files, path, a.expectedSha256) then
          Effect(files, if reconcile then RECEIPT_UNAVAILABLE else Fails(VersionConflict), false)
        else if After(before, a, edit).None? then Effect(files, Fails(EditMatchInvalid), false)
        else Put(p, files, path, After(before, a, edit).value, a, edit, env)
  }

  // ---------------------------------------------------------------- scope keys and receipt keys

  function Parts(s: Scope): seq<string> { [s.runtimeId, s.workspaceId, s.userId, s.conversationId, s.runId] }

  predicate Clean(part: string) {
    Text.Trim(part) != "" && forall c :: c in part ==> c != '\0' && c != '\r' && c != '\n'
  }

  predicate ScopeValid(s: Scope) {
    Clean(s.runtimeId) && Clean(s.workspaceId) && Clean(s.userId) && Clean(s.conversationId) && Clean(s.runId)
  }

  function Join(parts: seq<string>): string {
    if parts == [] then "" else if |parts| == 1 then parts[0] else parts[0] + (['\0'] + Join(parts[1..]))
  }

  function ScopeText(s: Scope): string { Join(Parts(s)) }

  function ScopeKey(p: Platform, s: Scope): string { p.digest(ScopeText(s)) }

  function ReceiptKey(p: Platform, s: Scope, key: string): string { ScopeKey(p, s) + (['\0'] + key) }

  predicate NulFree(s: string) { forall c :: c in s ==> c != '\0' }

  lemma NulCut(a: string, x: string, b: string, y: string)
    requires NulFree(a) && NulFree(b) && a + (['\0'] + x) == b + (['\0'] + y)
    ensures a == b && x == y
  {
    var s := a + (['\0'] + x);
    assert s[|a|] == '\0' && s[|b|] == '\0';
    forall i | 0 <= i < |a| ensures s[i] != '\0' { assert a[i] in a; }
    forall i | 0 <= i < |b| ensures s[i] != '\0' { assert b[i] in b; }
    assert a == s[..|a|] && b == s[..|b|];
    assert x == s[|a| + 1..] && y == s[|b| + 1..];
  }

  lemma {:induction false} JoinInjective(a: seq<string>, b: seq<string>)
    requires |a| == |b| && Join(a) == Join(b)
    requires forall i :: 0 <= i < |a| ==> NulFree(a[i]) && NulFree(b[i])
    ensures a == b
  {
    if |a| > 1 {
      NulCut(a[0], Join(a[1..]), b[0], Join(b[1..]));
      JoinInjective(a[1..], b[1..]);
      assert a == [a[0]] + a[1..] && b == [b[0]] + b[1..];
    }
  }

  /** Two valid scopes are hashed from the same text only if they are the same scope. */
  lemma ScopeTextInjective(s: Scope, t: Scope)
    requires ScopeValid(s) && ScopeValid(t) && ScopeText(s) == ScopeText(t)
    ensures s == t
  {
    JoinInjective(Parts(s), Parts(t));
    assert Parts(s)[0] == Parts(t)[0] && Parts(s)[1] == Parts(t)[1] && Parts(s)[2] == Parts(t)[2];
    assert Parts(s)[3] == Parts(t)[3] && Parts(s)[4] == Parts(t)[4];
  }

  /** The digests of these two scopes do not collide. */
  ghost predicate Apart(p: Platform, s: Scope, t: Scope) {
    ScopeKey(p, s) == ScopeKey(p, t) ==> ScopeText(s) == ScopeText(t)
  }

  lemma SameScopeKey(p: Platform, s: Scope, t: Scope)
    requires ScopeValid(s) && ScopeValid(t) && Apart(p, s, t)
    ensures ScopeKey(p, s) == ScopeKey(p, t) <==> s == t
  {
    if ScopeKey(p, s) == ScopeKey(p, t) {
      ScopeTextInjective(s, t);
    }
  }

  /** A receipt carries a scope's prefix exactly when it was issued under that scope's digest. */
  lemma PrefixExactly(p: Platform, s: Scope, t: Scope, key: string)
    requires HexDigests(p)
    ensures ScopeKey(p, s) + ['\0'] <= ReceiptKey(p, t, key) <==> ScopeKey(p, s) == ScopeKey(p, t)
  {
    var r := ReceiptKey(p, t, key);
    assert r[..64] == ScopeKey(p, t);
    if ScopeKey(p, s) + ['\0'] <= r {
      assert (ScopeKey(p, s) + ['\0'])[..64] == r[..65][..64];
    }
    if ScopeKey(p, s) == ScopeKey(p, t) {
      assert r[..65] == ScopeKey(p, s) + ['\0'];
    }
  }

  lemma ReceiptKeyInjective(p: Platform, s: Scope, t: Scope, j: string, k: string)
    requires HexDigests(p) && ReceiptKey(p, s, j) == ReceiptKey(p, t, k)
    ensures ScopeKey(p, s) == ScopeKey(p, t) && j == k
  {
    var r := ReceiptKey(p, s, j);
    assert r[..64] == ScopeKey(p, s) && r[..64] == ScopeKey(p, t);
    assert r[65..] == j && r[65..] == k;
  }

  // ---------------------------------------------------------------- the runtime as a state machine

  datatype State = State(files: Files, receipts: Receipts)

  /** A request that gets past validation: only these reach the receipts. */
  predicate Accepted(q: Request) { ScopeValid(q.scope) && !q.tool.UnknownTool? && q.validJson }

  function Rejection(q: Request): Answer {
    if !ScopeValid(q.scope) then Fails(ScopeInvalid) else Fails(InputInvalid)
  }

  function RunTool(p: Platform, files: Files, q: Request, env: Environment): Effect {
    if q.tool.OtherTool? then Effect(files, env.other, false)
    else Write(p, files, q.arguments, q.tool.FileEdit?, q.reconcile, env)
  }

  datatype Outcome = Outcome(state: State, answer: Answer, wrote: bool)

  /** A valid request, under the slot its receipt has. */
  function Serve(p: Platform, s: State, slot: string, q: Request, env: Environment): Outcome {
    if q.idempotencyKey != "" && slot in s.receipts then Outcome(s, s.receipts[slot], false)
    else if q.idempotencyKey != "" && q.reconcile && q.tool.OtherTool? then Outcome(s, RECEIPT_UNAVAILABLE, false)
    else
      var e := RunTool(p, s.files, q, env);
      var keep := q.idempotencyKey != "" && !e.answer.status.Uncertain?;
      Outcome(State(e.files, if keep then s.receipts[slot := e.answer] else s.receipts), e.answer, e.wrote)
  }

  /** `ExecuteConversationCoding`. */
  function Execute(p: Platform, s: State, q: Request, env: Environment): Outcome {
    if Accepted(q) then Serve(p, s, ReceiptKey(p, q.scope, q.idempotencyKey), q, env)
    else Outcome(s, Rejection(q), false)
  }

  function Without(p: Platform, receipts: Receipts, scope: Scope): Receipts {
    map k | k in receipts && !(ScopeKey(p, scope) + ['\0'] <= k) :: receipts[k]
  }

  function Closed(p: Platform, s: State, scope: Scope): State {
    if ScopeValid(scope) then s.(receipts := Without(p, s.receipts, scope)) else s
  }

  /** What happens to a runtime: calls, closes, and anything else that rewrites the workspace's files. */
  datatype Event = Call(request: Request, env: Environment) | Close(scope: Scope) | Elsewhere(files: Files)

  function Step(p: Platform, s: State, e: Event): State {
    match e
    case Call(q, env) => Execute(p, s, q, env).state
    case Close(scope) => Closed(p, s, scope)
    case Elsewhere(files) => s.(files := files)
  }

  function Run(p: Platform, s: State, events: seq<Event>): State
    decreases |events|
  {
    if events == [] then s else Run(p, Step(p, s, events[0]), events[1..])
  }

  /** The call is made under this scope and key, and puts a file in place. */
  predicate WritesUnder(p: Platform, s: State, e: Event, scope: Scope, key: string) {
    e.Call? && e.request.scope == scope && e.request.idempotencyKey == key && Execute(p, s, e.request, e.env).wrote
  }

  function Writes(p: Platform, s: State, events: seq<Event>, scope: Scope, key: string): nat
    decreases |events|
  {
    if events == [] then 0
    else
      var now := if WritesUnder(p, s, events[0], scope, key) then 1 else 0;
      now + Writes(p, Step(p, s, events[0]), events[1..], scope, key)
  }

  /** No close in the run bears on the scope: it names another scope, whose digest differs. */
  ghost predicate NeverClosed(p: Platform, events: seq<Event>, scope: Scope) {
    forall i :: 0 <= i < |events| && events[i].Close? ==> events[i].scope != scope && Apart(p, events[i].scope, scope)
  }

  // ---------------------------------------------------------------- what one call keeps

  lemma WriteEffect(p: Platform, files: Files, arguments: Option<Arguments>, edit: bool, reconcile: bool,
                    env: Environment)
    ensures var e := Write(p, files, arguments, edit, reconcile, env);
            && (!e.wrote ==> e.files == files)
            && (e.wrote ==> e.answer.status.Completed? && e.answer.content.FileChange? && !e.answer.content.reconciled)
            && (e.answer.status.Uncertain? ==> reconcile && e.answer == RECEIPT_UNAVAILABLE)
  {
  }

  lemma ServeEffect(p: Platform, s: State, slot: string, q: Request, env: Environment)
    ensures var o := Serve(p, s, slot, q, env);
            && (!o.wrote ==> o.state.files == s.files)
            && (o.answer.status.Uncertain? && !(slot in s.receipts) ==> o.state == s)
            && (slot in s.receipts ==> slot in o.state.receipts && o.state.receipts[slot] == s.receipts[slot])
            && (q.idempotencyKey != "" && slot in s.receipts ==>
                   o.state == s && o.answer == s.receipts[slot] && !o.wrote)
            && (q.idempotencyKey != "" && o.wrote ==> slot in o.state.receipts)
            && (q.idempotencyKey != "" && !o.answer.status.Uncertain? ==>
                   slot in o.state.receipts && o.state.receipts[slot] == o.answer)
            && (forall k :: k in s.receipts ==>
                   k in o.state.receipts && (o.state.receipts[k] == s.receipts[k] || k == slot))
  {
    WriteEffect(p, s.files, q.arguments, q.tool.FileEdit?, q.reconcile, env);
  }

  // ---------------------------------------------------------------- at most once

  /** A receipt outlives every event but the closing of its own scope. */
  lemma ReceiptKept(p: Platform, s: State, e: Event, scope: Scope, key: string)
    requires HexDigests(p) && ScopeValid(scope) && ReceiptKey(p, scope, key) in s.receipts
    requires e.Close? ==> e.scope != scope && Apart(p, e.scope, scope)
    ensures var slot := ReceiptKey(p, scope, key);
            slot in Step(p, s, e).receipts && Step(p, s, e).receipts[slot] == s.receipts[slot]
  {
    match e
    case Call(q, env) => ServeEffect(p, s, ReceiptKey(p, q.scope, q.idempotencyKey), q, env);
    case Close(t) =>
      if ScopeValid(t) {
        SameScopeKey(p, t, scope);
        PrefixExactly(p, t, scope, key);
      }
    case Elsewhere(_) =>
  }

  lemma {:induction false} ReceiptKeptThroughout(p: Platform, s: State, events: seq<Event>, scope: Scope, key: string)
    requires HexDigests(p) && ScopeValid(scope) && ReceiptKey(p, scope, key) in s.receipts
             && NeverClosed(p, events, scope)
    ensures var slot := ReceiptKey(p, scope, key);
            slot in Run(p, s, events).receipts && Run(p, s, events).receipts[slot] == s.receipts[slot]
    ensures key != "" ==> Writes(p, s, events, scope, key) == 0
    decreases |events|
  {
    if events != [] {
      var e := events[0];
      ReceiptKept(p, s, e, scope, key);
      RestNeverClosed(p, events, scope);
      ReceiptKeptThroughout(p, Step(p, s, e), events[1..], scope, key);
      if WritesUnder(p, s, e, scope, key) {
        ServeEffect(p, s, ReceiptKey(p, scope, key), e.request, e.env);
      }
    }
  }

  lemma RestNeverClosed(p: Platform, events: seq<Event>, scope: Scope)
    requires events != [] && NeverClosed(p, events, scope)
    ensures NeverClosed(p, events[1..], scope)
  {
    forall i | 0 <= i < |events[1..]| && events[1..][i].Close?
      ensures events[1..][i].scope != scope && Apart(p, events[1..][i].scope, scope)
    {
      assert events[i + 1] == events[1..][i];
    }
  }

  /** Between two closes of a scope, whatever else happens, each non-empty idempotency key of the scope puts a
      file in place at most once. */
  lemma {:induction false} AtMostOnce(p: Platform, s: State, events: seq<Event>, scope: Scope, key: string)
    requires HexDigests(p) && key != "" && NeverClosed(p, events, scope)
    ensures Writes(p, s, events, scope, key) <= 1
    decreases |events|
  {
    if events != [] {
      var e := events[0];
      RestNeverClosed(p, events, scope);
      if WritesUnder(p, s, e, scope, key) {
        ServeEffect(p, s, ReceiptKey(p, scope, key), e.request, e.env);
        ReceiptKeptThroughout(p, Step(p, s, e), events[1..], scope, key);
      } else {
        AtMostOnce(p, Step(p, s, e), events[1..], scope, key);
      }
    }
  }

  /** Once a call has an answer that is not uncertain, every later call under its scope and key, whatever it
      asks for, gets that answer and changes nothing. */
  lemma ReplayReturnsStored(p: Platform, s: State, q: Request, env: Environment, between: seq<Event>, again: Request,
                            later: Environment)
    requires HexDigests(p) && Accepted(q) && q.idempotencyKey != "" && NeverClosed(p, between, q.scope)
    requires !Execute(p, s, q, env).answer.status.Uncertain?
    requires Accepted(again) && again.scope == q.scope && again.idempotencyKey == q.idempotencyKey
    ensures var t := Run(p, Execute(p, s, q, env).state, between);
            Execute(p, t, again, later) == Outcome(t, Execute(p, s, q, env).answer, false)
  {
    var slot := ReceiptKey(p, q.scope, q.idempotencyKey);
    ServeEffect(p, s, slot, q, env);
    var next := Execute(p, s, q, env).state;
    ReceiptKeptThroughout(p, next, between, q.scope, q.idempotencyKey);
    ServeEffect(p, Run(p, next, between), slot, again, later);
  }

  /** An answer that is uncertain, or an error, goes with unchanged files. */
  lemma OnlyCompletedWrites(p: Platform, s: State, q: Request, env: Environment)
    ensures Execute(p, s, q, env).state.files != s.files ==>
              Execute(p, s, q, env).wrote && Execute(p, s, q, env).answer.status.Completed?
  {
    WriteEffect(p, s.files, q.arguments, q.tool.FileEdit?, q.reconcile, env);
    ServeEffect(p, s, ReceiptKey(p, q.scope, q.idempotencyKey), q, env);
  }

  /** Closing a scope forgets exactly its receipts. */
  lemma CloseExactly(p: Platform, s: State, scope: Scope, t: Scope, key: string)
    requires HexDigests(p) && ScopeValid(scope) && ScopeValid(t) && Apart(p, scope, t)
    ensures var slot, after := ReceiptKey(p, t, key), Closed(p, s, scope);
            && (slot in after.receipts <==> slot in s.receipts && t != scope)
            && (slot in after.receipts ==> after.receipts[slot] == s.receipts[slot]) && after.files == s.files
  {
    SameScopeKey(p, scope, t);
    PrefixExactly(p, scope, t, key);
  }

  // ---------------------------------------------------------------- the hash guard

  /** What a write that took place did: the version it replaced is the one it named, one path changed, and the
      answer describes the new text. */
  lemma WroteExactly(p: Platform, files: Files, a: Arguments, edit: bool, reconcile: bool, env: Environment)
    requires Write(p, files, Some(a), edit, reconcile, env).wrote
    ensures p.clean(a.path).Some?
    ensures var e, path := Write(p, files, Some(a), edit, reconcile, env), p.clean(a.path).value;
            && (if a.expectedSha256 == "missing" then path !in files
                else path in files && files[path].Utf8? && p.digest(files[path].text) == a.expectedSha256)
            && After(Before(files, path), a, edit).Some?
            && var after := After(Before(files, path), a, edit).value;
               && (!edit ==> after == a.content)
               && e.files == files[path := Utf8(after)] && Text.ByteLen(after) <= 1048576
               && e.answer == Answer(Completed, NoError,
                    FileChange(if edit then FileEdit else FileWrite, path, a.expectedSha256, p.digest(after),
                               Text.ByteLen(after), false))
  {
  }

  /** What a write has to get past, in order. */
  datatype Hurdle = Decoded | PathClean | Readable | NotThereYet | VersionNamed | TextFound | SmallEnough | Stored

  const HURDLES: seq<Hurdle> :=
    [Decoded, PathClean, Readable, NotThereYet, VersionNamed, TextFound, SmallEnough, Stored]

  /** The text at the path of the arguments, if there is one. */
  function TextAt(p: Platform, files: Files, a: Arguments): Option<string> {
    if p.clean(a.path).Some? && p.clean(a.path).value in files && files[p.clean(a.path).value].Utf8? then
      Some(files[p.clean(a.path).value].text)
    else None
  }

  function Cleaned(p: Platform, a: Arguments): string {
    if p.clean(a.path).Some? then p.clean(a.path).value else ""
  }

  predicate Cleared(p: Platform, files: Files, a: Arguments, edit: bool, reconcile: bool, env: Environment, h: Hurdle) {
    var path := Cleaned(p, a);
    var text := TextAt(p, files, a);
    var before := if text.Some? then text.value else "";
    match h
    case Decoded => true
    case PathClean => p.clean(a.path).Some?
    case Readable => !env.readFails && (path in files ==> files[path].Utf8?)
    case NotThereYet => !(reconcile && !edit && text.Some? && p.digest(before) == p.digest(a.content))
    case VersionNamed =>
      if a.expectedSha256 == "missing" then path !in files
      else text.Some? && p.digest(before) == a.expectedSha256
    case TextFound =>
      edit ==> Count(before, a.oldText) == 1 || (Count(before, a.oldText) > 1 && a.replaceAll)
    case SmallEnough => After(before, a, edit).Some? ==> Text.ByteLen(After(before, a, edit).value) <= 1048576
    case Stored =>
      !(a.createDirectories && env.mkdirFails) && !env.tempFails && !env.writeFails && !env.renameFails
  }

  /** What a write that stops at a hurdle answers. */
  function Stopped(p: Platform, files: Files, a: Arguments, reconcile: bool, h: Hurdle): Answer {
    match h
    case Decoded => Fails(InputInvalid)
    case PathClean => Fails(PathInvalid)
    case Readable => Fails(FileUnavailable)
    case NotThereYet =>
      var text := if TextAt(p, files, a).Some? then TextAt(p, files, a).value else "";
      Answer(Completed, NoError,
             FileChange(FileWrite, Cleaned(p, a), a.expectedSha256, p.digest(text), Text.ByteLen(text), true))
    case VersionNamed => if reconcile then Answer(Uncertain, ReceiptLost, ErrorOnly) else Fails(VersionConflict)
    case TextFound => Fails(EditMatchInvalid)
    case SmallEnough => Fails(FileInvalid)
    case Stored => Fails(WriteFailed)
  }

  lemma FileRead(p: Platform, files: Files, a: Arguments, edit: bool, reconcile: bool, env: Environment)
    requires Cleared(p, files, a, edit, reconcile, env, PathClean)
    requires Cleared(p, files, a, edit, reconcile, env, Readable)
    requires Cleared(p, files, a, edit, reconcile, env, NotThereYet)
    requires Cleared(p, files, a, edit, reconcile, env, VersionNamed)
    ensures var path := Cleaned(p, a);
            var after := After(Before(files, path), a, edit);
            Write(p, files, Some(a), edit, reconcile, env) ==
            if after.None? then Effect(files, Fails(EditMatchInvalid), false)
            else Put(p, files, path, after.value, a, edit, env)
    ensures Before(files, Cleaned(p, a)) == if TextAt(p, files, a).Some? then TextAt(p, files, a).value else ""
  {
  }

  /** A write that does not clear a hurdle, and clears all before it, changes nothing and answers accordingly. */
  lemma StoppedExactly(p: Platform, files: Files, a: Arguments, edit: bool, reconcile: bool, env: Environment, k: nat)
    requires k < |HURDLES| && !Cleared(p, files, a, edit, reconcile, env, HURDLES[k])
    requires forall i :: 0 <= i < k ==> Cleared(p, files, a, edit, reconcile, env, HURDLES[i])
    ensures Write(p, files, Some(a), edit, reconcile, env) ==
                Effect(files, Stopped(p, files, a, reconcile, HURDLES[k]), false)
  {
    assert k > 1 ==> Cleared(p, files, a, edit, reconcile, env, HURDLES[1]);
    assert k > 2 ==> Cleared(p, files, a, edit, reconcile, env, HURDLES[2]);
    assert k > 3 ==> Cleared(p, files, a, edit, reconcile, env, HURDLES[3]);
    if k > 4 {
      assert Cleared(p, files, a, edit, reconcile, env, HURDLES[4]);
      FileRead(p, files, a, edit, reconcile, env);
      assert k > 5 ==> Cleared(p, files, a, edit, reconcile, env, HURDLES[5]);
      assert k > 6 ==> Cleared(p, files, a, edit, reconcile, env, HURDLES[6]);
    }
  }

  /** A write puts its file in place exactly when it clears every hurdle. */
  lemma WritesExactly(p: Platform, files: Files, a: Arguments, edit: bool, reconcile: bool, env: Environment)
    ensures Write(p, files, Some(a), edit, reconcile, env).wrote <==>
            forall h :: Cleared(p, files, a, edit, reconcile, env, h)
    ensures Write(p, files, None, edit, reconcile, env) == Effect(files, Fails(InputInvalid), false)
  {
    if forall h :: Cleared(p, files, a, edit, reconcile, env, h) {
      FileRead(p, files, a, edit, reconcile, env);
      assert Cleared(p, files, a, edit, reconcile, env, TextFound);
      assert Cleared(p, files, a, edit, reconcile, env, SmallEnough);
      assert Cleared(p, files, a, edit, reconcile, env, Stored);
    } else {
      var k := FirstHurdle(p, files, a, edit, reconcile, env, 0);
      StoppedExactly(p, files, a, edit, reconcile, env, k);
    }
  }

  lemma {:induction false} FirstHurdle(p: Platform, files: Files, a: Arguments, edit: bool, reconcile: bool,
                                       env: Environment, n: nat) returns (k: nat)
    requires n <= |HURDLES| && forall i :: 0 <= i < n ==> Cleared(p, files, a, edit, reconcile, env, HURDLES[i])
    requires exists h :: !Cleared(p, files, a, edit, reconcile, env, h)
    ensures k < |HURDLES| && !Cleared(p, files, a, edit, reconcile, env, HURDLES[k])
    ensures forall i :: 0 <= i < k ==> Cleared(p, files, a, edit, reconcile, env, HURDLES[i])
    decreases |HURDLES| - n
  {
    if n == |HURDLES| {
      var h :| !Cleared(p, files, a, edit, reconcile, env, h);
      assert h in HURDLES by { HurdlesListed(h); }
    }
    k := n;
    if Cleared(p, files, a, edit, reconcile, env, HURDLES[n]) {
      k := FirstHurdle(p, files, a, edit, reconcile, env, n + 1);
    }
  }

  lemma HurdlesListed(h: Hurdle)
    ensures h in HURDLES
  {
    assert HURDLES[0].Decoded? && HURDLES[1].PathClean? && HURDLES[2].Readable? && HURDLES[3].NotThereYet?;
    assert HURDLES[4].VersionNamed? && HURDLES[5].TextFound? && HURDLES[6].SmallEnough? && HURDLES[7].Stored?;
  }

  /** Which requests are turned away, and with which error: every part of the scope must be named and free of
      NUL and line breaks. A request turned away changes nothing, and neither does closing such a scope. */
  lemma RejectedExactly(p: Platform, s: State, q: Request, env: Environment)
    ensures var sound := forall part :: part in [q.scope.runtimeId, q.scope.workspaceId, q.scope.userId,
                                                 q.scope.conversationId, q.scope.runId] ==>
                           Text.Trim(part) != "" && '\0' !in part && '\r' !in part && '\n' !in part;
            && (!sound ==>
                  Execute(p, s, q, env) == Outcome(s, Fails(ScopeInvalid), false) && Closed(p, s, q.scope) == s)
            && (sound && (q.tool.UnknownTool? || !q.validJson) ==>
                  Execute(p, s, q, env) == Outcome(s, Fails(InputInvalid), false))
            && (sound <==> ScopeValid(q.scope))
            && (sound && !q.tool.UnknownTool? && q.validJson <==> Accepted(q))
  {
    var parts := [q.scope.runtimeId, q.scope.workspaceId, q.scope.userId, q.scope.conversationId, q.scope.runId];
    assert parts[0] in parts && parts[1] in parts && parts[2] in parts && parts[3] in parts && parts[4] in parts;
    assert ScopeValid(q.scope) <==> forall part :: part in parts ==> Clean(part);
  }

  /** A request that finds no receipt of its own: asked to reconcile, a tool other than the file tool cannot tell;
      otherwise the tool runs, and its answer is kept exactly when there is a key and the answer is certain. */
  lemma ServedFresh(p: Platform, s: State, q: Request, env: Environment)
    requires Accepted(q)
    requires q.idempotencyKey == "" || ReceiptKey(p, q.scope, q.idempotencyKey) !in s.receipts
    ensures var o, slot := Execute(p, s, q, env), ReceiptKey(p, q.scope, q.idempotencyKey);
            var ran := if q.tool.OtherTool? then env.other
                       else Write(p, s.files, q.arguments, q.tool.FileEdit?, q.reconcile, env).answer;
            && (q.tool.OtherTool? ==> o.state.files == s.files && !o.wrote)
            && (q.tool.OtherTool? && q.reconcile && q.idempotencyKey != "" ==>
                  o == Outcome(s, Answer(Uncertain, ReceiptLost, ErrorOnly), false))
            && (!(q.tool.OtherTool? && q.reconcile && q.idempotencyKey != "") ==>
                  && o.answer == ran
                  && o.state.receipts ==
                     (if q.idempotencyKey != "" && !ran.status.Uncertain? then s.receipts[slot := ran] else s.receipts))
  {
  }

  lemma JoinNext(part: string, rest: seq<string>)
    requires rest != []
    ensures Join([part] + rest) == part + (['\0'] + Join(rest))
  {
    assert ([part] + rest)[1..] == rest;
  }

  /** The text a scope is hashed from, in full. */
  lemma ScopeTextSpelled(s: Scope)
    ensures ScopeText(s) ==
            s.runtimeId + (['\0'] + (s.workspaceId + (['\0'] + (s.userId + (['\0'] +
              (s.conversationId + (['\0'] + s.runId)))))))
  {
    var c, u := [s.conversationId] + [s.runId], [s.userId] + ([s.conversationId] + [s.runId]);
    var w := [s.workspaceId] + u;
    JoinNext(s.conversationId, [s.runId]);
    JoinNext(s.userId, c);
    JoinNext(s.workspaceId, u);
    JoinNext(s.runtimeId, w);
    assert Parts(s) == [s.runtimeId] + w;
  }

  // ---------------------------------------------------------------- version histories

  /** The version of a path: the digest of its text, or that it is missing; none for bytes that are not text. */
  function Version(p: Platform, files: Files, path: string): Option<string> {
    if path !in files then Some(MISSING) else if files[path].Utf8? then Some(p.digest(files[path].text)) else None
  }

  /** The version change a call reports for a path, if it put that path in place. */
  function Reported(p: Platform, s: State, e: Event, path: string): seq<(string, string)> {
    if e.Call? && Execute(p, s, e.request, e.env).wrote then
      var content := Execute(p, s, e.request, e.env).answer.content;
      if content.FileChange? && content.path == path then [(content.previousSha256, content.sha256)] else []
    else []
  }

  function History(p: Platform, s: State, events: seq<Event>, path: string): seq<(string, string)>
    decreases |events|
  {
    if events == [] then [] else Reported(p, s, events[0], path) + History(p, Step(p, s, events[0]), events[1..], path)
  }

  /** Each change starts from the version the one before it left. */
  predicate Chain(from: Option<string>, changes: seq<(string, string)>, to: Option<string>)
    decreases |changes|
  {
    if changes == [] then from == to else from == Some(changes[0].0) && Chain(Some(changes[0].1), changes[1..], to)
  }

  lemma WriteVersions(p: Platform, files: Files, arguments: Option<Arguments>, edit: bool, reconcile: bool,
                      env: Environment, path: string)
    ensures var e := Write(p, files, arguments, edit, reconcile, env);
            && (e.wrote ==> e.answer.content.FileChange?)
            && (e.wrote && e.answer.content.path == path ==>
                  Version(p, files, path) == Some(e.answer.content.previousSha256)
                  && Version(p, e.files, path) == Some(e.answer.content.sha256))
            && (!e.wrote || e.answer.content.path != path ==> Version(p, e.files, path) == Version(p, files, path))
  {
    if Write(p, files, arguments, edit, reconcile, env).wrote {
      WroteExactly(p, files, arguments.value, edit, reconcile, env);
    }
  }

  lemma StepVersions(p: Platform, s: State, e: Event, path: string)
    requires !e.Elsewhere?
    ensures Chain(Version(p, s.files, path), Reported(p, s, e, path), Version(p, Step(p, s, e).files, path))
    ensures |Reported(p, s, e, path)| <= 1
  {
    if e.Call? {
      var q := e.request;
      WriteVersions(p, s.files, q.arguments, q.tool.FileEdit?, q.reconcile, e.env, path);
      ServeEffect(p, s, ReceiptKey(p, q.scope, q.idempotencyKey), q, e.env);
      var reported := Reported(p, s, e, path);
      if reported != [] {
        assert reported[1..] == [];
      }
    }
  }

  /** As long as only these tools touch the workspace, the changes reported for a file are its gap-free version
      history, over every run, all scopes and keys together: each starts from the version the one before it left,
      the first from what was there, and the last leads to what is there now. */
  lemma {:induction false} VersionChain(p: Platform, s: State, events: seq<Event>, path: string)
    requires forall i :: 0 <= i < |events| ==> !events[i].Elsewhere?
    ensures Chain(Version(p, s.files, path), History(p, s, events, path), Version(p, Run(p, s, events).files, path))
    decreases |events|
  {
    if events != [] {
      var e, rest := events[0], events[1..];
      StepVersions(p, s, e, path);
      VersionChain(p, Step(p, s, e), rest, path);
      var now, later := Reported(p, s, e, path), History(p, Step(p, s, e), rest, path);
      if now == [] {
        assert now + later == later;
      } else {
        assert now[1..] == [] && (now + later)[1..] == later;
      }
    }
  }

  /** An edit without replace-all rewrites the first occurrence of its old text and keeps everything around it.
      The text was counted once; it occurs nowhere else exactly when no second occurrence overlaps the first. */
  lemma SingleEdit(before: string, a: Arguments) returns (i: nat)
    requires !a.replaceAll && After(before, a, true).Some?
    ensures Count(before, a.oldText) == 1 && FirstAt(before, a.oldText, i)
    ensures After(before, a, true).value == before[..i] + a.newText + before[i + |a.oldText|..]
    ensures (forall j: nat :: OccursAt(before, a.oldText, j) ==> j == i) <==> NoneOverlaps(before, a.oldText, i)
  {
    i := ReplaceFirstExactly(before, a.oldText, a.newText);
    OnlyOccurrenceExactly(before, a.oldText, i);
  }

  /** So an edit may be accepted although its old text occurs twice. */
  lemma OverlappingEditAccepted(a: Arguments)
    requires a.oldText == "aa" && a.newText == "b" && !a.replaceAll
    ensures After("aaa", a, true) == Some("ba") && OccursAt("aaa", "aa", 0) && OccursAt("aaa", "aa", 1)
  {
    var s := "aaa";
    assert s[0..2] == "aa" && s[1..3] == "aa" && s[2..] == "a";
    assert Count("a", "aa") == 0;
    assert s[..2] == "aa" && Count(s, "aa") == 1;
    assert ReplaceFirst(s, "aa", "b") == "b" + "a" == "ba";
  }

  /** An edit with replace-all keeps the pieces between the occurrences and exchanges what stands between them. */
  lemma EveryEdit(before: string, a: Arguments)
    requires a.replaceAll && After(before, a, true).Some?
    ensures var pieces := Pieces(before, a.oldText);
            && |pieces| >= 2 && Glue(pieces, a.oldText) == before
               && Glue(pieces, a.newText) == After(before, a, true).value
            && (a.oldText != "" ==> forall k, j: nat :: 0 <= k < |pieces| ==> !OccursAt(pieces[k], a.oldText, j))
  {
    ReplaceAllExactly(before, a.oldText, a.newText);
    if a.oldText != "" {
      forall k, j: nat | 0 <= k < |Pieces(before, a.oldText)| ensures !OccursAt(Pieces(before, a.oldText)[k],
          a.oldText, j) {
        PiecesFree(before, a.oldText, k, j);
      }
    }
  }

  ghost predicate SamePath(p: Platform, a: Arguments, b: Arguments) {
    p.clean(a.path).Some? && p.clean(a.path) == p.clean(b.path)
  }

  /** The file is as a write left it. */
  ghost predicate Untouched(p: Platform, left: Files, now: Files, a: Arguments) {
    p.clean(a.path).Some? && p.clean(a.path).value in left && p.clean(a.path).value in now
    && left[p.clean(a.path).value] == now[p.clean(a.path).value]
  }

  /** No lost update: after one write, another that still names an older version is refused. */
  lemma StaleWriteRefused(p: Platform, files: Files, a: Arguments, edit: bool, reconcile: bool, env: Environment,
                          now: Files, b: Arguments, editAgain: bool, later: Environment)
    requires HexDigests(p) && Write(p, files, Some(a), edit, reconcile, env).wrote
    requires Untouched(p, Write(p, files, Some(a), edit, reconcile, env).files, now, a)
    requires SamePath(p, a, b) && b.expectedSha256 != Write(p, files, Some(a), edit, reconcile,
                 env).answer.content.sha256 && !later.readFails
    ensures Write(p, now, Some(b), editAgain, false, later) == Effect(now, Fails(VersionConflict), false)
  {
    WroteExactly(p, files, a, edit, reconcile, env);
  }

  /** Retrying a write whose answer and receipt were lost: reconciliation recognises the text it left, repeats
      the answer, and writes nothing. */
  lemma LostWriteReconciles(p: Platform, files: Files, a: Arguments, reconcile: bool, env: Environment, now: Files,
                            later: Environment)
    requires Write(p, files, Some(a), false, reconcile, env).wrote && !later.readFails
    requires Untouched(p, Write(p, files, Some(a), false, reconcile, env).files, now, a)
    ensures var first := Write(p, files, Some(a), false, reconcile, env).answer;
            Write(p, now, Some(a), false, true, later) ==
                Effect(now, first.(content := first.content.(reconciled := true)), false)
  {
    WroteExactly(p, files, a, false, reconcile, env);
  }

  /** An edit cannot be recognised that way: its retry is uncertain, and writes nothing, exactly unless the edit
      had left a text with the digest it started from. */
  lemma LostEditStaysUncertain(p: Platform, files: Files, a: Arguments, reconcile: bool, env: Environment, now: Files,
                               later: Environment)
    requires HexDigests(p) && Write(p, files, Some(a), true, reconcile, env).wrote && !later.readFails
    requires Untouched(p, Write(p, files, Some(a), true, reconcile, env).files, now, a)
    ensures Write(p, now, Some(a), true, true, later) == Effect(now, RECEIPT_UNAVAILABLE, false) <==>
            Write(p, files, Some(a), true, reconcile, env).answer.content.sha256 != a.expectedSha256
  {
    WroteExactly(p, files, a, true, reconcile, env);
  }

  // ---------------------------------------------------------------- the runtime itself

  class CodingRuntime {
    const platform: Platform
    var files: Files
    var receipts: Receipts

    function Contents(): State
      reads this
    {
      State(files, receipts)
    }

    constructor (platform: Platform, files: Files)
      ensures this.platform == platform && Contents() == State(files, map[])
    {
      this.platform, this.files, receipts := platform, files, map[];
    }

    /** `fileWrite`, under the file lock. */
    method FileWriteTool(arguments: Option<Arguments>, edit: bool, reconcile: bool, env: Environment)
        returns (answer: Answer)
      modifies this`files
      ensures files == Write(platform, old(files), arguments, edit, reconcile, env).files
      ensures answer == Write(platform, old(files), arguments, edit, reconcile, env).answer
    {
      if arguments.None? {
        return Fails(InputInvalid);
      }
      var a := arguments.value;
      var cleaned := platform.clean(a.path);
      if cleaned.None? {
        return Fails(PathInvalid);
      }
      var path := cleaned.value;
      var present := path in files;
      if env.readFails || (present && files[path].Binary?) {
        return Fails(FileUnavailable);
      }
      var before := Before(files, path);
      if reconcile && !edit && present && platform.digest(before) == platform.digest(a.content) {
        return Answer(Completed, NoError,
                      FileChange(FileWrite, path, a.expectedSha256, platform.digest(before), Text.ByteLen(before),
                          true));
      }
      if a.expectedSha256 == MISSING {
        if present {
          return if reconcile then RECEIPT_UNAVAILABLE else Fails(VersionConflict);
        }
      } else if !present || platform.digest(before) != a.expectedSha256 {
        return if reconcile then RECEIPT_UNAVAILABLE else Fails(VersionConflict);
      }
      var after := a.content;
      if edit {
        var count := Count(before, a.oldText);
        if count == 0 || (count > 1 && !a.replaceAll) {
          return Fails(EditMatchInvalid);
        }
        after := if a.replaceAll then ReplaceAll(before, a.oldText, a.newText)
        else ReplaceFirst(before, a.oldText, a.newText);
      }
      answer := PutInPlace(path, after, a, edit, env);
    }

    /** The second half: a temporary file, then a rename over the path. */
    method PutInPlace(path: string, after: string, a: Arguments, edit: bool, env: Environment) returns (answer: Answer)
      modifies this`files
      ensures files == Put(platform, old(files), path, after, a, edit, env).files
      ensures answer == Put(platform, old(files), path, after, a, edit, env).answer
    {
      if Text.ByteLen(after) > MAX_FILE_BYTES {
        return Fails(FileInvalid);
      }
      if a.createDirectories && env.mkdirFails {
        return Fails(WriteFailed);
      }
      if env.tempFails || env.writeFails {
        return Fails(WriteFailed);
      }
      if env.renameFails {
        return Fails(WriteFailed);
      }
      answer := Changed(platform, files, path, after, edit);
      files := files[path := Utf8(after)];
    }

    method ExecuteConversationCoding(q: Request, env: Environment) returns (answer: Answer)
      modifies this
      ensures Contents() == Execute(platform, old(Contents()), q, env).state
      ensures answer == Execute(platform, old(Contents()), q, env).answer
    {
      if !Accepted(q) {
        return Rejection(q);
      }
      var slot := ReceiptKey(platform, q.scope, q.idempotencyKey);
      answer := ServeRequest(slot, q, env);
    }

    method ServeRequest(slot: string, q: Request, env: Environment) returns (answer: Answer)
      modifies this
      ensures Contents() == Serve(platform, old(Contents()), slot, q, env).state
      ensures answer == Serve(platform, old(Contents()), slot, q, env).answer
    {
      if q.idempotencyKey != "" {
        if slot in receipts {
          return receipts[slot];
        }
        if q.reconcile && q.tool.OtherTool? {
          return RECEIPT_UNAVAILABLE;
        }
      }
      if q.tool.OtherTool? {
        answer := env.other;
      } else {
        answer := FileWriteTool(q.arguments, q.tool.FileEdit?, q.reconcile, env);
      }
      if q.idempotencyKey != "" && !answer.status.Uncertain? {
        receipts := receipts[slot := answer];
      }
    }

    /** Deletes, while walking the receipts in any order, those that start with the scope's prefix. */
    method CloseConversationCodingScope(scope: Scope) returns (valid: bool)
      modifies this`receipts
      ensures valid == ScopeValid(scope) && Contents() == Closed(platform, old(Contents()), scope)
    {
      valid := ScopeValid(scope);
      if !valid {
        return;
      }
      var prefix := ScopeKey(platform, scope) + ['\0'];
      var left := receipts.Keys;
      while left != {}
        invariant left <= receipts.Keys <= old(receipts).Keys
        invariant forall k :: k in receipts ==> receipts[k] == old(receipts)[k]
        invariant forall k :: k in old(receipts) ==> (k in receipts <==> k in left || !(prefix <= k))
        decreases left
      {
        var k :| k in left;
        left := left - {k};
        if prefix <= k {
          receipts := receipts - {k};
        }
      }
    }
  }
}
