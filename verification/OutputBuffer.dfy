/** The output buffer of a coding process: a sliding window over everything the process ever wrote,
    read through absolute cursors. */
module OutputBuffer {
  import opened Basics

  /** Go's `int` and `int64`. */
  type Int64 = x: int | -0x8000_0000_0000_0000 <= x <= 0x7fff_ffff_ffff_ffff

  const MAX_INT64: Int64 := 0x7fff_ffff_ffff_ffff
  const LIMIT: nat := 2 * 1024 * 1024

  datatype Buffer = Buffer(base: nat, data: seq<Byte>)

  const EMPTY: Buffer := Buffer(0, [])

  /** `Panics` is Go's slice-bounds panic. */
  datatype ReadReply =
    | Read(output: seq<Byte>, next: nat, more: bool)
    | Expired(next: nat)
    | Invalid(next: nat)
    | Panics

  function Min(a: int, b: int): int { if a < b then a else b }

  function WriteTo(b: Buffer, p: seq<Byte>): Buffer {
    var all := b.data + p;
    if |all| > LIMIT then Buffer(b.base + (|all| - LIMIT), all[|all| - LIMIT..]) else Buffer(b.base, all)
  }

  /** What 64-bit addition makes of a sum that does not fit. */
  function Wrap(x: int): (r: Int64)
    ensures -0x8000_0000_0000_0000 <= x <= 0x7fff_ffff_ffff_ffff ==> r == x
  {
    (x + 0x8000_0000_0000_0000) % 0x1_0000_0000_0000_0000 - 0x8000_0000_0000_0000
  }

  function ReadFrom(b: Buffer, cursor: int, maxBytes: Int64): ReadReply {
    if cursor < b.base then Expired(b.base)
    else if cursor > b.base + |b.data| then Invalid(b.base + |b.data|)
    else
      var start := cursor - b.base;
      var end := Min(|b.data|, Wrap(start + maxBytes));
      if end < start then Panics else Read(b.data[start..end], b.base + end, end < |b.data|)
  }

  // ---------------------------------------------------------------- refinement of the full history

  /** The buffer holds exactly the last at most `LIMIT` bytes of the history. */
  ghost predicate Window(b: Buffer, history: seq<Byte>) {
    b.base == Base(history) && b.data == history[b.base..]
  }

  /** Where the window starts. */
  function Base(history: seq<Byte>): (base: nat)
    ensures base <= |history|
  {
    if |history| > LIMIT then |history| - LIMIT else 0
  }

  /** The window is the last two mebibytes, or everything if that is less. */
  lemma WindowSize(history: seq<Byte>)
    ensures |history| - Base(history) == if |history| > 2097152 then 2097152 else |history|
  {
  }

  /** The byte count cannot be served from this cursor: it is negative, or adding it to the cursor's place in the
      window leaves the range of 64 bits. */
  predicate CountBreaks(history: seq<Byte>, cursor: int, maxBytes: Int64) {
    maxBytes < 0 || cursor - Base(history) + maxBytes > MAX_INT64
  }

  lemma WrapPast(x: int)
    requires MAX_INT64 < x <= 2 * MAX_INT64
    ensures Wrap(x) < 0
  {
  }

  lemma WriteKeepsWindow(b: Buffer, history: seq<Byte>, p: seq<Byte>)
    requires Window(b, history)
    ensures Window(WriteTo(b, p), history + p)
  {
    assert b.data + p == (history + p)[b.base..];
    var r := WriteTo(b, p);
    assert r.data == (history + p)[r.base..];
  }

  /** Reading through the window is reading the history: a cursor fails to be served exactly when its
      bytes have slid out of the window or have not been written yet, a cursor inside the window panics exactly
      when its byte count breaks, and a served read returns the next bytes of the history, at most `maxBytes`
      and otherwise as many as there are. */
  lemma ReadIsHistory(b: Buffer, history: seq<Byte>, cursor: int, maxBytes: Int64)
    requires Window(b, history)
    ensures ReadFrom(b, cursor, maxBytes).Expired? <==> cursor < Base(history)
    ensures ReadFrom(b, cursor, maxBytes).Invalid? <==> cursor > |history|
    ensures ReadFrom(b, cursor, maxBytes).Panics? <==>
            Base(history) <= cursor <= |history| && CountBreaks(history, cursor, maxBytes)
    ensures match ReadFrom(b, cursor, maxBytes)
            case Read(output, next, more) =>
              && 0 <= cursor <= next == Min(|history|, cursor + maxBytes)
              && output == history[cursor..next] && more == (next < |history|)
            case Expired(next) => next == b.base
            case Invalid(next) => next == |history|
            case Panics => true
  {
    if Base(history) <= cursor <= |history| && cursor - Base(history) + maxBytes > MAX_INT64 {
      WrapPast(cursor - Base(history) + maxBytes);
    }
  }

  /** A negative count panics, concretely. */
  lemma NegativeCountPanics()
    ensures ReadFrom(Buffer(0, [1, 2]), 1, -1).Panics?
  {
    assert Wrap(0) == 0;
  }

  /** So does the greatest count, behind the first byte of the window; at that byte it is served. */
  lemma OverflowingCountPanics()
    ensures ReadFrom(Buffer(0, [1, 2]), 1, MAX_INT64).Panics? && ReadFrom(Buffer(0, [1, 2]), 0, MAX_INT64).Read?
  {
    WrapPast(1 + MAX_INT64);
    assert Wrap(MAX_INT64) == MAX_INT64;
  }

  // ---------------------------------------------------------------- reads of the process tools

  const DEFAULT_COUNT: Int64 := 32768

  /** The count `processRead` hands on: only zero is replaced. */
  function Requested(maxBytes: Int64): Int64 { if maxBytes == 0 then DEFAULT_COUNT else maxBytes }

  /** A read of the tools that is served short of the end always makes progress. */
  lemma ServedReadProgresses(b: Buffer, history: seq<Byte>, cursor: int, maxBytes: Int64)
    requires Window(b, history) && cursor < |history|
    ensures var r := ReadFrom(b, cursor, Requested(maxBytes)); r.Read? ==>
                         cursor < r.next && |r.output| == r.next - cursor > 0
    ensures var r := ReadFrom(b, cursor, Requested(maxBytes));
            r.Read? ==> r.next == Min(|history|, cursor + if maxBytes == 0 then 32768 else maxBytes)
  {
    ReadIsHistory(b, history, cursor, Requested(maxBytes));
  }

  // ---------------------------------------------------------------- chains of reads

  datatype Event = Write(p: seq<Byte>) | ReadNext(maxBytes: Int64)

  datatype Follower = Following(buffer: Buffer, cursor: int, collected: seq<Byte>) | Lost

  function Advance(f: Follower, e: Event): Follower {
    match f
    case Lost => Lost
    case Following(b, cursor, collected) =>
      match e
      case Write(p) => Following(WriteTo(b, p), cursor, collected)
      case ReadNext(maxBytes) =>
        var r := ReadFrom(b, cursor, maxBytes);
        if r.Read? then Following(b, r.next, collected + r.output) else Lost
  }

  /** One reader that always continues from the cursor it was handed, among any writes. */
  function Follow(f: Follower, events: seq<Event>): Follower
    decreases |events|
  {
    if events == [] then f else Advance(Follow(f, events[..|events| - 1]), events[|events| - 1])
  }

  function Written(events: seq<Event>): seq<Byte>
    decreases |events|
  {
    if events == [] then []
    else
      var last := events[|events| - 1];
      Written(events[..|events| - 1]) + if last.Write? then last.p else []
  }

  /** The reader has collected exactly the stretch of `full` from `start` to its cursor. */
  ghost predicate Tracks(f: Follower, full: seq<Byte>, start: nat) {
    f.Following? ==>
      Window(f.buffer, full) && start <= f.cursor <= |full| && f.collected == full[start..f.cursor]
  }

  lemma TracksWrite(f: Follower, full: seq<Byte>, start: nat, p: seq<Byte>)
    requires Tracks(f, full, start)
    ensures Tracks(Advance(f, Write(p)), full + p, start)
  {
    if f.Following? {
      WriteKeepsWindow(f.buffer, full, p);
      assert (full + p)[start..f.cursor] == full[start..f.cursor];
    }
  }

  lemma TracksRead(f: Follower, full: seq<Byte>, start: nat, maxBytes: Int64)
    requires Tracks(f, full, start)
    ensures Tracks(Advance(f, ReadNext(maxBytes)), full, start)
  {
    if f.Following? {
      ReadIsHistory(f.buffer, full, f.cursor, maxBytes);
      var r := ReadFrom(f.buffer, f.cursor, maxBytes);
      if r.Read? {
        assert full[start..r.next] == full[start..f.cursor] + full[f.cursor..r.next];
      }
    }
  }

  /** The chain reproduces the stream from its first cursor on, with no gap and no repeat, across any
      interleaved writes, as long as no read failed. */
  lemma {:induction false} ChainReproducesStream(b: Buffer, history: seq<Byte>, cursor: nat, events: seq<Event>)
    requires Window(b, history) && cursor <= |history|
    ensures Tracks(Follow(Following(b, cursor, []), events), history + Written(events), cursor)
    decreases |events|
  {
    if events == [] {
      assert history + Written(events) == history;
    } else {
      var n := |events| - 1;
      ChainReproducesStream(b, history, cursor, events[..n]);
      var f, full := Follow(Following(b, cursor, []), events[..n]), history + Written(events[..n]);
      match events[n] {
        case Write(p) =>
          TracksWrite(f, full, cursor, p);
          assert history + Written(events) == full + p;
        case ReadNext(maxBytes) =>
          TracksRead(f, full, cursor, maxBytes);
          assert history + Written(events) == full;
      }
    }
  }

  /** A chain loses the stream exactly when, at some read, its cursor has slid out of the window or its byte
      count breaks; in particular a cursor in the chain is never beyond the end. */
  lemma ChainLostExactlyWhen(b: Buffer, history: seq<Byte>, cursor: nat, events: seq<Event>, maxBytes: Int64)
    requires Window(b, history) && cursor <= |history|
    requires Follow(Following(b, cursor, []), events).Following?
    ensures var f, full := Follow(Following(b, cursor, []), events), history + Written(events);
            Follow(Following(b, cursor, []), events + [ReadNext(maxBytes)]).Lost? <==>
            f.cursor < Base(full) || CountBreaks(full, f.cursor, maxBytes)
  {
    ChainReproducesStream(b, history, cursor, events);
    var f := Follow(Following(b, cursor, []), events);
    var all := events + [ReadNext(maxBytes)];
    assert all[..|all| - 1] == events;
    ReadIsHistory(f.buffer, history + Written(events), f.cursor, maxBytes);
  }

  // ---------------------------------------------------------------- the object

  /** `boundedBuffer`. */
  class BoundedBuffer {
    var base: nat
    var data: seq<Byte>
    ghost var history: seq<Byte>

    ghost predicate Valid()
      reads this
    {
      Window(Buffer(base, data), history)
    }

    constructor ()
      ensures Valid() && history == []
    {
      base, data, history := 0, [], [];
    }

    method Write(p: seq<Byte>) returns (n: nat)
      requires Valid()
      modifies this
      ensures Valid() && history == old(history) + p && n == |p|
      ensures Buffer(base, data) == WriteTo(old(Buffer(base, data)), p)
    {
      ghost var before := Buffer(base, data);
      n := |p|;
      data := data + p;
      if |data| > LIMIT {
        var drop := |data| - LIMIT;
        data := data[drop..];
        base := base + drop;
      }
      assert Buffer(base, data) == WriteTo(before, p);
      WriteKeepsWindow(before, history, p);
      history := history + p;
    }

    method Read(cursor: int, maxBytes: Int64) returns (r: ReadReply)
      requires Valid()
      ensures r == ReadFrom(Buffer(base, data), cursor, maxBytes)
      ensures r.Read? ==> 0 <= cursor <= r.next <= |history| && r.output == history[cursor..r.next]
    {
      ReadIsHistory(Buffer(base, data), history, cursor, maxBytes);
      if cursor < base {
        return Expired(base);
      }
      var endCursor := base + |data|;
      if cursor > endCursor {
        return Invalid(endCursor);
      }
      var start := cursor - base;
      var sum := Wrap(start + maxBytes);
      var end := if |data| < sum then |data| else sum;
      if end < start {
        return Panics;
      }
      return ReadReply.Read(data[start..end], base + end, end < |data|);
    }
  }
}
