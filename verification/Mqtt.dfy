/** MQTT framing: the variable-length "remaining length" of section 2.2.3 of MQTT Version 3.1.1, and
    whole packets over a byte stream. */
module Mqtt {
  import opened Basics

  datatype Error = Cancelled | EndOfStream | LengthInvalid | PacketInvalid

  const MAX_BODY: nat := 4 * 1024 * 1024
  const LENGTH_LIMIT: nat := 128 * 128 * 128 * 128

  // ---------------------------------------------------------------- reference reading of the format

  /** The number a run of base-128 digits denotes, least significant first. */
  function Weight(digits: seq<Byte>): nat {
    if digits == [] then 0 else digits[0] % 128 + 128 * Weight(digits[1..])
  }

  /** A run of digits whose continuation bit is set on every digit but the last. */
  predicate WellMarked(digits: seq<Byte>) {
    digits != [] && digits[|digits| - 1] < 128 && forall i :: 0 <= i < |digits| - 1 ==> digits[i] >= 128
  }

  // ---------------------------------------------------------------- the codec

  function Encode(value: nat): seq<Byte> {
    if value < 128 then [value] else [value % 128 + 128] + Encode(value / 128)
  }

  /** The encoding is a well marked run that denotes the value. */
  lemma {:induction false} EncodeMeaning(value: nat)
    ensures WellMarked(Encode(value)) && Weight(Encode(value)) == value
  {
    var r := Encode(value);
    if value < 128 {
      assert r[1..] == [];
    } else {
      EncodeMeaning(value / 128);
      assert r[1..] == Encode(value / 128);
      MarkedTail(r);
    }
  }

  method EncodeRemaining(value: nat) returns (result: seq<Byte>)
    ensures result == Encode(value)
  {
    result := [];
    var left := value;
    while true
      invariant result + Encode(left) == Encode(value)
      decreases left
    {
      var digit: Byte := left % 128;
      var next := left / 128;
      if next > 0 {
        digit := digit + 128;
      }
      ghost var tail: seq<Byte> := if next > 0 then Encode(next) else [];
      assert Encode(left) == [digit] + tail;
      assert result + ([digit] + tail) == (result + [digit]) + tail;
      result := result + [digit];
      if next == 0 {
        return;
      }
      left := next;
    }
  }

  function DecodeWithin(s: seq<Byte>, budget: nat): Result<(nat, nat), Error> {
    if budget == 0 then Err(LengthInvalid)
    else if s == [] then Err(EndOfStream)
    else if s[0] < 128 then Ok((s[0], 1))
    else
      match DecodeWithin(s[1..], budget - 1)
      case Err(e) => Err(e)
      case Ok((v, n)) => Ok((s[0] - 128 + 128 * v, n + 1))
  }

  /** The value at the head of `s` and the bytes it takes. */
  function Decode(s: seq<Byte>): Result<(nat, nat), Error> { DecodeWithin(s, 4) }

  /** Decoding accepts exactly the well marked runs of at most four digits and reads their weight. */
  lemma {:induction false} DecodeMeaning(s: seq<Byte>, budget: nat, v: nat, n: nat)
    ensures DecodeWithin(s, budget) == Ok((v, n)) <==>
            n <= budget && n <= |s| && WellMarked(s[..n]) && v == Weight(s[..n])
  {
    if budget > 0 && s != [] {
      if s[0] < 128 {
        if 1 < n <= |s| {
          assert s[..n][0] == s[0];
        }
        if n == 1 {
          assert s[..1] == [s[0]] && s[..1][1..] == [];
        }
      } else if 1 < n <= |s| {
        MarkedTail(s[..n]);
        assert s[..n][1..] == s[1..][..n - 1];
        DecodeMeaning(s[1..], budget - 1, Weight(s[1..][..n - 1]), n - 1);
        var r := DecodeWithin(s[1..], budget - 1);
        if r.Ok? {
          DecodeMeaning(s[1..], budget - 1, r.value.0, r.value.1);
        }
      } else {
        var r := DecodeWithin(s[1..], budget - 1);
        if r.Ok? {
          DecodeMeaning(s[1..], budget - 1, r.value.0, r.value.1);
        }
        assert n == 1 ==> s[..n][0] == s[0];
      }
    }
  }

  lemma MarkedTail(d: seq<Byte>)
    requires |d| > 1
    ensures WellMarked(d) <==> d[0] >= 128 && WellMarked(d[1..])
  {
    var t := d[1..];
    assert t[|t| - 1] == d[|d| - 1];
    if d[0] >= 128 && WellMarked(t) {
      forall i | 0 <= i < |d| - 1 ensures d[i] >= 128 {
        assert i > 0 ==> d[i] == t[i - 1];
      }
    }
  }

  /** Within the digit budget, decoding undoes encoding and leaves the following bytes alone; beyond it
      every continuation is rejected. */
  lemma {:induction false} DecodeEncode(value: nat, rest: seq<Byte>, budget: nat)
    requires budget >= 1
    ensures DecodeWithin(Encode(value) + rest, budget) ==
            if |Encode(value)| <= budget then Ok((value, |Encode(value)|)) else Err(LengthInvalid)
  {
    var s := Encode(value) + rest;
    if value < 128 {
      assert s[0] == value;
    } else if budget > 1 {
      assert s[1..] == Encode(value / 128) + rest;
      DecodeEncode(value / 128, rest, budget - 1);
    }
  }

  lemma EncodeSize(value: nat)
    ensures |Encode(value)| <= 4 <==> value < LENGTH_LIMIT
  {
    var a := value / 128;
    var b := a / 128;
    var c := b / 128;
    assert value >= 128 ==> |Encode(value)| == 1 + |Encode(a)|;
    assert a >= 128 ==> |Encode(a)| == 1 + |Encode(b)|;
    assert b >= 128 ==> |Encode(b)| == 1 + |Encode(c)|;
    assert c >= 128 ==> |Encode(c)| >= 2;
  }

  /** For every length below 128^4 the remaining length round-trips whatever follows it; every larger
      length is rejected. */
  lemma RemainingLengthRoundTrip(value: nat, rest: seq<Byte>)
    ensures value < 268435456 ==> Decode(Encode(value) + rest) == Ok((value, |Encode(value)|))
    ensures value >= 268435456 ==> Decode(Encode(value) + rest) == Err(LengthInvalid)
  {
    EncodeSize(value);
    DecodeEncode(value, rest, 4);
  }

  /** No accepted spelling of a length is shorter than the one this encoder writes. */
  lemma {:induction false} EncodeShortest(digits: seq<Byte>)
    requires WellMarked(digits)
    ensures |Encode(Weight(digits))| <= |digits|
  {
    if |digits| == 1 {
      assert digits[1..] == [];
    } else {
      MarkedTail(digits);
      EncodeShortest(digits[1..]);
      assert Weight(digits) / 128 == Weight(digits[1..]);
    }
  }

  /** A length is refused as unfinished exactly when the stream ends first, and as invalid exactly when four bytes
      all say that another follows. */
  lemma DecodeRefusals(s: seq<Byte>)
    ensures Decode(s) == Err(EndOfStream) <==> |s| < 4 && forall i :: 0 <= i < |s| ==> s[i] >= 128
    ensures Decode(s) == Err(LengthInvalid) <==> |s| >= 4 && forall i :: 0 <= i < 4 ==> s[i] >= 128
  {
    RefusedWithin(s, 4);
  }

  lemma {:induction false} RefusedWithin(s: seq<Byte>, budget: nat)
    ensures DecodeWithin(s, budget) == Err(EndOfStream) <==>
            |s| < budget && forall i :: 0 <= i < |s| ==> s[i] >= 128
    ensures DecodeWithin(s, budget) == Err(LengthInvalid) <==>
            |s| >= budget && forall i :: 0 <= i < budget ==> s[i] >= 128
    ensures DecodeWithin(s, budget).Ok? || DecodeWithin(s, budget).error in {EndOfStream, LengthInvalid}
  {
    if budget > 0 && s != [] && s[0] >= 128 {
      RefusedWithin(s[1..], budget - 1);
      assert forall i :: 0 < i < |s| ==> s[i] == s[1..][i - 1];
      assert forall i :: 0 <= i < |s[1..]| ==> s[1..][i] == s[i + 1];
    }
  }

  // ---------------------------------------------------------------- packets

  datatype Packet = Packet(header: Byte, body: seq<Byte>)

  function Frame(p: Packet): seq<Byte> { [p.header] + Encode(|p.body|) + p.body }

  /** One packet off the head of `s`, with the bytes after it. */
  function Unframe(s: seq<Byte>): Result<(Packet, seq<Byte>), Error> {
    if s == [] then Err(EndOfStream)
    else
      match Decode(s[1..])
      case Err(_) => Err(PacketInvalid)
      case Ok((length, used)) =>
        if length > MAX_BODY then Err(PacketInvalid)
        else if |s| < 1 + used + length then Err(EndOfStream)
        else Ok((Packet(s[0], s[1 + used..1 + used + length]), s[1 + used + length..]))
  }

  /** A packet is read back intact, whatever follows it, exactly when its body is at most 4 MiB. */
  lemma PacketRoundTrip(p: Packet, rest: seq<Byte>)
    ensures Frame(p)[0] == p.header && Frame(p)[1..] == Encode(|p.body|) + p.body
    ensures Unframe(Frame(p) + rest) == if |p.body| <= 4194304 then Ok((p, rest)) else Err(PacketInvalid)
  {
    var s, e := Frame(p) + rest, Encode(|p.body|);
    assert s[1..] == e + (p.body + rest);
    RemainingLengthRoundTrip(|p.body|, p.body + rest);
    if |p.body| <= MAX_BODY {
      assert s[1 + |e|..1 + |e| + |p.body|] == p.body;
      assert s[1 + |e| + |p.body|..] == rest;
    }
  }

  /** A stream cut short anywhere inside a packet is unfinished, and never read as another packet: a cut inside the
      length is told as an invalid packet, every other one as the end of the stream. */
  lemma CutPacket(p: Packet, n: nat)
    requires |p.body| <= 4194304 && n < |Frame(p)|
    ensures Unframe(Frame(p)[..n]) == Err(if 1 <= n <= |Encode(|p.body|)| then PacketInvalid else EndOfStream)
  {
    var e, s := Encode(|p.body|), Frame(p)[..n];
    EncodeMeaning(|p.body|);
    EncodeSize(|p.body|);
    if n > |e| {
      assert s[1..] == e + p.body[..n - 1 - |e|];
      RemainingLengthRoundTrip(|p.body|, p.body[..n - 1 - |e|]);
    } else if n >= 1 {
      assert s[1..] == e[..n - 1];
      DecodeRefusals(s[1..]);
    }
  }

  function FrameAll(ps: seq<Packet>): seq<Byte> {
    if ps == [] then [] else Frame(ps[0]) + FrameAll(ps[1..])
  }

  function UnframeAll(s: seq<Byte>): Result<seq<Packet>, Error>
    decreases |s|
  {
    if s == [] then Ok([])
    else
      match Unframe(s)
      case Err(e) => Err(e)
      case Ok((p, rest)) =>
        match UnframeAll(rest)
        case Err(e) => Err(e)
        case Ok(ps) => Ok([p] + ps)
  }

  /** A stream of packets comes back as the same packets in the same order. */
  lemma {:induction false} StreamRoundTrip(ps: seq<Packet>)
    requires forall i :: 0 <= i < |ps| ==> |ps[i].body| <= MAX_BODY
    ensures UnframeAll(FrameAll(ps)) == Ok(ps)
  {
    if ps != [] {
      var rest := FrameAll(ps[1..]);
      assert Unframe(Frame(ps[0]) + rest) == Ok((ps[0], rest)) by { PacketRoundTrip(ps[0], rest); }
      StreamRoundTrip(ps[1..]);
      assert ps == [ps[0]] + ps[1..];
    }
  }

  // ---------------------------------------------------------------- the client

  /** `connectorMQTTClient`: `unread` is what its reader still holds, `sent` what its connection got. */
  class Client {
    var unread: seq<Byte>
    var sent: seq<Byte>

    method ReadByte() returns (r: Result<Byte, Error>)
      modifies this`unread
      ensures old(unread) == [] ==> r == Err(EndOfStream) && unread == []
      ensures old(unread) != [] ==> r == Ok(old(unread)[0]) && unread == old(unread)[1..]
    {
      if unread == [] {
        return Err(EndOfStream);
      }
      r := Ok(unread[0]);
      unread := unread[1..];
    }

    method DecodeRemaining() returns (r: Result<nat, Error>)
      modifies this`unread
      ensures match Decode(old(unread))
              case Err(e) => r == Err(e)
              case Ok((v, n)) => r == Ok(v) && n <= |old(unread)| && unread == old(unread)[n..]
    {
      var multiplier: nat, value: nat := 1, 0;
      ghost var start := unread;
      for index := 0 to 4
        invariant index <= |start| && unread == start[index..]
        invariant Decode(start) == Resume(DecodeWithin(unread, 4 - index), value, multiplier, index)
      {
        var digit := ReadByte();
        if digit.Err? {
          return Err(digit.error);
        }
        ResumeStep(start[index..], 4 - index, value, multiplier, index);
        value := value + (digit.value % 128) * multiplier;
        if digit.value < 128 {
          return Ok(value);
        }
        multiplier := multiplier * 128;
      }
      return Err(LengthInvalid);
    }

    method WritePacket(cancelled: bool, header: Byte, body: seq<Byte>) returns (r: Option<Error>)
      modifies this`sent
      ensures cancelled ==> r == Some(Cancelled) && sent == old(sent)
      ensures !cancelled ==> r == None && sent == old(sent) + Frame(Packet(header, body))
    {
      if cancelled {
        return Some(Cancelled);
      }
      var length := EncodeRemaining(|body|);
      var packet := [header] + length;
      packet := packet + body;
      sent := sent + packet;
      return None;
    }

    method ReadPacket(cancelled: bool) returns (r: Result<Packet, Error>)
      modifies this`unread
      ensures cancelled ==> r == Err(Cancelled) && unread == old(unread)
      ensures !cancelled ==>
                match Unframe(old(unread))
                case Err(e) => r == Err(e)
                case Ok((p, rest)) => r == Ok(p) && unread == rest
    {
      if cancelled {
        return Err(Cancelled);
      }
      ghost var start := unread;
      var header := ReadByte();
      if header.Err? {
        return Err(header.error);
      }
      var length := DecodeRemaining();
      if length.Err? || length.value > MAX_BODY {
        return Err(PacketInvalid);
      }
      if |unread| < length.value {
        return Err(EndOfStream);
      }
      var body := unread[..length.value];
      assert start[1..][|start| - 1 - |unread|..] == unread;
      assert body == start[|start| - |unread|..|start| - |unread| + length.value];
      unread := unread[length.value..];
      return Ok(Packet(header.value, body));
    }
  }

  /** The answer for the whole run, once its first `index` digits have contributed `value`. */
  function Resume(r: Result<(nat, nat), Error>, value: nat, multiplier: nat, index: nat): Result<(nat, nat), Error> {
    match r
    case Err(e) => Err(e)
    case Ok((v, n)) => Ok((value + multiplier * v, index + n))
  }

  lemma ResumeStep(s: seq<Byte>, budget: nat, value: nat, multiplier: nat, index: nat)
    requires s != [] && budget > 0
    ensures var now := value + (s[0] % 128) * multiplier;
            Resume(DecodeWithin(s, budget), value, multiplier, index) ==
            if s[0] < 128 then Ok((now, index + 1))
            else Resume(DecodeWithin(s[1..], budget - 1), now, multiplier * 128, index + 1)
  {
    var inner := DecodeWithin(s[1..], budget - 1);
    if inner.Ok? {
      var d, v := s[0] % 128, inner.value.0;
      assert multiplier * (d + 128 * v) == d * multiplier + (multiplier * 128) * v;
    }
  }
}
