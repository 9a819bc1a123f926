/**
  Length-prefixed frames (dencoder.go). The prefix is a base 128 varint as in the "Base 128
  Varints" section of the Protocol Buffers Encoding document and in Go's encoding/binary.
 */
module Frames {
  import opened Basics

  type byte = x: int | 0 <= x < 256

  const MAX_VARINT_LEN: nat := 10
  const OVERFLOW: Error := Other("binary: varint overflows a 64-bit integer")
  const TWO_TO_THE_63: nat := 0x8000_0000_0000_0000

  // ------------------------------------------------------------------ varints

  function Uvarint(v: nat): (s: seq<byte>)
    ensures s != []
  {
    if v < 128 then [v] else [v % 128 + 128] + Uvarint(v / 128)
  }

  /** `Short`: the input ended; a number that was cut is an unexpected end. */
  datatype Varint = Got(value: nat, rest: seq<byte>) | Short(error: Error) | Overflow

  /** ReadUvarint when `i` bytes of the number have been read. */
  function GetUvarint(s: seq<byte>, i: nat): Varint
    decreases |s|
  {
    if i >= MAX_VARINT_LEN then Overflow
    else if s == [] then Short(if i == 0 then EOF else UnexpectedEOF)
    else if s[0] < 128 then (if i == MAX_VARINT_LEN - 1 && s[0] > 1 then Overflow else Got(s[0], s[1..]))
    else
      match GetUvarint(s[1..], i + 1)
      case Got(v, rest) => Got(s[0] - 128 + 128 * v, rest)
      case other => other
  }

  /** The values that still fit when `i` bytes have been read: 2^(64 - 7i). */
  function Room(i: nat): nat {
    if i == 0 then 0x1_0000_0000_0000_0000
    else if i == 1 then 0x200_0000_0000_0000
    else if i == 2 then 0x4_0000_0000_0000
    else if i == 3 then 0x800_0000_0000
    else if i == 4 then 0x10_0000_0000
    else if i == 5 then 0x2000_0000
    else if i == 6 then 0x40_0000
    else if i == 7 then 0x8000
    else if i == 8 then 0x100
    else if i == 9 then 2
    else 0
  }

  lemma RoomShrinks(i: nat, v: nat)
    requires v < Room(i) && v >= 128
    ensures i < 9 && v / 128 < Room(i + 1)
  {
  }

  lemma RoomBounds(i: nat, v: nat)
    requires v < Room(i)
    ensures i < MAX_VARINT_LEN && (i == MAX_VARINT_LEN - 1 ==> v <= 1)
  {
  }

  lemma {:induction false} VarintRoundTrip(v: nat, rest: seq<byte>, i: nat)
    requires v < Room(i)
    ensures GetUvarint(Uvarint(v) + rest, i) == Got(v, rest)
    ensures |Uvarint(v)| <= MAX_VARINT_LEN - i
    decreases v
  {
    hide Room;
    RoomBounds(i, v);
    var s := Uvarint(v) + rest;
    if v < 128 {
      assert s[1..] == rest;
    } else {
      RoomShrinks(i, v);
      assert s[1..] == Uvarint(v / 128) + rest;
      VarintRoundTrip(v / 128, rest, i + 1);
    }
  }

  lemma {:induction false} VarintPrefix(v: nat, n: nat, i: nat)
    requires v < Room(i) && n < |Uvarint(v)|
    ensures GetUvarint(Uvarint(v)[..n], i) == Short(if n == 0 && i == 0 then EOF else UnexpectedEOF)
    decreases v
  {
    hide Room;
    RoomBounds(i, v);
    if v >= 128 {
      RoomShrinks(i, v);
      if n > 0 {
        assert Uvarint(v)[..n][1..] == Uvarint(v / 128)[..n - 1];
        VarintPrefix(v / 128, n - 1, i + 1);
      }
    }
  }

  /**
    What reading accepts: some bytes followed by `rest`. They are the bytes that writing would
    produce exactly when the number is not padded with a zero byte at the top.
   */
  lemma VarintCanonical(s: seq<byte>, i: nat)
    requires GetUvarint(s, i).Got?
    ensures var Got(v, rest) := GetUvarint(s, i);
            var n := |s| - |rest|;
            && 1 <= n && s[n..] == rest
            && (s == Uvarint(v) + rest <==> n == 1 || s[n - 1] != 0)
  {
    Consumed(s, i);
  }

  lemma DivMod(q: nat, r: nat)
    requires r < 128
    ensures (r + 128 * q) / 128 == q && (r + 128 * q) % 128 == r
  {
  }

  lemma UvarintCons(b: byte, v: nat)
    requires b >= 128
    ensures Uvarint(b - 128 + 128 * v) == if v == 0 then [b - 128] else [b] + Uvarint(v)
  {
    DivMod(v, b - 128);
  }

  /** `s` is the bytes of a number of value `v`, possibly padded, and then `rest`. */
  ghost predicate Reads(s: seq<byte>, v: nat, rest: seq<byte>) {
    var n := |s| - |rest|;
    && 1 <= n && s[n..] == rest && s[n - 1] < 128
    && (s == Uvarint(v) + rest <==> n == 1 || s[n - 1] != 0)
    && (v == 0 ==> s[n - 1] == 0)
    && (n == 1 ==> v == s[0])
  }

  lemma ReadsMore(b: byte, s: seq<byte>, v: nat, rest: seq<byte>)
    requires b >= 128 && Reads(s, v, rest)
    ensures Reads([b] + s, b - 128 + 128 * v, rest)
  {
    UvarintCons(b, v);
    hide Uvarint;
    var whole, written := [b] + s, Uvarint(b - 128 + 128 * v) + rest;
    assert whole[1..] == s;
    if v == 0 {
      assert written[0] != whole[0];
    } else {
      assert written == [b] + (Uvarint(v) + rest);
      assert written[1..] == Uvarint(v) + rest;
    }
  }

  lemma {:induction false} Consumed(s: seq<byte>, i: nat)
    requires GetUvarint(s, i).Got?
    ensures Reads(s, GetUvarint(s, i).value, GetUvarint(s, i).rest)
    decreases |s|
  {
    if s[0] < 128 {
      assert Uvarint(s[0]) + s[1..] == s;
    } else {
      hide Reads, Uvarint;
      Consumed(s[1..], i + 1);
      var Got(v, rest) := GetUvarint(s[1..], i + 1);
      ReadsMore(s[0], s[1..], v, rest);
      assert [s[0]] + s[1..] == s;
    }
  }

  /** The value that bytes stand for: seven bits each, the lowest first. */
  function Value(s: seq<byte>): nat {
    if s == [] then 0 else s[0] % 128 + 128 * Value(s[1..])
  }

  /** Every byte of a written number but the last has its top bit set, and its bits are those of the number. */
  lemma {:induction false} UvarintFormat(v: nat)
    ensures Value(Uvarint(v)) == v
    ensures forall i :: 0 <= i < |Uvarint(v)| ==> (Uvarint(v)[i] >= 128 <==> i < |Uvarint(v)| - 1)
    ensures v > 0 ==> Uvarint(v)[|Uvarint(v)| - 1] != 0
    decreases v
  {
    if v >= 128 {
      UvarintFormat(v / 128);
      var s := Uvarint(v);
      assert s[1..] == Uvarint(v / 128);
      assert forall i :: 1 <= i < |s| ==> s[i] == Uvarint(v / 128)[i - 1];
      assert s[0] % 128 == v % 128;
    } else {
      assert Uvarint(v)[1..] == [];
    }
  }

  /** `s` opens with `n` bytes of a number of which `i` bytes were read before: all but the last go on. */
  predicate Spans(s: seq<byte>, i: nat, n: int) {
    && 1 <= n <= |s| && i + n <= MAX_VARINT_LEN
    && (forall k :: 0 <= k < n - 1 ==> s[k] >= 128)
    && s[n - 1] < 128 && (i + n == MAX_VARINT_LEN ==> s[n - 1] <= 1)
  }

  /** The numbers that are read, and their values. */
  ghost predicate GotExact(s: seq<byte>, i: nat) {
    && (forall n :: Spans(s, i, n) ==> GetUvarint(s, i) == Got(Value(s[..n]), s[n..]))
    && (GetUvarint(s, i).Got? ==>
          GetUvarint(s, i).value < Room(i) && Spans(s, i, |s| - |GetUvarint(s, i).rest|))
  }

  ghost predicate ShortExact(s: seq<byte>, i: nat) {
    GetUvarint(s, i).Short? <==> i + |s| < MAX_VARINT_LEN && forall k :: 0 <= k < |s| ==> s[k] >= 128
  }

  lemma GotMore(s: seq<byte>, i: nat)
    requires s != [] && s[0] >= 128 && i < MAX_VARINT_LEN - 1 && GotExact(s[1..], i + 1)
    ensures GotExact(s, i)
  {
    hide Room, Uvarint, Value;
    var tail := s[1..];
    assert forall k :: 0 <= k < |tail| ==> tail[k] == s[k + 1];
    forall n | Spans(s, i, n) ensures GetUvarint(s, i) == Got(Value(s[..n]), s[n..]) {
      assert Spans(tail, i + 1, n - 1);
      ValueMore(s, n);
    }
    if GetUvarint(s, i).Got? {
      RoomGrows(i, s[0] - 128, GetUvarint(tail, i + 1).value);
    }
  }

  lemma ValueMore(s: seq<byte>, n: nat)
    requires 1 <= n <= |s| && s[0] >= 128
    ensures Value(s[..n]) == s[0] - 128 + 128 * Value(s[1..][..n - 1]) && s[1..][n - 1..] == s[n..]
  {
    assert s[..n][1..] == s[1..][..n - 1];
  }

  lemma GotLast(s: seq<byte>, i: nat)
    requires i < MAX_VARINT_LEN && (s == [] || s[0] < 128 || i == MAX_VARINT_LEN - 1)
    ensures GotExact(s, i) && ShortExact(s, i)
  {
    hide Room, Uvarint;
    if s != [] && s[0] < 128 {
      assert s[..1][1..] == [] && Value(s[..1]) == s[0];
      if Spans(s, i, 1) {
        RoomFor(i, s[0]);
      }
    } else if s != [] {
      assert GetUvarint(s[1..], i + 1) == Overflow;
    }
  }

  /**
    What reading does with any bytes: it gives the value of the first number that ends in time, it
    runs short when all bytes go on and there are too few, and otherwise the number is too large.
   */
  lemma {:induction false} ReadingExact(s: seq<byte>, i: nat)
    requires i < MAX_VARINT_LEN
    ensures GotExact(s, i) && ShortExact(s, i)
    decreases |s|
  {
    if s != [] && s[0] >= 128 && i < MAX_VARINT_LEN - 1 {
      ReadingExact(s[1..], i + 1);
      GotMore(s, i);
      hide GotExact;
      assert forall k :: 0 <= k < |s[1..]| ==> s[1..][k] == s[k + 1];
      assert forall k :: 1 <= k < |s| ==> s[k] == s[1..][k - 1];
    } else {
      GotLast(s, i);
    }
  }

  lemma RoomGrows(i: nat, low: nat, v: nat)
    requires i < MAX_VARINT_LEN - 1 && low < 128 && v < Room(i + 1)
    ensures low + 128 * v < Room(i)
  {
  }

  lemma RoomFor(i: nat, v: nat)
    requires i < MAX_VARINT_LEN && v < 128 && (i == MAX_VARINT_LEN - 1 ==> v <= 1)
    ensures v < Room(i)
  {
  }

  /** The example of the Protocol Buffers document. */
  lemma UvarintExample()
    ensures Uvarint(150) == [0x96, 0x01]
  {
    assert Uvarint(1) == [1];
  }

  // ------------------------------------------------------------------ frames

  function Frame(payload: seq<byte>): seq<byte> {
    Uvarint(|payload|) + payload
  }

  /** `Panics`: the length does not fit in an int, and `buf[:size]` panics. */
  datatype Reading = Read(payload: seq<byte>, rest: seq<byte>) | Fails(error: Error) | Panics

  /** What `readFull` does on the bytes `s`. */
  function ReadFrame(s: seq<byte>): Reading {
    match GetUvarint(s, 0)
    case Short(e) => Fails(e)
    case Overflow => Fails(OVERFLOW)
    case Got(n, rest) =>
      if n >= TWO_TO_THE_63 then Panics
      else if n <= |rest| then Read(rest[..n], rest[n..])
      else Fails(if rest == [] then EOF else UnexpectedEOF)
  }

  lemma FrameRoundTrip(payload: seq<byte>, rest: seq<byte>)
    requires |payload| < TWO_TO_THE_63
    ensures ReadFrame(Frame(payload) + rest) == Read(payload, rest)
    ensures |Frame(payload)| <= |payload| + MAX_VARINT_LEN
  {
    assert Frame(payload) + rest == Uvarint(|payload|) + (payload + rest);
    VarintRoundTrip(|payload|, payload + rest, 0);
  }

  /**
    What the length that was written decides: a frame of a length below 2^63 is read as soon as that
    many bytes are there, and a longer one panics.
   */
  lemma LengthDecides(n: nat, rest: seq<byte>)
    requires n < TWO_TO_THE_64
    ensures ReadFrame(Uvarint(n) + rest)
            == if n >= 0x8000_0000_0000_0000 then Panics
               else if n <= |rest| then Read(rest[..n], rest[n..])
               else Fails(if rest == [] then EOF else UnexpectedEOF)
  {
    VarintRoundTrip(n, rest, 0);
  }

  /** A length that is cut or too large fails as such. */
  lemma LengthFails(s: seq<byte>)
    ensures GetUvarint(s, 0).Short? ==> ReadFrame(s) == Fails(if s == [] then EOF else UnexpectedEOF)
    ensures GetUvarint(s, 0).Overflow? ==> ReadFrame(s) == Fails(Other("binary: varint overflows a 64-bit integer"))
  {
    if GetUvarint(s, 0).Short? {
      CutLength(s, 0);
    }
  }

  lemma {:induction false} CutLength(s: seq<byte>, i: nat)
    requires GetUvarint(s, i).Short?
    ensures GetUvarint(s, i) == Short(if s == [] && i == 0 then EOF else UnexpectedEOF)
    decreases |s|
  {
    if s != [] {
      CutLength(s[1..], i + 1);
    }
  }

  /**
    No proper prefix of a frame is accepted. Cut inside its length or inside its payload it reads
    as an unexpected end of file; cut right after its length, as a clean one.
   */
  lemma ProperPrefixRejected(payload: seq<byte>, n: nat)
    requires |payload| < TWO_TO_THE_63 && n < |Frame(payload)|
    ensures ReadFrame(Frame(payload)[..n])
            == Fails(if n == 0 || n == |Uvarint(|payload|)| then EOF else UnexpectedEOF)
  {
    var prefix := Uvarint(|payload|);
    if n < |prefix| {
      assert Frame(payload)[..n] == prefix[..n];
      VarintPrefix(|payload|, n, 0);
    } else {
      var part := payload[..n - |prefix|];
      assert Frame(payload)[..n] == prefix + part;
      VarintRoundTrip(|payload|, part, 0);
    }
  }

  /** A frame that was read is the frame that would be written exactly when its length is not padded. */
  lemma FrameCanonical(s: seq<byte>)
    requires ReadFrame(s).Read?
    ensures var Read(payload, rest) := ReadFrame(s);
            var n := |s| - |rest| - |payload|;
            && 1 <= n && s[n..] == payload + rest
            && (s == Frame(payload) + rest <==> n == 1 || s[n - 1] != 0)
  {
    VarintCanonical(s, 0);
    var Read(payload, rest) := ReadFrame(s);
    var tail := GetUvarint(s, 0).rest;
    assert payload + rest == tail;
    assert Frame(payload) + rest == Uvarint(|payload|) + tail;
  }

  // ------------------------------------------------------------------ streams of frames

  function Stream(payloads: seq<seq<byte>>): seq<byte> {
    if payloads == [] then [] else Frame(payloads[0]) + Stream(payloads[1..])
  }

  lemma ReadFrameShrinks(s: seq<byte>)
    requires ReadFrame(s).Read?
    ensures |ReadFrame(s).rest| < |s|
  {
    VarintCanonical(s, 0);
  }

  /** Reading frames until one fails: the payloads, and how it ended. */
  function ReadAll(s: seq<byte>): (seq<seq<byte>>, Reading)
    decreases |s|
  {
    match ReadFrame(s)
    case Read(payload, rest) =>
      ReadFrameShrinks(s);
      var (more, end) := ReadAll(rest);
      ([payload] + more, end)
    case end => ([], end)
  }

  predicate Bounded(payloads: seq<seq<byte>>) {
    forall i :: 0 <= i < |payloads| ==> |payloads[i]| < TWO_TO_THE_63
  }

  /** The frames written one after the other are read back exactly, and then the stream is at its end. */
  lemma {:induction false} StreamRoundTrip(payloads: seq<seq<byte>>)
    requires Bounded(payloads)
    ensures ReadAll(Stream(payloads)) == (payloads, Fails(EOF))
  {
    if payloads != [] {
      FrameRoundTrip(payloads[0], Stream(payloads[1..]));
      StreamRoundTrip(payloads[1..]);
      assert payloads == [payloads[0]] + payloads[1..];
    }
  }

  /** Two different lists of payloads never produce the same bytes. */
  lemma StreamInjective(a: seq<seq<byte>>, b: seq<seq<byte>>)
    requires Bounded(a) && Bounded(b)
    ensures Stream(a) == Stream(b) <==> a == b
  {
    StreamRoundTrip(a);
    StreamRoundTrip(b);
  }

  /** A stream cut anywhere gives payloads that were written, in order, and never a made-up one. */
  lemma {:induction false} TruncatedStream(payloads: seq<seq<byte>>, n: nat)
    requires Bounded(payloads) && n <= |Stream(payloads)|
    ensures ReadAll(Stream(payloads)[..n]).0 <= payloads
    ensures ReadAll(Stream(payloads)[..n]).1.Fails?
    ensures ReadAll(Stream(payloads)[..n]).0 == payloads <==> n == |Stream(payloads)|
    decreases |payloads|
  {
    hide Frame, ReadFrame;
    var s := Stream(payloads);
    if payloads == [] {
      StreamRoundTrip([]);
      assert s[..n] == s;
    } else {
      var first, tail := Frame(payloads[0]), Stream(payloads[1..]);
      if n < |first| {
        assert s[..n] == first[..n];
        ProperPrefixRejected(payloads[0], n);
      } else {
        assert s[..n] == first + tail[..n - |first|];
        FrameRoundTrip(payloads[0], tail[..n - |first|]);
        TruncatedStream(payloads[1..], n - |first|);
        var more := ReadAll(tail[..n - |first|]).0;
        assert [payloads[0]] + more == payloads <==> more == payloads[1..];
      }
    }
  }

  // ------------------------------------------------------------------ the encoder

  lemma PutStep(done: seq<byte>, x: nat)
    requires x >= 128
    ensures done + Uvarint(x) == (done + [x % 128 + 128]) + Uvarint(x / 128)
    ensures |Uvarint(x)| == 1 + |Uvarint(x / 128)|
  {
  }

  lemma PutLast(x: nat)
    requires x < 128
    ensures Uvarint(x) == [x]
  {
  }

  lemma StreamStep(payloads: seq<seq<byte>>, i: nat)
    requires i < |payloads|
    ensures Stream(payloads[i..]) == Frame(payloads[i]) + Stream(payloads[i + 1..])
  {
    assert payloads[i..][1..] == payloads[i + 1..];
  }

  lemma NoFrames()
    ensures Stream([]) == []
  {
  }

  /** What is written when the frame in hand is cut. */
  lemma CutInFrame(written: seq<byte>, frame: seq<byte>, rest: seq<byte>, room: nat)
    requires room < |frame|
    ensures (written + (frame + rest))[..|written| + room] == written + frame[..room]
    ensures written + (frame + rest) == (written + frame) + rest
  {
  }

  class Encoder {
    const size: array<byte>  // room for one prefix
    var out: seq<byte>       // what the writer has taken
    var accepts: nat         // how many more bytes it takes before it fails

    constructor (accepts: nat)
      ensures out == [] && this.accepts == accepts && size.Length == MAX_VARINT_LEN && fresh(size)
    {
      size := new byte[MAX_VARINT_LEN];
      this.out, this.accepts := [], accepts;
    }

    /** binary.PutUvarint into `size`, in place. */
    method PutUvarint(v: nat) returns (n: nat)
      requires size.Length == MAX_VARINT_LEN && v < TWO_TO_THE_64
      modifies size
      ensures n <= size.Length && size[..n] == Uvarint(v)
    {
      VarintRoundTrip(v, [], 0);
      hide Room, GetUvarint, Uvarint;
      var x := v;
      n := 0;
      while x >= 128
        invariant n + |Uvarint(x)| <= MAX_VARINT_LEN
        invariant size[..n] + Uvarint(x) == Uvarint(v)
        decreases x
      {
        PutStep(size[..n], x);
        ghost var done := size[..n];
        size[n] := x % 128 + 128;
        assert size[..n + 1] == done + [x % 128 + 128];
        x := x / 128;
        n := n + 1;
      }
      PutLast(x);
      ghost var done := size[..n];
      size[n] := x;
      n := n + 1;
      assert size[..n] == done + [x];
    }

    /** An io.Writer that fails takes part of the bytes. */
    method Write(data: seq<byte>) returns (ok: bool)
      modifies this`out, this`accepts
      ensures ok <==> |data| <= old(accepts)
      ensures out == old(out) + (if ok then data else data[..old(accepts)])
      ensures accepts == if ok then old(accepts) - |data| else 0
    {
      ok := |data| <= accepts;
      out := out + if ok then data else data[..accepts];
      accepts := if ok then accepts - |data| else 0;
    }

    /** Writes the whole frame, or fails and leaves a proper prefix of it, which no reader accepts. */
    method WriteFrame(data: seq<byte>) returns (ok: bool)
      requires size.Length == MAX_VARINT_LEN && |data| < TWO_TO_THE_63
      modifies this`out, this`accepts, size
      ensures ok <==> |Frame(data)| <= old(accepts)
      ensures ok ==> out == old(out) + Frame(data) && accepts == old(accepts) - |Frame(data)|
      ensures !ok ==> out == old(out) + Frame(data)[..old(accepts)] && ReadFrame(Frame(data)[..old(accepts)]).Fails?
    {
      var n := PutUvarint(|data|);
      var before, room := out, accepts;
      ok := Write(size[..n]);
      if ok {
        ok := Write(data);
        if ok {
          assert out == before + Frame(data);
        } else {
          assert data[..room - n] == Frame(data)[n..room];
          assert Frame(data)[..room] == Uvarint(|data|) + data[..room - n];
          assert out == before + Frame(data)[..room];
        }
      } else {
        assert Frame(data)[..room] == Uvarint(|data|)[..room];
      }
      if !ok {
        ProperPrefixRejected(data, room);
      }
    }

    /** Writes the frames one after the other, with one prefix buffer, until a write fails. */
    method EncodeAll(payloads: seq<seq<byte>>) returns (ok: bool)
      requires size.Length == MAX_VARINT_LEN && Bounded(payloads)
      modifies this`out, this`accepts, size
      ensures ok <==> |Stream(payloads)| <= old(accepts)
      ensures out == old(out) + if ok then Stream(payloads) else Stream(payloads)[..old(accepts)]
    {
      hide Frame, ReadFrame, Stream;
      ok := true;
      ghost var written: seq<byte> := [];
      var i := 0;
      assert payloads[0..] == payloads;
      while ok && i < |payloads|
        invariant i <= |payloads|
        invariant ok ==> written + Stream(payloads[i..]) == Stream(payloads) && |written| <= old(accepts)
        invariant ok ==> out == old(out) + written && accepts == old(accepts) - |written|
        invariant !ok ==> old(accepts) < |Stream(payloads)| && out == old(out) + Stream(payloads)[..old(accepts)]
        decreases |payloads| - i
      {
        ghost var frame, rest, room := Frame(payloads[i]), Stream(payloads[i + 1..]), accepts;
        StreamStep(payloads, i);
        ok := WriteFrame(payloads[i]);
        if ok {
          assert written + (frame + rest) == (written + frame) + rest;
          written := written + frame;
        } else {
          CutInFrame(written, frame, rest, room);
        }
        i := i + 1;
      }
      if ok {
        NoFrames();
        assert payloads[|payloads|..] == [];
      }
    }
  }

  // ------------------------------------------------------------------ the decoder

  function Power(i: nat): nat {
    if i == 0 then 1 else 128 * Power(i - 1)
  }

  /** The result of reading a number of which `x` is known and `i` bytes are gone. */
  function Completed(x: nat, i: nat, tail: Varint): Varint {
    match tail
    case Got(v, rest) => Got(x + Power(i) * v, rest)
    case other => other
  }

  /** How one read ended. `Panicked` is the panic of `buf[:size]`. */
  datatype Status = Ready | Failed(error: Error) | Panicked

  class Decoder {
    var input: seq<byte>  // what the reader has not delivered yet
    var buf: array<byte>  // the reused buffer: its length is the capacity of the Go slice
    var len: nat          // the length of the slice

    constructor (input: seq<byte>)
      ensures this.input == input && len == 0 && buf.Length == 128 && fresh(buf)
    {
      this.input, len := input, 0;
      buf := new byte[128];
    }

    /** binary.ReadUvarint, byte by byte. */
    method ReadUvarint() returns (r: Option<nat>, error: Error)
      modifies this`input
      ensures match GetUvarint(old(input), 0)
              case Got(v, rest) => r == Some(v) && input == rest
              case Short(e) => r == None && error == e && input == []
              case Overflow => r == None && error == OVERFLOW
    {
      var x: nat, scale: nat, i: nat := 0, 1, 0;
      while i < MAX_VARINT_LEN
        invariant i <= MAX_VARINT_LEN && scale == Power(i)
        invariant GetUvarint(old(input), 0) == Completed(x, i, GetUvarint(input, i))
      {
        if input == [] {
          return None, if i == 0 then EOF else UnexpectedEOF;
        }
        var b := input[0];
        ghost var before := input;
        input := input[1..];
        if b < 128 {
          if i == MAX_VARINT_LEN - 1 && b > 1 {
            return None, OVERFLOW;
          }
          return Some(x + scale * b), EOF;
        }
        CompletedStep(x, i, before);
        x, scale, i := x + scale * (b - 128), 128 * scale, i + 1;
      }
      return None, OVERFLOW;
    }

    /**
      readFull. The payload is in the buffer, whatever the buffer held before; the buffer is
      replaced only when it is too small.
     */
    method ReadFull() returns (r: Status)
      modifies this, buf
      ensures match ReadFrame(old(input))
              case Read(payload, rest) =>
                && r == Ready && input == rest
                && len == |payload| <= buf.Length && buf[..len] == payload
                && (if old(buf.Length) >= |payload| then buf == old(buf) else fresh(buf) && buf.Length == |payload|)
              case Fails(e) => r == Failed(e) && (buf == old(buf) || fresh(buf))
              case Panics => r == Panicked && buf == old(buf)
    {
      var n, error := ReadUvarint();
      if n == None {
        len := 0;
        return Failed(error);
      }
      var size := n.value;
      if size >= TWO_TO_THE_63 {
        return Panicked;
      }
      if buf.Length < size {
        buf := new byte[size];
      }
      len := size;
      var have := Fill(size);
      r := if have == size then Ready else Failed(if have == 0 then EOF else UnexpectedEOF);
    }

    /** io.ReadFull into the first `size` bytes of the buffer. */
    method Fill(size: nat) returns (have: nat)
      requires size <= buf.Length
      modifies this`input, buf
      ensures have == if |old(input)| < size then |old(input)| else size
      ensures buf[..have] == old(input)[..have] && input == old(input)[have..]
    {
      have := if |input| < size then |input| else size;
      for k := 0 to have
        invariant input == old(input) && buf[..k] == input[..k]
      {
        buf[k] := input[k];
      }
      input := input[have..];
    }

    /** Repeated reads of one decoder give the payloads of the stream, and end as it ends. */
    method DecodeAll() returns (payloads: seq<seq<byte>>, end: Status)
      modifies this, buf
      ensures payloads == ReadAll(old(input)).0
      ensures EndsAs(ReadAll(old(input)).1, end)
    {
      payloads, end := [], Ready;
      while end == Ready
        invariant end == Ready ==> payloads + ReadAll(input).0 == ReadAll(old(input)).0
        invariant end == Ready ==> ReadAll(input).1 == ReadAll(old(input)).1
        invariant end != Ready ==> payloads == ReadAll(old(input)).0
        invariant end != Ready ==> EndsAs(ReadAll(old(input)).1, end)
        invariant buf == old(buf) || fresh(buf)
        decreases end == Ready, |input|
      {
        ghost var before := input;
        end := ReadFull();
        if end == Ready {
          ReadFrameShrinks(before);
          payloads := payloads + [buf[..len]];
        }
      }
    }
  }

  /** The value and the object say the same about the end of a stream. */
  predicate EndsAs(r: Reading, status: Status) {
    match r
    case Fails(e) => status == Failed(e)
    case Panics => status == Panicked
    case Read(_, _) => false
  }

  /**
    An encoder over a writer that takes `accepts` bytes, then a decoder on what it wrote. What
    arrives is a prefix of the payloads that were sent, and all of them exactly when the writer
    took all bytes.
   */
  method Transmit(payloads: seq<seq<byte>>, accepts: nat) returns (received: seq<seq<byte>>, end: Status)
    requires Bounded(payloads)
    ensures received <= payloads && end.Failed?
    ensures received == payloads <==> |Stream(payloads)| <= accepts
    ensures received == payloads ==> end == Failed(EOF)
  {
    var encoder := new Encoder(accepts);
    var ok := encoder.EncodeAll(payloads);
    ghost var n := if ok then |Stream(payloads)| else accepts;
    assert encoder.out == Stream(payloads)[..n];
    var decoder := new Decoder(encoder.out);
    received, end := decoder.DecodeAll();
    TruncatedStream(payloads, n);
    StreamRoundTrip(payloads);
    assert Stream(payloads)[..|Stream(payloads)|] == Stream(payloads);
  }

  lemma CompletedStep(x: nat, i: nat, s: seq<byte>)
    requires i < MAX_VARINT_LEN && s != [] && s[0] >= 128
    ensures Completed(x, i, GetUvarint(s, i))
            == Completed(x + Power(i) * (s[0] - 128), i + 1, GetUvarint(s[1..], i + 1))
  {
    match GetUvarint(s[1..], i + 1)
    case Got(v, _) => Shifted(Power(i), s[0] - 128, v);
    case _ =>
  }

  lemma Shifted(p: nat, low: nat, v: nat)
    ensures p * (low + 128 * v) == p * low + 128 * p * v
  {
  }
}
