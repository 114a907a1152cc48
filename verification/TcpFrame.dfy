/** Length-prefixed TCP frames: 4 flag bytes, 4 length bytes in network order, the body. */
module TcpFrame {
  import opened Common
  import opened Buffer
  import Backend

  const CO_PROTOCOL_TCP_FLAG := 0xe8
  const HEAD_LEN := 8

  /** The flag as a little-endian machine lays it out. */
  const FLAG: seq<char> := [CO_PROTOCOL_TCP_FLAG as char, '\0', '\0', '\0']

  function Byte(n: nat): char {
    (n % 256) as char
  }

  function Value(c: char): nat {
    c as int % 256
  }

  /** htonl of a length, which is first cut to 32 bits. */
  function NetworkOrder(n: nat): (r: seq<char>)
    ensures |r| == 4
  {
    [Byte(n / 0x100_0000), Byte(n / 0x1_0000), Byte(n / 0x100), Byte(n)]
  }

  /** ntohl, read back as a signed 32-bit length. */
  function HostLength(b: seq<char>): int
    requires |b| == 4
  {
    Backend.Int32(Value(b[0]) * 0x100_0000 + Value(b[1]) * 0x1_0000 + Value(b[2]) * 0x100 + Value(b[3]))
  }

  function Frame(body: seq<char>): seq<char> {
    FLAG + NetworkOrder(|body|) + body
  }

  datatype Decoded =
    | Again
    | BadFlag                                // CO_ERROR, the buffer is reset
    | BadLength                              // negative length: the string constructor throws
    | Body(body: seq<char>, frameLen: nat)

  function Parse(b: seq<char>): (r: Decoded)
    ensures r.Body? ==> HEAD_LEN <= r.frameLen <= |b| && r.body == b[HEAD_LEN..r.frameLen]
  {
    if |b| <= HEAD_LEN then Again
    else if b[..4] != FLAG then BadFlag
    else
      var bodyLen := HostLength(b[4..8]);
      if bodyLen > |b| - HEAD_LEN then Again
      else if bodyLen < 0 then BadLength
      else Body(b[HEAD_LEN..HEAD_LEN + bodyLen], HEAD_LEN + bodyLen)
  }

  // ---------- the codec ----------

  datatype Ret = CO_OK | CO_AGAIN | CO_ERROR | Throws

  class CoProtocolTcp {
    const server: bool
    var reqBody: seq<char>
    var respBody: seq<char>

    constructor (server: bool)
      ensures this.server == server && reqBody == [] && respBody == []
    {
      this.server := server;
      reqBody, respBody := [], [];
    }

    method Decode(buffer: CoBuffer) returns (ret: Ret)
      requires buffer.Valid()
      modifies this, buffer`bufferSize, buffer`misalign
      ensures buffer.Valid()
      ensures match Parse(old(buffer.Contents()))
        case Again => ret == CO_AGAIN && unchanged(this) && buffer.Contents() == old(buffer.Contents())
        case BadFlag => ret == CO_ERROR && unchanged(this) && buffer.Contents() == []
        case BadLength => ret == Throws && unchanged(this) && buffer.Contents() == old(buffer.Contents())
        case Body(body, n) =>
          && ret == CO_OK && buffer.Contents() == old(buffer.Contents())[n..]
          && reqBody == (if server then body else old(reqBody))
          && respBody == (if server then old(respBody) else body)
    {
      var data := buffer.Contents();
      var len := |data|;
      if len <= HEAD_LEN {
        return CO_AGAIN;
      }
      if data[..4] != FLAG {
        buffer.Reset();
        return CO_ERROR;
      }
      var bodyLen := HostLength(data[4..8]);
      if bodyLen > len - HEAD_LEN {
        return CO_AGAIN;
      }
      if bodyLen < 0 {
        return Throws;
      }
      var body := data[HEAD_LEN..HEAD_LEN + bodyLen];
      if server {
        reqBody := body;
      } else {
        respBody := body;
      }
      buffer.Erase(bodyLen + HEAD_LEN);
      ret := CO_OK;
    }

    method Encode(buffer: CoBuffer)
      requires buffer.Valid()
      modifies buffer, buffer.block
      ensures buffer.Valid()
      ensures buffer.Contents() ==
                old(buffer.Contents()) + Frame(if server then respBody else reqBody)
    {
      var body := if server then respBody else reqBody;
      var _ := buffer.Append(FLAG + NetworkOrder(|body|), true);
      var _ := buffer.Append(body, true);
    }
  }

  // ---------- one frame ----------

  lemma ByteValue(n: nat)
    ensures Value(Byte(n)) == n % 256
  {
  }

  lemma Digits256(n: nat)
    ensures n / 0x100 == (n / 0x1_0000) * 256 + (n / 0x100) % 256
    ensures n / 0x1_0000 == (n / 0x100_0000) * 256 + (n / 0x1_0000) % 256
    ensures n == (n / 0x100) * 256 + n % 256
  {
  }

  lemma LengthRoundTrip(n: nat)
    requires n < Backend.TWO_31
    ensures HostLength(NetworkOrder(n)) == n
  {
    hide Value, Byte;
    ByteValue(n / 0x100_0000);
    ByteValue(n / 0x1_0000);
    ByteValue(n / 0x100);
    ByteValue(n);
    Digits256(n);
    assert n / 0x100_0000 < 256;
  }

  /** A frame at the front of the buffer is decoded, unless the eight head bytes are all
      there is. */
  lemma FrameRoundTrip(body: seq<char>, tail: seq<char>)
    requires |body| < Backend.TWO_31
    ensures Parse(Frame(body) + tail) ==
      if |body| + |tail| == 0 then Again else Body(body, HEAD_LEN + |body|)
  {
    var b := Frame(body) + tail;
    assert b[..4] == FLAG && b[4..8] == NetworkOrder(|body|);
    assert b[HEAD_LEN..HEAD_LEN + |body|] == body;
    LengthRoundTrip(|body|);
  }

  /** A frame that is not complete makes the decoder wait. */
  lemma PartOfFrame(body: seq<char>, part: seq<char>)
    requires |body| < Backend.TWO_31 && part < Frame(body)
    ensures Parse(part) == Again
  {
    if |part| > HEAD_LEN {
      assert part == Frame(body)[..|part|];
      assert part[..4] == FLAG && part[4..8] == NetworkOrder(|body|);
      LengthRoundTrip(|body|);
    }
  }

  /** Whatever a decode decides about some bytes it decides however many follow. */
  lemma DecodeStable(a: seq<char>, b: seq<char>)
    requires !Parse(a).Again?
    ensures Parse(a + b) == Parse(a)
  {
    assert (a + b)[..4] == a[..4] && (a + b)[4..8] == a[4..8];
    if Parse(a).Body? {
      var n := Parse(a).frameLen;
      assert (a + b)[HEAD_LEN..n] == a[HEAD_LEN..n];
    }
  }

  // ---------- streams ----------

  datatype Stream = Stream(bodies: seq<seq<char>>, rest: seq<char>, failed: bool)

  /** Decoding again and again until the decoder waits or fails. A stream that failed has no
      leftover: a bad flag empties the buffer, and a bad length ends in an exception. */
  function DecodeAll(b: seq<char>): Stream
    decreases |b|
  {
    match Parse(b)
    case Again => Stream([], b, false)
    case BadFlag => Stream([], [], true)
    case BadLength => Stream([], [], true)
    case Body(body, n) =>
      var s := DecodeAll(b[n..]);
      s.(bodies := [body] + s.bodies)
  }

  /** How many bytes the frames of these bodies take. */
  function Taken(bodies: seq<seq<char>>): nat {
    if bodies == [] then 0 else HEAD_LEN + |bodies[0]| + Taken(bodies[1..])
  }

  lemma NegativeIff(b: seq<char>)
    requires |b| == 4
    ensures HostLength(b) < 0 <==> b[0] as int % 256 >= 0x80
  {
    var low := Value(b[1]) * 0x1_0000 + Value(b[2]) * 0x100 + Value(b[3]);
    assert 0 <= low < 0x100_0000;
    assert 0 <= Value(b[0]) * 0x100_0000 + low < Backend.TWO_32;
  }

  /** There is more than the head of a frame, and its first four bytes are not the flag or its
      length reads as negative. */
  predicate BadFrame(b: seq<char>) {
    |b| > 8 && (b[..4] != [0xe8 as char, 0 as char, 0 as char, 0 as char] || b[4] as int % 256 >= 0x80)
  }

  lemma FirstFrame(b: seq<char>)
    ensures BadFrame(b) <==> Parse(b).BadFlag? || Parse(b).BadLength?
    ensures Parse(b).Again? <==> !BadFrame(b) && (|b| <= 8 || HostLength(b[4..8]) > |b| - 8)
    ensures Parse(b).Body? ==> Parse(b).frameLen == 8 + |Parse(b).body|
  {
    if |b| > 8 {
      NegativeIff(b[4..8]);
      assert b[4..8][0] == b[4];
    }
    hide HostLength;
  }

  /** Decoding any bytes fails if and only if, after the frames it has decoded, it comes to such
      a frame; otherwise what is left is no more than a head or lacks bytes of its body. */
  lemma {:induction false} FailsIff(b: seq<char>)
    ensures var s := DecodeAll(b); var n := Taken(s.bodies);
      && n <= |b| && (s.failed <==> BadFrame(b[n..]))
      && (!s.failed ==> s.rest == b[n..] && (|s.rest| <= 8 || HostLength(s.rest[4..8]) > |s.rest| - 8))
    decreases |b|
  {
    FirstFrame(b);
    hide Parse, BadFrame, HostLength;
    if Parse(b).Body? {
      var n, body := Parse(b).frameLen, Parse(b).body;
      var s := DecodeAll(b[n..]);
      FirstBody(b);
      hide DecodeAll;
      FailsIff(b[n..]);
      TakenMore(body, s.bodies);
      hide Taken;
      assert b[n..][Taken(s.bodies)..] == b[n + Taken(s.bodies)..];
    } else {
      assert b[0..] == b;
    }
  }

  lemma TakenMore(body: seq<char>, bodies: seq<seq<char>>)
    ensures Taken([body] + bodies) == 8 + |body| + Taken(bodies)
  {
    assert ([body] + bodies)[1..] == bodies;
  }

  function Frames(bodies: seq<seq<char>>): seq<char> {
    if bodies == [] then [] else Frame(bodies[0]) + Frames(bodies[1..])
  }

  ghost predicate Sendable(bodies: seq<seq<char>>) {
    forall i :: 0 <= i < |bodies| ==> |bodies[i]| < Backend.TWO_31
  }

  lemma DecodeAllFrame(body: seq<char>, tail: seq<char>)
    requires |body| < Backend.TWO_31
    ensures DecodeAll(Frame(body) + tail) ==
      if |body| + |tail| == 0 then Stream([], Frame(body) + tail, false)
      else DecodeAll(tail).(bodies := [body] + DecodeAll(tail).bodies)
  {
    FrameRoundTrip(body, tail);
    FrameNotEmpty(body);
    hide Parse, Frame;
    var b := Frame(body) + tail;
    if |body| + |tail| == 0 {
      StopsAt(b);
    } else {
      assert b[HEAD_LEN + |body|..] == tail;
      FirstBody(b);
    }
  }

  lemma StopsAt(a: seq<char>)
    requires Parse(a).Again?
    ensures DecodeAll(a) == Stream([], a, false)
  {
  }

  lemma FirstBody(a: seq<char>)
    requires Parse(a).Body?
    ensures var s := DecodeAll(a[Parse(a).frameLen..]);
      DecodeAll(a) == s.(bodies := [Parse(a).body] + s.bodies)
  {
  }

  lemma FrameNotEmpty(body: seq<char>)
    ensures |Frame(body)| == HEAD_LEN + |body|
  {
  }

  /** Decoding `part` of the frames of `bodies` yields the first `m` bodies and leaves the
      rest of `part`: nothing if that is all of them, otherwise part of the next frame or,
      when that frame is empty, all eight bytes of it. */
  ghost predicate DecodesTo(bodies: seq<seq<char>>, part: seq<char>, m: nat) {
    var s := DecodeAll(part);
    && m <= |bodies| && !s.failed && s.bodies == bodies[..m]
    && part == Frames(bodies[..m]) + s.rest
    && if m == |bodies| then s.rest == []
       else s.rest < Frame(bodies[m]) || (bodies[m] == [] && s.rest == Frame([]))
  }

  lemma DecodesToNothing(bodies: seq<seq<char>>, part: seq<char>)
    requires bodies != [] && DecodeAll(part) == Stream([], part, false)
    requires part < Frame(bodies[0]) || (bodies[0] == [] && part == Frame([]))
    ensures DecodesTo(bodies, part, 0)
  {
    hide Frame, DecodeAll;
    assert Frames(bodies[..0]) + part == part;
  }

  lemma DecodesToOneMore(bodies: seq<seq<char>>, more: seq<char>, m: nat)
    requires Sendable(bodies) && bodies != [] && |bodies[0]| + |more| > 0
    requires DecodesTo(bodies[1..], more, m)
    ensures DecodesTo(bodies, Frame(bodies[0]) + more, m + 1)
  {
    hide Frame, DecodeAll;
    DecodeAllFrame(bodies[0], more);
    assert bodies[..m + 1][1..] == bodies[1..][..m];
    assert bodies[..m + 1] == [bodies[0]] + bodies[1..][..m];
  }

  /** Any prefix of a stream of frames decodes to a prefix of the list, without failing. */
  lemma {:induction false} PrefixDecodes(bodies: seq<seq<char>>, part: seq<char>) returns (m: nat)
    requires Sendable(bodies) && part <= Frames(bodies)
    ensures DecodesTo(bodies, part, m)
    decreases |bodies|
  {
    if bodies == [] {
      return 0;
    }
    hide Parse, Frame, DecodesTo;
    if part < Frame(bodies[0]) {
      PartOfFrame(bodies[0], part);
      DecodesToNothing(bodies, part);
      return 0;
    }
    var more := part[|Frame(bodies[0])|..];
    assert part == Frame(bodies[0]) + more;
    if bodies[0] == [] && more == [] {
      DecodeAllFrame([], []);
      assert Frame([]) + [] == part;
      DecodesToNothing(bodies, part);
      return 0;
    }
    m := PrefixDecodes(bodies[1..], more);
    DecodesToOneMore(bodies, more, m);
    m := m + 1;
  }

  /** The whole stream decodes to exactly the list sent, leaving nothing, if and only if
      its last body is not empty: an empty last frame waits for one more byte. */
  lemma {:induction false} StreamRoundTrip(bodies: seq<seq<char>>)
    requires Sendable(bodies)
    ensures DecodeAll(Frames(bodies)) ==
      if bodies == [] || bodies[|bodies| - 1] != [] then Stream(bodies, [], false)
      else Stream(bodies[..|bodies| - 1], Frame([]), false)
  {
    if bodies != [] {
      hide Parse, Frame, DecodeAll;
      var first, tail := bodies[0], bodies[1..];
      assert Frames(bodies) == Frame(first) + Frames(tail);
      assert tail == [] ==> Frames(tail) == [] && bodies == [first];
      assert tail != [] ==> Frames(tail) != [] by {
        if tail != [] { FrameNotEmpty(tail[0]); }
      }
      DecodeAllFrame(first, Frames(tail));
      StreamRoundTrip(tail);
      hide Frames;
      if tail == [] {
        assert Frame(first) + Frames(tail) == Frame(first);
        assert first == [] || [first] + [] == bodies;
      } else {
        assert bodies == [first] + tail && bodies[..|bodies| - 1] == [first] + tail[..|tail| - 1];
      }
    }
  }

  // ---------- arrival in pieces ----------

  /** The decoder goes on, after more bytes have come, from where it stopped. */
  function Resumed(s: Stream, more: seq<char>): Stream {
    if s.failed then s else
    var t := DecodeAll(s.rest + more);
    t.(bodies := s.bodies + t.bodies)
  }

  /** Decoding some bytes and then the rest with what follows is decoding all of them. */
  lemma {:induction false} DecodeAllSplit(a: seq<char>, b: seq<char>)
    ensures DecodeAll(a + b) == Resumed(DecodeAll(a), b)
    decreases |a|
  {
    if Parse(a).Again? {
      StopsAt(a);
    } else {
      DecodeStable(a, b);
      if Parse(a).Body? {
        var n := Parse(a).frameLen;
        assert (a + b)[n..] == a[n..] + b;
        DecodeAllSplit(a[n..], b);
        FirstBody(a);
        FirstBody(a + b);
        hide DecodeAll, Parse;
        ResumedCons(DecodeAll(a[n..]), b, Parse(a).body);
      }
    }
  }

  lemma ResumedCons(s: Stream, more: seq<char>, body: seq<char>)
    ensures var t := Resumed(s, more);
      Resumed(s.(bodies := [body] + s.bodies), more) == t.(bodies := [body] + t.bodies)
  {
    hide DecodeAll;
    assert forall xs: seq<seq<char>> :: [body] + (s.bodies + xs) == [body] + s.bodies + xs;
  }

  /** The decoder called until it waits after each read; nothing is read after a failure. */
  function Reads(pieces: seq<seq<char>>): Stream {
    if pieces == [] then Stream([], [], false) else
    Resumed(Reads(pieces[..|pieces| - 1]), pieces[|pieces| - 1])
  }

  /** However the bytes are divided into reads, any bytes at all, the bodies, the leftover
      and the failure are those of one read of everything. */
  lemma {:induction false} ArrivalIndependent(pieces: seq<seq<char>>)
    ensures Reads(pieces) == DecodeAll(Concat(pieces))
  {
    if pieces != [] {
      ArrivalIndependent(pieces[..|pieces| - 1]);
      DecodeAllSplit(Concat(pieces[..|pieces| - 1]), pieces[|pieces| - 1]);
    }
  }
}
