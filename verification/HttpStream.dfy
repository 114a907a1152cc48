/** Decoding does not depend on how the bytes arrive, and exactly when it does not. */
module HttpStream {
  import opened Common
  import opened Text
  import opened HttpCore

  // ---------- the reference decoder may stop and go on ----------

  lemma TakeContentSplit(d: Decoder, a: string, b: string)
    requires d.phase == Content && !d.chunked
    ensures var r := TakeContent(d, a); TakeContent(d, a + b) == Run(r.d, r.rest + b)
  {
    var n := Taken(d, a);
    var r := TakeContent(d, a);
    if r.ret == CO_OK {
      assert Taken(d, a + b) == n;
      assert (a + b)[..n] == a[..n] && (a + b)[n..] == a[n..] + b;
    } else {
      assert a[..n] == a;
      assert r.rest == [] && r.rest + b == b;
      TakeContentLater(d, a, b);
    }
  }

  /** All of `a` is content and more is wanted. */
  lemma TakeContentLater(d: Decoder, a: string, b: string)
    requires d.phase == Content && !d.chunked && (d.remain > |a| || (d.remain == |a| && a == ""))
    requires d.remain > 0
    ensures TakeContent(d, a + b) ==
      TakeContent(d.(msg := d.msg.(content := d.msg.content + a), remain := d.remain - |a|), b)
  {
    var m := Taken(d.(remain := d.remain - |a|), b);
    assert Taken(d, a + b) == |a| + m;
    assert (a + b)[..|a| + m] == a + b[..m] && (a + b)[|a| + m..] == b[m..];
    assert d.msg.content + (a + b[..m]) == (d.msg.content + a) + b[..m];
  }

  /** What the next chunk is does not change when more bytes follow it. */
  lemma NextChunkStable(a: string, b: string)
    requires !NextChunk(a).NeedMore?
    ensures NextChunk(a + b) == NextChunk(a)
  {
    IndexOfAppend(a, b, '\n');
    var k := IndexOf(a, '\n');
    if k > 0 {
      assert (a + b)[..k - 1] == a[..k - 1];
      if NextChunk(a).Data? {
        var n := NextChunk(a).chunkLen;
        assert (a + b)[k + 1..n - 2] == a[k + 1..n - 2];
      }
    }
  }

  lemma {:induction false} TakeChunksSplit(d: Decoder, a: string, b: string)
    requires d.phase == Content && d.chunked
    ensures var r := TakeChunks(d, a);
      TakeChunks(d, a + b) == if r.Failed() then r else Run(r.d, r.rest + b)
    decreases |a|
  {
    if !NextChunk(a).NeedMore? {
      NextChunkStable(a, b);
      match NextChunk(a)
      case Last(n) => assert (a + b)[n..] == a[n..] + b;
      case Data(data, n) =>
        assert (a + b)[n..] == a[n..] + b;
        TakeChunksSplit(d.(msg := d.msg.(content := d.msg.content + data)), a[n..], b);
      case _ =>
    }
  }

  lemma {:induction false} ChunkFailures(d: Decoder, buf: string)
    ensures TakeChunks(d, buf).ret != E_ERROR
    decreases |buf|
  {
    hide NextChunk;
    if NextChunk(buf).Data? {
      ChunkFailures(d.(msg := d.msg.(content := d.msg.content + NextChunk(buf).data)),
                    buf[NextChunk(buf).chunkLen..]);
    }
  }

  /** Decoding some bytes, then what is left of them with the rest, is decoding it all. */
  lemma {:induction false} RunSplit(d: Decoder, a: string, b: string)
    ensures var r := Run(d, a); Run(d, a + b) == if r.Failed() then r else Run(r.d, r.rest + b)
    decreases |a|
  {
    LineLenAppend(a, b);
    var n := LineLen(a);
    assert (a + b)[..n] == a[..n] && (a + b)[n..] == a[n..] + b;
    match d.phase
    case Completed =>
    case Content =>
      if d.chunked { TakeChunksSplit(d, a, b); } else { TakeContentSplit(d, a, b); }
    case StartLine =>
      if n > 0 && AcceptsStartLine(d.role, a[..n]) { RunSplit(TakeStartLine(d, a[..n]), a[n..], b); }
    case Header =>
      if n > 0 { RunSplit(TakeHeaderLine(d, a[..n]), a[n..], b); }
  }

  // ---------- one call against the reference ----------

  /** The buffer ends in the middle of a line that starts with CR while headers are read;
      so the call takes the CR of the blank line, or of a line like it, for the whole. */
  predicate BadCut(r: Result) {
    r.d.phase == Header && r.rest != [] && r.rest[0] == '\r'
  }

  predicate WithinLimit(d: Decoder, buf: string) {
    d.phase == StartLine || d.phase == Header ==> |buf| <= HTTP_MAX_HEADER_LEN
  }

  /** Equal decoders and return values, and equal leftovers unless the connection failed. */
  predicate Same(a: Result, b: Result) {
    a.d == b.d && a.ret == b.ret && (!a.Failed() ==> a.rest == b.rest)
  }

  lemma {:induction false} HeaderLoopRuns(d: Decoder, buf: string, whole: string)
    requires d.phase == Header && !BadCut(Run(d, buf))
    ensures var (e, rest) := HeaderLoop(d, buf); Same(ContentPart(e, rest, whole), Run(d, buf))
    decreases |buf|
  {
    if buf != [] {
      var n := LineLen(buf);
      if n > 0 {
        var f := TakeHeaderLine(d, buf[..n]);
        assert buf[..n][0] == buf[0];
        if f.phase == Header {
          HeaderLoopRuns(f, buf[n..], whole);
        }
      } else {
        assert buf[0] != '\n';
      }
    }
  }

  /** Within the size limit, and unless the reads were cut badly, a call does what the
      reference does. */
  lemma CallRuns(d: Decoder, buf: string)
    requires WithinLimit(d, buf) && !BadCut(Run(d, buf))
    ensures Same(DecodeCall(d, buf), Run(d, buf))
  {
    match d.phase
    case StartLine =>
      var n := LineLen(buf);
      if n > 0 && AcceptsStartLine(d.role, buf[..n]) {
        HeaderLoopRuns(TakeStartLine(d, buf[..n]), buf[n..], buf);
      }
    case Header => HeaderLoopRuns(d, buf, buf);
    case _ =>
  }

  /** The limit on what is buffered before the headers end: a first line that has not ended is
      waited for up to 8192 bytes, and refused with everything thrown away beyond. */
  lemma FirstLineLimit(role: Role, buf: string)
    requires '\n' !in buf
    ensures DecodeCall(NewDecoder(role), buf) ==
      if |buf| <= 8192 then Result(NewDecoder(role), buf, CO_AGAIN) else Result(NewDecoder(role), "", E_ERROR)
  {
    assert LineLen(buf) == 0;
  }

  // ---------- a sequence of reads ----------

  /** The results of calling decode after every read; nothing is decoded after a failure. */
  function Calls(d: Decoder, pieces: seq<string>): Result {
    if pieces == [] then Result(d, [], CO_AGAIN) else
    var r := Calls(d, pieces[..|pieces| - 1]);
    if r.Failed() then r else DecodeCall(r.d, r.rest + pieces[|pieces| - 1])
  }

  /** Every call of the sequence finds a buffer within the limit. */
  predicate CallsWithinLimit(d: Decoder, pieces: seq<string>) {
    pieces == [] ||
    var front := pieces[..|pieces| - 1];
    var r := Calls(d, front);
    CallsWithinLimit(d, front) && WithinLimit(r.d, r.rest + pieces[|pieces| - 1])
  }

  /** No read stops inside a line of the headers that starts with CR. */
  predicate NoBadCut(d: Decoder, pieces: seq<string>) {
    pieces == [] ||
    (NoBadCut(d, pieces[..|pieces| - 1]) && !BadCut(Run(d, Concat(pieces))))
  }

  /** Any message, any bytes, any division into reads: with no bad cut the calls end with
      the same message, return value and leftover bytes as the reference on all the bytes,
      and fail if and only if it fails. Chunked bodies included. */
  lemma {:induction false} CallsAreRun(role: Role, pieces: seq<string>)
    requires var d := NewDecoder(role); CallsWithinLimit(d, pieces) && NoBadCut(d, pieces)
    ensures var d := NewDecoder(role); Same(Calls(d, pieces), Run(d, Concat(pieces)))
  {
    var d := NewDecoder(role);
    if pieces != [] {
      var front, last := pieces[..|pieces| - 1], pieces[|pieces| - 1];
      CallsAreRun(role, front);
      RunSplit(d, Concat(front), last);
      var r := Calls(d, front);
      if !r.Failed() {
        CallRuns(r.d, r.rest + last);
      }
    }
  }

  // ---------- a bad cut is never made good ----------

  /** What a decoder that was cut badly has become after all the later bytes: the body starts
      at the CR. */
  function Derailed(d: Decoder, buf: string): Result {
    ContentPart(EndHeaders(d), buf, buf)
  }

  /** A decoder still in the headers of its message. */
  predicate InHeaders(d: Decoder) {
    d.phase == Header && !d.chunked
  }

  /** The line a bad cut divides can carry neither the length nor the coding of the body. */
  lemma CutLineKeepsFraming(d: Decoder, line: string)
    requires line != [] && line[0] == '\r'
    ensures HeaderValue(HeaderField(d, line).msg, CONTENT_LENGTH) == HeaderValue(d.msg, CONTENT_LENGTH)
    ensures HeaderValue(HeaderField(d, line).msg, TRANSFER_ENCODING) == HeaderValue(d.msg, TRANSFER_ENCODING)
    ensures HeaderField(d, line).msg.content == d.msg.content
  {
    var name := Split(line, ':').first;
    assert name != [] && name[0] == '\r';
    assert name != CONTENT_LENGTH by { assert CONTENT_LENGTH[0] == 'C'; }
    assert name != TRANSFER_ENCODING by { assert TRANSFER_ENCODING[0] == 'T'; }
  }

  /** The two decoders go on alike but for the line that one took and the other did not. */
  lemma CutLineEndsHeaders(d: Decoder, line: string)
    requires InHeaders(d) && line != [] && line[0] == '\r'
    ensures var e, f := EndHeaders(d), TakeHeaderLine(d, line);
      && e.phase == f.phase == Content && e.remain == f.remain && e.chunked == f.chunked
      && e.msg.content == f.msg.content
  {
    CutLineKeepsFraming(d, line);
  }

  /** A whole chunk takes four bytes at least. */
  lemma {:induction false} ChunksTakeFour(d: Decoder, buf: string)
    requires TakeChunks(d, buf).ret == CO_OK
    ensures |TakeChunks(d, buf).rest| + 4 <= |buf|
    decreases |buf|
  {
    if NextChunk(buf).Data? {
      ChunksTakeFour(d.(msg := d.msg.(content := d.msg.content + NextChunk(buf).data)),
                     buf[NextChunk(buf).chunkLen..]);
    }
  }

  lemma {:induction false} ChunksLeave(d: Decoder, buf: string)
    ensures |TakeChunks(d, buf).rest| <= |buf|
    decreases |buf|
  {
    if NextChunk(buf).Data? {
      ChunksLeave(d.(msg := d.msg.(content := d.msg.content + NextChunk(buf).data)),
                  buf[NextChunk(buf).chunkLen..]);
    }
  }

  /** As a chunk, a line that starts with CR is the last one of size nothing, if it is no more
      than the line break, or no chunk at all. */
  lemma ChunkFromCr(buf: string)
    requires buf != [] && buf[0] == '\r' && LineLen(buf) > 0
    ensures LineLen(buf) > 2 ==> NextChunk(buf) == Bad
    ensures LineLen(buf) == 2 ==> NextChunk(buf) == if |buf| < 4 then NeedMore else Last(4)
    ensures LineLen(buf) >= 2
  {
    var k := IndexOf(buf, '\n');
    assert k > 0;
    if k > 1 {
      assert buf[..k - 1][0] == '\r';
      assert HexValue(buf[..k - 1], 0) == NotHex;
    } else {
      assert buf[..k - 1] == [];
    }
  }

  /** Derailed on a chunked body, the decoder agrees with the reference only in failing. */
  lemma ChunksDiffer(e: Decoder, f: Decoder, buf: string)
    requires e.phase == f.phase == Content && e.chunked && f.chunked
    requires buf != [] && buf[0] == '\r' && LineLen(buf) > 0
    requires !TakeChunks(f, buf[LineLen(buf)..]).Failed()
    ensures !Same(ContentPart(e, buf, buf), TakeChunks(f, buf[LineLen(buf)..]))
  {
    var n := LineLen(buf);
    ChunkFromCr(buf);
    ChunksLeave(f, buf[n..]);
    if TakeChunks(f, buf[n..]).ret == CO_OK {
      ChunksTakeFour(f, buf[n..]);
    }
    hide NextChunk;
    assert TakeChunks(e, buf) ==
      if n > 2 then Result(e, [], CO_ERROR)
      else if |buf| < 4 then Result(e, buf, CO_AGAIN)
      else Result(e.(phase := Completed), buf[4..], CO_OK);
    hide TakeChunks;
  }

  /** Once derailed, a message never agrees with the reference again, whatever follows, but
      for a response on which the reference fails. */
  lemma DerailedDiffers(d: Decoder, buf: string)
    requires InHeaders(d) && buf != [] && buf[0] == '\r' && !Run(d, buf).Failed()
    ensures !Same(Derailed(d, buf), Run(d, buf))
  {
    var n := LineLen(buf);
    if n > 0 {
      var line := buf[..n];
      CutLineEndsHeaders(d, line);
      var e, f := EndHeaders(d), TakeHeaderLine(d, line);
      hide EndHeaders, HeaderField, TakeHeaderLine, TakeChunks, ContentPart;
      assert Run(d, buf) == Run(f, buf[n..]);
      if f.chunked {
        ChunksDiffer(e, f, buf);
      } else {
        TakenAfterMore(e, f, buf, n);
      }
    }
  }

  lemma TakenAfterMore(e: Decoder, f: Decoder, buf: string, n: nat)
    requires e.phase == f.phase == Content && !e.chunked && !f.chunked && e.remain == f.remain
    requires 0 < n <= |buf| && e.msg.content == f.msg.content
    ensures !Same(ContentPart(e, buf, buf), Run(f, buf[n..]))
  {
    var r, t := TakeContent(e, buf), Run(f, buf[n..]);
    assert |r.rest| == |buf| - Taken(e, buf) && |t.rest| == |buf| - n - Taken(f, buf[n..]);
    assert |r.d.msg.content| == |e.msg.content| + Taken(e, buf);
    assert |t.d.msg.content| == |e.msg.content| + Taken(f, buf[n..]);
  }

  /** The line at the front is more than the blank line, names no header, and the first chunk
      after it is malformed. */
  predicate FailsEitherWay(d: Decoder, buf: string) {
    var n := LineLen(buf);
    n > 2 && EndHeaders(HeaderField(d, buf[..n])) == EndHeaders(d) && NextChunk(buf[n..]) == Bad
  }

  /** When the reference does fail, on a chunk that comes after the line a bad cut divided,
      calls and reference agree exactly if they both fail at their first chunk. */
  lemma DerailedFailsAlike(d: Decoder, buf: string)
    requires InHeaders(d) && buf != [] && buf[0] == '\r' && Run(d, buf).Failed()
    ensures Same(Derailed(d, buf), Run(d, buf)) <==> FailsEitherWay(d, buf)
  {
    var n := LineLen(buf);
    if n > 0 {
      var line := buf[..n];
      CutLineEndsHeaders(d, line);
      var e, f := EndHeaders(d), TakeHeaderLine(d, line);
      assert f == EndHeaders(HeaderField(d, line));
      hide EndHeaders, HeaderField, TakeHeaderLine;
      ChunkFromCr(buf);
      hide NextChunk;
      assert f.chunked && Run(d, buf) == TakeChunks(f, buf[n..]);
      FailsWith(f, buf[n..]);
    }
  }

  /** A failure leaves in the decoder what the chunks before it carried. */
  lemma {:induction false} FailsWith(d: Decoder, buf: string)
    ensures var r := TakeChunks(d, buf);
      && |d.msg.content| <= |r.d.msg.content|
      && (r.Failed() && |r.d.msg.content| == |d.msg.content| ==>
            r.d == d && r.ret == if NextChunk(buf) == Bad then CO_ERROR else UNDEFINED)
      && (NextChunk(buf).Data? ==> |d.msg.content| < |r.d.msg.content|)
    decreases |buf|
  {
    if NextChunk(buf).Data? {
      FailsWith(d.(msg := d.msg.(content := d.msg.content + NextChunk(buf).data)), buf[NextChunk(buf).chunkLen..]);
    }
  }

  /** Later reads extend a derailed body. */
  lemma DerailedGoesOn(d: Decoder, a: string, b: string)
    requires InHeaders(d)
    ensures var r := Derailed(d, a);
      Same(if r.Failed() then r else DecodeCall(r.d, r.rest + b), Derailed(d, a + b))
  {
    var e := EndHeaders(d);
    assert e.phase == Content;
    hide EndHeaders;
    if e.chunked {
      TakeChunksSplit(e, a, b);
      ChunksKeepPhase(e, a);
    } else {
      TakeContentSplit(e, a, b);
    }
  }

  lemma {:induction false} ChunksKeepPhase(d: Decoder, buf: string)
    requires d.phase == Content && d.chunked
    ensures var r := TakeChunks(d, buf);
      r.d.chunked && (r.d.phase == Content || r.d.phase == Completed) && (r.d.phase == Completed <==> r.ret == CO_OK)
    decreases |buf|
  {
    if NextChunk(buf).Data? {
      ChunksKeepPhase(d.(msg := d.msg.(content := d.msg.content + NextChunk(buf).data)),
                      buf[NextChunk(buf).chunkLen..]);
    }
  }

  /** A decoder that has not reached the body has not settled how the body is read. */
  predicate Unsettled(d: Decoder) {
    d.phase == StartLine || d.phase == Header ==> !d.chunked
  }

  lemma {:induction false} RunStaysUnsettled(d: Decoder, buf: string)
    requires Unsettled(d)
    ensures Unsettled(Run(d, buf).d) && Run(d, buf).d.role == d.role
    ensures d.role == Server && !d.chunked ==> !Run(d, buf).Failed() && !Run(d, buf).d.chunked
    decreases |buf|
  {
    var n := LineLen(buf);
    if d.phase == StartLine && n > 0 && AcceptsStartLine(d.role, buf[..n]) {
      RunStaysUnsettled(TakeStartLine(d, buf[..n]), buf[n..]);
    } else if d.phase == Header && n > 0 {
      RunStaysUnsettled(TakeHeaderLine(d, buf[..n]), buf[n..]);
    } else if d.phase == Content && d.chunked {
      ChunksKeepPhase(d, buf);
      ChunksKeepRole(d, buf);
    }
  }

  lemma {:induction false} ChunksKeepRole(d: Decoder, buf: string)
    ensures TakeChunks(d, buf).d.role == d.role
    decreases |buf|
  {
    if NextChunk(buf).Data? {
      ChunksKeepRole(d.(msg := d.msg.(content := d.msg.content + NextChunk(buf).data)),
                     buf[NextChunk(buf).chunkLen..]);
    }
  }

  lemma ContentNotCut(d: Decoder, buf: string)
    requires d.phase == Content || d.phase == Completed
    ensures !BadCut(Run(d, buf))
  {
    if d.phase == Content && d.chunked {
      ChunksKeepPhase(d, buf);
    }
  }

  lemma {:induction false} HeaderLoopDerails(d: Decoder, buf: string)
    requires d.phase == Header && BadCut(Run(d, buf))
    ensures var r := Run(d, buf); HeaderLoop(d, buf) == (EndHeaders(r.d), r.rest)
    decreases |buf|
  {
    var n := LineLen(buf);
    if n > 0 {
      var f := TakeHeaderLine(d, buf[..n]);
      assert Run(d, buf) == Run(f, buf[n..]);
      if f.phase != Header {
        ContentNotCut(f, buf[n..]);
      }
      HeaderLoopDerails(f, buf[n..]);
    }
  }

  /** The call that sees a bad cut takes its CR for the blank line. */
  lemma CallDerails(d: Decoder, buf: string)
    requires WithinLimit(d, buf) && BadCut(Run(d, buf))
    ensures var r := Run(d, buf); Same(DecodeCall(d, buf), Derailed(r.d, r.rest))
  {
    hide HeaderLoop, TakeHeaderLine, StartFields, TakeContent, TakeChunks;
    var n := LineLen(buf);
    assert EndHeaders(Run(d, buf).d).phase == Content;
    hide EndHeaders;
    if d.phase == StartLine {
      HeaderLoopDerails(TakeStartLine(d, buf[..n]), buf[n..]);
    } else if d.phase == Header {
      HeaderLoopDerails(d, buf);
    } else {
      ContentNotCut(d, buf);
    }
  }

  /** The calls have derailed: they and the reference have both gone on from a state `h` in
      the headers, over the same bytes `x`, which start with CR. */
  ghost predicate HasDerailed(d: Decoder, pieces: seq<string>, h: Decoder, x: string) {
    && InHeaders(h) && h.role == d.role && x != [] && x[0] == '\r'
    && Same(Calls(d, pieces), Derailed(h, x))
    && Run(d, Concat(pieces)) == Run(h, x)
  }

  lemma {:induction false} SomeCutDerails(role: Role, pieces: seq<string>) returns (h: Decoder, x: string)
    requires var d := NewDecoder(role); CallsWithinLimit(d, pieces) && !NoBadCut(d, pieces)
    ensures HasDerailed(NewDecoder(role), pieces, h, x)
  {
    var d := NewDecoder(role);
    var front, last := pieces[..|pieces| - 1], pieces[|pieces| - 1];
    RunSplit(d, Concat(front), last);
    if NoBadCut(d, front) {
      h, x := FirstCut(role, pieces);
    } else {
      var y;
      h, y := SomeCutDerails(role, front);
      x := y + last;
      hide Run, Derailed, DecodeCall;
      DerailedGoesOn(h, y, last);
      RunSplit(h, y, last);
    }
  }

  /** The read that makes the first bad cut. */
  lemma FirstCut(role: Role, pieces: seq<string>) returns (h: Decoder, x: string)
    requires var d := NewDecoder(role); CallsWithinLimit(d, pieces) && !NoBadCut(d, pieces)
    requires NoBadCut(NewDecoder(role), pieces[..|pieces| - 1])
    ensures HasDerailed(NewDecoder(role), pieces, h, x)
  {
    var d := NewDecoder(role);
    var front, last := pieces[..|pieces| - 1], pieces[|pieces| - 1];
    var cut := Run(d, Concat(pieces));
    h, x := cut.d, cut.rest;
    RunSplit(d, Concat(front), last);
    CallsAreRun(role, front);
    RunStaysUnsettled(d, Concat(pieces));
    CutNotFailed(d, Concat(pieces));
    var r := Calls(d, front);
    hide Derailed, DecodeCall;
    CallDerails(r.d, r.rest + last);
    BadCutWaits(d, Concat(pieces));
  }

  lemma {:induction false} CutNotFailed(d: Decoder, buf: string)
    requires BadCut(Run(d, buf))
    ensures Run(d, buf).ret == CO_AGAIN
    decreases |buf|
  {
    var n := LineLen(buf);
    if d.phase == StartLine {
      CutNotFailed(TakeStartLine(d, buf[..n]), buf[n..]);
    } else if d.phase == Header && n > 0 {
      CutNotFailed(TakeHeaderLine(d, buf[..n]), buf[n..]);
    } else if d.phase != Header {
      ContentNotCut(d, buf);
    }
  }

  /** What the reference leaves undecoded it would leave again. */
  lemma {:induction false} BadCutWaits(d: Decoder, buf: string)
    requires BadCut(Run(d, buf))
    ensures var r := Run(d, buf); Run(r.d, r.rest) == r
    decreases |buf|
  {
    var n := LineLen(buf);
    if d.phase == StartLine {
      BadCutWaits(TakeStartLine(d, buf[..n]), buf[n..]);
    } else if d.phase == Header && n > 0 {
      BadCutWaits(TakeHeaderLine(d, buf[..n]), buf[n..]);
    } else if d.phase != Header {
      ContentNotCut(d, buf);
    }
  }

  /** A call over the limit fails, and no later call is made. */
  lemma {:induction false} OverLimitFails(d: Decoder, pieces: seq<string>)
    requires !CallsWithinLimit(d, pieces)
    ensures Calls(d, pieces).Failed()
  {
    var front, last := pieces[..|pieces| - 1], pieces[|pieces| - 1];
    if !CallsWithinLimit(d, front) {
      OverLimitFails(d, front);
    } else {
      var r := Calls(d, front);
      assert !WithinLimit(r.d, r.rest + last);
    }
  }

  /** The condition is exact for requests and responses alike: unless one decode of all the
      bytes fails, the calls agree with it if and only if no read stopped inside a header line
      that starts with CR and no call before the headers end finds more than 8192 bytes. */
  lemma ArrivesIffNoBadCut(role: Role, pieces: seq<string>)
    requires !Run(NewDecoder(role), Concat(pieces)).Failed()
    ensures var d := NewDecoder(role);
      Same(Calls(d, pieces), Run(d, Concat(pieces))) <==> NoBadCut(d, pieces) && CallsWithinLimit(d, pieces)
  {
    var d := NewDecoder(role);
    if !CallsWithinLimit(d, pieces) {
      hide Calls, Run;
      OverLimitFails(d, pieces);
    } else if NoBadCut(d, pieces) {
      CallsAreRun(role, pieces);
    } else {
      var h, x := SomeCutDerails(role, pieces);
      hide Derailed, Run;
      DerailedDiffers(h, x);
    }
  }

  /** And when one decode of all the bytes fails, a badly cut sequence of reads agrees with it
      exactly if the two fail alike on the bytes `x` from the cut on. */
  lemma FailedArrivalIff(role: Role, pieces: seq<string>) returns (h: Decoder, x: string)
    requires CallsWithinLimit(NewDecoder(role), pieces) && !NoBadCut(NewDecoder(role), pieces)
    requires Run(NewDecoder(role), Concat(pieces)).Failed()
    ensures var d := NewDecoder(role);
      && HasDerailed(d, pieces, h, x)
      && (Same(Calls(d, pieces), Run(d, Concat(pieces))) <==> FailsEitherWay(h, x))
  {
    h, x := SomeCutDerails(role, pieces);
    hide Derailed, Run, FailsEitherWay;
    DerailedFailsAlike(h, x);
  }

  /** One decode of a request cannot fail, so for requests nothing is left to assume. */
  lemma RequestsArriveIffNoBadCut(pieces: seq<string>)
    ensures var d := NewDecoder(Server);
      Same(Calls(d, pieces), Run(d, Concat(pieces))) <==> NoBadCut(d, pieces) && CallsWithinLimit(d, pieces)
  {
    RunStaysUnsettled(NewDecoder(Server), Concat(pieces));
    ArrivesIffNoBadCut(Server, pieces);
  }
}
