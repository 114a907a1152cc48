/** The chunked decoder inverts the chunked transfer coding of section 7.1 of RFC 9112,
    without extensions and trailers. */
module HttpChunked {
  import opened Common
  import opened Text
  import opened HttpCore
  import opened HttpStream
  import opened HttpEncode

  /** One chunk of the coding: a spelling of its size, and its data. */
  datatype Piece = Piece(size: string, data: string)

  function ChunkBytes(p: Piece): string {
    p.size + "\r\n" + p.data + "\r\n"
  }

  /** The spelling says the length of the data; header and data together fit in int32. */
  predicate Spelled(p: Piece) {
    HexValue(p.size, 0) == Size(|p.data|) && |ChunkBytes(p)| <= INT32_MAX
  }

  function Coded(pieces: seq<Piece>, lastSize: string): string {
    if pieces == [] then ChunkBytes(Piece(lastSize, ""))
    else ChunkBytes(pieces[0]) + Coded(pieces[1..], lastSize)
  }

  function Decoded(pieces: seq<Piece>): string {
    if pieces == [] then "" else pieces[0].data + Decoded(pieces[1..])
  }

  ghost predicate WellCoded(pieces: seq<Piece>, lastSize: string) {
    && Spelled(Piece(lastSize, ""))
    && forall i :: 0 <= i < |pieces| ==> Spelled(pieces[i]) && pieces[i].data != ""
  }

  lemma {:induction false} HexHasNoNewline(s: string, acc: nat)
    requires HexValue(s, acc).Size?
    ensures '\n' !in s
  {
    if s != [] {
      HexHasNoNewline(s[1..], acc * 16 + HexDigit(s[0]).value);
    }
  }

  lemma NextChunkOfPiece(p: Piece, tail: string)
    requires Spelled(p)
    ensures NextChunk(ChunkBytes(p) + tail) ==
      if p.data == "" then Last(|ChunkBytes(p)|) else Data(p.data, |ChunkBytes(p)|)
    ensures (ChunkBytes(p) + tail)[|ChunkBytes(p)|..] == tail
  {
    var buf, k := ChunkBytes(p) + tail, |p.size| + 1;
    FirstNewline(p, tail);
    hide IndexOf, HexValue;
    assert buf[..k - 1] == p.size;
    assert buf[k + 1..k + 1 + |p.data|] == p.data;
  }

  lemma FirstNewline(p: Piece, tail: string)
    requires Spelled(p)
    ensures var buf, k := ChunkBytes(p) + tail, |p.size| + 1;
      IndexOf(buf, '\n') == k < |buf| && buf[k - 1] == '\r'
  {
    var rest := "\r\n" + p.data + "\r\n" + tail;
    HexHasNoNewline(p.size, 0);
    hide HexValue;
    assert ChunkBytes(p) + tail == p.size + rest;
    NewlineAfter(p.size, rest);
  }

  lemma NewlineAfter(s: string, rest: string)
    requires '\n' !in s && |rest| >= 2 && rest[0] == '\r' && rest[1] == '\n'
    ensures IndexOf(s + rest, '\n') == |s| + 1
  {
    IndexOfAppend(s, rest, '\n');
  }

  lemma TakeOneChunk(d: Decoder, p: Piece, tail: string)
    requires Spelled(p)
    ensures TakeChunks(d, ChunkBytes(p) + tail) ==
      if p.data == "" then Result(d.(phase := Completed), tail, CO_OK)
      else TakeChunks(d.(msg := d.msg.(content := d.msg.content + p.data)), tail)
  {
    hide ChunkBytes, NextChunk;
    NextChunkOfPiece(p, tail);
  }

  lemma {:induction false} ChunksRoundTrip(d: Decoder, pieces: seq<Piece>, lastSize: string, tail: string)
    requires WellCoded(pieces, lastSize)
    ensures TakeChunks(d, Coded(pieces, lastSize) + tail) ==
      Result(d.(phase := Completed, msg := d.msg.(content := d.msg.content + Decoded(pieces))), tail, CO_OK)
    decreases |pieces|
  {
    if pieces == [] {
      hide ChunkBytes, Spelled, TakeChunks;
      TakeOneChunk(d, Piece(lastSize, ""), tail);
      assert d.msg.content + "" == d.msg.content;
    } else {
      var p, more := pieces[0], Coded(pieces[1..], lastSize);
      var e := d.(msg := d.msg.(content := d.msg.content + p.data));
      FirstPiece(d, pieces, lastSize, tail);
      hide *;
      TakeOneChunk(d, p, more + tail);
      ChunksRoundTrip(e, pieces[1..], lastSize, tail);
    }
  }

  lemma FirstPiece(d: Decoder, pieces: seq<Piece>, lastSize: string, tail: string)
    requires WellCoded(pieces, lastSize) && pieces != []
    ensures Spelled(pieces[0]) && pieces[0].data != "" && WellCoded(pieces[1..], lastSize)
    ensures Coded(pieces, lastSize) + tail == ChunkBytes(pieces[0]) + (Coded(pieces[1..], lastSize) + tail)
    ensures d.msg.content + pieces[0].data + Decoded(pieces[1..]) == d.msg.content + Decoded(pieces)
  {
    hide ChunkBytes, Spelled;
  }

  /** Decoding the coding of any list of non-empty chunks of any bytes appends exactly their
      concatenation, consumes exactly the coding, and completes. */
  lemma ChunkedRoundTrip(d: Decoder, pieces: seq<Piece>, lastSize: string, tail: string)
    requires WellCoded(pieces, lastSize) && d.phase == Content && d.chunked
    ensures Run(d, Coded(pieces, lastSize) + tail) ==
      Result(d.(phase := Completed, msg := d.msg.(content := d.msg.content + Decoded(pieces))), tail, CO_OK)
  {
    ChunksRoundTrip(d, pieces, lastSize, tail);
  }

  // ---------- whole chunked responses ----------

  /** The status line of a response. */
  function HttpLine(code: int, reason: string): string {
    "HTTP/1.1 " + IntToString(code) + " " + reason + "\r\n"
  }

  /** Headers that say the body is chunked, and give no length. */
  ghost predicate SaysChunked(headers: map<string, string>) {
    && Printable(headers)
    && HeaderIn(headers, "Transfer-Encoding") == "chunked" && HeaderIn(headers, "Content-Length") == ""
  }

  function ChunkedResponse(code: int, reason: string, headers: map<string, string>, order: seq<string>,
                           pieces: seq<Piece>, lastSize: string): string
    requires forall name :: name in order ==> name in headers
  {
    Sent(HttpLine(code, reason), headers, order, Coded(pieces, lastSize))
  }

  /** The blank line after headers that say so turns to reading chunks. */
  lemma RunChunked(d: Decoder, pieces: seq<Piece>, lastSize: string, tail: string)
    requires d.phase == Header && d.role == Client && d.msg.content == "" && WellCoded(pieces, lastSize)
    requires SaysChunked(d.msg.headers)
    ensures Run(d, "\r\n" + Coded(pieces, lastSize) + tail) ==
      Result(d.(phase := Completed, chunked := true, msg := d.msg.(content := Decoded(pieces))), tail, CO_OK)
  {
    var coded := Coded(pieces, lastSize);
    LineLenOfLine("", coded + tail);
    assert "" + "\r\n" + (coded + tail) == "\r\n" + (coded + tail) == "\r\n" + coded + tail;
    BlankLineIsNoHeader(d);
    var e := d.(phase := Content, chunked := true);
    assert TakeHeaderLine(d, "\r\n") == e;
    hide TakeHeaderLine, Printable;
    assert Run(d, "\r\n" + (coded + tail)) == Run(e, coded + tail) by {
      RunOneLine(d, "\r\n", coded + tail);
    }
    hide Run;
    ChunkedRoundTrip(e, pieces, lastSize, tail);
    assert "" + Decoded(pieces) == Decoded(pieces);
  }

  /** A response with any headers in any order, the chunked coding among them and no length,
      and any list of chunks: the client gets version, status, reason, headers and the chunks
      put together, and exactly the bytes of the message are consumed. */
  lemma ChunkedResponseRoundTrip(code: int, reason: string, headers: map<string, string>, order: seq<string>,
                                 pieces: seq<Piece>, lastSize: string, tail: string)
    requires reason != "" && NoEol(reason) && |HttpLine(code, reason)| <= 511
    requires SaysChunked(headers) && Listing(headers, order) && WellCoded(pieces, lastSize)
    ensures Run(NewDecoder(Client), ChunkedResponse(code, reason, headers, order, pieces, lastSize) + tail) ==
      Result(Decoder(Client, Completed, Message("HTTP/1.1", "", "", code, reason, headers, Decoded(pieces)), 0, true),
             tail, CO_OK)
  {
    var line, coded := "HTTP/1.1 " + IntToString(code) + " " + reason, Coded(pieces, lastSize);
    HttpLineRead(code, reason);
    hide StartFields, AcceptsStartLine, Run, Sent, Printable, Listing, WellCoded, Coded, Decoded, HttpLine;
    HeadRuns(Client, line, headers, order, coded, tail);
    RunChunked(AfterHeaders(Client, line + "\r\n", headers), pieces, lastSize, tail);
  }

  lemma HttpLineRead(code: int, reason: string)
    requires reason != "" && NoEol(reason)
    ensures var line := "HTTP/1.1 " + IntToString(code) + " " + reason;
      && HttpLine(code, reason) == line + "\r\n" && '\n' !in line
      && AcceptsStartLine(Client, line + "\r\n")
      && StartFields(Client, EMPTY_MESSAGE, line + "\r\n") == Message("HTTP/1.1", "", "", code, reason, map[], "")
  {
    var m := EMPTY_MESSAGE.(statusCode := code, reason := reason);
    var digits := IntToString(code);
    hide IntToString;
    assert "HTTP/1.1 " + digits == "HTTP/1.1" + " " + digits;
    NoNewline(reason);
    StatusLineFields(NewDecoder(Client), m, reason);
    hide StartFields, AcceptsStartLine;
  }

  /** End to end, read in any pieces: the client gets it exactly if there is no bad cut and no
      call over the limit. */
  lemma ChunkedResponseArrives(code: int, reason: string, headers: map<string, string>, order: seq<string>,
                               pieces: seq<Piece>, lastSize: string, arriving: seq<string>)
    requires reason != "" && NoEol(reason) && |HttpLine(code, reason)| <= 511
    requires SaysChunked(headers) && Listing(headers, order) && WellCoded(pieces, lastSize)
    requires Concat(arriving) == ChunkedResponse(code, reason, headers, order, pieces, lastSize)
    ensures Calls(NewDecoder(Client), arriving) ==
        Result(Decoder(Client, Completed, Message("HTTP/1.1", "", "", code, reason, headers, Decoded(pieces)), 0, true),
               "", CO_OK)
      <==> NoBadCut(NewDecoder(Client), arriving) && CallsWithinLimit(NewDecoder(Client), arriving)
  {
    hide Calls, Run, NoBadCut, CallsWithinLimit, ChunkedResponse;
    ChunkedResponseRoundTrip(code, reason, headers, order, pieces, lastSize, "");
    assert Concat(arriving) + "" == Concat(arriving);
    ArrivesIffNoBadCut(Client, arriving);
  }

  // ---------- every size has a spelling, in either case ----------

  function HexChar(n: nat, upper: bool): char
    requires n < 16
  {
    if n < 10 then ('0' as int + n) as char
    else if upper then ('A' as int + n - 10) as char
    else ('a' as int + n - 10) as char
  }

  function ToHex(n: nat, upper: bool): string {
    if n < 16 then [HexChar(n, upper)] else ToHex(n / 16, upper) + [HexChar(n % 16, upper)]
  }

  lemma HexDigitOfChar(n: nat, upper: bool)
    requires n < 16
    ensures HexDigit(HexChar(n, upper)) == Some(n)
  {
  }

  lemma {:induction false} HexSnoc(s: string, c: char, acc: nat, v: nat, n: nat)
    requires HexValue(s, acc) == Size(v) && HexDigit(c) == Some(n) && v * 16 + n <= INT32_MAX
    ensures HexValue(s + [c], acc) == Size(v * 16 + n)
  {
    if s == [] {
      assert [] + [c] == [c] && [c][1..] == [];
    } else {
      assert (s + [c])[1..] == s[1..] + [c];
      HexSnoc(s[1..], c, acc * 16 + HexDigit(s[0]).value, v, n);
    }
  }

  /** Upper- and lower-case hexadecimal sizes are read alike. */
  lemma {:induction false} HexEitherCase(n: nat, upper: bool)
    requires n <= INT32_MAX
    ensures HexValue(ToHex(n, upper), 0) == Size(n)
  {
    HexDigitOfChar(n % 16, upper);
    if n < 16 {
      assert [HexChar(n, upper)][1..] == [];
    } else {
      HexEitherCase(n / 16, upper);
      HexSnoc(ToHex(n / 16, upper), HexChar(n % 16, upper), 0, n / 16, n % 16);
    }
  }

  // ---------- what is no chunk ----------

  /** The digits are those of either case and no other characters. */
  lemma HexDigitIff(c: char, n: nat)
    requires n < 16
    ensures HexDigit(c) == Some(n) <==> c == HexChar(n, false) || c == HexChar(n, true)
  {
  }

  predicate IsHex(c: char) {
    '0' <= c <= '9' || 'a' <= c <= 'f' || 'A' <= c <= 'F'
  }

  function Pow16(n: nat): nat {
    if n == 0 then 1 else 16 * Pow16(n - 1)
  }

  /** Up to seven digits cannot overflow; the first character after them that is none ends it. */
  lemma {:induction false} StopsAtNoDigit(s: string, acc: nat, digits: nat, at: nat)
    requires at < |s| && digits + at <= 7 && acc < Pow16(digits)
    requires !IsHex(s[at]) && forall i :: 0 <= i < at ==> IsHex(s[i])
    ensures HexValue(s, acc) == NotHex
  {
    assert Pow16(7) == 0x1000_0000;
    if at > 0 {
      var d := HexDigit(s[0]).value;
      assert acc * 16 + d < Pow16(digits + 1);
      PowGrows(digits + 1, 7);
      StopsAtNoDigit(s[1..], acc * 16 + d, digits + 1, at - 1);
    }
  }

  lemma {:induction false} PowGrows(m: nat, n: nat)
    requires m <= n
    ensures Pow16(m) <= Pow16(n)
  {
    if m < n {
      PowGrows(m, n - 1);
    }
  }

  /** A chunked body fails at a size with a character that is no digit, after at most seven
      that are. */
  lemma BadSizeFails(d: Decoder, size: string, at: nat, tail: string)
    requires d.phase == Content && d.chunked && '\n' !in size
    requires at < |size| && at <= 7 && !IsHex(size[at]) && forall i :: 0 <= i < at ==> IsHex(size[i])
    ensures Run(d, size + "\r\n" + tail) == Result(d, "", CO_ERROR)
  {
    var buf := size + ("\r\n" + tail);
    assert buf == size + "\r\n" + tail;
    NewlineAfter(size, "\r\n" + tail);
    assert buf[..|size|] == size && buf[|size|] == '\r';
    StopsAtNoDigit(size, 0, 0, at);
    hide HexValue, IndexOf;
  }

  /** And at a size line that does not end in CR LF. */
  lemma BareNewlineFails(d: Decoder, line: string, tail: string)
    requires d.phase == Content && d.chunked && '\n' !in line
    requires line != "" ==> line[|line| - 1] != '\r'
    ensures Run(d, line + "\n" + tail) == Result(d, "", CO_ERROR)
  {
    var buf := line + ("\n" + tail);
    assert buf == line + "\n" + tail;
    IndexOfAppend(line, "\n" + tail, '\n');
    assert line != "" ==> buf[|line| - 1] == line[|line| - 1];
    hide IndexOf;
  }
}
