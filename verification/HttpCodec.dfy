/** The HTTP protocol object: it decodes from a CoBuffer in place, call after call, and
    encodes into one. Each method is proved to do what the functions of HttpCore and
    HttpEncode say. */
module HttpCodec {
  import opened Common
  import opened Text
  import opened Buffer
  import opened HttpCore
  import opened HttpStream
  import opened HttpEncode

  /** What one read delivers, whether the socket had an error instead, and whether there is
      memory to read into. */
  datatype Read = Read(data: string, readOk: bool, memoryOk: bool)

  function Arrived(incoming: seq<Read>): (pieces: seq<string>)
    ensures |pieces| == |incoming|
  {
    seq(|incoming|, i requires 0 <= i < |incoming| => incoming[i].data)
  }

  lemma NoCall(d: Decoder, incoming: seq<Read>)
    ensures Calls(d, Arrived(incoming[..0])) == Result(d, [], CO_AGAIN)
  {
  }

  lemma OneMoreCall(d: Decoder, incoming: seq<Read>, used: nat)
    requires used < |incoming| && Calls(d, Arrived(incoming[..used])).ret == CO_AGAIN
    ensures var r := Calls(d, Arrived(incoming[..used]));
      Calls(d, Arrived(incoming[..used + 1])) == DecodeCall(r.d, r.rest + incoming[used].data)
  {
    hide DecodeCall;
    var all := Arrived(incoming[..used + 1]);
    assert all[..|all| - 1] == Arrived(incoming[..used]);
  }

  function Reason(table: map<int, string>, code: int): string
    requires 500 in table
  {
    if code in table then table[code] else table[500]
  }

  lemma NoHeader(headers: map<string, string>)
    ensures HeaderLines(headers, []) == ""
  {
  }

  lemma OneMoreHeader(headers: map<string, string>, order: seq<string>, name: string)
    requires name in headers && forall other :: other in order ==> other in headers
    ensures HeaderLines(headers, order + [name])
      == HeaderLines(headers, order) + Printed(HeaderLine(name, headers[name]))
    ensures forall other :: other in order + [name] <==> other in order || other == name
  {
    assert (order + [name])[..|order|] == order;
  }

  class CoProtocolHttp {
    const role: Role
    var parseStatus: Phase
    var contentRemain: int
    var contentChunked: bool
    var version: string
    var method_: string
    var url: string
    var statusCode: int
    var reasonPhrase: string
    var headers: map<string, string>
    var content: string

    function View(): Decoder
      reads this
    {
      Decoder(role, parseStatus, Msg(), contentRemain, contentChunked)
    }

    function Msg(): Message
      reads this
    {
      Message(version, method_, url, statusCode, reasonPhrase, headers, content)
    }

    constructor (role: Role)
      ensures View() == NewDecoder(role)
    {
      this.role := role;
      parseStatus, contentRemain, contentChunked := StartLine, 0, false;
      version, method_, url, statusCode, reasonPhrase := "HTTP/1.1", "", "", 200, "";
      headers, content := map[], "";
    }

    // ---------- parsing ----------

    /** The length of the line, 0 when it is not all there, -1 when it is no start line. */
    method ParseStartLine(buf: string) returns (n: int)
      modifies this
      ensures n <= |buf|
      ensures LineLen(buf) == 0 ==> n == 0 && unchanged(this)
      ensures LineLen(buf) > 0 && !AcceptsStartLine(role, buf[..LineLen(buf)]) ==> n == -1 && unchanged(this)
      ensures LineLen(buf) > 0 && AcceptsStartLine(role, buf[..LineLen(buf)]) ==>
        n == LineLen(buf) &&
        View() == old(View()).(msg := StartFields(role, old(Msg()), buf[..LineLen(buf)]))
    {
      n := LineLen(buf);
      if n == 0 {
        return;
      }
      var line := buf[..n];
      var a := Split(line, ' ');
      if role == Client && !StartsWithHttp(a.first) {
        return -1;
      }
      if role == Client { version := a.first; } else { method_ := a.first; }
      if a.rest.Some? {
        var b := Split(a.rest.value, ' ');
        if role == Client { statusCode := Atoi(b.first); } else { url := b.first; }
        if b.rest.Some? {
          var t := Token(b.rest.value);
          if t.Some? {
            if role == Client { reasonPhrase := t.value; } else { version := t.value; }
          }
        }
      }
    }

    method ParseHeader(buf: string) returns (n: nat)
      modifies this`headers
      ensures n == LineLen(buf)
      ensures View() == if n == 0 then old(View()) else HeaderField(old(View()), buf[..n])
    {
      n := LineLen(buf);
      if n > 0 {
        var a := Split(buf[..n], ':');
        if a.rest.Some? {
          var t := Token(a.rest.value);
          if t.Some? {
            headers := headers[a.first := SkipSpaces(t.value)];
          }
        }
      }
    }

    method ParseContent(buf: string) returns (n: nat)
      modifies this`content, this`contentRemain, this`parseStatus
      ensures n == Taken(old(View()), buf)
      ensures View() == TakeContent(old(View()), buf).d
    {
      n := 0;
      if contentRemain > 0 {
        n := if |buf| > contentRemain then contentRemain else |buf|;
        content := content + buf[..n];
        contentRemain := contentRemain - n;
      }
      assert old(content) + buf[..0] == old(content);
      if contentRemain <= 0 {
        parseStatus := Completed;
      }
    }

    /** Reads the size of a chunk from the hexadecimal digits before its CRLF. */
    static method ChunkSize(digits: string) returns (size: Hex)
      ensures size == HexValue(digits, 0)
    {
      var value: nat := 0;
      for i := 0 to |digits|
        invariant HexValue(digits[i..], value) == HexValue(digits, 0)
      {
        var d := HexDigit(digits[i]);
        if d.None? {
          return NotHex;
        }
        if value * 16 + d.value > INT32_MAX {
          return Overflow;
        }
        assert digits[i..][1..] == digits[i + 1..];
        value := value * 16 + d.value;
      }
      size := Size(value);
    }

    /** The head of the loop below: finds the size line and checks the chunk is all there. */
    static method FindChunk(buf: string) returns (c: Chunk)
      ensures c == NextChunk(buf)
    {
      var k := IndexOf(buf, '\n');
      if k == |buf| {
        return NeedMore;
      }
      if k == 0 || buf[k - 1] != '\r' {
        return Bad;
      }
      var size := ChunkSize(buf[..k - 1]);
      match size {
        case NotHex => return Bad;
        case Overflow => return TooLong;
        case Size(value) =>
          var chunkLen := k + 1 + value + 2;
          if chunkLen > INT32_MAX {
            return TooLong;
          }
          if |buf| < chunkLen {
            return NeedMore;
          }
          return if value == 0 then Last(chunkLen) else Data(buf[k + 1..k + 1 + value], chunkLen);
      }
    }

    method ParseContentChunked(buf: string) returns (parsedLen: nat, ret: Ret)
      modifies this`content, this`parseStatus
      ensures parsedLen <= |buf|
      ensures var r := TakeChunks(old(View()), buf);
        View() == r.d && ret == r.ret && (!r.Failed() ==> buf[parsedLen..] == r.rest)
    {
      hide NextChunk;
      parsedLen := 0;
      assert buf[0..] == buf;
      while true
        invariant parsedLen <= |buf|
        invariant TakeChunks(View(), buf[parsedLen..]) == TakeChunks(old(View()), buf)
        decreases |buf| - parsedLen
      {
        ghost var rest := buf[parsedLen..];
        var c := FindChunk(buf[parsedLen..]);
        match c {
          case NeedMore => return parsedLen, CO_AGAIN;
          case Bad => return parsedLen, CO_ERROR;
          case TooLong => return parsedLen, UNDEFINED;
          case Last(n) =>
            parsedLen := parsedLen + n;
            assert rest[n..] == buf[parsedLen..];
            parseStatus := Completed;
            return parsedLen, CO_OK;
          case Data(data, n) =>
            parsedLen := parsedLen + n;
            assert rest[n..] == buf[parsedLen..];
            content := content + data;
        }
      }
    }

    method FinishHeaders()
      modifies this`parseStatus, this`contentRemain, this`contentChunked
      ensures View() == EndHeaders(old(View()))
    {
      parseStatus := Content;
      var length := HeaderValue(Msg(), CONTENT_LENGTH);
      if length != "" {
        contentRemain := Atoi(length);
      } else if role == Client {
        var coding := HeaderValue(Msg(), TRANSFER_ENCODING);
        if coding != "" && coding == "chunked" {
          contentChunked := true;
        }
      }
    }

    /** The header loop of decode, over `data` from `at`; returns where it stopped. */
    method ParseHeaders(data: string, at: nat) returns (parsedLen: nat)
      requires at <= |data|
      modifies this`headers, this`parseStatus, this`contentRemain, this`contentChunked
      ensures at <= parsedLen <= |data|
      ensures (View(), data[parsedLen..]) == HeaderLoop(old(View()), data[at..])
    {
      hide HeaderField, EndHeaders, LineLen;
      parsedLen := at;
      var headerLen := 1;
      while parseStatus == Header && headerLen > 0 && parsedLen < |data|
        invariant at <= parsedLen <= |data| && headerLen >= 0
        invariant HeaderLoop(old(View()), data[at..]) ==
          if headerLen > 0 then HeaderLoop(View(), data[parsedLen..]) else (View(), data[parsedLen..])
        decreases headerLen > 0, |data| - parsedLen
      {
        var rest := data[parsedLen..];
        headerLen := ParseHeader(rest);
        if IsEol(rest[0]) {
          FinishHeaders();
        }
        parsedLen := parsedLen + headerLen;
        assert data[parsedLen..] == rest[headerLen..];
      }
    }

    /** The content part of decode, over `data` from `at`. */
    method ParseBody(data: string, at: nat) returns (parsedLen: nat, ret: Ret)
      requires at <= |data|
      modifies this`content, this`contentRemain, this`parseStatus
      ensures parsedLen <= |data|
      ensures var r := ContentPart(old(View()), data[at..], data);
        View() == r.d && ret == r.ret && (!r.Failed() ==> data[parsedLen..] == r.rest)
    {
      parsedLen, ret := at, CO_AGAIN;
      if parseStatus == Content {
        var rest := data[at..];
        var n;
        if !contentChunked {
          n := ParseContent(rest);
          ret := if parseStatus == Completed then CO_OK else CO_AGAIN;
        } else {
          n, ret := ParseContentChunked(rest);
        }
        parsedLen := at + n;
        assert rest[n..] == data[parsedLen..];
      }
    }

    /** One decode call. */
    method Decode(buffer: CoBuffer) returns (ret: Ret)
      requires buffer.Valid()
      modifies this, buffer`bufferSize, buffer`misalign
      ensures buffer.Valid()
      ensures Result(View(), buffer.Contents(), ret) == DecodeCall(old(View()), old(buffer.Contents()))
    {
      hide HeaderLoop, StartFields, ContentPart, AcceptsStartLine, LineLen;
      if parseStatus == Completed {
        return CO_OK;
      }
      var parsedLen: int := 0;
      var data := buffer.Contents();
      if parseStatus == StartLine || parseStatus == Header {
        if |data| > HTTP_MAX_HEADER_LEN {
          buffer.Reset();
          return E_ERROR;
        }
      }
      if parseStatus == StartLine {
        parsedLen := ParseStartLine(data);
        if parsedLen <= 0 {
          if parsedLen == -1 {
            buffer.Reset();
            return E_ERROR;
          }
          return CO_AGAIN;
        }
        parseStatus := Header;
      }
      assert data[0..] == data;
      parsedLen := ParseHeaders(data, parsedLen);
      ghost var d, rest := View(), data[parsedLen..];
      parsedLen, ret := ParseBody(data, parsedLen);
      ContentPartRest(d, rest, data);
      if ret == CO_ERROR || ret == UNDEFINED {
        return;
      }
      buffer.Erase(parsedLen);
    }

    // ---------- reading a message ----------

    /** One turn of the read loop whose read delivers `data`: take it in and decode. Without
        memory for it nothing is taken in. */
    method TakeIn(buffer: CoBuffer, data: string, memoryOk: bool) returns (ok: bool, ret: Ret)
      requires buffer.Valid() && |data| <= BUFFER_SIZE_4096
      modifies this, buffer, buffer.block
      ensures buffer.Valid() && (buffer.block == old(buffer.block) || fresh(buffer.block))
      ensures memoryOk ==> ok
      ensures ok ==> Result(View(), buffer.Contents(), ret) == DecodeCall(old(View()), old(buffer.Contents()) + data)
      ensures !ok ==> View() == old(View()) && buffer.Contents() == old(buffer.Contents())
    {
      hide DecodeCall;
      ret := CO_AGAIN;
      ok := buffer.Receive(data, memoryOk);
      if ok {
        ret := Decode(buffer);
      }
    }

    /** The read loop: take in what the socket delivers, decode, and read again while the
        decoder wants more. `incoming` is what the reads would deliver, in order; `used` of
        them are decoded, and `broken` says that the next one failed or found no memory. */
    method ReadMessage(buffer: CoBuffer, incoming: seq<Read>) returns (ret: Ret, used: nat, broken: bool)
      requires buffer.Valid() && buffer.Contents() == []
      requires forall i :: 0 <= i < |incoming| ==> |incoming[i].data| <= BUFFER_SIZE_4096
      modifies this, buffer, buffer.block
      ensures buffer.Valid() && used <= |incoming|
      ensures Result(View(), buffer.Contents(), ret) == Calls(old(View()), Arrived(incoming[..used]))
      ensures forall i :: 0 <= i < used ==>
        incoming[i].readOk && Calls(old(View()), Arrived(incoming[..i])).ret == CO_AGAIN
      ensures broken ==> used < |incoming| && ret == CO_AGAIN && !(incoming[used].readOk && incoming[used].memoryOk)
      ensures !broken && used < |incoming| ==> ret != CO_AGAIN
    {
      hide DecodeCall, Calls, Arrived;
      ret, used, broken := CO_AGAIN, 0, false;
      NoCall(View(), incoming);
      while used < |incoming|
        invariant buffer.Valid() && used <= |incoming| && ret == CO_AGAIN
        invariant buffer.block == old(buffer.block) || fresh(buffer.block)
        invariant Result(View(), buffer.Contents(), ret) == Calls(old(View()), Arrived(incoming[..used]))
        invariant forall i :: 0 <= i < used ==>
          incoming[i].readOk && Calls(old(View()), Arrived(incoming[..i])).ret == CO_AGAIN
      {
        OneMoreCall(old(View()), incoming, used);
        if !incoming[used].readOk {
          return ret, used, true;
        }
        var ok, decoded := TakeIn(buffer, incoming[used].data, incoming[used].memoryOk);
        if !ok {
          return ret, used, true;
        }
        ret, used := decoded, used + 1;
        if ret != CO_AGAIN {
          return;
        }
      }
    }

    // ---------- encoding ----------

    method AppendHeader(buffer: CoBuffer, name: string)
      requires buffer.Valid() && name in headers
      modifies buffer, buffer.block
      ensures buffer.Valid() && (buffer.block == old(buffer.block) || fresh(buffer.block))
      ensures buffer.Contents() == old(buffer.Contents()) + Printed(HeaderLine(name, headers[name]))
    {
      var line := Printed(HeaderLine(name, headers[name]));
      var _ := buffer.Append(line, true);
    }

    /** The loop over the header map, in whatever order the map yields its keys. */
    method AppendHeaders(buffer: CoBuffer) returns (ghost order: seq<string>)
      requires buffer.Valid()
      modifies buffer, buffer.block
      ensures buffer.Valid() && (buffer.block == old(buffer.block) || fresh(buffer.block))
      ensures Listing(headers, order) && |order| == |headers.Keys|
      ensures buffer.Contents() == old(buffer.Contents()) + HeaderLines(headers, order)
    {
      hide HeaderLine, Printed, HeaderLines;
      assert HeaderLines(headers, []) == "" by { NoHeader(headers); }
      var left := headers.Keys;
      order := [];
      while left != {}
        invariant left <= headers.Keys && buffer.Valid()
        invariant buffer.block == old(buffer.block) || fresh(buffer.block)
        invariant forall name :: name in order <==> name in headers && name !in left
        invariant |order| + |left| == |headers.Keys|
        invariant buffer.Contents() == old(buffer.Contents()) + HeaderLines(headers, order)
        decreases left
      {
        var name :| name in left;
        AppendHeader(buffer, name);
        OneMoreHeader(headers, order, name);
        left := left - {name};
        order := order + [name];
      }
    }

    /** The start line, the header lines, the blank line and the body. */
    method AppendAll(buffer: CoBuffer, startLine: string) returns (ghost order: seq<string>)
      requires buffer.Valid()
      modifies buffer, buffer.block
      ensures buffer.Valid() && Listing(headers, order) && |order| == |headers.Keys|
      ensures buffer.Contents() == old(buffer.Contents()) + Sent(startLine, headers, order, content)
    {
      hide Printed, HeaderLines;
      ghost var before := buffer.Contents();
      var first := Printed(startLine);
      var _ := buffer.Append(first, true);
      order := AppendHeaders(buffer);
      var _ := buffer.Append("\r\n", true);
      if |content| > 0 {
        var _ := buffer.Append(content, true);
      }
      Joined(before, first, HeaderLines(headers, order), "\r\n", content);
    }

    method SetResponseHeaders()
      modifies this`headers
      ensures headers == ResponseHeaders(old(Msg()))
    {
      headers := headers - {CONTENT_LENGTH};
      if |content| > 0 {
        headers := headers[CONTENT_LENGTH := IntToString(|content|)];
      } else {
        assert IntToString(0) == "0";
        headers := headers[CONTENT_LENGTH := "0"];
      }
      headers := headers - {SERVER};
      headers := headers[SERVER := SERVER_NAME];
    }

    method SetRequestHeaders(ipport: string)
      modifies this`headers
      ensures headers == RequestHeaders(old(Msg()), ipport)
    {
      headers := headers - {CONTENT_LENGTH};
      if |content| > 0 {
        headers := headers[CONTENT_LENGTH := IntToString(|content|)];
      }
      headers := headers - {SERVER};
      headers := headers[SERVER := SERVER_NAME];
      if HeaderValue(Msg(), HOST) == "" {
        headers := headers[HOST := ipport];
      }
    }

    /** encode of a response; `table` is the status table, whose phrase for 500 stands in for
        codes it has not. */
    method EncodeResponse(buffer: CoBuffer, table: map<int, string>) returns (ghost order: seq<string>)
      requires buffer.Valid() && 500 in table
      modifies this`headers, buffer, buffer.block
      ensures buffer.Valid() && headers == ResponseHeaders(old(Msg()))
      ensures Listing(headers, order) && |order| == |headers.Keys|
      ensures buffer.Contents() ==
        old(buffer.Contents()) + Sent(StatusLine(old(Msg()), Reason(table, statusCode)), headers, order, content)
    {
      hide ResponseHeaders, Sent, Listing;
      var reason := if statusCode in table then table[statusCode] else table[500];
      var startLine := version + " " + IntToString(statusCode) + " " + reason + "\r\n";
      SetResponseHeaders();
      order := AppendAll(buffer, startLine);
    }

    /** encode of a request to the peer at `ipport`. */
    method EncodeRequest(buffer: CoBuffer, ipport: string) returns (ghost order: seq<string>)
      requires buffer.Valid()
      modifies this`headers, buffer, buffer.block
      ensures buffer.Valid() && headers == RequestHeaders(old(Msg()), ipport)
      ensures Listing(headers, order) && |order| == |headers.Keys|
      ensures buffer.Contents() ==
        old(buffer.Contents()) + Sent(RequestLine(old(Msg())), headers, order, content)
    {
      hide RequestHeaders, Sent, Listing;
      var startLine := method_ + " " + url + " " + version + "\r\n";
      SetRequestHeaders(ipport);
      order := AppendAll(buffer, startLine);
    }
  }

  lemma Joined(a: string, b: string, c: string, d: string, e: string)
    ensures a + b + c + d + e == a + (b + c + d + e)
  {
  }

  /** A failed content part leaves the whole buffer, and fails with one of two codes. */
  lemma ContentPartRest(d: Decoder, buf: string, whole: string)
    ensures var r := ContentPart(d, buf, whole);
      if r.Failed() then r.rest == whole && (r.ret == CO_ERROR || r.ret == UNDEFINED)
      else r.ret == CO_OK || r.ret == CO_AGAIN
  {
    ChunkFailures(d, buf);
  }
}
