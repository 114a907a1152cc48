/** Incremental HTTP decoding on values: what one `decode` call does, and a reference
    decoder without the call's two quirks, against which the calls are compared. The
    server decodes requests and the client decodes responses; the two decode functions
    are the same loop apart from the start line and chunked bodies. */
module HttpCore {
  import opened Common
  import opened Text

  const HTTP_MAX_HEADER_LEN := 8192
  const INT32_MAX := 0x7FFF_FFFF

  const CONTENT_LENGTH := "Content-Length"
  const TRANSFER_ENCODING := "Transfer-Encoding"
  const SERVER := "Server"
  const HOST := "Host"

  datatype Role = Server | Client

  datatype Phase = StartLine | Header | Content | Completed

  /** The fields of a request or response message that decoding fills in. */
  datatype Message = Message(
    version: string, method_: string, url: string, statusCode: int, reason: string,
    headers: map<string, string>, content: string)

  /** A message being decoded. */
  datatype Decoder = Decoder(role: Role, phase: Phase, msg: Message, remain: int, chunked: bool)

  /** What a decode call returns. `E_ERROR` is the enumerator eError, `CO_ERROR` is -1;
      `UNDEFINED` stands for a chunk size beyond int32, where C++ defines nothing. */
  datatype Ret = CO_OK | CO_AGAIN | CO_ERROR | E_ERROR | UNDEFINED

  datatype Result = Result(d: Decoder, rest: string, ret: Ret) {
    predicate Failed() { ret != CO_OK && ret != CO_AGAIN }
  }

  const EMPTY_MESSAGE := Message("HTTP/1.1", "", "", 200, "", map[], "")

  function NewDecoder(role: Role): Decoder {
    Decoder(role, StartLine, EMPTY_MESSAGE, 0, false)
  }

  function HeaderValue(m: Message, name: string): string {
    if name in m.headers then m.headers[name] else ""
  }

  // ---------- lines ----------

  /** Length of the first line, newline included; 0 when there is no whole line. */
  function LineLen(buf: string): (n: nat)
    ensures n <= |buf|
  {
    var k := IndexOf(buf, '\n');
    if k < |buf| then k + 1 else 0
  }

  lemma LineLenAppend(a: string, b: string)
    ensures LineLen(a) > 0 ==> LineLen(a + b) == LineLen(a)
    ensures LineLen(a) == 0 ==> LineLen(a + b) == if LineLen(b) == 0 then 0 else |a| + LineLen(b)
  {
    IndexOfAppend(a, b, '\n');
  }

  predicate SameLetter(c: char, lower: char) {
    c == lower || (c as int) + 32 == lower as int
  }

  /** strncasecmp(first, "HTTP", 4) == 0. */
  predicate StartsWithHttp(first: string) {
    |first| >= 4 && SameLetter(first[0], 'h') && SameLetter(first[1], 't')
    && SameLetter(first[2], 't') && SameLetter(first[3], 'p')
  }

  predicate AcceptsStartLine(role: Role, line: string) {
    role == Client ==> StartsWithHttp(Split(line, ' ').first)
  }

  function StartFields(role: Role, m: Message, line: string): Message {
    var a := Split(line, ' ');
    var m1 := if role == Client then m.(version := a.first) else m.(method_ := a.first);
    match a.rest
    case None => m1
    case Some(r) =>
      var b := Split(r, ' ');
      var m2 := if role == Client then m1.(statusCode := Atoi(b.first)) else m1.(url := b.first);
      match b.rest
      case None => m2
      case Some(p) =>
        match Token(p)
        case None => m2
        case Some(t) => if role == Client then m2.(reason := t) else m2.(version := t)
  }

  function TakeStartLine(d: Decoder, line: string): Decoder {
    d.(phase := Header, msg := StartFields(d.role, d.msg, line))
  }

  /** parse_header on one line. */
  function HeaderField(d: Decoder, line: string): Decoder {
    var a := Split(line, ':');
    match a.rest
    case None => d
    case Some(p) =>
      match Token(p)
      case None => d
      case Some(t) => d.(msg := d.msg.(headers := d.msg.headers[a.first := SkipSpaces(t)]))
  }

  /** A line whose first character is CR or LF ends the headers. */
  function EndHeaders(d: Decoder): Decoder {
    var length := HeaderValue(d.msg, CONTENT_LENGTH);
    var e := d.(phase := Content);
    if length != "" then e.(remain := Atoi(length))
    else if d.role == Client && HeaderValue(d.msg, TRANSFER_ENCODING) == "chunked" then e.(chunked := true)
    else e
  }

  function TakeHeaderLine(d: Decoder, line: string): Decoder
    requires line != []
  {
    var e := HeaderField(d, line);
    if IsEol(line[0]) then EndHeaders(e) else e
  }

  // ---------- content of known length ----------

  function Taken(d: Decoder, buf: string): (n: nat)
    ensures n <= |buf|
  {
    if d.remain <= 0 then 0 else if |buf| > d.remain then d.remain else |buf|
  }

  function TakeContent(d: Decoder, buf: string): Result {
    var n := Taken(d, buf);
    var e := d.(msg := d.msg.(content := d.msg.content + buf[..n]), remain := d.remain - n);
    if e.remain <= 0 then Result(e.(phase := Completed), buf[n..], CO_OK)
    else Result(e, buf[n..], CO_AGAIN)
  }

  // ---------- chunked content ----------

  function HexDigit(c: char): Option<nat> {
    if '0' <= c <= '9' then Some(c as int - '0' as int) else
    // c | 0x20
    var low := if (c as int / 32) % 2 == 0 then c as int + 32 else c as int;
    if 'a' as int <= low <= 'f' as int then Some(low - 'a' as int + 10) else None
  }

  datatype Hex = Size(value: nat) | NotHex | Overflow

  function HexValue(s: string, acc: nat): Hex {
    if s == [] then Size(acc) else
    match HexDigit(s[0])
    case None => NotHex
    case Some(d) => if acc * 16 + d > INT32_MAX then Overflow else HexValue(s[1..], acc * 16 + d)
  }

  /** What the next bytes of a chunked body are. */
  datatype Chunk =
    | NeedMore
    | Bad
    | TooLong
    | Data(data: string, chunkLen: nat)
    | Last(chunkLen: nat)

  function NextChunk(buf: string): (c: Chunk)
    ensures c.Data? || c.Last? ==> 0 < c.chunkLen <= |buf|
  {
    var k := IndexOf(buf, '\n');
    if k == |buf| then NeedMore
    else if k == 0 || buf[k - 1] != '\r' then Bad
    else
      match HexValue(buf[..k - 1], 0)
      case NotHex => Bad
      case Overflow => TooLong
      case Size(size) =>
        var chunkLen := k + 1 + size + 2;
        if chunkLen > INT32_MAX then TooLong
        else if |buf| < chunkLen then NeedMore
        else if size == 0 then Last(chunkLen)
        else Data(buf[k + 1..k + 1 + size], chunkLen)
  }

  /** Only whole chunks are consumed. On a failure nothing more is decoded: `rest` is empty. */
  function TakeChunks(d: Decoder, buf: string): Result
    decreases |buf|
  {
    match NextChunk(buf)
    case NeedMore => Result(d, buf, CO_AGAIN)
    case Bad => Result(d, [], CO_ERROR)
    case TooLong => Result(d, [], UNDEFINED)
    case Last(n) => Result(d.(phase := Completed), buf[n..], CO_OK)
    case Data(data, n) =>
      TakeChunks(d.(msg := d.msg.(content := d.msg.content + data)), buf[n..])
  }

  // ---------- the reference decoder ----------

  /** Decodes as much as the bytes allow. */
  function Run(d: Decoder, buf: string): Result
    decreases |buf|
  {
    match d.phase
    case Completed => Result(d, buf, CO_OK)
    case Content => if d.chunked then TakeChunks(d, buf) else TakeContent(d, buf)
    case StartLine =>
      var n := LineLen(buf);
      if n == 0 then Result(d, buf, CO_AGAIN)
      else if !AcceptsStartLine(d.role, buf[..n]) then Result(d, [], E_ERROR)
      else Run(TakeStartLine(d, buf[..n]), buf[n..])
    case Header =>
      var n := LineLen(buf);
      if n == 0 then Result(d, buf, CO_AGAIN)
      else Run(TakeHeaderLine(d, buf[..n]), buf[n..])
  }

  // ---------- one decode call ----------

  /** The header loop of the code: the first character is tested even when no whole line
      was found. */
  function HeaderLoop(d: Decoder, buf: string): (Decoder, string)
    decreases |buf|
  {
    if d.phase != Header || buf == [] then (d, buf) else
    var n := LineLen(buf);
    var e := if n > 0 then HeaderField(d, buf[..n]) else d;
    var f := if IsEol(buf[0]) then EndHeaders(e) else e;
    if n == 0 then (f, buf) else HeaderLoop(f, buf[n..])
  }

  /** The content part of a call; `whole` is the buffer the call started with, which a
      chunk failure leaves as it was. */
  function ContentPart(d: Decoder, buf: string, whole: string): Result {
    if d.phase != Content then Result(d, buf, CO_AGAIN)
    else if !d.chunked then TakeContent(d, buf)
    else
      var r := TakeChunks(d, buf);
      if r.Failed() then r.(rest := whole) else r
  }

  function DecodeCall(d: Decoder, buf: string): Result {
    if d.phase == Completed then Result(d, buf, CO_OK)
    else if (d.phase == StartLine || d.phase == Header) && |buf| > HTTP_MAX_HEADER_LEN then
      Result(d, [], E_ERROR)
    else if d.phase == StartLine then
      var n := LineLen(buf);
      if n == 0 then Result(d, buf, CO_AGAIN)
      else if !AcceptsStartLine(d.role, buf[..n]) then Result(d, [], E_ERROR)
      else
        var (e, rest) := HeaderLoop(TakeStartLine(d, buf[..n]), buf[n..]);
        ContentPart(e, rest, buf)
    else
      var (e, rest) := HeaderLoop(d, buf);
      ContentPart(e, rest, buf)
  }
}
