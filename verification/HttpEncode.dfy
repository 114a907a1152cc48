/** What the two encode functions print, and the round trip through the decoder. */
module HttpEncode {
  import opened Common
  import opened Text
  import opened HttpCore
  import opened HttpStream

  const LINE_MAX := 511
  const SERVER_NAME := "coserver/http"

  /** snprintf into a 512-byte array keeps at most 511 characters. */
  function Printed(line: string): (r: string)
    ensures r <= line && |r| == if |line| <= 511 then |line| else 511
  {
    if |line| > LINE_MAX then line[..LINE_MAX] else line
  }

  /** The headers a server sends: the length of the body, always, and its own name. */
  function ResponseHeaders(m: Message): map<string, string> {
    m.headers[CONTENT_LENGTH := IntToString(|m.content|)][SERVER := SERVER_NAME]
  }

  /** The headers a client sends: the length only when there is a body, and a Host. */
  function RequestHeaders(m: Message, ipport: string): map<string, string> {
    var h := m.headers - {CONTENT_LENGTH};
    var h1 := if |m.content| > 0 then h[CONTENT_LENGTH := IntToString(|m.content|)] else h;
    var h2 := h1[SERVER := SERVER_NAME];
    if HOST in h2 && h2[HOST] != "" then h2 else h2[HOST := ipport]
  }

  function HeaderLine(name: string, value: string): string {
    name + ": " + value + "\r\n"
  }

  function StatusLine(m: Message, reason: string): string {
    m.version + " " + IntToString(m.statusCode) + " " + reason + "\r\n"
  }

  function RequestLine(m: Message): string {
    m.method_ + " " + m.url + " " + m.version + "\r\n"
  }

  function HeaderLines(headers: map<string, string>, order: seq<string>): string
    requires forall name :: name in order ==> name in headers
  {
    if order == [] then "" else
    var n := |order| - 1;
    HeaderLines(headers, order[..n]) + Printed(HeaderLine(order[n], headers[order[n]]))
  }

  /** Everything that is sent. The order of an unordered_map is not fixed: `order` lists it. */
  function Sent(startLine: string, headers: map<string, string>, order: seq<string>, content: string): string
    requires forall name :: name in order ==> name in headers
  {
    Printed(startLine) + HeaderLines(headers, order) + "\r\n" + content
  }

  // ---------- what may be sent ----------

  predicate IsName(name: string) {
    '\n' !in name && ':' !in name && (name != "" ==> name[0] != '\r')
  }

  predicate IsValue(value: string) {
    NoEol(value) && (value != "" ==> value[0] != ' ')
  }

  /** Header names and values the line format can carry, on lines that are not cut. */
  predicate Printable(headers: map<string, string>) {
    forall name :: name in headers ==>
      IsName(name) && IsValue(headers[name]) && |HeaderLine(name, headers[name])| <= LINE_MAX
  }

  predicate IsWord(s: string) {
    '\n' !in s && ' ' !in s
  }

  ghost predicate Listing(headers: map<string, string>, order: seq<string>) {
    forall name :: name in order <==> name in headers
  }

  function HeaderIn(headers: map<string, string>, name: string): string {
    if name in headers then headers[name] else ""
  }

  /** Neither a length nor, in a response, the chunked coding says what the body is. */
  predicate Unframed(role: Role, headers: map<string, string>) {
    HeaderIn(headers, "Content-Length") == "" &&
    (role == Server || HeaderIn(headers, "Transfer-Encoding") != "chunked")
  }

  /** The protocol's name, in any mix of cases, is what a status line begins with. */
  predicate SaysHttp(s: string) {
    |s| >= 4 && s[0] in {'H', 'h'} && s[1] in {'T', 't'} && s[2] in {'T', 't'} && s[3] in {'P', 'p'}
  }

  // ---------- one line at a time ----------

  lemma LineLenOfLine(a: string, tail: string)
    requires '\n' !in a
    ensures LineLen(a + "\r\n" + tail) == |a| + 2
    ensures (a + "\r\n" + tail)[..|a| + 2] == a + "\r\n"
    ensures (a + "\r\n" + tail)[|a| + 2..] == tail
  {
    var line := a + "\r\n";
    IndexOfAppend(a, "\r\n", '\n');
    IndexOfAppend(line, tail, '\n');
    assert "\r\n"[0] == '\r' && "\r\n"[1] == '\n';
    assert IndexOf("\r\n", '\n') == 1;
  }

  lemma SkipOneSpace(value: string)
    requires IsValue(value)
    ensures SkipSpaces(" " + value) == value
  {
    assert (" " + value)[1..] == value;
  }

  /** A printed header line is parsed into the header it was printed from. */
  lemma HeaderFieldOfLine(d: Decoder, name: string, value: string)
    requires IsName(name) && IsValue(value)
    ensures TakeHeaderLine(d, HeaderLine(name, value)) ==
              d.(msg := d.msg.(headers := d.msg.headers[name := value]))
  {
    var line := HeaderLine(name, value);
    assert line == name + [':'] + (" " + value + "\r\n");
    SplitAt(name, " " + value + "\r\n", ':');
    assert NoEol(" " + value);
    TokenOfLine(" " + value);
    SkipOneSpace(value);
    assert line[0] == if name == "" then ':' else name[0];
    assert name != "" ==> name[0] in name;
  }

  function WithHeaders(d: Decoder, headers: map<string, string>, order: seq<string>): Decoder
    requires forall name :: name in order ==> name in headers
  {
    if order == [] then d else
    var n := |order| - 1;
    var e := WithHeaders(d, headers, order[..n]);
    e.(msg := e.msg.(headers := e.msg.headers[order[n] := headers[order[n]]]))
  }

  lemma {:induction false} WithHeadersIs(d: Decoder, headers: map<string, string>, order: seq<string>)
    requires forall name :: name in order ==> name in headers
    requires d.msg.headers == map[]
    ensures WithHeaders(d, headers, order) ==
              d.(msg := d.msg.(headers := map name | name in order :: headers[name]))
  {
    if order != [] {
      var n := |order| - 1;
      WithHeadersIs(d, headers, order[..n]);
      assert order == order[..n] + [order[n]];
      assert (map name | name in order[..n] :: headers[name])[order[n] := headers[order[n]]] ==
             (map name | name in order :: headers[name]);
    }
  }

  lemma {:induction false} RunHeaderLines(d: Decoder, headers: map<string, string>, order: seq<string>, tail: string)
    requires Printable(headers) && d.phase == Header
    requires forall name :: name in order ==> name in headers
    ensures Run(d, HeaderLines(headers, order) + tail) == Run(WithHeaders(d, headers, order), tail)
    decreases |order|
  {
    if order == [] {
      assert HeaderLines(headers, order) + tail == tail;
    } else {
      var n := |order| - 1;
      var name, value := order[n], headers[order[n]];
      LastHeader(d, headers, order, tail);
      hide *;
      RunHeaderLines(d, headers, order[..n], HeaderLine(name, value) + tail);
      RunOneHeader(WithHeaders(d, headers, order[..n]), name, value, tail);
    }
  }

  lemma LastHeader(d: Decoder, headers: map<string, string>, order: seq<string>, tail: string)
    requires Printable(headers) && order != [] && forall name :: name in order ==> name in headers
    ensures var n := |order| - 1;
      var name, value, e := order[n], headers[order[n]], WithHeaders(d, headers, order[..n]);
      && IsName(name) && IsValue(value)
      && HeaderLines(headers, order) + tail == HeaderLines(headers, order[..n]) + (HeaderLine(name, value) + tail)
      && e.phase == d.phase
      && WithHeaders(d, headers, order) == e.(msg := e.msg.(headers := e.msg.headers[name := value]))
  {
    WithHeadersPhase(d, headers, order[..|order| - 1]);
    hide IsName, IsValue, HeaderLine;
  }

  lemma {:induction false} WithHeadersPhase(d: Decoder, headers: map<string, string>, order: seq<string>)
    requires forall name :: name in order ==> name in headers
    ensures WithHeaders(d, headers, order).phase == d.phase
  {
    if order != [] {
      WithHeadersPhase(d, headers, order[..|order| - 1]);
    }
  }

  lemma RunOneHeader(d: Decoder, name: string, value: string, tail: string)
    requires IsName(name) && IsValue(value) && d.phase == Header
    ensures Run(d, HeaderLine(name, value) + tail) ==
              Run(d.(msg := d.msg.(headers := d.msg.headers[name := value])), tail)
  {
    var a := name + ": " + value;
    assert '\n' !in a by {
      assert forall i :: 0 <= i < |value| ==> !IsEol(value[i]);
    }
    LineLenOfLine(a, tail);
    HeaderFieldOfLine(d, name, value);
    assert HeaderLine(name, value) == a + "\r\n";
  }

  lemma {:induction false} SkipAllSpaces(spaces: string, value: string)
    requires forall i :: 0 <= i < |spaces| ==> spaces[i] == ' '
    requires value != "" ==> value[0] != ' '
    ensures SkipSpaces(spaces + value) == value
  {
    if spaces == "" {
      assert spaces + value == value;
    } else {
      assert (spaces + value)[1..] == spaces[1..] + value;
      SkipAllSpaces(spaces[1..], value);
    }
  }

  lemma FieldSpelledAnyWay(d: Decoder, name: string, spaces: string, value: string, eol: string)
    requires IsName(name) && IsValue(value) && spaces + value != ""
    requires (forall i :: 0 <= i < |spaces| ==> spaces[i] == ' ') && eol in {"\r\n", "\n"}
    ensures TakeHeaderLine(d, name + ":" + (spaces + value) + eol) ==
              d.(msg := d.msg.(headers := d.msg.headers[name := value]))
  {
    var text := spaces + value;
    var line := name + ":" + text + eol;
    assert line == name + [':'] + (text + eol);
    SplitAt(name, text + eol, ':');
    assert NoEol(text);
    UpToEolStops(text, eol);
    assert SkipEol(text + eol) == text + eol;
    SkipAllSpaces(spaces, value);
    assert line[0] == if name == "" then ':' else name[0];
    assert name != "" ==> name[0] in name;
    hide Split, UpToEol, SkipSpaces, SkipEol;
  }

  /** A header is read with any number of spaces after the colon and either way of ending a
      line, and replaces one of the same name read before. */
  lemma HeaderSpelledAnyWay(d: Decoder, name: string, spaces: string, value: string, eol: string, tail: string)
    requires IsName(name) && IsValue(value) && d.phase == Header && spaces + value != ""
    requires (forall i :: 0 <= i < |spaces| ==> spaces[i] == ' ') && eol in {"\r\n", "\n"}
    ensures Run(d, name + ":" + (spaces + value) + eol + tail) ==
              Run(d.(msg := d.msg.(headers := d.msg.headers[name := value])), tail)
  {
    var front := name + ":" + (spaces + value);
    FieldSpelledAnyWay(d, name, spaces, value, eol);
    assert '\n' !in front by { NoNewline(value); }
    hide *;
    EolEndsLine(front, eol, tail);
    RunOneLine(d, front + eol, tail);
  }

  lemma NoNewline(s: string)
    requires NoEol(s)
    ensures '\n' !in s
  {
  }

  lemma EolEndsLine(front: string, eol: string, tail: string)
    requires '\n' !in front && eol in {"\r\n", "\n"}
    ensures LineLen(front + eol + tail) == |front + eol|
  {
    IndexOfAppend(front, eol, '\n');
    IndexOfAppend(front + eol, tail, '\n');
    assert IndexOf("\r\n", '\n') == 1 && IndexOf("\n", '\n') == 0;
  }

  lemma RunOneLine(d: Decoder, line: string, tail: string)
    requires d.phase == Header && line != "" && LineLen(line + tail) == |line|
    ensures Run(d, line + tail) == Run(TakeHeaderLine(d, line), tail)
  {
    assert (line + tail)[..|line|] == line && (line + tail)[|line|..] == tail;
  }

  /** A line of the headers without a colon is passed over. */
  lemma LineWithoutColon(d: Decoder, line: string, tail: string)
    requires d.phase == Header && line != "" && line[0] != '\r' && ':' !in line && '\n' !in line
    ensures Run(d, line + "\r\n" + tail) == Run(d, tail)
  {
    EolEndsLine(line, "\r\n", tail);
    assert line[0] in line;
    hide Run;
    RunOneLine(d, line + "\r\n", tail);
  }

  /** The blank line and the body: the message is complete and nothing beyond it is taken. */
  lemma RunBody(d: Decoder, content: string, tail: string)
    requires d.phase == Header && !d.chunked && d.remain == 0 && d.msg.content == ""
    requires HeaderIn(d.msg.headers, "Content-Length") == IntToString(|content|)
          || (content == "" && Unframed(d.role, d.msg.headers))
    ensures Run(d, "\r\n" + content + tail) ==
      Result(d.(phase := Completed, msg := d.msg.(content := content)), tail, CO_OK)
  {
    var e := TakeHeaderLine(d, "\r\n");
    LineLenOfLine("", content + tail);
    assert "" + "\r\n" + (content + tail) == "\r\n" + content + tail;
    BlankLineIsNoHeader(d);
    AtoiOfInt(|content|);
    assert e == EndHeaders(d);
    assert (content + tail)[..|content|] == content && (content + tail)[|content|..] == tail;
    assert "" + content == content;
  }

  lemma BlankLineIsNoHeader(d: Decoder)
    ensures HeaderField(d, "\r\n") == d
  {
    assert IndexOf("\r\n", ':') == 2 by {
      assert forall i :: 0 <= i < 2 ==> "\r\n"[i] != ':';
    }
  }

  // ---------- start lines ----------

  lemma StatusLineFields(d: Decoder, m: Message, reason: string)
    requires d.role == Client && IsWord(m.version) && SaysHttp(m.version)
    requires reason != "" && NoEol(reason)
    ensures AcceptsStartLine(Client, StatusLine(m, reason))
    ensures StartFields(Client, d.msg, StatusLine(m, reason)) ==
              d.msg.(version := m.version, statusCode := m.statusCode, reason := reason)
  {
    var code := IntToString(m.statusCode);
    assert StatusLine(m, reason) == m.version + [' '] + (code + " " + reason + "\r\n");
    SplitAt(m.version, code + " " + reason + "\r\n", ' ');
    assert code + " " + reason + "\r\n" == code + [' '] + (reason + "\r\n");
    SplitAt(code, reason + "\r\n", ' ');
    AtoiOfInt(m.statusCode);
    TokenOfLine(reason);
  }

  lemma RequestLineFields(d: Decoder, m: Message)
    requires d.role == Server && IsWord(m.method_) && IsWord(m.url)
    requires m.version != "" && NoEol(m.version)
    ensures StartFields(Server, d.msg, RequestLine(m)) ==
              d.msg.(method_ := m.method_, url := m.url, version := m.version)
  {
    assert RequestLine(m) == m.method_ + [' '] + (m.url + " " + m.version + "\r\n");
    SplitAt(m.method_, m.url + " " + m.version + "\r\n", ' ');
    assert m.url + " " + m.version + "\r\n" == m.url + [' '] + (m.version + "\r\n");
    SplitAt(m.url, m.version + "\r\n", ' ');
    TokenOfLine(m.version);
  }

  lemma FirstWordSaysHttp(line: string)
    ensures StartsWithHttp(Split(line, ' ').first) <==> SaysHttp(line)
  {
  }

  lemma {:induction false} HeadersNeverRefused(d: Decoder, buf: string)
    requires d.phase != StartLine
    ensures Run(d, buf).ret != E_ERROR
    decreases |buf|
  {
    if d.phase == Header && LineLen(buf) > 0 {
      HeadersNeverRefused(TakeHeaderLine(d, buf[..LineLen(buf)]), buf[LineLen(buf)..]);
    } else if d.phase == Content {
      ChunkFailures(d, buf);
    }
  }

  /** A response is refused for its status line if and only if the line has come and does not
      begin with the name of the protocol; requests are never refused for theirs. */
  lemma RefusedIff(role: Role, buf: string)
    ensures Run(NewDecoder(role), buf).ret == E_ERROR <==> role == Client && '\n' in buf && !SaysHttp(buf)
  {
    var n := LineLen(buf);
    assert n > 0 <==> '\n' in buf;
    if n > 0 {
      FirstWordSaysHttp(buf[..n]);
      assert buf[n - 1] == '\n';
      assert SaysHttp(buf) <==> SaysHttp(buf[..n]);
      HeadersNeverRefused(TakeStartLine(NewDecoder(role), buf[..n]), buf[n..]);
    }
  }

  // ---------- whole messages ----------

  lemma RunStartLine(role: Role, line: string, tail: string)
    requires '\n' !in line && AcceptsStartLine(role, line + "\r\n")
    ensures Run(NewDecoder(role), line + "\r\n" + tail) ==
              Run(TakeStartLine(NewDecoder(role), line + "\r\n"), tail)
  {
    hide StartFields, AcceptsStartLine;
    LineLenOfLine(line, tail);
  }

  /** The decoder that has read these headers of a message. */
  function AfterHeaders(role: Role, startLine: string, headers: map<string, string>): Decoder {
    Decoder(role, Header, StartFields(role, EMPTY_MESSAGE, startLine).(headers := headers), 0, false)
  }

  /** A start line and headers in any order are read; the blank line and the rest are left. */
  lemma HeadRuns(role: Role, line: string, headers: map<string, string>, order: seq<string>,
                 content: string, tail: string)
    requires '\n' !in line && |line| + 2 <= LINE_MAX
    requires AcceptsStartLine(role, line + "\r\n")
    requires Printable(headers) && Listing(headers, order)
    ensures Run(NewDecoder(role), Sent(line + "\r\n", headers, order, content) + tail) ==
              Run(AfterHeaders(role, line + "\r\n", headers), "\r\n" + content + tail)
  {
    hide StartFields, AcceptsStartLine, HeaderLines, WithHeaders, Run, Printable, Token, Split;
    var lines := HeaderLines(headers, order);
    var rest := "\r\n" + content + tail;
    assert Sent(line + "\r\n", headers, order, content) + tail == line + "\r\n" + (lines + rest);
    var d := TakeStartLine(NewDecoder(role), line + "\r\n");
    RunStartLine(role, line, lines + rest);
    StartKeepsRest(role, line + "\r\n");
    RunHeaderLines(d, headers, order, rest);
    WithHeadersIs(d, headers, order);
    assert (map name | name in order :: headers[name]) == headers;
  }

  /** A start line, headers and body run to a complete message that has them all; without a
      length, and for a response without the chunked coding, there is no body. */
  lemma SentRuns(role: Role, line: string, headers: map<string, string>, order: seq<string>,
                 content: string, tail: string)
    requires '\n' !in line && |line| + 2 <= LINE_MAX
    requires AcceptsStartLine(role, line + "\r\n")
    requires Printable(headers) && Listing(headers, order)
    requires HeaderIn(headers, "Content-Length") == IntToString(|content|)
          || (content == "" && Unframed(role, headers))
    ensures Run(NewDecoder(role), Sent(line + "\r\n", headers, order, content) + tail) ==
      Result(AfterHeaders(role, line + "\r\n", headers).(
               phase := Completed,
               msg := StartFields(role, EMPTY_MESSAGE, line + "\r\n").(headers := headers, content := content)),
             tail, CO_OK)
  {
    hide StartFields, AcceptsStartLine, Run, Sent, Printable, Listing;
    HeadRuns(role, line, headers, order, content, tail);
    StartKeepsRest(role, line + "\r\n");
    RunBody(AfterHeaders(role, line + "\r\n", headers), content, tail);
  }

  lemma StartKeepsRest(role: Role, line: string)
    ensures StartFields(role, EMPTY_MESSAGE, line).headers == map[]
    ensures StartFields(role, EMPTY_MESSAGE, line).content == ""
  {
  }

  /** A response whose parts the line format can carry. */
  ghost predicate GoodResponse(m: Message, reason: string) {
    && IsWord(m.version) && SaysHttp(m.version) && reason != "" && NoEol(reason)
    && |StatusLine(m, reason)| <= 511
    && Printable(m.headers - {"Content-Length", "Server"}) && |IntToString(|m.content|)| <= 400
  }

  ghost predicate GoodRequest(m: Message, ipport: string) {
    && IsWord(m.method_) && IsWord(m.url) && m.version != "" && NoEol(m.version)
    && |RequestLine(m)| <= 511
    && Printable(m.headers - {"Content-Length", "Server", "Host"}) && |IntToString(|m.content|)| <= 400
    && IsValue(HostOf(m, ipport)) && |HostOf(m, ipport)| <= 400
  }

  /** The user's Host unless it is empty, or else the peer's address. */
  function HostOf(m: Message, ipport: string): string {
    if HeaderIn(m.headers, "Host") != "" then m.headers["Host"] else ipport
  }

  /** `r` is the response `m` as its receiver is to have it: every header of the sender but the
      two that the server sets itself, the length of the body and the server's name. */
  ghost predicate IsResponse(r: Message, m: Message, reason: string) {
    && r.version == m.version && r.statusCode == m.statusCode && r.reason == reason && r.content == m.content
    && r.method_ == "" && r.url == ""
    && (forall name :: name in r.headers <==> name in m.headers || name == "Content-Length" || name == "Server")
    && (forall name :: name in m.headers && name != "Content-Length" && name != "Server" ==>
          name in r.headers && r.headers[name] == m.headers[name])
    && HeaderIn(r.headers, "Content-Length") == IntToString(|m.content|)
    && HeaderIn(r.headers, "Server") == "coserver/http"
  }

  /** `r` is the request `m` as its receiver is to have it: there is a length exactly if there is
      a body, whatever length the sender's headers gave, and always a Host. */
  ghost predicate IsRequest(r: Message, m: Message, ipport: string) {
    && r.method_ == m.method_ && r.url == m.url && r.version == m.version && r.content == m.content
    && r.statusCode == 200 && r.reason == ""
    && (forall name :: name in r.headers <==>
          || (name in m.headers && name != "Content-Length")
          || (name == "Content-Length" && m.content != "")
          || name == "Server" || name == "Host")
    && (forall name :: name in m.headers && name != "Content-Length" && name != "Server" && name != "Host" ==>
          name in r.headers && r.headers[name] == m.headers[name])
    && (m.content != "" ==> HeaderIn(r.headers, "Content-Length") == IntToString(|m.content|))
    && HeaderIn(r.headers, "Server") == "coserver/http"
    && HeaderIn(r.headers, "Host") == HostOf(m, ipport)
  }

  /** What is sent is exactly that. */
  lemma ResponseMeant(m: Message, reason: string, r: Message)
    ensures IsResponse(r, m, reason) <==>
      r == EMPTY_MESSAGE.(version := m.version, statusCode := m.statusCode, reason := reason,
                          headers := ResponseHeaders(m), content := m.content)
  {
    var h := ResponseHeaders(m);
    assert forall name :: name in h <==> name in m.headers || name == "Content-Length" || name == "Server";
    if IsResponse(r, m, reason) {
      forall name | name in h ensures name in r.headers && r.headers[name] == h[name] {
      }
      assert r.headers == h;
    }
  }

  lemma RequestMeant(m: Message, ipport: string, r: Message)
    ensures IsRequest(r, m, ipport) <==>
      r == EMPTY_MESSAGE.(method_ := m.method_, url := m.url, version := m.version,
                          headers := RequestHeaders(m, ipport), content := m.content)
  {
    var h := RequestHeaders(m, ipport);
    RequestNames(m, ipport);
    hide RequestHeaders;
    if IsRequest(r, m, ipport) {
      forall name | name in h ensures name in r.headers && r.headers[name] == h[name] {
      }
      assert r.headers == h;
    }
  }

  lemma RequestNames(m: Message, ipport: string)
    ensures var h := RequestHeaders(m, ipport);
      && (forall name :: name in h <==>
            || (name in m.headers && name != "Content-Length")
            || (name == "Content-Length" && m.content != "")
            || name == "Server" || name == "Host")
      && (forall name :: name in m.headers && name != "Content-Length" && name != "Server" && name != "Host" ==>
            h[name] == m.headers[name])
      && (m.content != "" ==> h["Content-Length"] == IntToString(|m.content|))
      && h["Server"] == "coserver/http" && h["Host"] == HostOf(m, ipport)
  {
  }

  lemma ResponsePrintable(m: Message, reason: string)
    requires GoodResponse(m, reason)
    ensures Printable(ResponseHeaders(m))
  {
    DigitsAreValue(|m.content|);
    var h, own := ResponseHeaders(m), m.headers - {"Content-Length", "Server"};
    forall name | name in h
      ensures IsName(name) && IsValue(h[name]) && |HeaderLine(name, h[name])| <= LINE_MAX
    {
      assert name != "Content-Length" && name != "Server" ==> name in own && own[name] == h[name];
    }
  }

  lemma RequestPrintable(m: Message, ipport: string)
    requires GoodRequest(m, ipport)
    ensures Printable(RequestHeaders(m, ipport))
  {
    DigitsAreValue(|m.content|);
    RequestNames(m, ipport);
    var h, own := RequestHeaders(m, ipport), m.headers - {"Content-Length", "Server", "Host"};
    hide RequestHeaders;
    forall name | name in h
      ensures IsName(name) && IsValue(h[name]) && |HeaderLine(name, h[name])| <= LINE_MAX
    {
      assert name !in {"Content-Length", "Server", "Host"} ==> name in own && own[name] == h[name];
    }
  }

  lemma DigitsAreValue(n: nat)
    ensures IsValue(IntToString(n))
  {
  }

  /** The client's decoder undoes the server's encode, for any order of the header map: it gets
      the response meant, and takes exactly the bytes of the message, whatever follows them. */
  lemma ResponseRoundTrip(m: Message, reason: string, order: seq<string>, tail: string)
    requires GoodResponse(m, reason) && Listing(ResponseHeaders(m), order)
    ensures var r := Run(NewDecoder(Client), Sent(StatusLine(m, reason), ResponseHeaders(m), order, m.content) + tail);
      r == Result(Decoder(Client, Completed, r.d.msg, 0, false), tail, CO_OK) && IsResponse(r.d.msg, m, reason)
  {
    var line := m.version + " " + IntToString(m.statusCode) + " " + reason;
    assert StatusLine(m, reason) == line + "\r\n";
    NoNewline(reason);
    StatusLineFields(NewDecoder(Client), m, reason);
    ResponsePrintable(m, reason);
    hide Run, Sent, Printable, StartFields;
    SentRuns(Client, line, ResponseHeaders(m), order, m.content, tail);
    ResponseMeant(m, reason, EMPTY_MESSAGE.(version := m.version, statusCode := m.statusCode, reason := reason,
                                            headers := ResponseHeaders(m), content := m.content));
  }

  /** The server's decoder undoes the client's encode in the same way. */
  lemma RequestRoundTrip(m: Message, ipport: string, order: seq<string>, tail: string)
    requires GoodRequest(m, ipport) && Listing(RequestHeaders(m, ipport), order)
    ensures var r := Run(NewDecoder(Server), Sent(RequestLine(m), RequestHeaders(m, ipport), order, m.content) + tail);
      r == Result(Decoder(Server, Completed, r.d.msg, 0, false), tail, CO_OK) && IsRequest(r.d.msg, m, ipport)
  {
    var line := m.method_ + " " + m.url + " " + m.version;
    assert RequestLine(m) == line + "\r\n";
    NoNewline(m.version);
    RequestLineFields(NewDecoder(Server), m);
    RequestPrintable(m, ipport);
    RequestNames(m, ipport);
    hide Run, Sent, Printable, StartFields, RequestHeaders;
    SentRuns(Server, line, RequestHeaders(m, ipport), order, m.content, tail);
    RequestMeant(m, ipport, EMPTY_MESSAGE.(method_ := m.method_, url := m.url, version := m.version,
                                           headers := RequestHeaders(m, ipport), content := m.content));
  }

  /** End to end: a response sent by the server and read by the client in any pieces is the
      response meant, with nothing left over, if and only if there is no bad cut and no call over
      the limit. */
  lemma ResponseArrives(m: Message, reason: string, order: seq<string>, pieces: seq<string>)
    requires GoodResponse(m, reason) && Listing(ResponseHeaders(m), order)
    requires Concat(pieces) == Sent(StatusLine(m, reason), ResponseHeaders(m), order, m.content)
    ensures var r := Calls(NewDecoder(Client), pieces);
      r == Result(Decoder(Client, Completed, r.d.msg, 0, false), "", CO_OK) && IsResponse(r.d.msg, m, reason)
      <==> NoBadCut(NewDecoder(Client), pieces) && CallsWithinLimit(NewDecoder(Client), pieces)
  {
    hide Calls, Run, NoBadCut, CallsWithinLimit, Sent, IsResponse, GoodResponse;
    ResponseRoundTrip(m, reason, order, "");
    assert Concat(pieces) + "" == Concat(pieces);
    ArrivesIffNoBadCut(Client, pieces);
    ResponseMeant(m, reason, Run(NewDecoder(Client), Concat(pieces)).d.msg);
    ResponseMeant(m, reason, Calls(NewDecoder(Client), pieces).d.msg);
  }

  /** And a request sent by the client and read by the server. */
  lemma RequestArrives(m: Message, ipport: string, order: seq<string>, pieces: seq<string>)
    requires GoodRequest(m, ipport) && Listing(RequestHeaders(m, ipport), order)
    requires Concat(pieces) == Sent(RequestLine(m), RequestHeaders(m, ipport), order, m.content)
    ensures var r := Calls(NewDecoder(Server), pieces);
      r == Result(Decoder(Server, Completed, r.d.msg, 0, false), "", CO_OK) && IsRequest(r.d.msg, m, ipport)
      <==> NoBadCut(NewDecoder(Server), pieces) && CallsWithinLimit(NewDecoder(Server), pieces)
  {
    hide Calls, Run, NoBadCut, CallsWithinLimit, Sent, IsRequest, GoodRequest;
    RequestRoundTrip(m, ipport, order, "");
    assert Concat(pieces) + "" == Concat(pieces);
    RequestsArriveIffNoBadCut(pieces);
    RequestMeant(m, ipport, Run(NewDecoder(Server), Concat(pieces)).d.msg);
    RequestMeant(m, ipport, Calls(NewDecoder(Server), pieces).d.msg);
  }
}
