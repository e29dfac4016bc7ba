/** http_parser: what the parser does with one byte, in strict mode. A reexecuted
    byte is a call of the next state's function. Data callbacks are left as marks
    and flushes, to be read by whoever drives the parser. */
module HttpStep {
  import opened Wrappers

  type byte = c: char | c as int < 256

  const CR: byte := '\r'
  const LF: byte := '\n'

  /** ULLONG_MAX, which stands for "no Content-Length". */
  const UNSET: nat := 0xFFFF_FFFF_FFFF_FFFF

  datatype Kind = Request | Response | Both

  datatype Flags = Flags(
    chunked: bool, keepAlive: bool, close: bool, connUpgrade: bool,
    trailing: bool, upgrade: bool, skipBody: bool, contentLength: bool)

  const NO_FLAGS := Flags(false, false, false, false, false, false, false, false)

  datatype State =
    | Dead
    | StartReqOrRes | ResOrRespH | StartRes | ResH | ResHT | ResHTT | ResHTTP
    | ResHttpMajor | ResHttpDot | ResHttpMinor | ResHttpEnd
    | ResFirstStatusCode | ResStatusCode | ResStatusStart | ResStatus | ResLineAlmostDone
    | StartReq | ReqMethod | ReqSpacesBeforeUrl
    | ReqSchema | ReqSchemaSlash | ReqSchemaSlashSlash | ReqServerStart | ReqServer | ReqServerWithAt
    | ReqPath | ReqQueryStringStart | ReqQueryString | ReqFragmentStart | ReqFragment
    | ReqHttpStart | ReqHttpH | ReqHttpHT | ReqHttpHTT | ReqHttpHTTP | ReqHttpI | ReqHttpIC
    | ReqHttpMajor | ReqHttpDot | ReqHttpMinor | ReqHttpEnd | ReqLineAlmostDone
    | HeaderFieldStart | HeaderField
    | HeaderValueDiscardWs | HeaderValueDiscardWsAlmostDone | HeaderValueDiscardLws
    | HeaderValueStart | HeaderValue | HeaderValueLws | HeaderAlmostDone
    | ChunkSizeStart | ChunkSize | ChunkParameters | ChunkSizeAlmostDone
    | HeadersAlmostDone | HeadersDone
    | ChunkData | ChunkDataAlmostDone | ChunkDataDone
    | BodyIdentity | BodyIdentityEof
    | MessageDone

  datatype HeaderState =
    | General | C | CO | CON
    | MatchingConnection | MatchingProxyConnection | MatchingContentLength | MatchingTransferEncoding | MatchingUpgrade
    | Connection | ContentLength | ContentLengthNum | ContentLengthWs | TransferEncoding | Upgrade
    | TeTokenStart | TeChunked | TeToken
    | ConnTokenStart | ConnKeepAlive | ConnClose | ConnUpgrade | ConnToken
    | IsTeChunked | IsKeepAlive | IsClose | IsConnUpgrade

  datatype Method =
    | DELETE | GET | HEAD | POST | PUT | CONNECT | OPTIONS | TRACE | COPY | LOCK | MKCOL | MOVE | PROPFIND
    | PROPPATCH | SEARCH | UNLOCK | BIND | REBIND | UNBIND | ACL | REPORT | MKACTIVITY | CHECKOUT | MERGE
    | MSEARCH | NOTIFY | SUBSCRIBE | UNSUBSCRIBE | PATCH | PURGE | MKCALENDAR | LINK | UNLINK | SOURCE

  datatype Errno =
    | CB_HEADERS_COMPLETE | HEADER_OVERFLOW | CLOSED_CONNECTION | INVALID_VERSION | INVALID_STATUS
    | INVALID_METHOD | INVALID_URL | LF_EXPECTED | INVALID_HEADER_TOKEN | INVALID_CONTENT_LENGTH
    | UNEXPECTED_CONTENT_LENGTH | INVALID_CHUNK_SIZE | INVALID_CONSTANT | STRICT
    | INVALID_TRANSFER_ENCODING | INVALID_EOF_STATE

  /** What the request or status line said. */
  datatype Line = Line(kind: Kind, major: nat, minor: nat, status: nat, method_: Method)

  /** What the headers said, and how far the word at hand was matched. */
  datatype Headers = Headers(hstate: HeaderState, index: nat, flags: Flags, usesTe: bool, contentLength: nat)

  /** struct http_parser, its bit-fields grouped. */
  datatype Parser = Parser(
    state: State, nread: nat, line: Line, h: Headers, upgrade: bool, allowChunkedLength: bool, lenient: bool)

  /** What on_headers_complete can see of the parser's public fields. */
  datatype Head = Head(line: Line, flags: Flags, contentLength: nat, upgrade: bool)

  /** What the embedder fixes: the header limit and its on_headers_complete. */
  datatype Config = Config(maxHeader: nat, onHeadersComplete: Head -> int)

  datatype Field = Url | Status | HField | HValue | Body
  datatype Notice = MessageBegin | HeadersComplete | MessageComplete | ChunkHeader | ChunkComplete

  /** MARK, CALLBACK_DATA up to this byte, the body callback that includes this
      byte, and CALLBACK_NOTIFY. */
  datatype Act = Mark(f: Field) | Flush(f: Field) | FlushIncl(f: Field) | Note(n: Notice)

  /** Go on, stop with an error, or stop because another protocol follows. */
  datatype Halt = Go | Fail(e: Errno) | Exit

  datatype Res = Res(p: Parser, acts: seq<Act>, halt: Halt)

  function Ok(p: Parser, acts: seq<Act>): Res {
    Res(p, acts, Go)
  }

  function Err(p: Parser, e: Errno): Res {
    Res(p, [], Fail(e))
  }

  /** The actions of a first part, then the rest. */
  function After(acts: seq<Act>, r: Res): Res {
    r.(acts := acts + r.acts)
  }

  // ----- character classes

  function Lower(c: byte): byte {
    if c as int / 32 % 2 == 0 then (c as int + 32) as char else c
  }

  predicate IsNum(c: byte) {
    '0' <= c <= '9'
  }

  predicate IsAlpha(c: byte) {
    'a' <= Lower(c) <= 'z'
  }

  function Digit(c: byte): nat
    requires IsNum(c)
  {
    c as int - '0' as int
  }

  predicate IsMark(c: byte) {
    c == '-' || c == '_' || c == '.' || c == '!' || c == '~' || c == '*' || c == '\'' || c == '(' || c == ')'
  }

  predicate IsUserinfoChar(c: byte) {
    IsAlpha(c) || IsNum(c) || IsMark(c) || c == '%' || c == ';' || c == ':' || c == '&' || c == '=' || c == '+'
    || c == '$' || c == ','
  }

  predicate IsUrlChar(c: byte) {
    '!' <= c <= '~' && c != '#' && c != '?'
  }

  predicate IsHeaderChar(c: byte) {
    c == CR || c == LF || c == '\t' || (c as int > 31 && c as int != 127)
  }

  /** The tokens table in strict mode: the lower-case character, 0 for none. */
  function Token(c: byte): byte {
    if 'A' <= c <= 'Z' then (c as int + 32) as char
    else if 'a' <= c <= 'z' || IsNum(c) || c == '!' || ('#' <= c <= '\'') || c == '*' || c == '+' || c == '-'
            || c == '.' || c == '^' || c == '_' || c == '`' || c == '|' || c == '~' then c
    else '\0'
  }

  /** The unhex table: -1 for no hexadecimal digit. */
  function Unhex(c: byte): int {
    if IsNum(c) then c as int - '0' as int
    else if 'a' <= c <= 'f' then c as int - 'a' as int + 10
    else if 'A' <= c <= 'F' then c as int - 'A' as int + 10
    else -1
  }

  /** A character of a C string; the terminating zero ends it. */
  function At(s: string, i: nat): char {
    if i < |s| then s[i] else '\0'
  }

  function MethodName(m: Method): string {
    match m
    case DELETE => "DELETE" case GET => "GET" case HEAD => "HEAD" case POST => "POST" case PUT => "PUT"
    case CONNECT => "CONNECT" case OPTIONS => "OPTIONS" case TRACE => "TRACE" case COPY => "COPY"
    case LOCK => "LOCK" case MKCOL => "MKCOL" case MOVE => "MOVE" case PROPFIND => "PROPFIND"
    case PROPPATCH => "PROPPATCH" case SEARCH => "SEARCH" case UNLOCK => "UNLOCK" case BIND => "BIND"
    case REBIND => "REBIND" case UNBIND => "UNBIND" case ACL => "ACL" case REPORT => "REPORT"
    case MKACTIVITY => "MKACTIVITY" case CHECKOUT => "CHECKOUT" case MERGE => "MERGE" case MSEARCH => "M-SEARCH"
    case NOTIFY => "NOTIFY" case SUBSCRIBE => "SUBSCRIBE" case UNSUBSCRIBE => "UNSUBSCRIBE" case PATCH => "PATCH"
    case PURGE => "PURGE" case MKCALENDAR => "MKCALENDAR" case LINK => "LINK" case UNLINK => "UNLINK"
    case SOURCE => "SOURCE"
  }

  // ----- what the headers say about the message

  function NeedsEof(p: Parser): bool {
    if p.line.kind.Request? then false
    else if p.line.status / 100 == 1 || p.line.status == 204 || p.line.status == 304 || p.h.flags.skipBody then false
    else if p.h.usesTe && !p.h.flags.chunked then true
    else !(p.h.flags.chunked || p.h.contentLength != UNSET)
  }

  function ShouldKeepAlive(p: Parser): bool {
    if p.line.major > 0 && p.line.minor > 0 then !p.h.flags.close && !NeedsEof(p)
    else p.h.flags.keepAlive && !NeedsEof(p)
  }

  /** NEW_MESSAGE */
  function NewMessage(p: Parser): State {
    if !ShouldKeepAlive(p) then Dead else if p.line.kind.Request? then StartReq else StartRes
  }

  // ----- the start of a message

  function Cleared(p: Parser): Parser {
    p.(h := p.h.(flags := NO_FLAGS, usesTe := false, contentLength := UNSET))
  }

  function OnDead(p: Parser, ch: byte): Res {
    if ch == CR || ch == LF then Ok(p, []) else Err(p, CLOSED_CONNECTION)
  }

  function OnStartReqOrRes(p: Parser, ch: byte): Res {
    if ch == CR || ch == LF then Ok(p, [])
    else if ch == 'H' then Ok(Cleared(p).(state := ResOrRespH), [Note(MessageBegin)])
    else OnStartReq(Cleared(p).(line := p.line.(kind := Request), state := StartReq), ch)
  }

  function OnResOrRespH(p: Parser, ch: byte): Res {
    if ch == 'T' then Ok(p.(line := p.line.(kind := Response), state := ResHT), [])
    else if ch == 'E' then
      Ok(p.(line := p.line.(kind := Request, method_ := HEAD), h := p.h.(index := 2), state := ReqMethod), [])
    else Err(p, INVALID_CONSTANT)
  }

  function OnStartRes(p: Parser, ch: byte): Res {
    if ch == CR || ch == LF then Ok(p, [])
    else if ch == 'H' then Ok(Cleared(p).(state := ResH), [Note(MessageBegin)])
    else Err(Cleared(p), INVALID_CONSTANT)
  }

  /** STRICT_CHECK on one expected character. */
  function Expect(p: Parser, ch: byte, want: char, next: State): Res {
    if ch != want then Err(p, STRICT) else Ok(p.(state := next), [])
  }

  function OnStartReq(p: Parser, ch: byte): Res {
    if ch == CR || ch == LF then Ok(p, [])
    else
      var q := Cleared(p);
      if !IsAlpha(ch) then Err(q, INVALID_METHOD)
      else
        match FirstMethod(ch)
        case None => Err(q, INVALID_METHOD)
        case Some(m) =>
          Ok(q.(line := q.line.(method_ := m), h := q.h.(index := 1), state := ReqMethod), [Note(MessageBegin)])
  }

  function FirstMethod(ch: byte): Option<Method> {
    match ch
    case 'A' => Some(ACL) case 'B' => Some(BIND) case 'C' => Some(CONNECT) case 'D' => Some(DELETE)
    case 'G' => Some(GET) case 'H' => Some(HEAD) case 'L' => Some(LOCK) case 'M' => Some(MKCOL)
    case 'N' => Some(NOTIFY) case 'O' => Some(OPTIONS) case 'P' => Some(POST) case 'R' => Some(REPORT)
    case 'S' => Some(SUBSCRIBE) case 'T' => Some(TRACE) case 'U' => Some(UNLOCK)
    case _ => None
  }

  /** The table of methods that share a prefix with another one. */
  function OtherMethod(m: Method, index: nat, ch: byte): Option<Method> {
    match (m, index, ch)
    case (POST, 1, 'U') => Some(PUT)
    case (POST, 1, 'A') => Some(PATCH)
    case (POST, 1, 'R') => Some(PROPFIND)
    case (PUT, 2, 'R') => Some(PURGE)
    case (CONNECT, 1, 'H') => Some(CHECKOUT)
    case (CONNECT, 2, 'P') => Some(COPY)
    case (MKCOL, 1, 'O') => Some(MOVE)
    case (MKCOL, 1, 'E') => Some(MERGE)
    case (MKCOL, 1, '-') => Some(MSEARCH)
    case (MKCOL, 2, 'A') => Some(MKACTIVITY)
    case (MKCOL, 3, 'A') => Some(MKCALENDAR)
    case (SUBSCRIBE, 1, 'E') => Some(SEARCH)
    case (SUBSCRIBE, 1, 'O') => Some(SOURCE)
    case (REPORT, 2, 'B') => Some(REBIND)
    case (PROPFIND, 4, 'P') => Some(PROPPATCH)
    case (LOCK, 1, 'I') => Some(LINK)
    case (UNLOCK, 2, 'S') => Some(UNSUBSCRIBE)
    case (UNLOCK, 2, 'B') => Some(UNBIND)
    case (UNLOCK, 3, 'I') => Some(UNLINK)
    case _ => None
  }

  function OnReqMethod(p: Parser, ch: byte): Res {
    if ch == '\0' then Err(p, INVALID_METHOD)
    else
      var want, next := At(MethodName(p.line.method_), p.h.index), p.h.(index := p.h.index + 1);
      if ch == ' ' && want == '\0' then Ok(p.(state := ReqSpacesBeforeUrl, h := next), [])
      else if ch == want then Ok(p.(h := next), [])
      else if 'A' <= ch <= 'Z' || ch == '-' then
        match OtherMethod(p.line.method_, p.h.index, ch)
        case None => Err(p, INVALID_METHOD)
        case Some(m) => Ok(p.(line := p.line.(method_ := m), h := next), [])
      else Err(p, INVALID_METHOD)
  }

  // ----- the status line

  function OnResFirstStatusCode(p: Parser, ch: byte): Res {
    if IsNum(ch) then Ok(p.(line := p.line.(status := Digit(ch)), state := ResStatusCode), [])
    else if ch == ' ' then Ok(p, [])
    else Err(p, INVALID_STATUS)
  }

  function OnResStatusCode(p: Parser, ch: byte): Res {
    if IsNum(ch) then
      var q := p.(line := p.line.(status := p.line.status * 10 + Digit(ch)));
      if q.line.status > 999 then Err(q, INVALID_STATUS) else Ok(q, [])
    else if ch == ' ' then Ok(p.(state := ResStatusStart), [])
    else if ch == CR || ch == LF then OnResStatusStart(p.(state := ResStatusStart), ch)
    else Err(p, INVALID_STATUS)
  }

  function OnResStatusStart(p: Parser, ch: byte): Res {
    var q := p.(state := ResStatus, h := p.h.(index := 0));
    After([Mark(Status)], if ch == CR || ch == LF then OnResStatus(q, ch) else Ok(q, []))
  }

  function OnResStatus(p: Parser, ch: byte): Res {
    if ch == CR then Ok(p.(state := ResLineAlmostDone), [Flush(Status)])
    else if ch == LF then Ok(p.(state := HeaderFieldStart), [Flush(Status)])
    else Ok(p, [])
  }

  function OnVersionDigit(p: Parser, ch: byte, major: bool, next: State): Res {
    if !IsNum(ch) then Err(p, INVALID_VERSION)
    else if major then Ok(p.(line := p.line.(major := Digit(ch)), state := next), [])
    else Ok(p.(line := p.line.(minor := Digit(ch)), state := next), [])
  }

  function OnVersionChar(p: Parser, ch: byte, want: char, next: State): Res {
    if ch != want then Err(p, INVALID_VERSION) else Ok(p.(state := next), [])
  }

  // ----- the request line

  /** parse_url_char */
  function ParseUrlChar(s: State, ch: byte): State {
    if ch == ' ' || ch == CR || ch == LF || ch == '\t' || ch as int == 12 then Dead
    else
      match s
      case ReqSpacesBeforeUrl =>
        if ch == '/' || ch == '*' then ReqPath else if IsAlpha(ch) then ReqSchema else Dead
      case ReqSchema =>
        if IsAlpha(ch) then s else if ch == ':' then ReqSchemaSlash else Dead
      case ReqSchemaSlash =>
        if ch == '/' then ReqSchemaSlashSlash else Dead
      case ReqSchemaSlashSlash =>
        if ch == '/' then ReqServerStart else Dead
      case ReqServerWithAt =>
        if ch == '@' then Dead else ServerChar(ch)
      case ReqServerStart => ServerChar(ch)
      case ReqServer => ServerChar(ch)
      case ReqPath =>
        if IsUrlChar(ch) then s
        else if ch == '?' then ReqQueryStringStart
        else if ch == '#' then ReqFragmentStart
        else Dead
      case ReqQueryStringStart => QueryChar(ch)
      case ReqQueryString => QueryChar(ch)
      case ReqFragmentStart =>
        if IsUrlChar(ch) || ch == '?' then ReqFragment else if ch == '#' then s else Dead
      case ReqFragment =>
        if IsUrlChar(ch) || ch == '?' || ch == '#' then s else Dead
      case _ => Dead
  }

  function ServerChar(ch: byte): State {
    if ch == '/' then ReqPath
    else if ch == '?' then ReqQueryStringStart
    else if ch == '@' then ReqServerWithAt
    else if IsUserinfoChar(ch) || ch == '[' || ch == ']' then ReqServer
    else Dead
  }

  function QueryChar(ch: byte): State {
    if IsUrlChar(ch) || ch == '?' then ReqQueryString else if ch == '#' then ReqFragmentStart else Dead
  }

  function OnUrl(p: Parser, from: State, ch: byte): Res {
    var s := ParseUrlChar(from, ch);
    if s.Dead? then Err(p.(state := Dead), INVALID_URL) else Ok(p.(state := s), [])
  }

  function OnReqSpacesBeforeUrl(p: Parser, ch: byte): Res {
    if ch == ' ' then Ok(p, [])
    else After([Mark(Url)], OnUrl(p, if p.line.method_.CONNECT? then ReqServerStart else ReqSpacesBeforeUrl, ch))
  }

  /** Inside the schema and at the start of the server no white space may come. */
  function OnReqSchema(p: Parser, ch: byte): Res {
    if ch == ' ' || ch == CR || ch == LF then Err(p, INVALID_URL) else OnUrl(p, p.state, ch)
  }

  function OnReqTarget(p: Parser, ch: byte): Res {
    if ch == ' ' then Ok(p.(state := ReqHttpStart), [Flush(Url)])
    else if ch == CR then Ok(p.(line := p.line.(major := 0, minor := 9), state := ReqLineAlmostDone), [Flush(Url)])
    else if ch == LF then Ok(p.(line := p.line.(major := 0, minor := 9), state := HeaderFieldStart), [Flush(Url)])
    else OnUrl(p, p.state, ch)
  }

  function OnReqHttpStart(p: Parser, ch: byte): Res {
    if ch == ' ' then Ok(p, [])
    else if ch == 'H' then Ok(p.(state := ReqHttpH), [])
    else if ch == 'I' && p.line.method_.SOURCE? then Ok(p.(state := ReqHttpI), [])
    else Err(p, INVALID_CONSTANT)
  }

  function OnReqHttpEnd(p: Parser, ch: byte): Res {
    if ch == CR then Ok(p.(state := ReqLineAlmostDone), [])
    else if ch == LF then Ok(p.(state := HeaderFieldStart), [])
    else Err(p, INVALID_VERSION)
  }

  function OnReqLineAlmostDone(p: Parser, ch: byte): Res {
    if ch != LF then Err(p, LF_EXPECTED) else Ok(p.(state := HeaderFieldStart), [])
  }

  // ----- header names

  function FirstHeaderState(c: char): HeaderState {
    match c
    case 'c' => C
    case 'p' => MatchingProxyConnection
    case 't' => MatchingTransferEncoding
    case 'u' => MatchingUpgrade
    case _ => General
  }

  function OnHeaderFieldStart(cfg: Config, p: Parser, ch: byte): Res {
    if ch == CR then Ok(p.(state := HeadersAlmostDone), [])
    else if ch == LF then OnHeadersAlmostDone(cfg, p.(state := HeadersAlmostDone), ch)
    else if Token(ch) == '\0' then Err(p, INVALID_HEADER_TOKEN)
    else Ok(p.(state := HeaderField, h := p.h.(index := 0, hstate := FirstHeaderState(Token(ch)))), [Mark(HField)])
  }

  /** One more character of a word that is being matched. */
  function Matching(h: Headers, c: char, word: string, found: HeaderState, lost: HeaderState): Headers
    requires |word| > 0
  {
    var i := h.index + 1;
    if i > |word| || c != At(word, i) then h.(index := i, hstate := lost)
    else if i == |word| - 1 then h.(index := i, hstate := found)
    else h.(index := i)
  }

  /** One character of a header name. */
  function NameChar(h: Headers, ch: byte): Headers {
    var c := Token(ch);
    match h.hstate
    case C => h.(index := h.index + 1, hstate := if c == 'o' then CO else General)
    case CO => h.(index := h.index + 1, hstate := if c == 'n' then CON else General)
    case CON =>
      h.(index := h.index + 1,
      hstate := if c == 'n' then MatchingConnection else if c == 't' then MatchingContentLength else General)
    case MatchingConnection => Matching(h, c, "connection", Connection, General)
    case MatchingProxyConnection => Matching(h, c, "proxy-connection", Connection, General)
    case MatchingContentLength => Matching(h, c, "content-length", ContentLength, General)
    case MatchingTransferEncoding =>
      var g := Matching(h, c, "transfer-encoding", TransferEncoding, General);
      if g.hstate.TransferEncoding? then g.(usesTe := true) else g
    case MatchingUpgrade => Matching(h, c, "upgrade", Upgrade, General)
    case Connection | ContentLength | TransferEncoding | Upgrade => if ch != ' ' then h.(hstate := General) else h
    case _ => h
  }

  function OnHeaderField(p: Parser, ch: byte): Res {
    if Token(ch) != '\0' then Ok(p.(h := NameChar(p.h, ch)), [])
    else if ch == ':' then Ok(p.(state := HeaderValueDiscardWs), [Flush(HField)])
    else Err(p, INVALID_HEADER_TOKEN)
  }

  // ----- header values

  function OnHeaderValueDiscardWs(p: Parser, ch: byte): Res {
    if ch == ' ' || ch == '\t' then Ok(p, [])
    else if ch == CR then Ok(p.(state := HeaderValueDiscardWsAlmostDone), [])
    else if ch == LF then Ok(p.(state := HeaderValueDiscardLws), [])
    else OnHeaderValueStart(p, ch)
  }

  /** What the first character of a value says about the header, or the error. */
  function FirstValueChar(h0: Headers, ch: byte): Result<Headers> {
    var h, c := h0.(index := 0), Lower(ch);
    match h.hstate
    case Upgrade => Good(h.(flags := h.flags.(upgrade := true), hstate := General))
    case TransferEncoding => Good(h.(hstate := if c == 'c' then TeChunked else TeToken))
    case TeTokenStart | ContentLengthWs | ConnTokenStart => Good(h)
    case ContentLength =>
      if !IsNum(ch) then Bad(INVALID_CONTENT_LENGTH)
      else if h.flags.contentLength then Bad(UNEXPECTED_CONTENT_LENGTH)
      else Good(h.(flags := h.flags.(contentLength := true), contentLength := Digit(ch), hstate := ContentLengthNum))
    case Connection => Good(h.(hstate := ConnWord(c, ConnToken)))
    case _ => Good(h.(hstate := General))
  }

  function OnHeaderValueStart(p: Parser, ch: byte): Res {
    match FirstValueChar(p.h, ch)
    case Bad(e) => Err(p, e)
    case Good(h) => Ok(p.(state := HeaderValue, h := h), [Mark(HValue)])
  }

  datatype Result<+T> = Good(value: T) | Bad(e: Errno)

  /** Which word of a Connection header begins with c. */
  function ConnWord(c: char, other: HeaderState): HeaderState {
    if c == 'k' then ConnKeepAlive else if c == 'c' then ConnClose else if c == 'u' then ConnUpgrade else other
  }

  /** A further digit of a length; None is the overflow test's answer. */
  function AddDigit(length: nat, base: nat, digit: nat): Option<nat>
    requires base == 10 || base == 16
  {
    if (UNSET - base) / base < length then None else Some(length * base + digit)
  }

  function LengthChar(h: Headers, ch: byte): Option<Headers> {
    if ch == ' ' then Some(h.(hstate := ContentLengthWs))
    else if !IsNum(ch) then None
    else
      match AddDigit(h.contentLength, 10, Digit(ch))
      case None => None
      case Some(n) => Some(h.(hstate := ContentLengthNum, contentLength := n))
  }

  /** The flag that a finished word of a header value sets. */
  function Noted(h: Headers): Headers {
    match h.hstate
    case IsKeepAlive => h.(flags := h.flags.(keepAlive := true))
    case IsClose => h.(flags := h.flags.(close := true))
    case IsTeChunked => h.(flags := h.flags.(chunked := true))
    case IsConnUpgrade => h.(flags := h.flags.(connUpgrade := true))
    case _ => h
  }

  function AfterWord(h: Headers, ch: byte): Headers {
    if ch == ',' then Noted(h).(hstate := ConnTokenStart, index := 0)
    else if ch != ' ' then h.(hstate := ConnToken)
    else h
  }

  /** One character of a header value, other than CR and LF; None is an invalid
      Content-Length. */
  function ValueChar(h: Headers, ch: byte): Option<Headers> {
    var c := Lower(ch);
    match h.hstate
    case General => Some(h)
    case ContentLength => if ch == ' ' then Some(h) else LengthChar(h, ch)
    case ContentLengthNum => LengthChar(h, ch)
    case ContentLengthWs => if ch == ' ' then Some(h) else None
    case TeTokenStart =>
      Some(h.(hstate :=
        if c == 'c' then TeChunked else if Token(c) != '\0' then TeToken
        else if c == ' ' || c == '\t' then TeTokenStart else General))
    case TeChunked => Some(Matching(h, c, "chunked", IsTeChunked, TeToken))
    case TeToken => Some(if ch == ',' then h.(hstate := TeTokenStart, index := 0) else h)
    case ConnTokenStart =>
      Some(h.(hstate := ConnWord(c,
        if Token(c) != '\0' then ConnToken else if c == ' ' || c == '\t' then ConnTokenStart else General)))
    case ConnKeepAlive => Some(Matching(h, c, "keep-alive", IsKeepAlive, ConnToken))
    case ConnClose => Some(Matching(h, c, "close", IsClose, ConnToken))
    case ConnUpgrade => Some(Matching(h, c, "upgrade", IsConnUpgrade, ConnToken))
    case ConnToken => Some(if ch == ',' then h.(hstate := ConnTokenStart, index := 0) else h)
    case IsTeChunked => Some(if ch != ' ' then h.(hstate := TeToken) else h)
    case IsKeepAlive | IsClose | IsConnUpgrade => Some(AfterWord(h, ch))
    case _ => Some(h.(hstate := General))
  }

  function OnHeaderValue(p: Parser, ch: byte): Res {
    if ch == CR then Ok(p.(state := HeaderAlmostDone), [Flush(HValue)])
    else if ch == LF then After([Flush(HValue)], OnHeaderAlmostDone(p.(state := HeaderAlmostDone), ch))
    else if !p.lenient && !IsHeaderChar(ch) then Err(p, INVALID_HEADER_TOKEN)
    else
      match ValueChar(p.h, ch)
      case None => Err(p, INVALID_CONTENT_LENGTH)
      case Some(h) => Ok(p.(h := h), [])
  }

  function OnHeaderAlmostDone(p: Parser, ch: byte): Res {
    if ch != LF then Err(p, LF_EXPECTED) else Ok(p.(state := HeaderValueLws), [])
  }

  /** A folded line counts as a space in a Content-Length. */
  function Folded(h: Headers): Headers {
    if h.hstate.ContentLengthNum? then h.(hstate := ContentLengthWs) else h
  }

  function OnHeaderValueLws(cfg: Config, p: Parser, ch: byte): Res {
    if ch == ' ' || ch == '\t' then
      OnHeaderValueStart(p.(state := HeaderValueStart, h := Folded(p.h)), ch)
    else OnHeaderFieldStart(cfg, p.(state := HeaderFieldStart, h := Noted(p.h)), ch)
  }

  function OnHeaderValueDiscardLws(cfg: Config, p: Parser, ch: byte): Res {
    if ch == ' ' || ch == '\t' then Ok(p.(state := HeaderValueDiscardWs), [])
    else if p.h.hstate.ContentLength? then Err(p, INVALID_CONTENT_LENGTH)
    else After([Mark(HValue), Flush(HValue)],
              OnHeaderFieldStart(cfg, p.(state := HeaderFieldStart, h := Noted(p.h)), ch))
  }

  // ----- the end of the headers

  predicate LengthClash(p: Parser) {
    p.h.usesTe && p.h.flags.contentLength && (if p.h.flags.chunked then !p.allowChunkedLength else !p.lenient)
  }

  function WantsUpgrade(p: Parser): bool {
    if p.h.flags.upgrade && p.h.flags.connUpgrade then p.line.kind.Request? || p.line.status == 101
    else p.line.method_.CONNECT?
  }

  function HeadOf(p: Parser): Head {
    Head(p.line, p.h.flags, p.h.contentLength, p.upgrade)
  }

  /** What the answer of on_headers_complete changes; None is an error. */
  function Answered(p: Parser, answer: int): Option<Parser> {
    if answer == 0 then Some(p)
    else if answer == 1 then Some(p.(h := p.h.(flags := p.h.flags.(skipBody := true))))
    else if answer == 2 then Some(p.(upgrade := true, h := p.h.(flags := p.h.flags.(skipBody := true))))
    else None
  }

  function OnHeadersAlmostDone(cfg: Config, p: Parser, ch: byte): Res {
    if ch != LF then Err(p, STRICT)
    else if p.h.flags.trailing then After([Note(ChunkComplete)], OnMessageDone(p.(state := MessageDone)))
    else if LengthClash(p) then Err(p, UNEXPECTED_CONTENT_LENGTH)
    else
      var q := p.(state := HeadersDone, upgrade := WantsUpgrade(p));
      match Answered(q, cfg.onHeadersComplete(HeadOf(q)))
      case None => Err(q, CB_HEADERS_COMPLETE)
      case Some(r) => After([Note(HeadersComplete)], OnHeadersDone(r, ch))
  }

  function Completed(p: Parser): Res {
    Ok(p.(state := NewMessage(p)), [Note(MessageComplete)])
  }

  predicate HasBody(p: Parser) {
    p.h.flags.chunked || (p.h.contentLength > 0 && p.h.contentLength != UNSET)
  }

  function OnHeadersDone(p0: Parser, ch: byte): Res {
    var p := p0.(nread := 0);
    if ch != LF then Err(p0, STRICT)
    else if p.upgrade && (p.line.method_.CONNECT? || p.h.flags.skipBody || !HasBody(p)) then Completed(p).(halt := Exit)
    else if p.h.flags.skipBody then Completed(p)
    else if p.h.flags.chunked then Ok(p.(state := ChunkSizeStart), [])
    else if p.h.usesTe then
      if p.line.kind.Request? && !p.lenient then Err(p, INVALID_TRANSFER_ENCODING)
      else Ok(p.(state := BodyIdentityEof), [])
    else if p.h.contentLength == 0 then Completed(p)
    else if p.h.contentLength != UNSET then Ok(p.(state := BodyIdentity), [])
    else if !NeedsEof(p) then Completed(p)
    else Ok(p.(state := BodyIdentityEof), [])
  }

  // ----- the body

  function OnMessageDone(p: Parser): Res {
    if p.upgrade then Completed(p).(halt := Exit) else Completed(p)
  }

  /** One byte of the body was read. */
  function OneLess(h: Headers): Headers {
    h.(contentLength := if h.contentLength > 0 then h.contentLength - 1 else 0)
  }

  function OnBodyIdentity(p: Parser): Res {
    var q := p.(h := OneLess(p.h));
    if q.h.contentLength == 0 then After([Mark(Body), FlushIncl(Body)], OnMessageDone(q.(state := MessageDone)))
    else Ok(q, [Mark(Body)])
  }

  function OnChunkSizeStart(p: Parser, ch: byte): Res {
    if Unhex(ch) < 0 then Err(p, INVALID_CHUNK_SIZE)
    else Ok(p.(h := p.h.(contentLength := Unhex(ch)), state := ChunkSize), [])
  }

  function OnChunkSize(p: Parser, ch: byte): Res {
    if ch == CR then Ok(p.(state := ChunkSizeAlmostDone), [])
    else if Unhex(ch) < 0 then
      if ch == ';' || ch == ' ' then Ok(p.(state := ChunkParameters), []) else Err(p, INVALID_CHUNK_SIZE)
    else
      match AddDigit(p.h.contentLength, 16, Unhex(ch))
      case None => Err(p, INVALID_CONTENT_LENGTH)
      case Some(n) => Ok(p.(h := p.h.(contentLength := n)), [])
  }

  function OnChunkParameters(p: Parser, ch: byte): Res {
    if ch == CR then Ok(p.(state := ChunkSizeAlmostDone), []) else Ok(p, [])
  }

  function OnChunkSizeAlmostDone(p: Parser, ch: byte): Res {
    if ch != LF then Err(p, STRICT)
    else if p.h.contentLength == 0 then
      Ok(p.(nread := 0, h := p.h.(flags := p.h.flags.(trailing := true)), state := HeaderFieldStart),
         [Note(ChunkHeader)])
    else Ok(p.(nread := 0, state := ChunkData), [Note(ChunkHeader)])
  }

  function OnChunkData(p: Parser): Res {
    var q := p.(h := OneLess(p.h));
    Ok(q.(state := if q.h.contentLength == 0 then ChunkDataAlmostDone else ChunkData), [Mark(Body)])
  }

  function OnChunkDataAlmostDone(p: Parser, ch: byte): Res {
    if ch != CR then Err(p, STRICT) else Ok(p.(state := ChunkDataDone), [Flush(Body)])
  }

  function OnChunkDataDone(p: Parser, ch: byte): Res {
    if ch != LF then Err(p, STRICT) else Ok(p.(nread := 0, state := ChunkSizeStart), [Note(ChunkComplete)])
  }

  // ----- the switch

  predicate ParsingHeader(s: State) {
    !s.ChunkData? && !s.ChunkDataAlmostDone? && !s.ChunkDataDone? && !s.BodyIdentity? && !s.BodyIdentityEof?
    && !s.MessageDone?
  }

  function OnStatusLine(p: Parser, ch: byte): Res {
    match p.state
    case Dead => OnDead(p, ch)
    case StartReqOrRes => OnStartReqOrRes(p, ch)
    case ResOrRespH => OnResOrRespH(p, ch)
    case StartRes => OnStartRes(p, ch)
    case ResH => Expect(p, ch, 'T', ResHT)
    case ResHT => Expect(p, ch, 'T', ResHTT)
    case ResHTT => Expect(p, ch, 'P', ResHTTP)
    case ResHTTP => Expect(p, ch, '/', ResHttpMajor)
    case ResHttpMajor => OnVersionDigit(p, ch, true, ResHttpDot)
    case ResHttpDot => OnVersionChar(p, ch, '.', ResHttpMinor)
    case ResHttpMinor => OnVersionDigit(p, ch, false, ResHttpEnd)
    case ResHttpEnd => OnVersionChar(p, ch, ' ', ResFirstStatusCode)
    case ResFirstStatusCode => OnResFirstStatusCode(p, ch)
    case ResStatusCode => OnResStatusCode(p, ch)
    case ResStatusStart => OnResStatusStart(p, ch)
    case ResStatus => OnResStatus(p, ch)
    case _ => Expect(p, ch, LF, HeaderFieldStart)
  }

  function OnRequestLine(p: Parser, ch: byte): Res {
    match p.state
    case StartReq => OnStartReq(p, ch)
    case ReqMethod => OnReqMethod(p, ch)
    case ReqSpacesBeforeUrl => OnReqSpacesBeforeUrl(p, ch)
    case ReqHttpStart => OnReqHttpStart(p, ch)
    case ReqHttpH => Expect(p, ch, 'T', ReqHttpHT)
    case ReqHttpHT => Expect(p, ch, 'T', ReqHttpHTT)
    case ReqHttpHTT => Expect(p, ch, 'P', ReqHttpHTTP)
    case ReqHttpI => Expect(p, ch, 'C', ReqHttpIC)
    case ReqHttpIC => Expect(p, ch, 'E', ReqHttpHTTP)
    case ReqHttpHTTP => Expect(p, ch, '/', ReqHttpMajor)
    case ReqHttpMajor => OnVersionDigit(p, ch, true, ReqHttpDot)
    case ReqHttpDot => OnVersionChar(p, ch, '.', ReqHttpMinor)
    case ReqHttpMinor => OnVersionDigit(p, ch, false, ReqHttpEnd)
    case ReqHttpEnd => OnReqHttpEnd(p, ch)
    case ReqLineAlmostDone => OnReqLineAlmostDone(p, ch)
    case _ =>
      if p.state.ReqSchema? || p.state.ReqSchemaSlash? || p.state.ReqSchemaSlashSlash? || p.state.ReqServerStart?
      then OnReqSchema(p, ch)
      else OnReqTarget(p, ch)
  }

  predicate InStatusLine(s: State) {
    match s
    case Dead | StartReqOrRes | ResOrRespH | StartRes | ResH | ResHT | ResHTT | ResHTTP | ResHttpMajor | ResHttpDot
      | ResHttpMinor | ResHttpEnd | ResFirstStatusCode | ResStatusCode | ResStatusStart | ResStatus
      | ResLineAlmostDone => true
    case _ => false
  }

  function OnMessage(cfg: Config, p: Parser, ch: byte): Res {
    match p.state
    case HeaderFieldStart => OnHeaderFieldStart(cfg, p, ch)
    case HeaderField => OnHeaderField(p, ch)
    case HeaderValueDiscardWs => OnHeaderValueDiscardWs(p, ch)
    case HeaderValueDiscardWsAlmostDone => Expect(p, ch, LF, HeaderValueDiscardLws)
    case HeaderValueDiscardLws => OnHeaderValueDiscardLws(cfg, p, ch)
    case HeaderValueStart => OnHeaderValueStart(p, ch)
    case HeaderValue => OnHeaderValue(p, ch)
    case HeaderValueLws => OnHeaderValueLws(cfg, p, ch)
    case HeaderAlmostDone => OnHeaderAlmostDone(p, ch)
    case ChunkSizeStart => OnChunkSizeStart(p, ch)
    case ChunkSize => OnChunkSize(p, ch)
    case ChunkParameters => OnChunkParameters(p, ch)
    case ChunkSizeAlmostDone => OnChunkSizeAlmostDone(p, ch)
    case HeadersAlmostDone => OnHeadersAlmostDone(cfg, p, ch)
    case HeadersDone => OnHeadersDone(p, ch)
    case ChunkData => OnChunkData(p)
    case ChunkDataAlmostDone => OnChunkDataAlmostDone(p, ch)
    case ChunkDataDone => OnChunkDataDone(p, ch)
    case BodyIdentity => OnBodyIdentity(p)
    case BodyIdentityEof => Ok(p, [Mark(Body)])
    case _ => OnMessageDone(p)
  }

  /** The states after the request or status line. */
  predicate PastFirstLine(s: State) {
    match s
    case HeaderFieldStart | HeaderField | HeaderValueDiscardWs | HeaderValueDiscardWsAlmostDone
      | HeaderValueDiscardLws | HeaderValueStart | HeaderValue | HeaderValueLws | HeaderAlmostDone
      | ChunkSizeStart | ChunkSize | ChunkParameters | ChunkSizeAlmostDone | HeadersAlmostDone | HeadersDone
      | ChunkData | ChunkDataAlmostDone | ChunkDataDone | BodyIdentity | BodyIdentityEof | MessageDone => true
    case _ => false
  }

  function OnByte(cfg: Config, p: Parser, ch: byte): Res {
    if PastFirstLine(p.state) then OnMessage(cfg, p, ch)
    else if InStatusLine(p.state) then OnStatusLine(p, ch)
    else OnRequestLine(p, ch)
  }

  /** COUNT_HEADER_SIZE of one byte, then the switch. */
  function Feed(cfg: Config, p: Parser, ch: byte): Res {
    if !ParsingHeader(p.state) then OnByte(cfg, p, ch)
    else
      var q := p.(nread := p.nread + 1);
      if q.nread > cfg.maxHeader then Err(q, HEADER_OVERFLOW) else OnByte(cfg, q, ch)
  }

  /** http_parser_init */
  function Init(kind: Kind): Parser {
    Parser(if kind.Request? then StartReq else if kind.Response? then StartRes else StartReqOrRes,
           0, Line(kind, 0, 0, 0, DELETE), Headers(General, 0, NO_FLAGS, false, 0), false, false, false)
  }
}
