/** http_parser: whole messages, from the first byte of the first line to the last byte
    of the body. */
module HttpMessages {
  import opened HttpStep
  import opened HttpRun
  import opened HttpExecute
  import opened HttpNames
  import opened HttpWords
  import opened HttpValues
  import opened HttpLines
  import opened HttpFraming
  import opened HttpChunked
  import opened HttpStart
  import opened HttpSplit

  /** The message asks to go on in another protocol: a CONNECT, or Upgrade and a
      Connection that names it; but these count in a response only with status 101. */
  predicate Switches(line: Line, flags: Flags) {
    if flags.upgrade && flags.connUpgrade then line.kind.Request? || line.status == 101 else line.method_.CONNECT?
  }

  /** Neither the lines nor the embedder want another protocol or no body. */
  predicate Ordinary(cfg: Config, line: Line, flags: Flags, length: nat) {
    && !Switches(line, flags)
    && cfg.onHeadersComplete(Head(line, flags, length, false)) == 0
  }

  lemma {:induction false} UncodedNotChunked(f: Flags, ls: seq<HeaderLine>)
    requires !SomeCodes(ls)
    ensures LinesFlags(f, ls).chunked == f.chunked
  {
    hide LineFlags, Low;
    if ls != [] {
      var n := |ls| - 1;
      assert !Codes(ls[n]);
      UncodedNotChunked(f, ls[..n]);
      ChunksOne(LinesFlags(f, ls[..n]), ls[n]);
    }
  }

  predicate AllLines(lenient: bool, ls: seq<HeaderLine>) {
    forall k :: 0 <= k < |ls| ==> IsLine(lenient, ls[k])
  }

  /** The parser has just read a first line. */
  predicate AfterFirstLine(p: Parser, line: Line) {
    && p.state.HeaderFieldStart? && p.line == line
    && p.h.flags == NO_FLAGS && !p.h.usesTe && p.h.contentLength == UNSET
  }

  // ----- with Content-Length

  ghost function FramedFlags(ls: seq<HeaderLine>, f: Framed): Flags {
    LinesFlags(LinesFlags(NO_FLAGS, ls).(contentLength := true), f.lines)
  }

  ghost predicate IsFramedMessage(cfg: Config, lenient: bool, line: Line, ls: seq<HeaderLine>, f: Framed) {
    && AllLines(lenient, ls) && IsFramed(lenient, f) && !SomeCodes(ls) && !SomeCodes(f.lines)
    && Ordinary(cfg, line, FramedFlags(ls, f), |f.body|)
  }

  function FramedWire(ls: seq<HeaderLine>, f: Framed): seq<byte> {
    EncodeLines(ls) + (FramedHead(f) + f.body)
  }

  function FramedTold(ls: seq<HeaderLine>, f: Framed): seq<Event> {
    ToldLines(ls) + ToldHead(f) + [Happened(HeadersComplete)] + ToldBody(f.body)
  }

  lemma FramedAnnounces(cfg: Config, p: Parser, q: Parser, line: Line, ls: seq<HeaderLine>, f: Framed)
    requires AfterFirstLine(p, line) && HasRead(p, q, ls) && IsFramedMessage(cfg, p.lenient, line, ls, f)
    ensures Announces(cfg, q, |f.body|, f.lines) && HeadFlags(q, f.lines) == FramedFlags(ls, f)
  {
    hide LinesFlags, SomeCodes, IsFramed, AllLines;
    FlagsGrow(NO_FLAGS, ls);
    UncodedNotChunked(NO_FLAGS, ls);
    var g := LinesFlags(NO_FLAGS, ls).(contentLength := true);
    FlagsGrow(g, f.lines);
    UncodedNotChunked(g, f.lines);
  }

  /** A message with Content-Length after its first line. */
  lemma FramedAfterLine(cfg: Config, r: Run, line: Line, ls: seq<HeaderLine>, f: Framed)
    requires r.halt.Go? && AfterFirstLine(r.p, line) && !EndsIn(r.out, HField)
    requires IsFramedMessage(cfg, r.p.lenient, line, ls, f)
    requires r.p.nread + |EncodeLines(ls)| + |FramedHead(f)| <= cfg.maxHeader
    ensures var t := RunBytes(cfg, r, FramedWire(ls, f));
            && t.halt.Go? && t.out == r.out + FramedTold(ls, f)
            && t.p.state == NextState(line, FramedFlags(ls, f))
  {
    hide RunBytes, IsFramed, FramedHead, ToldHead, ToldBody, Announces, HeadFlags, FramedFlags, IsLine, SomeCodes,
      Ordinary, ToldLines, NextState, LinesFlags;
    LinesDecoded(cfg, r, ls);
    var s := RunBytes(cfg, r, EncodeLines(ls));
    RunConcat(cfg, r, EncodeLines(ls), FramedHead(f) + f.body);
    FramedAnnounces(cfg, r.p, s.p, line, ls, f);
    FramedByLength(cfg, s, f, 0);
    assert s.out + ToldHead(f) + [Happened(HeadersComplete)] + ToldBody(f.body) == r.out + FramedTold(ls, f);
  }

  // ----- in chunks

  datatype Chunks = Chunks(lines: seq<HeaderLine>, chunks: seq<Chunk>, last: Chunk, trailers: seq<HeaderLine>)

  /** The line "Transfer-Encoding: chunked", in any case. */
  predicate SaysChunked(l: HeaderLine) {
    Low(l.name) == TRANSFER_ENCODING && Fold(l.value) == CHUNKED
  }

  /** With it among the lines, wherever, the message is chunked. */
  lemma ChunkedWhenSaid(ls: seq<HeaderLine>, k: nat)
    requires k < |ls| && SaysChunked(ls[k])
    ensures LinesFlags(NO_FLAGS, ls).chunked
  {
    hide LastSays, LinesFlags;
    var v := ls[k].value;
    assert Fold(v)[..|CHUNKED|] == CHUNKED;
    assert ',' !in v by {
      assert forall i :: 0 <= i < |v| ==> Lower(v[i]) == CHUNKED[i];
    }
    OneWord(v, CHUNKED, CODINGS, true);
    ChunkedByLine(NO_FLAGS, ls, k);
  }

  ghost predicate IsChunkedMessage(cfg: Config, lenient: bool, line: Line, c: Chunks) {
    && AllLines(lenient, c.lines) && (forall k :: 0 <= k < |c.chunks| ==> WellFormed(cfg, c.chunks[k]))
    && IsEnding(cfg, lenient, c.last, c.trailers)
    && LinesFlags(NO_FLAGS, c.lines).chunked && Ordinary(cfg, line, LinesFlags(NO_FLAGS, c.lines), UNSET)
  }

  function ChunkedWire(c: Chunks): seq<byte> {
    EncodeLines(c.lines) + CRLF + (EncodeAll(c.chunks) + Ending(c.last, c.trailers))
  }

  function ChunkedTold(c: Chunks): seq<Event> {
    ToldLines(c.lines) + [Happened(HeadersComplete)] + ToldAll(c.chunks) + ToldEnding(c.trailers)
    + [Happened(ChunkComplete), Happened(MessageComplete)]
  }

  ghost function ChunkedFlags(c: Chunks): Flags {
    LinesFlags(LinesFlags(NO_FLAGS, c.lines).(trailing := true), c.trailers)
  }

  lemma ChunkedAnnounces(cfg: Config, p: Parser, line: Line, c: Chunks)
    requires AfterFirstLine(p, line) && IsChunkedMessage(cfg, p.lenient, line, c)
    ensures ChunkedHead(cfg, Headed(p, c.lines))
  {
    hide LinesFlags, SomeCodes, IsEnding, AllLines;
    FlagsGrow(NO_FLAGS, c.lines);
  }

  /** A chunked message after its first line. */
  lemma ChunkedAfterLine(cfg: Config, r: Run, line: Line, c: Chunks)
    requires r.halt.Go? && AfterFirstLine(r.p, line) && !EndsIn(r.out, HField)
    requires IsChunkedMessage(cfg, r.p.lenient, line, c)
    requires r.p.nread + |EncodeLines(c.lines)| + 2 <= cfg.maxHeader
    ensures var t := RunBytes(cfg, r, ChunkedWire(c));
            && t.halt.Go? && t.out == r.out + ChunkedTold(c) && t.p.state == NextState(line, ChunkedFlags(c))
  {
    hide RunBytes, IsEnding, WellFormed, Ordinary, ChunkedHead, ToldLines, ToldAll, NextState, IsLine, LinesFlags,
      EncodeAll, Ending, EncodeLines;
    ChunkedAnnounces(cfg, r.p, line, c);
    ChunkedFromLines(cfg, r, c.lines, c.chunks, c.last, c.trailers);
    var told := r.out + ToldLines(c.lines) + [Happened(HeadersComplete)] + ToldAll(c.chunks) + ToldEnding(c.trailers);
    assert told + [Happened(ChunkComplete), Happened(MessageComplete)] == r.out + ChunkedTold(c);
  }

  // ----- with neither

  /** A message without either length ends with its head, or goes on to the end of the
      connection. */
  predicate EndsWithHead(line: Line) {
    line.kind.Request? || line.status / 100 == 1 || line.status == 204 || line.status == 304
  }

  ghost predicate IsBareMessage(cfg: Config, lenient: bool, line: Line, ls: seq<HeaderLine>) {
    AllLines(lenient, ls) && !SomeCodes(ls) && Ordinary(cfg, line, LinesFlags(NO_FLAGS, ls), UNSET)
  }

  /** What the parser has of a head without a length. */
  predicate BareHead(cfg: Config, p: Parser) {
    && p.h.contentLength == UNSET && !p.h.usesTe && !p.h.flags.chunked && !p.h.flags.trailing && !p.h.flags.skipBody
    && Ordinary(cfg, p.line, p.h.flags, UNSET)
  }

  /** The byte that ends the empty line is left to one function. */
  lemma EmptyLine(cfg: Config, q: Parser)
    requires q.state.HeadersAlmostDone? && q.nread < cfg.maxHeader
    ensures Feed(cfg, q, LF) == OnHeadersAlmostDone(cfg, q.(nread := q.nread + 1), LF)
  {
    hide OnHeadersAlmostDone;
  }

  lemma BareEnds(cfg: Config, q: Parser)
    requires q.state.HeadersAlmostDone? && q.nread < cfg.maxHeader && BareHead(cfg, q)
    ensures var d := q.(nread := 0, state := HeadersDone, upgrade := false);
            if EndsWithHead(q.line) then
              Feed(cfg, q, LF) == Ok(d.(state := NewMessage(d)), [Note(HeadersComplete)] + [Note(MessageComplete)])
            else Feed(cfg, q, LF) == Ok(d.(state := BodyIdentityEof), [Note(HeadersComplete)])
  {
    hide Feed, NewMessage;
    EmptyLine(cfg, q);
    assert [Note(HeadersComplete)] + [] == [Note(HeadersComplete)];
  }

  lemma BareNext(p: Parser)
    requires EndsWithHead(p.line)
    ensures NewMessage(p) == NextState(p.line, p.h.flags)
  {}

  lemma BareHeadRead(cfg: Config, r: Run)
    requires r.halt.Go? && AtLine(r.p.state) && r.p.nread + 2 <= cfg.maxHeader && BareHead(cfg, r.p.(h := Begun(r.p)))
    ensures var t := RunBytes(cfg, r, CRLF);
            && t.halt.Go?
            && if EndsWithHead(r.p.line) then
                 t.out == r.out + [Happened(HeadersComplete), Happened(MessageComplete)]
                 && t.p.state == NextState(r.p.line, Begun(r.p).flags)
               else t.out == r.out + [Happened(HeadersComplete)] && t.p.state.BodyIdentityEof?
  {
    hide RunBytes, One, Feed, NewMessage, NextState, EndsWithHead, Begun, Ordinary;
    LinesEnd(cfg, r.p);
    var c := Run(Feed(cfg, r.p, CR).p, r.out, Go);
    RunTwo(cfg, r, CR, LF);
    QuietByte(cfg, r, CR, c.p);
    BareEnds(cfg, c.p);
    if EndsWithHead(r.p.line) {
      TwoNotes(cfg, c, LF, Feed(cfg, c.p, LF), HeadersComplete, MessageComplete);
      BareNext(c.p.(nread := 0, state := HeadersDone, upgrade := false));
    } else {
      NoteByte(cfg, c, LF, Feed(cfg, c.p, LF).p, HeadersComplete);
    }
  }

  function BareTold(line: Line, ls: seq<HeaderLine>): seq<Event> {
    ToldLines(ls) + [Happened(HeadersComplete)] + if EndsWithHead(line) then [Happened(MessageComplete)] else []
  }

  /** A head without a length after its first line. */
  lemma BareAfterLine(cfg: Config, r: Run, line: Line, ls: seq<HeaderLine>)
    requires r.halt.Go? && AfterFirstLine(r.p, line) && !EndsIn(r.out, HField)
    requires IsBareMessage(cfg, r.p.lenient, line, ls) && r.p.nread + |EncodeLines(ls)| + 2 <= cfg.maxHeader
    ensures var t := RunBytes(cfg, r, EncodeLines(ls) + CRLF);
            && t.halt.Go? && t.out == r.out + BareTold(line, ls)
            && t.p.state == if EndsWithHead(line) then NextState(line, LinesFlags(NO_FLAGS, ls)) else BodyIdentityEof
  {
    hide RunBytes, IsLine, SomeCodes, LinesFlags, Ordinary, NextState, EndsWithHead, ToldLines;
    LinesDecoded(cfg, r, ls);
    var s := RunBytes(cfg, r, EncodeLines(ls));
    RunConcat(cfg, r, EncodeLines(ls), CRLF);
    FlagsGrow(NO_FLAGS, ls);
    UncodedNotChunked(NO_FLAGS, ls);
    BareHeadRead(cfg, s);
    assert r.out + ToldLines(ls) + [Happened(HeadersComplete), Happened(MessageComplete)]
           == r.out + (ToldLines(ls) + [Happened(HeadersComplete)] + [Happened(MessageComplete)]);
    assert r.out + ToldLines(ls) + [Happened(HeadersComplete)]
           == r.out + (ToldLines(ls) + [Happened(HeadersComplete)] + []);
  }

  // ----- with a coding whose end the parser cannot see

  /** There is a Transfer-Encoding, and its last word is not chunked. */
  ghost predicate IsCodedMessage(cfg: Config, lenient: bool, line: Line, ls: seq<HeaderLine>) {
    && AllLines(lenient, ls) && SomeCodes(ls) && !LinesFlags(NO_FLAGS, ls).chunked
    && Ordinary(cfg, line, LinesFlags(NO_FLAGS, ls), UNSET)
  }

  predicate CodedHead(cfg: Config, p: Parser) {
    && p.h.contentLength == UNSET && p.h.usesTe && !p.h.flags.chunked && !p.h.flags.trailing && !p.h.flags.skipBody
    && !p.h.flags.contentLength && Ordinary(cfg, p.line, p.h.flags, UNSET)
  }

  lemma CodedEnds(cfg: Config, q: Parser)
    requires q.state.HeadersAlmostDone? && q.nread < cfg.maxHeader && CodedHead(cfg, q)
    ensures var d := q.(nread := 0, state := BodyIdentityEof, upgrade := false);
            if q.line.kind.Request? && !q.lenient then Feed(cfg, q, LF).halt == Fail(INVALID_TRANSFER_ENCODING)
            else Feed(cfg, q, LF) == Ok(d, [Note(HeadersComplete)])
  {
    hide Feed, NewMessage, NeedsEof;
    EmptyLine(cfg, q);
    assert [Note(HeadersComplete)] + [] == [Note(HeadersComplete)];
  }

  lemma FailsAs(cfg: Config, r: Run, ch: byte)
    requires r.halt.Go? && Feed(cfg, r.p, ch).halt.Fail?
    ensures One(cfg, r, ch).halt == Feed(cfg, r.p, ch).halt
  {
    hide Feed;
  }

  lemma CodedHeadRead(cfg: Config, r: Run)
    requires r.halt.Go? && AtLine(r.p.state) && r.p.nread + 2 <= cfg.maxHeader && CodedHead(cfg, r.p.(h := Begun(r.p)))
    ensures var t := RunBytes(cfg, r, CRLF);
            if r.p.line.kind.Request? && !r.p.lenient then t.halt == Fail(INVALID_TRANSFER_ENCODING)
            else t.halt.Go? && t.out == r.out + [Happened(HeadersComplete)] && t.p.state.BodyIdentityEof?
  {
    hide RunBytes, One, Feed, Begun, Ordinary;
    LinesEnd(cfg, r.p);
    var c := Run(Feed(cfg, r.p, CR).p, r.out, Go);
    RunTwo(cfg, r, CR, LF);
    QuietByte(cfg, r, CR, c.p);
    CodedEnds(cfg, c.p);
    if r.p.line.kind.Request? && !r.p.lenient {
      FailsAs(cfg, c, LF);
    } else {
      NoteByte(cfg, c, LF, Feed(cfg, c.p, LF).p, HeadersComplete);
    }
  }

  /** Such a request is refused, unless the parser is lenient; the body of such a response
      is all that follows. */
  lemma CodedAfterLine(cfg: Config, r: Run, line: Line, ls: seq<HeaderLine>)
    requires r.halt.Go? && AfterFirstLine(r.p, line) && !EndsIn(r.out, HField)
    requires IsCodedMessage(cfg, r.p.lenient, line, ls) && r.p.nread + |EncodeLines(ls)| + 2 <= cfg.maxHeader
    ensures var t := RunBytes(cfg, r, EncodeLines(ls) + CRLF);
            if line.kind.Request? && !r.p.lenient then t.halt == Fail(INVALID_TRANSFER_ENCODING)
            else && t.halt.Go? && t.p.state.BodyIdentityEof?
                 && t.out == r.out + ToldLines(ls) + [Happened(HeadersComplete)]
  {
    hide RunBytes, IsLine, SomeCodes, LinesFlags, Ordinary, ToldLines;
    LinesDecoded(cfg, r, ls);
    var s := RunBytes(cfg, r, EncodeLines(ls));
    RunConcat(cfg, r, EncodeLines(ls), CRLF);
    FlagsGrow(NO_FLAGS, ls);
    CodedHeadRead(cfg, s);
  }

  // ----- whole messages

  function RequestOf(p: Parser, l: RequestLine): Line
    requires IsRequestLine(l)
  {
    p.line.(method_ := l.method_, major := Digit(l.major), minor := Digit(l.minor))
  }

  function ToldRequest(l: RequestLine): seq<Event> {
    [Happened(MessageBegin), Data(Url, l.target)]
  }

  lemma AfterRequestLine(cfg: Config, r: Run, l: RequestLine, rest: seq<byte>) returns (t: Run)
    requires r.halt.Go? && r.p.state.StartReq? && IsRequestLine(l) && r.p.nread + |EncodeRequest(l)| <= cfg.maxHeader
    ensures t.halt.Go? && AfterFirstLine(t.p, RequestOf(r.p, l)) && t.out == r.out + ToldRequest(l)
    ensures t.p.nread == r.p.nread + |EncodeRequest(l)| && t.p.lenient == r.p.lenient
    ensures !EndsIn(t.out, HField)
    ensures RunBytes(cfg, r, EncodeRequest(l) + rest) == RunBytes(cfg, t, rest)
  {
    hide RunBytes, IsRequestLine, Digit;
    RequestLineDecoded(cfg, r, l);
    t := RunBytes(cfg, r, EncodeRequest(l));
    RunConcat(cfg, r, EncodeRequest(l), rest);
  }

  /** A request with Content-Length: its target, its headers, exactly its body, and the end
      of the message; then the next request is expected, or none. */
  lemma FramedRequest(cfg: Config, r: Run, l: RequestLine, ls: seq<HeaderLine>, f: Framed)
    requires r.halt.Go? && r.p.state.StartReq? && IsRequestLine(l)
    requires IsFramedMessage(cfg, r.p.lenient, RequestOf(r.p, l), ls, f)
    requires r.p.nread + |EncodeRequest(l)| + |EncodeLines(ls)| + |FramedHead(f)| <= cfg.maxHeader
    ensures var t := RunBytes(cfg, r, EncodeRequest(l) + FramedWire(ls, f));
            && t.halt.Go? && t.out == r.out + (ToldRequest(l) + FramedTold(ls, f))
            && t.p.state == NextState(RequestOf(r.p, l), FramedFlags(ls, f))
  {
    hide RunBytes, IsRequestLine, IsFramedMessage, FramedWire, FramedTold, FramedFlags, NextState, RequestOf;
    var t := AfterRequestLine(cfg, r, l, FramedWire(ls, f));
    FramedAfterLine(cfg, t, RequestOf(r.p, l), ls, f);
    assert r.out + ToldRequest(l) + FramedTold(ls, f) == r.out + (ToldRequest(l) + FramedTold(ls, f));
  }

  /** A request in chunks: its target, its headers, every chunk's data in order, its
      trailers, and the end of the message; then the next request is expected, or none. */
  lemma ChunkedRequest(cfg: Config, r: Run, l: RequestLine, c: Chunks)
    requires r.halt.Go? && r.p.state.StartReq? && IsRequestLine(l)
    requires IsChunkedMessage(cfg, r.p.lenient, RequestOf(r.p, l), c)
    requires r.p.nread + |EncodeRequest(l)| + |EncodeLines(c.lines)| + 2 <= cfg.maxHeader
    ensures var t := RunBytes(cfg, r, EncodeRequest(l) + ChunkedWire(c));
            && t.halt.Go? && t.out == r.out + (ToldRequest(l) + ChunkedTold(c))
            && t.p.state == NextState(RequestOf(r.p, l), ChunkedFlags(c))
  {
    hide RunBytes, IsRequestLine, IsChunkedMessage, ChunkedWire, ChunkedTold, ChunkedFlags, NextState, RequestOf;
    var t := AfterRequestLine(cfg, r, l, ChunkedWire(c));
    ChunkedAfterLine(cfg, t, RequestOf(r.p, l), c);
    assert r.out + ToldRequest(l) + ChunkedTold(c) == r.out + (ToldRequest(l) + ChunkedTold(c));
  }

  /** A request with neither: complete with its head. */
  lemma BareRequest(cfg: Config, r: Run, l: RequestLine, ls: seq<HeaderLine>)
    requires r.halt.Go? && r.p.state.StartReq? && IsRequestLine(l) && r.p.line.kind.Request?
    requires IsBareMessage(cfg, r.p.lenient, RequestOf(r.p, l), ls)
    requires r.p.nread + |EncodeRequest(l)| + |EncodeLines(ls)| + 2 <= cfg.maxHeader
    ensures var t := RunBytes(cfg, r, EncodeRequest(l) + (EncodeLines(ls) + CRLF));
            && t.halt.Go?
            && t.out == r.out + ToldRequest(l) + ToldLines(ls) + [Happened(HeadersComplete), Happened(MessageComplete)]
            && t.p.state == NextState(RequestOf(r.p, l), LinesFlags(NO_FLAGS, ls))
  {
    hide RunBytes, IsRequestLine, IsBareMessage, NextState, LinesFlags, ToldLines, EncodeLines;
    var t := AfterRequestLine(cfg, r, l, EncodeLines(ls) + CRLF);
    BareAfterLine(cfg, t, RequestOf(r.p, l), ls);
    assert r.out + ToldRequest(l) + (ToldLines(ls) + [Happened(HeadersComplete)] + [Happened(MessageComplete)])
           == r.out + ToldRequest(l) + ToldLines(ls) + [Happened(HeadersComplete), Happened(MessageComplete)];
  }

  function StatusOf(p: Parser, l: StatusLine): Line
    requires IsStatusLine(l)
  {
    p.line.(major := Digit(l.major), minor := Digit(l.minor), status := Value(10, l.digits))
  }

  function ToldStatus(l: StatusLine): seq<Event> {
    [Happened(MessageBegin), Data(Status, l.reason)]
  }

  lemma AfterStatusLine(cfg: Config, r: Run, l: StatusLine, rest: seq<byte>) returns (t: Run)
    requires r.halt.Go? && r.p.state.StartRes? && IsStatusLine(l) && r.p.nread + |EncodeStatus(l)| <= cfg.maxHeader
    ensures t.halt.Go? && AfterFirstLine(t.p, StatusOf(r.p, l)) && t.out == r.out + ToldStatus(l)
    ensures t.p.nread == r.p.nread + |EncodeStatus(l)| && t.p.lenient == r.p.lenient
    ensures !EndsIn(t.out, HField)
    ensures RunBytes(cfg, r, EncodeStatus(l) + rest) == RunBytes(cfg, t, rest)
  {
    hide RunBytes, IsStatusLine, Digit, Value;
    StatusLineDecoded(cfg, r, l);
    t := RunBytes(cfg, r, EncodeStatus(l));
    RunConcat(cfg, r, EncodeStatus(l), rest);
  }

  /** A response with Content-Length. */
  lemma FramedResponse(cfg: Config, r: Run, l: StatusLine, ls: seq<HeaderLine>, f: Framed)
    requires r.halt.Go? && r.p.state.StartRes? && IsStatusLine(l)
    requires IsFramedMessage(cfg, r.p.lenient, StatusOf(r.p, l), ls, f)
    requires r.p.nread + |EncodeStatus(l)| + |EncodeLines(ls)| + |FramedHead(f)| <= cfg.maxHeader
    ensures var t := RunBytes(cfg, r, EncodeStatus(l) + FramedWire(ls, f));
            && t.halt.Go? && t.out == r.out + (ToldStatus(l) + FramedTold(ls, f))
            && t.p.state == NextState(StatusOf(r.p, l), FramedFlags(ls, f))
  {
    hide RunBytes, IsStatusLine, IsFramedMessage, FramedWire, FramedTold, FramedFlags, NextState, StatusOf, Value;
    var t := AfterStatusLine(cfg, r, l, FramedWire(ls, f));
    FramedAfterLine(cfg, t, StatusOf(r.p, l), ls, f);
    assert r.out + ToldStatus(l) + FramedTold(ls, f) == r.out + (ToldStatus(l) + FramedTold(ls, f));
  }

  /** A response in chunks. */
  lemma ChunkedResponse(cfg: Config, r: Run, l: StatusLine, c: Chunks)
    requires r.halt.Go? && r.p.state.StartRes? && IsStatusLine(l)
    requires IsChunkedMessage(cfg, r.p.lenient, StatusOf(r.p, l), c)
    requires r.p.nread + |EncodeStatus(l)| + |EncodeLines(c.lines)| + 2 <= cfg.maxHeader
    ensures var t := RunBytes(cfg, r, EncodeStatus(l) + ChunkedWire(c));
            && t.halt.Go? && t.out == r.out + (ToldStatus(l) + ChunkedTold(c))
            && t.p.state == NextState(StatusOf(r.p, l), ChunkedFlags(c))
  {
    hide RunBytes, IsStatusLine, IsChunkedMessage, ChunkedWire, ChunkedTold, ChunkedFlags, NextState, StatusOf, Value;
    var t := AfterStatusLine(cfg, r, l, ChunkedWire(c));
    ChunkedAfterLine(cfg, t, StatusOf(r.p, l), c);
    assert r.out + ToldStatus(l) + ChunkedTold(c) == r.out + (ToldStatus(l) + ChunkedTold(c));
  }

  /** A response with neither: complete with its head exactly for the statuses that have no
      body, else its body is all that follows. */
  lemma BareResponse(cfg: Config, r: Run, l: StatusLine, ls: seq<HeaderLine>)
    requires r.halt.Go? && r.p.state.StartRes? && IsStatusLine(l)
    requires IsBareMessage(cfg, r.p.lenient, StatusOf(r.p, l), ls)
    requires r.p.nread + |EncodeStatus(l)| + |EncodeLines(ls)| + 2 <= cfg.maxHeader
    ensures var t := RunBytes(cfg, r, EncodeStatus(l) + (EncodeLines(ls) + CRLF));
            && t.halt.Go? && t.out == r.out + (ToldStatus(l) + BareTold(StatusOf(r.p, l), ls))
            && t.p.state == if EndsWithHead(StatusOf(r.p, l))
                            then NextState(StatusOf(r.p, l), LinesFlags(NO_FLAGS, ls)) else BodyIdentityEof
  {
    hide RunBytes, IsStatusLine, IsBareMessage, NextState, LinesFlags, BareTold, EncodeLines, StatusOf, Value,
      EndsWithHead;
    var t := AfterStatusLine(cfg, r, l, EncodeLines(ls) + CRLF);
    BareAfterLine(cfg, t, StatusOf(r.p, l), ls);
    assert r.out + ToldStatus(l) + BareTold(StatusOf(r.p, l), ls)
           == r.out + (ToldStatus(l) + BareTold(StatusOf(r.p, l), ls));
  }

  // ----- the parser object, in any pieces

  /** A new parser that is given a request in chunks, in whatever buffers, makes the
      callbacks of that request. */
  method ReadChunkedRequest(cfg: Config, pieces: seq<seq<byte>>, ghost l: RequestLine, ghost c: Chunks)
    returns (p: HttpParser)
    requires forall k :: 0 <= k < |pieces| ==> pieces[k] != []
    requires Concat(pieces) == EncodeRequest(l) + ChunkedWire(c) && IsRequestLine(l)
    requires IsChunkedMessage(cfg, false, RequestOf(Init(Request), l), c)
    requires |EncodeRequest(l)| + |EncodeLines(c.lines)| + 2 <= cfg.maxHeader
    ensures p.errno.None? && Merge([], p.calls) == ToldRequest(l) + ChunkedTold(c)
  {
    hide IsRequestLine, IsChunkedMessage, ChunkedWire, ChunkedTold, RunBytes, Ready, RequestOf, EncodeLines;
    hide EncodeRequest;
    p := new HttpParser(Request);
    ghost var r := p.State();
    assert r == Run(Init(Request), [], Go);
    ChunkedRequest(cfg, r, l, c);
    p.ExecuteAll(cfg, pieces);
    assert [] + (ToldRequest(l) + ChunkedTold(c)) == ToldRequest(l) + ChunkedTold(c);
  }
}
