/** http_parser: heads after which the parser does not go on as usual, because lengths
    contradict each other, because of the answer of on_headers_complete, or because
    another protocol takes over. */
module HttpSwitches {
  import opened Wrappers
  import opened HttpStep
  import opened HttpRun
  import opened HttpNames
  import opened HttpLines
  import opened HttpFraming
  import opened HttpChunked
  import opened HttpMessages

  // ----- any head

  /** The lines of a head: either without Content-Length, or with one among them. */
  datatype Lines = Lines(before: seq<HeaderLine>, length: Option<Framed>)

  function LengthLine(f: Framed): seq<byte> {
    LengthStart(f.name, f.blanks) + (f.digits + CRLF)
  }

  function EncodeHead(h: Lines): seq<byte> {
    match h.length
    case None => EncodeLines(h.before)
    case Some(f) => EncodeLines(h.before) + (LengthLine(f) + EncodeLines(f.lines))
  }

  predicate IsHead(lenient: bool, h: Lines) {
    AllLines(lenient, h.before) && (h.length.Some? ==> IsFramed(lenient, h.length.value))
  }

  function HeadTold(h: Lines): seq<Event> {
    match h.length
    case None => ToldLines(h.before)
    case Some(f) => ToldLines(h.before) + ToldHead(f)
  }

  ghost function FlagsSaid(h: Lines): Flags {
    match h.length
    case None => LinesFlags(NO_FLAGS, h.before)
    case Some(f) => FramedFlags(h.before, f)
  }

  predicate CodingSaid(h: Lines) {
    SomeCodes(h.before) || (h.length.Some? && SomeCodes(h.length.value.lines))
  }

  function LengthSaid(h: Lines): nat {
    match h.length
    case None => UNSET
    case Some(f) => |f.body|
  }

  /** The parser before the empty line knows what the lines say. */
  ghost predicate KnowsHead(p: Parser, line: Line, h: Lines) {
    && p.line == line && !p.h.flags.trailing && !p.h.flags.skipBody
    && p.h.flags == FlagsSaid(h) && p.h.usesTe == CodingSaid(h) && p.h.contentLength == LengthSaid(h)
    && (p.h.flags.contentLength <==> h.length.Some?)
  }

  lemma LengthNoted(p: Parser)
    requires p.state.HeaderValueLws? && p.h.hstate.ContentLengthNum?
    ensures Begun(p).flags == p.h.flags && Begun(p).usesTe == p.h.usesTe
    ensures Begun(p).contentLength == p.h.contentLength
  {}

  /** The line of Content-Length. */
  lemma LengthRead(cfg: Config, r: Run, f: Framed)
    requires r.halt.Go? && AtLine(r.p.state) && !EndsIn(r.out, HField) && IsFramed(r.p.lenient, f)
    requires r.p.nread + |LengthLine(f)| <= cfg.maxHeader && !Begun(r.p).flags.contentLength
    ensures var t := RunBytes(cfg, r, LengthLine(f));
            && t.halt.Go? && AtLine(t.p.state) && !EndsIn(t.out, HField)
            && t.out == r.out + [Data(HField, f.name)] + [Data(HValue, f.digits)]
            && t.p == r.p.(nread := r.p.nread + |LengthLine(f)|, state := t.p.state, h := t.p.h)
            && Begun(t.p).flags == Begun(r.p).flags.(contentLength := true) && Begun(t.p).usesTe == Begun(r.p).usesTe
            && Begun(t.p).contentLength == |f.body|
  {
    hide RunBytes, Fits, Numeral, Value, IsLine, IsName, Low, LengthStart, Begun, IsBlank;
    var start := LengthStart(f.name, f.blanks);
    LengthStarts(cfg, r, f.name, f.blanks);
    RunConcat(cfg, r, start, f.digits + CRLF);
    var t := RunBytes(cfg, r, start);
    RunConcat(cfg, t, f.digits, CRLF);
    LengthIsValue(cfg, t, 10, f.digits);
    DigitsHandedOver(cfg, t, f.digits);
    ValueDone(cfg, RunBytes(cfg, t, f.digits));
    LengthNoted(RunBytes(cfg, RunBytes(cfg, t, f.digits), CRLF).p);
  }

  /** The lines of a head, without the empty line. */
  lemma HeadKnown(cfg: Config, r: Run, line: Line, h: Lines)
    requires r.halt.Go? && AfterFirstLine(r.p, line) && !EndsIn(r.out, HField) && IsHead(r.p.lenient, h)
    requires r.p.nread + |EncodeHead(h)| <= cfg.maxHeader
    ensures var t := RunBytes(cfg, r, EncodeHead(h));
            && t.halt.Go? && AtLine(t.p.state) && t.out == r.out + HeadTold(h)
            && t.p == r.p.(nread := r.p.nread + |EncodeHead(h)|, state := t.p.state, h := t.p.h)
            && KnowsHead(t.p.(h := Begun(t.p)), line, h)
  {
    hide RunBytes, IsLine, IsFramed, SomeCodes, LinesFlags, Begun, LengthLine, ToldLines, EncodeLines;
    LinesDecoded(cfg, r, h.before);
    FlagsGrow(NO_FLAGS, h.before);
    StartBegun(r.p);
    match h.length
    case None =>
    case Some(f) =>
      var t := RunBytes(cfg, r, EncodeLines(h.before));
      RunConcat(cfg, r, EncodeLines(h.before), LengthLine(f) + EncodeLines(f.lines));
      RunConcat(cfg, t, LengthLine(f), EncodeLines(f.lines));
      LengthRead(cfg, t, f);
      var u := RunBytes(cfg, t, LengthLine(f));
      FramedLines(r.p.lenient, f);
      LinesDecoded(cfg, u, f.lines);
      FlagsGrow(LinesFlags(NO_FLAGS, h.before).(contentLength := true), f.lines);
      assert u.out + ToldLines(f.lines) == r.out + HeadTold(h);
  }

  lemma StartBegun(p: Parser)
    requires p.state.HeaderFieldStart?
    ensures Begun(p) == p.h
  {}

  lemma FramedLines(lenient: bool, f: Framed)
    requires IsFramed(lenient, f)
    ensures forall k :: 0 <= k < |f.lines| ==> IsLine(lenient, f.lines[k])
  {}

  // ----- the empty line

  /** Both a Transfer-Encoding and a Content-Length, and the parser was not told to put up
      with it. */
  ghost predicate Contradicts(p: Parser, h: Lines) {
    CodingSaid(h) && h.length.Some? && if FlagsSaid(h).chunked then !p.allowChunkedLength else !p.lenient
  }

  /** What on_headers_complete answers. */
  ghost function AnswerTo(cfg: Config, line: Line, h: Lines): int {
    cfg.onHeadersComplete(Head(line, FlagsSaid(h), LengthSaid(h), Switches(line, FlagsSaid(h))))
  }

  /** A body follows, in chunks or of a length other than 0. */
  ghost predicate BodySaid(h: Lines) {
    FlagsSaid(h).chunked || (h.length.Some? && h.length.value.body != [])
  }

  /** The head is all there is of the message. */
  ghost predicate NothingMore(r: Run, line: Line, h: Lines, t: Run) {
    && t.out == r.out + HeadTold(h) + [Happened(HeadersComplete), Happened(MessageComplete)]
    && (EndsWithHead(line) ==> t.p.state == NextState(line, FlagsSaid(h)))
  }

  lemma ClashEnds(cfg: Config, q: Parser, line: Line, h: Lines)
    requires q.state.HeadersAlmostDone? && q.nread < cfg.maxHeader && KnowsHead(q, line, h) && Contradicts(q, h)
    ensures Feed(cfg, q, LF).halt == Fail(UNEXPECTED_CONTENT_LENGTH)
  {
    hide Feed, FlagsSaid, CodingSaid, LengthSaid;
    EmptyLine(cfg, q);
  }

  lemma AnswerRefused(cfg: Config, q: Parser, line: Line, h: Lines)
    requires q.state.HeadersAlmostDone? && q.nread < cfg.maxHeader && KnowsHead(q, line, h) && !Contradicts(q, h)
    requires AnswerTo(cfg, line, h) != 0 && AnswerTo(cfg, line, h) != 1 && AnswerTo(cfg, line, h) != 2
    ensures Feed(cfg, q, LF).halt == Fail(CB_HEADERS_COMPLETE)
  {
    hide Feed, FlagsSaid, CodingSaid, LengthSaid, NewMessage, OnHeadersDone;
    EmptyLine(cfg, q);
  }

  lemma AnswerEnds(cfg: Config, q: Parser, line: Line, h: Lines)
    requires q.state.HeadersAlmostDone? && q.nread < cfg.maxHeader && KnowsHead(q, line, h) && !Contradicts(q, h)
    requires AnswerTo(cfg, line, h) == 1 || AnswerTo(cfg, line, h) == 2
    ensures var res := Feed(cfg, q, LF);
            && res.acts == [Note(HeadersComplete)] + [Note(MessageComplete)]
            && res.p.upgrade == (AnswerTo(cfg, line, h) == 2 || Switches(line, FlagsSaid(h)))
            && res.halt == (if res.p.upgrade then Exit else Go)
            && res.p.state == NextState(line, FlagsSaid(h))
  {
    hide Feed, FlagsSaid, CodingSaid, LengthSaid, NewMessage, NextState;
    EmptyLine(cfg, q);
    var d := q.(nread := 0, state := HeadersDone, upgrade := Switches(line, q.h.flags) || AnswerTo(cfg, line, h) == 2,
                h := q.h.(flags := q.h.flags.(skipBody := true)));
    SkippedNext(d, q.h.flags);
  }

  lemma SkippedNext(p: Parser, flags: Flags)
    requires p.h.flags == flags.(skipBody := true)
    ensures NewMessage(p) == NextState(p.line, flags)
  {}

  lemma SwitchEnds(cfg: Config, q: Parser, line: Line, h: Lines)
    requires q.state.HeadersAlmostDone? && q.nread < cfg.maxHeader && KnowsHead(q, line, h) && !Contradicts(q, h)
    requires Switches(line, FlagsSaid(h)) && AnswerTo(cfg, line, h) == 0 && (line.method_.CONNECT? || !BodySaid(h))
    ensures var res := Feed(cfg, q, LF);
            && res.acts == [Note(HeadersComplete)] + [Note(MessageComplete)] && res.halt.Exit? && res.p.upgrade
            && (EndsWithHead(line) ==> res.p.state == NextState(line, FlagsSaid(h)))
  {
    hide Feed, FlagsSaid, CodingSaid;
    EmptyLine(cfg, q);
  }

  /** The parser at the empty line. */
  lemma AtEmptyLine(cfg: Config, r: Run, line: Line, h: Lines) returns (c: Run)
    requires r.halt.Go? && AfterFirstLine(r.p, line) && !EndsIn(r.out, HField) && IsHead(r.p.lenient, h)
    requires r.p.nread + |EncodeHead(h)| + 2 <= cfg.maxHeader
    ensures c.halt.Go? && c.out == r.out + HeadTold(h)
    ensures c.p.state.HeadersAlmostDone? && c.p.nread < cfg.maxHeader && KnowsHead(c.p, line, h)
    ensures c.p.lenient == r.p.lenient && c.p.allowChunkedLength == r.p.allowChunkedLength
    ensures RunBytes(cfg, r, EncodeHead(h) + CRLF) == One(cfg, c, LF)
  {
    hide RunBytes, One, Feed, IsHead, Begun, EncodeHead, HeadTold, KnowsHead;
    HeadKnown(cfg, r, line, h);
    RunConcat(cfg, r, EncodeHead(h), CRLF);
    var t := RunBytes(cfg, r, EncodeHead(h));
    LinesEnd(cfg, t.p);
    c := Run(Feed(cfg, t.p, CR).p, t.out, Go);
    RunTwo(cfg, t, CR, LF);
    QuietByte(cfg, t, CR, c.p);
    StillKnown(t.p.(h := Begun(t.p)), c.p, line, h);
  }

  lemma StillKnown(p: Parser, q: Parser, line: Line, h: Lines)
    requires KnowsHead(p, line, h) && q.line == p.line && q.h == p.h
    ensures KnowsHead(q, line, h)
  {}

  /** Lengths that contradict each other are refused. */
  lemma ContradictionRefused(cfg: Config, r: Run, line: Line, h: Lines)
    requires r.halt.Go? && AfterFirstLine(r.p, line) && !EndsIn(r.out, HField) && IsHead(r.p.lenient, h)
    requires r.p.nread + |EncodeHead(h)| + 2 <= cfg.maxHeader && Contradicts(r.p, h)
    ensures RunBytes(cfg, r, EncodeHead(h) + CRLF).halt == Fail(UNEXPECTED_CONTENT_LENGTH)
  {
    hide RunBytes, One, Feed, IsHead, KnowsHead, FlagsSaid, CodingSaid, EncodeHead, HeadTold;
    var c := AtEmptyLine(cfg, r, line, h);
    ClashEnds(cfg, c.p, line, h);
    FailsAs(cfg, c, LF);
  }

  /** The embedder's answer: 1 makes the head all of the message whatever it says, 2 also
      ends HTTP on the connection, and any other than 0 is an error. */
  lemma AnswerDecides(cfg: Config, r: Run, line: Line, h: Lines)
    requires r.halt.Go? && AfterFirstLine(r.p, line) && !EndsIn(r.out, HField) && IsHead(r.p.lenient, h)
    requires r.p.nread + |EncodeHead(h)| + 2 <= cfg.maxHeader && !Contradicts(r.p, h) && AnswerTo(cfg, line, h) != 0
    ensures var a := AnswerTo(cfg, line, h);
            var t := RunBytes(cfg, r, EncodeHead(h) + CRLF);
            if a != 1 && a != 2 then t.halt == Fail(CB_HEADERS_COMPLETE)
            else && NothingMore(r, line, h, t) && t.p.state == NextState(line, FlagsSaid(h))
                 && t.p.upgrade == (a == 2 || Switches(line, FlagsSaid(h)))
                 && t.halt == (if t.p.upgrade then Exit else Go)
  {
    hide RunBytes, One, Feed, IsHead, KnowsHead, FlagsSaid, CodingSaid, EncodeHead, HeadTold, Switches, NextState,
      AnswerTo;
    var c := AtEmptyLine(cfg, r, line, h);
    if AnswerTo(cfg, line, h) == 1 || AnswerTo(cfg, line, h) == 2 {
      AnswerEnds(cfg, c.p, line, h);
      TwoNotes(cfg, c, LF, Feed(cfg, c.p, LF), HeadersComplete, MessageComplete);
    } else {
      AnswerRefused(cfg, c.p, line, h);
      FailsAs(cfg, c, LF);
    }
  }

  /** A message that asks for another protocol and has no body: the parser stops right
      after the head, so that the embedder has all that follows. */
  lemma SwitchStops(cfg: Config, r: Run, line: Line, h: Lines)
    requires r.halt.Go? && AfterFirstLine(r.p, line) && !EndsIn(r.out, HField) && IsHead(r.p.lenient, h)
    requires r.p.nread + |EncodeHead(h)| + 2 <= cfg.maxHeader && !Contradicts(r.p, h)
    requires Switches(line, FlagsSaid(h)) && AnswerTo(cfg, line, h) == 0 && (line.method_.CONNECT? || !BodySaid(h))
    ensures var t := RunBytes(cfg, r, EncodeHead(h) + CRLF);
            NothingMore(r, line, h, t) && t.halt.Exit? && t.p.upgrade
  {
    hide RunBytes, One, Feed, IsHead, KnowsHead, FlagsSaid, CodingSaid, EncodeHead, HeadTold, Switches, NextState,
      AnswerTo;
    var c := AtEmptyLine(cfg, r, line, h);
    SwitchEnds(cfg, c.p, line, h);
    TwoNotes(cfg, c, LF, Feed(cfg, c.p, LF), HeadersComplete, MessageComplete);
  }

  lemma SwitchGoesOn(cfg: Config, q: Parser, line: Line, h: Lines)
    requires q.state.HeadersAlmostDone? && q.nread < cfg.maxHeader && KnowsHead(q, line, h) && !Contradicts(q, h)
    requires Switches(line, FlagsSaid(h)) && AnswerTo(cfg, line, h) == 0 && !line.method_.CONNECT? && BodySaid(h)
    requires FlagsSaid(h).chunked || !CodingSaid(h)
    requires LengthSaid(h) <= UNSET && (h.length.Some? ==> LengthSaid(h) < UNSET)
    ensures var next := if FlagsSaid(h).chunked then ChunkSizeStart else BodyIdentity;
            Feed(cfg, q, LF) == Ok(q.(nread := 0, state := next, upgrade := true), [Note(HeadersComplete)])
  {
    hide Feed, FlagsSaid, CodingSaid, NewMessage, NeedsEof;
    EmptyLine(cfg, q);
    assert [Note(HeadersComplete)] + [] == [Note(HeadersComplete)];
  }

  /** With a body and no CONNECT, the body comes first: it is read as usual, in chunks or
      by its length, and the parser then stops. */
  lemma BodyBeforeSwitch(cfg: Config, r: Run, line: Line, h: Lines)
    requires r.halt.Go? && AfterFirstLine(r.p, line) && !EndsIn(r.out, HField) && IsHead(r.p.lenient, h)
    requires r.p.nread + |EncodeHead(h)| + 2 <= cfg.maxHeader && !Contradicts(r.p, h)
    requires Switches(line, FlagsSaid(h)) && AnswerTo(cfg, line, h) == 0 && !line.method_.CONNECT? && BodySaid(h)
    requires FlagsSaid(h).chunked || !CodingSaid(h)
    ensures var t := RunBytes(cfg, r, EncodeHead(h) + CRLF);
            && t.halt.Go? && t.p.upgrade && t.out == r.out + HeadTold(h) + [Happened(HeadersComplete)]
            && if FlagsSaid(h).chunked then t.p.state.ChunkSizeStart?
               else && t.p.state.BodyIdentity?
                    && var b := h.length.value.body;
                       var u := RunBytes(cfg, r, EncodeHead(h) + CRLF + b);
                       u.halt.Exit? && u.out == t.out + [Data(Body, b), Happened(MessageComplete)]
  {
    hide RunBytes, One, Feed, IsHead, KnowsHead, FlagsSaid, CodingSaid, EncodeHead, HeadTold, Switches, AnswerTo,
      NewMessage, Push;
    var c := AtEmptyLine(cfg, r, line, h);
    LengthFits(c.p.lenient, h);
    SwitchGoesOn(cfg, c.p, line, h);
    NoteByte(cfg, c, LF, Feed(cfg, c.p, LF).p, HeadersComplete);
    if !FlagsSaid(h).chunked {
      var t := RunBytes(cfg, r, EncodeHead(h) + CRLF);
      var b := h.length.value.body;
      LengthKnown(c.p, line, h);
      RunConcat(cfg, r, EncodeHead(h) + CRLF, b);
      IdentityBody(cfg, t, b);
      PushAfterNotice(t.out, b);
      assert t.out + [Data(Body, b)] + [Happened(MessageComplete)]
             == t.out + [Data(Body, b), Happened(MessageComplete)];
    }
  }

  lemma LengthFits(lenient: bool, h: Lines)
    requires IsHead(lenient, h)
    ensures LengthSaid(h) <= UNSET && (h.length.Some? ==> LengthSaid(h) < UNSET)
  {
    hide IsLine, Numeral, IsName, Low, Fits, Value;
    if h.length.Some? {
      FitsBelow(10, h.length.value.digits);
    }
  }

  lemma LengthKnown(p: Parser, line: Line, h: Lines)
    requires KnowsHead(p, line, h) && h.length.Some?
    ensures p.h.contentLength == |h.length.value.body|
  {}
}
