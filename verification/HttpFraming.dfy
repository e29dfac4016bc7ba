/** http_parser: the length in the message is the number that was written, and
    exactly that many bytes are handed over as its body. */
module HttpFraming {
  import opened HttpStep
  import opened HttpRun
  import opened HttpExecute
  import opened HttpNames
  import opened HttpLines

  // ----- what a numeral means

  function DigitValue(base: nat, c: byte): int
    requires base == 10 || base == 16
  {
    if base == 16 then Unhex(c) else if IsNum(c) then Digit(c) else -1
  }

  predicate Numeral(base: nat, ds: seq<byte>)
    requires base == 10 || base == 16
  {
    ds != [] && forall k :: 0 <= k < |ds| ==> DigitValue(base, ds[k]) >= 0
  }

  function Value(base: nat, ds: seq<byte>): int
    requires base == 10 || base == 16
  {
    if ds == [] then 0 else Value(base, ds[..|ds| - 1]) * base + DigitValue(base, ds[|ds| - 1])
  }

  /** What the overflow test lets through: a number whose digits but the last one
      stay within the limit. */
  predicate Fits(base: nat, ds: seq<byte>)
    requires base == 10 || base == 16
  {
    |ds| <= 1 || Value(base, ds[..|ds| - 1]) <= (UNSET - base) / base
  }

  lemma DigitBelow(base: nat, c: byte)
    requires base == 10 || base == 16
    ensures DigitValue(base, c) < base
  {}

  lemma {:induction false} ValueNat(base: nat, ds: seq<byte>)
    requires (base == 10 || base == 16) && (ds == [] || Numeral(base, ds))
    ensures Value(base, ds) >= 0
  {
    if |ds| > 1 {
      ValueNat(base, ds[..|ds| - 1]);
    }
  }

  /** A number that was let through has all its shorter beginnings let through, and
      is less than the value that means "unset". */
  lemma FitsBelow(base: nat, ds: seq<byte>)
    requires (base == 10 || base == 16) && Numeral(base, ds) && Fits(base, ds)
    ensures 0 <= Value(base, ds) < UNSET
    ensures |ds| > 1 ==> Fits(base, ds[..|ds| - 1])
  {
    hide DigitValue;
    var n := |ds| - 1;
    DigitBelow(base, ds[n]);
    ValueNat(base, ds);
    if n > 0 {
      var init := ds[..n];
      ValueNat(base, init);
      if n > 1 {
        ValueNat(base, init[..n - 1]);
        Grows(base, Value(base, init[..n - 1]), DigitValue(base, init[n - 1]));
      }
      Under(base, Value(base, init), DigitValue(base, ds[n]));
    } else {
      assert ds[..0] == [];
    }
  }

  lemma Grows(base: nat, v: nat, d: nat)
    requires base == 10 || base == 16
    ensures v <= v * base + d
  {}

  lemma Under(base: nat, v: nat, d: nat)
    requires (base == 10 || base == 16) && d < base && v <= (UNSET - base) / base
    ensures v * base + d < UNSET
  {}

  // ----- the body

  function Add(out: seq<Event>, b: seq<byte>): seq<Event> {
    if b == [] then out else Push(out, Data(Body, b))
  }

  lemma AddOne(out: seq<Event>, b: seq<byte>, ch: byte)
    ensures Push(Add(out, b), Data(Body, [ch])) == Add(out, b + [ch])
  {
    hide Push;
    if b == [] {
      assert b + [ch] == [ch];
    } else {
      PushTwice(out, Body, b, [ch]);
    }
  }

  /** Short of its end, a body of a given length is handed over as it comes. */
  lemma {:induction false} BodySoFar(cfg: Config, r: Run, b: seq<byte>)
    requires r.halt.Go? && Reading(r.p.state) && (r.p.state.BodyIdentityEof? || |b| < r.p.h.contentLength)
    ensures RunBytes(cfg, r, b) == Run(Eaten(r.p, |b|), Add(r.out, b), Go)
  {
    hide One, Feed, Push;
    if b != [] {
      var n := |b| - 1;
      BodySoFar(cfg, r, b[..n]);
      var t := Run(Eaten(r.p, n), Add(r.out, b[..n]), Go);
      BodyByte(cfg, t.p, b[n]);
      MarkByte(cfg, t, Body, b[n], Eaten(t.p, 1));
      AddOne(r.out, b[..n], b[n]);
      assert b[..n] + [b[n]] == b;
    }
  }

  /** A chunk's data is complete with its last byte. */
  lemma ChunkBody(cfg: Config, r: Run, b: seq<byte>)
    requires r.halt.Go? && r.p.state.ChunkData? && |b| == r.p.h.contentLength > 0
    ensures RunBytes(cfg, r, b) == Run(Eaten(r.p, |b|).(state := ChunkDataAlmostDone), Push(r.out, Data(Body, b)), Go)
  {
    hide One, Feed, Push;
    var n := |b| - 1;
    BodySoFar(cfg, r, b[..n]);
    var t := Run(Eaten(r.p, n), Add(r.out, b[..n]), Go);
    LastBodyByte(cfg, t.p, b[n]);
    MarkByte(cfg, t, Body, b[n], Eaten(t.p, 1).(state := ChunkDataAlmostDone));
    AddOne(r.out, b[..n], b[n]);
    assert b[..n] + [b[n]] == b;
  }

  /** What the last byte of a body calls back. */
  lemma LastCalls(ch: byte)
    ensures var x := Marked([], map[]);
            Flushed(Do(x, [ch], 0, [Mark(Body), FlushIncl(Body)] + [Note(MessageComplete)]), [ch], 1)
            == [Data(Body, [ch])] + [Happened(MessageComplete)]
  {
    hide Flushed;
    var x := Marked([], map[]);
    var y := Callback(MarkBody(x, 0), [ch], Body, 1);
    assert y.marks == x.marks;
    assert y.events == [Data(Body, [ch])] by {
      assert [ch][0..1] == [ch];
    }
    DoBody(x, [ch], 0, [Note(MessageComplete)]);
    DoOne(y, [ch], 0, Note(MessageComplete));
    FlushedNone(Do(y, [ch], 0, [Note(MessageComplete)]), [ch], 1);
  }

  lemma LastOut(cfg: Config, r: Run, ch: byte, q: Parser)
    requires r.halt.Go? && r.p.state.BodyIdentity? && r.p.h.contentLength == 1
    requires q == Eaten(r.p, 1).(state := MessageDone)
    ensures One(cfg, r, ch)
            == Run(q.(state := NewMessage(q)), Push(r.out, Data(Body, [ch])) + [Happened(MessageComplete)],
                   if q.upgrade then Exit else Go)
  {
    hide Push, NewMessage, Feed, Flushed, Do, Merge, Eaten;
    LastBodyByte(cfg, r.p, ch);
    LastCalls(ch);
    MergeTwo(r.out, Data(Body, [ch]), Happened(MessageComplete));
    NotedLast(Push(r.out, Data(Body, [ch])), MessageComplete);
  }

  /** A body with Content-Length: all of it is handed over, and the message is
      complete with its last byte and not before. */
  lemma IdentityBody(cfg: Config, r: Run, b: seq<byte>)
    requires r.halt.Go? && r.p.state.BodyIdentity? && |b| == r.p.h.contentLength > 0
    ensures var q := Eaten(r.p, |b|).(state := MessageDone);
            RunBytes(cfg, r, b)
            == Run(q.(state := NewMessage(q)), Push(r.out, Data(Body, b)) + [Happened(MessageComplete)],
                   if q.upgrade then Exit else Go)
  {
    hide One, Push, NewMessage;
    var n := |b| - 1;
    BodySoFar(cfg, r, b[..n]);
    var t := Run(Eaten(r.p, n), Add(r.out, b[..n]), Go);
    LastOut(cfg, t, b[n], Eaten(t.p, 1).(state := MessageDone));
    AddOne(r.out, b[..n], b[n]);
    assert b[..n] + [b[n]] == b;
  }

  // ----- Content-Length

  /** The parser after a numeral that fits, with its value as the length. */
  predicate Holds(q: Parser, p: Parser, base: nat, ds: seq<byte>)
    requires base == 10 || base == 16
  {
    Value(base, ds) >= 0
    && q.h.contentLength == Value(base, ds) && q.line == p.line && q.upgrade == p.upgrade && q.lenient == p.lenient
    && q.allowChunkedLength == p.allowChunkedLength && q.nread == p.nread + |ds|
    && q.h.usesTe == p.h.usesTe
    && if base == 10 then
         q.state.HeaderValue? && q.h.hstate.ContentLengthNum? && q.h.flags == p.h.flags.(contentLength := true)
       else q.state.ChunkSize? && q.h.flags == p.h.flags
  }

  /** Before the first digit of a length. */
  predicate Expects(p: Parser, base: nat) {
    if base == 10 then
      p.state.HeaderValueDiscardWs? && p.h.hstate.ContentLength? && !p.h.flags.contentLength
    else p.state.ChunkSizeStart?
  }

  lemma FirstDigit(cfg: Config, p: Parser, base: nat, ch: byte)
    requires (base == 10 || base == 16) && Expects(p, base) && p.nread < cfg.maxHeader && DigitValue(base, ch) >= 0
    ensures Feed(cfg, p, ch).halt.Go? && Holds(Feed(cfg, p, ch).p, p, base, [ch])
  {
    assert [ch][..0] == [];
    assert Value(base, [ch]) == DigitValue(base, ch);
    if base == 10 {
      FirstDecimal(cfg, p, ch);
    } else {
      FirstHex(cfg, p, ch);
    }
  }

  lemma FirstDecimal(cfg: Config, p: Parser, ch: byte)
    requires Expects(p, 10) && p.nread < cfg.maxHeader && IsNum(ch)
    ensures Feed(cfg, p, ch)
            == Ok(p.(nread := p.nread + 1, state := HeaderValue,
                  h := p.h.(index := 0, flags := p.h.flags.(contentLength := true), contentLength := Digit(ch),
                            hstate := ContentLengthNum)), [Mark(HValue)])
  {}

  lemma FirstHex(cfg: Config, p: Parser, ch: byte)
    requires Expects(p, 16) && p.nread < cfg.maxHeader && Unhex(ch) >= 0
    ensures Feed(cfg, p, ch)
            == Ok(p.(nread := p.nread + 1, state := ChunkSize, h := p.h.(contentLength := Unhex(ch))), [])
  {}

  lemma NextDecimal(cfg: Config, q: Parser, ch: byte)
    requires q.state.HeaderValue? && q.h.hstate.ContentLengthNum? && q.nread < cfg.maxHeader && IsNum(ch)
    ensures match AddDigit(q.h.contentLength, 10, Digit(ch))
            case None => Feed(cfg, q, ch).halt.Fail?
            case Some(n) =>
              Feed(cfg, q, ch) == Ok(q.(nread := q.nread + 1, h := q.h.(contentLength := n)), [])
  {
    hide AddDigit;
  }

  lemma NextHex(cfg: Config, q: Parser, ch: byte)
    requires q.state.ChunkSize? && q.nread < cfg.maxHeader && Unhex(ch) >= 0
    ensures match AddDigit(q.h.contentLength, 16, Unhex(ch))
            case None => Feed(cfg, q, ch).halt.Fail?
            case Some(n) =>
              Feed(cfg, q, ch) == Ok(q.(nread := q.nread + 1, h := q.h.(contentLength := n)), [])
  {
    hide AddDigit;
  }

  lemma NextDigit(cfg: Config, p: Parser, q: Parser, base: nat, ds: seq<byte>, ch: byte)
    requires (base == 10 || base == 16) && Holds(q, p, base, ds) && q.nread < cfg.maxHeader && DigitValue(base, ch) >= 0
    requires Numeral(base, ds)
    ensures if Fits(base, ds + [ch]) then Feed(cfg, q, ch).halt.Go? && Holds(Feed(cfg, q, ch).p, p, base, ds + [ch])
            else Feed(cfg, q, ch).halt.Fail?
  {
    hide Feed;
    assert (ds + [ch])[..|ds|] == ds;
    if base == 10 {
      NextDecimal(cfg, q, ch);
    } else {
      NextHex(cfg, q, ch);
    }
  }

  /** A length is taken exactly when it fits, and then it is the number that was
      written and never the value that means "unset". */
  lemma {:induction false} LengthIsValue(cfg: Config, r: Run, base: nat, ds: seq<byte>)
    requires (base == 10 || base == 16) && Numeral(base, ds) && r.halt.Go? && Expects(r.p, base)
    requires r.p.nread + |ds| <= cfg.maxHeader
    ensures RunBytes(cfg, r, ds).halt.Go? <==> Fits(base, ds)
    ensures !Fits(base, ds) ==> RunBytes(cfg, r, ds).halt.Fail?
    ensures Fits(base, ds) ==> Holds(RunBytes(cfg, r, ds).p, r.p, base, ds) && 0 <= Value(base, ds) < UNSET
  {
    hide Feed, Holds, Expects, DigitValue, Fits, Merge, Flushed, Do;
    var n := |ds| - 1;
    var init, ch := ds[..n], ds[n];
    assert ds == init + [ch];
    if Fits(base, ds) {
      FitsBelow(base, ds);
    }
    if n == 0 {
      assert init == [] && ds == [ch];
      OneFits(base, ds);
      FirstDigit(cfg, r.p, base, ch);
    } else {
      LengthIsValue(cfg, r, base, init);
      if Fits(base, init) {
        var q := RunBytes(cfg, r, init).p;
        HoldsRead(q, r.p, base, init);
        NextDigit(cfg, r.p, q, base, init, ch);
      }
    }
  }

  lemma OneFits(base: nat, ds: seq<byte>)
    requires (base == 10 || base == 16) && |ds| == 1
    ensures Fits(base, ds)
  {}

  lemma HoldsRead(q: Parser, p: Parser, base: nat, ds: seq<byte>)
    requires (base == 10 || base == 16) && Holds(q, p, base, ds)
    ensures q.nread == p.nread + |ds|
    ensures base == 10 ==> q.state.HeaderValue? && q.h.hstate.ContentLengthNum?
  {}

  // ----- a message with Content-Length

  /** No transfer coding, no upgrade, and an embedder who wants the body. */
  predicate PlainMessage(cfg: Config, p: Parser) {
    !p.h.usesTe && !p.h.flags.chunked && !p.h.flags.trailing && !p.h.flags.skipBody && !WantsUpgrade(p)
    && cfg.onHeadersComplete(Head(p.line, p.h.flags, p.h.contentLength, false)) == 0
  }

  lemma BodyBegun(cfg: Config, q: Parser)
    requires q.state.HeadersAlmostDone? && q.nread < cfg.maxHeader && PlainMessage(cfg, q)
    requires 0 < q.h.contentLength < UNSET
    ensures Feed(cfg, q, LF) == Ok(q.(nread := 0, state := BodyIdentity, upgrade := false), [Note(HeadersComplete)])
  {
    hide Completed;
    assert [Note(HeadersComplete)] + [] == [Note(HeadersComplete)];
  }

  /** The length 0: the message ends with its headers. */
  lemma NothingBegun(cfg: Config, q: Parser)
    requires q.state.HeadersAlmostDone? && q.nread < cfg.maxHeader && PlainMessage(cfg, q) && q.h.contentLength == 0
    ensures var d := q.(nread := 0, state := HeadersDone, upgrade := false);
            Feed(cfg, q, LF) == Ok(d.(state := NewMessage(d)), [Note(HeadersComplete)] + [Note(MessageComplete)])
  {
    hide NewMessage;
  }

  /** Whether the connection goes on after a message whose end is known: with HTTP/1.1
      unless told to close, with HTTP/1.0 only if told to keep it. */
  predicate Persists(line: Line, flags: Flags) {
    if line.major > 0 && line.minor > 0 then !flags.close else flags.keepAlive
  }

  /** Where the parser then stands. */
  function NextState(line: Line, flags: Flags): State {
    if !Persists(line, flags) then Dead else if line.kind.Request? then StartReq else StartRes
  }

  lemma NewMessageIs(p: Parser)
    requires p.h.flags.chunked || (!p.h.usesTe && p.h.contentLength != UNSET)
    ensures NewMessage(p) == NextState(p.line, p.h.flags)
  {}

  /** The parser and its callbacks at the end of the headers. */
  ghost predicate HeadDone(t: Run, p: Parser, out: seq<Event>, flags: Flags, length: nat) {
    && t.halt.Go? && !t.p.upgrade && t.p.line == p.line && t.p.h.flags == flags && !t.p.h.usesTe
    && if length == 0 then
         t.out == out + [Happened(HeadersComplete), Happened(MessageComplete)]
         && t.p.state == NextState(p.line, flags)
       else t.out == out + [Happened(HeadersComplete)] && t.p.state.BodyIdentity? && t.p.h.contentLength == length
  }

  /** The end of the headers. */
  lemma HeadEnds(cfg: Config, r: Run)
    requires r.halt.Go? && AtLine(r.p.state) && r.p.nread + 2 <= cfg.maxHeader
    requires PlainMessage(cfg, r.p.(h := Begun(r.p))) && r.p.h.contentLength < UNSET
    ensures HeadDone(RunBytes(cfg, r, CRLF), r.p, r.out, Begun(r.p).flags, r.p.h.contentLength)
  {
    hide One, Feed, PlainMessage, RunBytes, NewMessage, NextState;
    PlainUncoded(cfg, r.p.(h := Begun(r.p)));
    LinesEnd(cfg, r.p);
    var c := Run(Feed(cfg, r.p, CR).p, r.out, Go);
    RunTwo(cfg, r, CR, LF);
    QuietByte(cfg, r, CR, c.p);
    StillPlain(cfg, r.p.(h := Begun(r.p)), c.p);
    if r.p.h.contentLength > 0 {
      BodyBegun(cfg, c.p);
      NoteByte(cfg, c, LF, Feed(cfg, c.p, LF).p, HeadersComplete);
    } else {
      NothingBegun(cfg, c.p);
      TwoNotes(cfg, c, LF, Feed(cfg, c.p, LF), HeadersComplete, MessageComplete);
      NewMessageIs(c.p.(nread := 0, state := HeadersDone, upgrade := false));
    }
  }

  lemma PlainUncoded(cfg: Config, p: Parser)
    requires PlainMessage(cfg, p)
    ensures !p.h.usesTe
  {}

  lemma StillPlain(cfg: Config, p: Parser, q: Parser)
    requires PlainMessage(cfg, p) && q.line == p.line
    requires q.h.flags == p.h.flags && q.h.usesTe == p.h.usesTe && q.h.contentLength == p.h.contentLength
    ensures PlainMessage(cfg, q)
  {}

  lemma DigitFirst(cfg: Config, r: Run, ch: byte)
    requires r.halt.Go? && Expects(r.p, 10) && IsNum(ch) && r.p.nread < cfg.maxHeader && !EndsIn(r.out, HValue)
    ensures One(cfg, r, ch).out == r.out + [Data(HValue, [ch])]
  {
    hide One, Feed;
    FirstDecimal(cfg, r.p, ch);
    MarkByte(cfg, r, HValue, ch, Feed(cfg, r.p, ch).p);
  }

  lemma DigitNext(cfg: Config, r: Run, out: seq<Event>, a: seq<byte>, ch: byte)
    requires r.halt.Go? && r.p.state.HeaderValue? && r.p.h.hstate.ContentLengthNum? && r.p.nread < cfg.maxHeader
    requires IsNum(ch) && One(cfg, r, ch).halt.Go? && r.out == out + [Data(HValue, a)]
    ensures One(cfg, r, ch).out == out + [Data(HValue, a + [ch])]
  {
    hide One, Feed, Push;
    NextDecimal(cfg, r.p, ch);
    OneFails(cfg, r, ch);
    FieldByte(cfg, r, HValue, ch, Feed(cfg, r.p, ch).p);
    FieldGrows(out, HValue, a, ch);
  }

  /** The digits of Content-Length are its value for the embedder as well. */
  lemma {:induction false} DigitsHandedOver(cfg: Config, r: Run, ds: seq<byte>)
    requires r.halt.Go? && Expects(r.p, 10) && Numeral(10, ds) && Fits(10, ds) && !EndsIn(r.out, HValue)
    requires r.p.nread + |ds| <= cfg.maxHeader
    ensures RunBytes(cfg, r, ds).out == r.out + [Data(HValue, ds)]
  {
    hide One, Fits, Holds, Value, RunBytes, EndsIn, Expects;
    var n := |ds| - 1;
    FitsBelow(10, ds);
    RunLast(cfg, r, ds[..n], ds[n]);
    assert ds[..n] + [ds[n]] == ds;
    if n == 0 {
      RunNone(cfg, r);
      DigitFirst(cfg, r, ds[0]);
    } else {
      var t := RunBytes(cfg, r, ds[..n]);
      LengthIsValue(cfg, r, 10, ds[..n]);
      LengthIsValue(cfg, r, 10, ds);
      HoldsRead(t.p, r.p, 10, ds[..n]);
      DigitsHandedOver(cfg, r, ds[..n]);
      DigitNext(cfg, t, r.out, ds[..n], ds[n]);
    }
  }

  lemma OneFails(cfg: Config, r: Run, ch: byte)
    requires r.halt.Go?
    ensures Feed(cfg, r.p, ch).halt.Fail? ==> One(cfg, r, ch).halt.Fail?
  {
    hide Feed;
  }

  /** The rest of the head after the digits of Content-Length. */
  function AfterLength(ls: seq<HeaderLine>): seq<byte> {
    CRLF + (EncodeLines(ls) + CRLF)
  }

  /** The parser's headers with lines read after them. */
  ghost function WithLines(p: Parser, ls: seq<HeaderLine>): Parser {
    p.(h := p.h.(flags := LinesFlags(p.h.flags, ls), usesTe := p.h.usesTe || SomeCodes(ls)))
  }

  /** Other headers may follow Content-Length; the body begins after the empty line. */
  lemma HeadAfterLength(cfg: Config, r: Run, ls: seq<HeaderLine>)
    requires r.halt.Go? && r.p.state.HeaderValue? && r.p.h.hstate.ContentLengthNum? && EndsIn(r.out, HValue)
    requires r.p.nread + |AfterLength(ls)| <= cfg.maxHeader && r.p.h.contentLength < UNSET
    requires PlainMessage(cfg, WithLines(r.p, ls)) && forall k :: 0 <= k < |ls| ==> IsLine(r.p.lenient, ls[k])
    ensures HeadDone(RunBytes(cfg, r, AfterLength(ls)), r.p, r.out + ToldLines(ls), LinesFlags(r.p.h.flags, ls),
                     r.p.h.contentLength)
  {
    hide One, Feed, RunBytes, PlainMessage, IsLine, HeadDone, LinesFlags, SomeCodes;
    ValueDone(cfg, r);
    RunConcat(cfg, r, CRLF, EncodeLines(ls) + CRLF);
    var s := RunBytes(cfg, r, CRLF);
    RunConcat(cfg, s, EncodeLines(ls), CRLF);
    LinesDecoded(cfg, s, ls);
    var t := RunBytes(cfg, s, EncodeLines(ls));
    assert t.p.h.contentLength == Begun(t.p).contentLength by { NotedKeeps(t.p.h); }
    StillPlain(cfg, WithLines(r.p, ls), t.p.(h := Begun(t.p)));
    HeadEnds(cfg, t);
    SameHead(RunBytes(cfg, t, CRLF), t.p, r.p, t.out, Begun(t.p).flags, r.p.h.contentLength);
  }

  lemma NotedKeeps(h: Headers)
    ensures Noted(h).contentLength == h.contentLength
  {}

  lemma SameHead(t: Run, p: Parser, q: Parser, out: seq<Event>, flags: Flags, length: nat)
    requires HeadDone(t, p, out, flags, length) && p.line == q.line
    ensures HeadDone(t, q, out, flags, length)
  {}

  /** The line of Content-Length up to its digits. */
  function LengthStart(name: seq<byte>, blanks: seq<byte>): seq<byte> {
    name + [':'] + blanks
  }

  /** What the parser then has: a length is expected, and all else is as it was. */
  ghost predicate LengthExpected(t: Run, r: Run, name: seq<byte>, n: nat)
    requires IsName(name)
  {
    && t.halt.Go? && Expects(t.p, 10) && t.p.nread == r.p.nread + n && t.out == r.out + [Data(HField, name)]
    && t.p.h.flags == Begun(r.p).flags && t.p.h.usesTe == Begun(r.p).usesTe
    && t.p == r.p.(nread := t.p.nread, state := t.p.state, h := t.p.h)
  }

  lemma LengthStarts(cfg: Config, r: Run, name: seq<byte>, blanks: seq<byte>)
    requires r.halt.Go? && AtLine(r.p.state) && !EndsIn(r.out, HField) && IsName(name) && Low(name) == CONTENT_LENGTH
    requires r.p.nread + |LengthStart(name, blanks)| <= cfg.maxHeader && !Begun(r.p).flags.contentLength
    requires forall k :: 0 <= k < |blanks| ==> IsBlank(blanks[k])
    ensures LengthExpected(RunBytes(cfg, r, LengthStart(name, blanks)), r, name, |LengthStart(name, blanks)|)
  {
    hide RunBytes, IsName, Low, Named, Begun, IsBlank;
    ColonRead(cfg, r, name);
    var t := RunBytes(cfg, r, name + [':']);
    BlanksRead(cfg, t, blanks);
    RunConcat(cfg, r, name + [':'], blanks);
    NameRecognised(Begun(r.p), name);
    NameMarks(Begun(r.p), name);
    assert !(TRANSFER_ENCODING <= CONTENT_LENGTH);
  }

  /** What the embedder is told once the head is complete. */
  function ToldBody(b: seq<byte>): seq<Event> {
    if b == [] then [Happened(MessageComplete)] else [Data(Body, b), Happened(MessageComplete)]
  }

  /** A message with Content-Length, from that header on. */
  datatype Framed = Framed(
    name: seq<byte>, blanks: seq<byte>, digits: seq<byte>, lines: seq<HeaderLine>, body: seq<byte>)

  predicate IsFramed(lenient: bool, f: Framed) {
    && IsName(f.name) && Low(f.name) == CONTENT_LENGTH
    && (forall k :: 0 <= k < |f.blanks| ==> IsBlank(f.blanks[k]))
    && Numeral(10, f.digits) && Fits(10, f.digits) && Value(10, f.digits) == |f.body|
    && forall k :: 0 <= k < |f.lines| ==> IsLine(lenient, f.lines[k])
  }

  function FramedHead(f: Framed): seq<byte> {
    LengthStart(f.name, f.blanks) + (f.digits + AfterLength(f.lines))
  }

  /** What the embedder is told before the end of the headers. */
  function ToldHead(f: Framed): seq<Event> {
    [Data(HField, f.name)] + [Data(HValue, f.digits)] + ToldLines(f.lines)
  }

  /** The flags that the whole head sets. */
  ghost function HeadFlags(p: Parser, ls: seq<HeaderLine>): Flags {
    LinesFlags(Begun(p).flags.(contentLength := true), ls)
  }

  /** The lines before this header, the header and those after it leave a message with a
      body of that length. */
  ghost predicate Announces(cfg: Config, p: Parser, length: nat, ls: seq<HeaderLine>) {
    var h := Begun(p);
    && !h.flags.contentLength
    && PlainMessage(cfg, WithLines(
         p.(h := h.(flags := h.flags.(contentLength := true), contentLength := length)), ls))
  }

  lemma HeadRead(cfg: Config, r: Run, f: Framed)
    requires r.halt.Go? && AtLine(r.p.state) && !EndsIn(r.out, HField) && IsFramed(r.p.lenient, f)
    requires r.p.nread + |FramedHead(f)| <= cfg.maxHeader && Announces(cfg, r.p, |f.body|, f.lines)
    ensures HeadDone(RunBytes(cfg, r, FramedHead(f)), r.p, r.out + ToldHead(f), HeadFlags(r.p, f.lines), |f.body|)
  {
    hide RunBytes, Fits, PlainMessage, Numeral, Value, AfterLength, IsLine, IsName, Low, LengthStart, Begun, HeadDone,
      IsBlank, LinesFlags, SomeCodes;
    var start := LengthStart(f.name, f.blanks);
    LengthStarts(cfg, r, f.name, f.blanks);
    RunConcat(cfg, r, start, f.digits + AfterLength(f.lines));
    var t := RunBytes(cfg, r, start);
    RunConcat(cfg, t, f.digits, AfterLength(f.lines));
    LengthIsValue(cfg, t, 10, f.digits);
    DigitsHandedOver(cfg, t, f.digits);
    var u := RunBytes(cfg, t, f.digits);
    var h := Begun(r.p);
    var said := r.p.(h := h.(flags := h.flags.(contentLength := true), contentLength := |f.body|));
    StillPlain(cfg, WithLines(said, f.lines), WithLines(u.p, f.lines));
    HeadAfterLength(cfg, u, f.lines);
    assert u.out + ToldLines(f.lines) == r.out + ToldHead(f);
    SameHead(RunBytes(cfg, u, AfterLength(f.lines)), u.p, r.p, u.out + ToldLines(f.lines), HeadFlags(r.p, f.lines),
             |f.body|);
  }

  /** A message framed by Content-Length, in any case, with other headers before and
      after it or not: the bytes after the head, as many as the numeral says, are its
      body, and the message is complete with the last of them and not before. Then the
      next message is expected, or none, as version and Connection say. */
  lemma FramedByLength(cfg: Config, r: Run, f: Framed, k: nat)
    requires r.halt.Go? && AtLine(r.p.state) && !EndsIn(r.out, HField) && IsFramed(r.p.lenient, f)
    requires r.p.nread + |FramedHead(f)| <= cfg.maxHeader && Announces(cfg, r.p, |f.body|, f.lines)
    ensures var told := r.out + ToldHead(f) + [Happened(HeadersComplete)];
            var t := RunBytes(cfg, r, FramedHead(f) + f.body);
            && t.halt.Go? && t.out == told + ToldBody(f.body)
            && t.p.state == NextState(r.p.line, HeadFlags(r.p, f.lines))
            && (k < |f.body| ==> RunBytes(cfg, r, FramedHead(f) + f.body[..k]).out == Add(told, f.body[..k]))
  {
    hide RunBytes, IsFramed, Announces, FramedHead, ToldHead, Push, NewMessage, NextState, HeadFlags;
    HeadRead(cfg, r, f);
    var t := RunBytes(cfg, r, FramedHead(f));
    RunConcat(cfg, r, FramedHead(f), f.body);
    if f.body == [] {
      RunNone(cfg, t);
      var told := r.out + ToldHead(f);
      assert told + [Happened(HeadersComplete), Happened(MessageComplete)]
             == told + [Happened(HeadersComplete)] + ToldBody(f.body);
    } else {
      IdentityBody(cfg, t, f.body);
      NewMessageIs(Eaten(t.p, |f.body|).(state := MessageDone));
      PushAfterNotice(t.out, f.body);
      assert t.out + [Data(Body, f.body)] + [Happened(MessageComplete)] == t.out + ToldBody(f.body);
      if k < |f.body| {
        RunConcat(cfg, r, FramedHead(f), f.body[..k]);
        BodySoFar(cfg, t, f.body[..k]);
      }
    }
  }

  lemma PushAfterNotice(out: seq<Event>, b: seq<byte>)
    requires |out| > 0 && out[|out| - 1].Happened?
    ensures Push(out, Data(Body, b)) == out + [Data(Body, b)]
  {}
}
