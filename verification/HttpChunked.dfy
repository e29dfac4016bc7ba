/** http_parser: a message in chunked coding, from its first chunk to the empty line
    after its trailers. */
module HttpChunked {
  import opened HttpStep
  import opened HttpRun
  import opened HttpExecute
  import opened HttpNames
  import opened HttpValues
  import opened HttpLines
  import opened HttpFraming

  /** A chunk on the wire: its size in hexadecimal, its extensions, and its data. */
  datatype Chunk = Chunk(size: seq<byte>, ext: seq<byte>, data: seq<byte>)

  function SizeLine(c: Chunk): seq<byte> {
    c.size + (c.ext + CRLF)
  }

  function Encode(c: Chunk): seq<byte> {
    SizeLine(c) + (c.data + CRLF)
  }

  function EncodeAll(cs: seq<Chunk>): seq<byte> {
    if cs == [] then [] else EncodeAll(cs[..|cs| - 1]) + Encode(cs[|cs| - 1])
  }

  /** What the embedder is told about a chunk. */
  function Told(c: Chunk): seq<Event> {
    [Happened(ChunkHeader), Data(Body, c.data), Happened(ChunkComplete)]
  }

  function ToldAll(cs: seq<Chunk>): seq<Event> {
    if cs == [] then [] else ToldAll(cs[..|cs| - 1]) + Told(cs[|cs| - 1])
  }

  /** Extensions are anything up to the end of the line, after a semicolon or a
      space. */
  predicate IsExtension(ext: seq<byte>) {
    (ext == [] || ext[0] == ';' || ext[0] == ' ') && forall k :: 0 <= k < |ext| ==> ext[k] != CR
  }

  /** A size line within the limit, whose number is that of the data's bytes. */
  predicate Sized(cfg: Config, c: Chunk) {
    && Numeral(16, c.size) && Fits(16, c.size) && IsExtension(c.ext)
    && Value(16, c.size) == |c.data| && |SizeLine(c)| <= cfg.maxHeader
  }

  predicate WellFormed(cfg: Config, c: Chunk) {
    Sized(cfg, c) && c.data != []
  }

  /** The size line, digit by digit. */
  lemma {:induction false} SizeRead(cfg: Config, r: Run, ds: seq<byte>)
    requires r.halt.Go? && r.p.state.ChunkSizeStart? && Numeral(16, ds) && Fits(16, ds)
    requires r.p.nread + |ds| <= cfg.maxHeader
    ensures 0 <= Value(16, ds) < UNSET
    ensures RunBytes(cfg, r, ds)
            == Run(r.p.(nread := r.p.nread + |ds|, state := ChunkSize, h := r.p.h.(contentLength := Value(16, ds))),
                   r.out, Go)
  {
    hide One, Feed, Unhex;
    FitsBelow(16, ds);
    var n := |ds| - 1;
    assert ds[..n] + [ds[n]] == ds;
    if n == 0 {
      assert ds[..0] == [];
      FirstHex(cfg, r.p, ds[0]);
      QuietByte(cfg, r, ds[0], Feed(cfg, r.p, ds[0]).p);
    } else {
      SizeRead(cfg, r, ds[..n]);
      var t := RunBytes(cfg, r, ds[..n]);
      NextHex(cfg, t.p, ds[n]);
      QuietByte(cfg, t, ds[n], Feed(cfg, t.p, ds[n]).p);
    }
  }

  lemma SizeEnds(cfg: Config, q: Parser, ch: byte)
    requires q.nread < cfg.maxHeader && q.state.ChunkSize?
    ensures ch == CR ==> Feed(cfg, q, ch) == Ok(q.(nread := q.nread + 1, state := ChunkSizeAlmostDone), [])
    ensures ch == ';' || ch == ' ' ==> Feed(cfg, q, ch) == Ok(q.(nread := q.nread + 1, state := ChunkParameters), [])
  {}

  lemma ParameterByte(cfg: Config, q: Parser, ch: byte)
    requires q.nread < cfg.maxHeader && q.state.ChunkParameters?
    ensures Feed(cfg, q, ch) ==
            Ok(q.(nread := q.nread + 1, state := if ch == CR then ChunkSizeAlmostDone else ChunkParameters), [])
  {}

  lemma SizeLineEnds(cfg: Config, q: Parser)
    requires q.nread < cfg.maxHeader && q.state.ChunkSizeAlmostDone?
    ensures q.h.contentLength > 0 ==>
              Feed(cfg, q, LF) == Ok(q.(nread := 0, state := ChunkData), [Note(ChunkHeader)])
    ensures q.h.contentLength == 0 ==>
              Feed(cfg, q, LF) ==
              Ok(q.(nread := 0, state := HeaderFieldStart, h := q.h.(flags := q.h.flags.(trailing := true))),
                 [Note(ChunkHeader)])
  {}

  /** Extensions are skipped. */
  lemma {:induction false} ExtensionRead(cfg: Config, r: Run, ext: seq<byte>)
    requires r.halt.Go? && r.p.state.ChunkSize? && IsExtension(ext) && r.p.nread + |ext| <= cfg.maxHeader
    ensures RunBytes(cfg, r, ext) ==
            r.(p := r.p.(nread := r.p.nread + |ext|, state := if ext == [] then ChunkSize else ChunkParameters))
  {
    hide One, Feed;
    if ext != [] {
      var n := |ext| - 1;
      ExtensionRead(cfg, r, ext[..n]);
      var t := RunBytes(cfg, r, ext[..n]);
      if n == 0 {
        SizeEnds(cfg, t.p, ext[n]);
      } else {
        ParameterByte(cfg, t.p, ext[n]);
      }
      QuietByte(cfg, t, ext[n], Feed(cfg, t.p, ext[n]).p);
    }
  }

  /** The parser after a size line: at the chunk's data, or, if there is none, at
      the trailers. */
  function SizeTaken(p: Parser, n: nat): Parser {
    if n > 0 then p.(nread := 0, state := ChunkData, h := p.h.(contentLength := n))
    else p.(nread := 0, state := HeaderFieldStart,
            h := p.h.(contentLength := 0, flags := p.h.flags.(trailing := true)))
  }

  lemma SizeLineRead(cfg: Config, r: Run, c: Chunk)
    requires r.halt.Go? && r.p.state.ChunkSizeStart? && r.p.nread == 0 && Sized(cfg, c)
    ensures RunBytes(cfg, r, SizeLine(c)) == Run(SizeTaken(r.p, |c.data|), r.out + [Happened(ChunkHeader)], Go)
  {
    hide RunBytes, One, Feed, Numeral, Fits, Value, IsExtension;
    SizeRead(cfg, r, c.size);
    var t := RunBytes(cfg, r, c.size);
    RunConcat(cfg, r, c.size, c.ext + CRLF);
    ExtensionRead(cfg, t, c.ext);
    var u := RunBytes(cfg, t, c.ext);
    RunConcat(cfg, t, c.ext, CRLF);
    RunTwo(cfg, u, CR, LF);
    var v := u.p.(nread := u.p.nread + 1, state := ChunkSizeAlmostDone);
    LineEndRead(cfg, u.p);
    QuietByte(cfg, u, CR, v);
    SizeLineEnds(cfg, v);
    NoteByte(cfg, Run(v, u.out, Go), LF, SizeTaken(r.p, |c.data|), ChunkHeader);
  }

  lemma LineEndRead(cfg: Config, q: Parser)
    requires q.nread < cfg.maxHeader && (q.state.ChunkSize? || q.state.ChunkParameters?)
    ensures Feed(cfg, q, CR) == Ok(q.(nread := q.nread + 1, state := ChunkSizeAlmostDone), [])
  {
    hide Feed;
    if q.state.ChunkSize? {
      SizeEnds(cfg, q, CR);
    } else {
      ParameterByte(cfg, q, CR);
    }
  }

  lemma DataEnds(cfg: Config, q: Parser)
    ensures q.state.ChunkDataAlmostDone? ==> Feed(cfg, q, CR) == Ok(q.(state := ChunkDataDone), [Flush(Body)])
    ensures q.state.ChunkDataDone? ==>
              Feed(cfg, q, LF) == Ok(q.(nread := 0, state := ChunkSizeStart), [Note(ChunkComplete)])
  {}

  /** One chunk: its data is handed over whole, between its two notices, and the
      parser waits for the next one. */
  lemma ChunkDecoded(cfg: Config, r: Run, c: Chunk)
    requires r.halt.Go? && r.p.state.ChunkSizeStart? && r.p.nread == 0 && WellFormed(cfg, c)
    ensures RunBytes(cfg, r, Encode(c)) == Run(r.p.(h := r.p.h.(contentLength := 0)), r.out + Told(c), Go)
  {
    hide RunBytes, One, Feed, Sized, Push, SizeLine;
    SizeLineRead(cfg, r, c);
    var t := RunBytes(cfg, r, SizeLine(c));
    RunConcat(cfg, r, SizeLine(c), c.data + CRLF);
    RunConcat(cfg, t, c.data, CRLF);
    ChunkBody(cfg, t, c.data);
    PushAfterNotice(t.out, c.data);
    var u := RunBytes(cfg, t, c.data);
    RunTwo(cfg, u, CR, LF);
    DataEnds(cfg, u.p);
    var v := u.p.(state := ChunkDataDone);
    QuietByte(cfg, u, CR, v);
    DataEnds(cfg, v);
    NoteByte(cfg, Run(v, u.out, Go), LF, v.(nread := 0, state := ChunkSizeStart), ChunkComplete);
    assert r.out + [Happened(ChunkHeader)] + [Data(Body, c.data)] + [Happened(ChunkComplete)] == r.out + Told(c);
  }

  /** Chunked coding, read back: every chunk's data, in order, and nothing else. */
  lemma {:induction false} ChunksDecoded(cfg: Config, r: Run, cs: seq<Chunk>)
    requires r.halt.Go? && r.p.state.ChunkSizeStart? && r.p.nread == 0
    requires forall k :: 0 <= k < |cs| ==> WellFormed(cfg, cs[k])
    ensures RunBytes(cfg, r, EncodeAll(cs))
            == Run(if cs == [] then r.p else r.p.(h := r.p.h.(contentLength := 0)), r.out + ToldAll(cs), Go)
  {
    hide RunBytes, WellFormed, Encode, Told;
    if cs == [] {
      RunNone(cfg, r);
      assert r.out + [] == r.out;
    } else {
      var n := |cs| - 1;
      ChunksDecoded(cfg, r, cs[..n]);
      RunConcat(cfg, r, EncodeAll(cs[..n]), Encode(cs[n]));
      ChunkDecoded(cfg, RunBytes(cfg, r, EncodeAll(cs[..n])), cs[n]);
      assert r.out + ToldAll(cs[..n]) + Told(cs[n]) == r.out + ToldAll(cs);
    }
  }

  // ----- the end of the message

  lemma TrailersEnd(cfg: Config, q: Parser)
    requires q.state.HeadersAlmostDone? && q.nread < cfg.maxHeader && q.h.flags.trailing
    ensures var d := q.(nread := q.nread + 1, state := MessageDone);
            Feed(cfg, q, LF) == Res(d.(state := NewMessage(d)), [Note(ChunkComplete)] + [Note(MessageComplete)],
                                    if q.upgrade then Exit else Go)
  {
    hide NewMessage;
  }

  /** The empty line after the last chunk and its trailers: the message is complete
      with its last byte. */
  lemma TrailersDone(cfg: Config, r: Run)
    requires r.halt.Go? && AtLine(r.p.state) && r.p.nread + 2 <= cfg.maxHeader && Begun(r.p).flags.trailing
    ensures RunBytes(cfg, r, [CR]).out == r.out && RunBytes(cfg, r, [CR]).halt.Go?
    ensures var t := RunBytes(cfg, r, CRLF);
            && t.out == r.out + [Happened(ChunkComplete), Happened(MessageComplete)]
            && t.halt == (if r.p.upgrade then Exit else Go)
            && t.p.state == NewMessage(r.p.(h := Begun(r.p)))
  {
    hide One, Feed, RunBytes, Begun, ShouldKeepAlive;
    LinesEnd(cfg, r.p);
    var c := Run(Feed(cfg, r.p, CR).p, r.out, Go);
    QuietByte(cfg, r, CR, c.p);
    RunNone(cfg, r);
    RunLast(cfg, r, [], CR);
    assert [] + [CR] == [CR];
    RunTwo(cfg, r, CR, LF);
    TrailersEnd(cfg, c.p);
    TwoNotes(cfg, c, LF, Feed(cfg, c.p, LF), ChunkComplete, MessageComplete);
    SameEnd(r.p.(h := Begun(r.p)), c.p.(nread := c.p.nread + 1, state := MessageDone));
  }

  lemma SameEnd(p: Parser, q: Parser)
    requires p.line == q.line && p.h.usesTe == q.h.usesTe && p.h.contentLength == q.h.contentLength
    requires p.h.flags == q.h.flags
    ensures NewMessage(p) == NewMessage(q)
  {}

  /** The parser's headers after the last chunk and the trailers. */
  ghost function Trailed(p: Parser, ts: seq<HeaderLine>): Parser {
    WithLines(p.(h := p.h.(contentLength := 0, flags := p.h.flags.(trailing := true))), ts)
  }

  /** The last chunk, the trailers and the empty line. */
  function Ending(last: Chunk, ts: seq<HeaderLine>): seq<byte> {
    SizeLine(last) + (EncodeLines(ts) + CRLF)
  }

  predicate IsEnding(cfg: Config, lenient: bool, last: Chunk, ts: seq<HeaderLine>) {
    && Sized(cfg, last) && last.data == []
    && (forall k :: 0 <= k < |ts| ==> IsLine(lenient, ts[k]))
    && |EncodeLines(ts)| + 2 <= cfg.maxHeader
  }

  /** What the embedder is told before the last byte of the message. */
  function ToldEnding(ts: seq<HeaderLine>): seq<Event> {
    [Happened(ChunkHeader)] + ToldLines(ts)
  }

  lemma EndingDecoded(cfg: Config, r: Run, last: Chunk, ts: seq<HeaderLine>)
    requires r.halt.Go? && r.p.state.ChunkSizeStart? && r.p.nread == 0 && IsEnding(cfg, r.p.lenient, last, ts)
    ensures var wire := SizeLine(last) + EncodeLines(ts);
            && Ending(last, ts) == wire + CRLF
            && RunBytes(cfg, r, wire + [CR]).out == r.out + ToldEnding(ts)
            && RunBytes(cfg, r, wire + [CR]).halt.Go?
    ensures var t := RunBytes(cfg, r, Ending(last, ts));
            && t.out == r.out + ToldEnding(ts) + [Happened(ChunkComplete), Happened(MessageComplete)]
            && t.halt == (if r.p.upgrade then Exit else Go)
            && t.p.state == NewMessage(Trailed(r.p, ts))
  {
    hide RunBytes, NewMessage, Sized, IsLine, SizeLine, Noted, SomeCodes;
    var wire := SizeLine(last) + EncodeLines(ts);
    assert Ending(last, ts) == wire + CRLF;
    SizeLineRead(cfg, r, last);
    var s := RunBytes(cfg, r, SizeLine(last));
    RunConcat(cfg, r, SizeLine(last), EncodeLines(ts));
    LinesDecoded(cfg, s, ts);
    var t := RunBytes(cfg, r, wire);
    assert t.out == r.out + ToldEnding(ts);
    RunConcat(cfg, r, wire, [CR]);
    RunConcat(cfg, r, wire, CRLF);
    FlagsGrow(s.p.h.flags, ts);
    TrailersDone(cfg, t);
    SameEnd(Trailed(r.p, ts), t.p.(h := Begun(t.p)));
  }

  lemma FlagsGrowOne(f: Flags, l: HeaderLine)
    ensures var g := LineFlags(f, l);
            && (f.chunked ==> g.chunked) && (f.close ==> g.close) && (f.keepAlive ==> g.keepAlive)
            && g.trailing == f.trailing && g.skipBody == f.skipBody && g.contentLength == f.contentLength
  {
    hide LastSays, SomeSays, SortOf;
  }

  lemma ChunksOne(f: Flags, l: HeaderLine)
    ensures LineFlags(f, l).chunked <==>
              f.chunked || (Low(l.name) == TRANSFER_ENCODING && LastSays(l.value, CHUNKED, CODINGS, true))
  {
    hide LastSays, SomeSays, Low;
  }

  /** Lines only ever set flags, and never those that they do not name. */
  lemma {:induction false} FlagsGrow(f: Flags, ls: seq<HeaderLine>)
    ensures var g := LinesFlags(f, ls);
            && (f.chunked ==> g.chunked) && (f.close ==> g.close) && (f.keepAlive ==> g.keepAlive)
            && g.trailing == f.trailing && g.skipBody == f.skipBody && g.contentLength == f.contentLength
  {
    hide LineFlags;
    if ls != [] {
      FlagsGrow(f, ls[..|ls| - 1]);
      FlagsGrowOne(LinesFlags(f, ls[..|ls| - 1]), ls[|ls| - 1]);
    }
  }

  /** A whole message in chunked coding: every chunk's data in order, then the
      trailers, and the message is complete with the last byte and not before. */
  lemma ChunkedMessage(cfg: Config, r: Run, cs: seq<Chunk>, last: Chunk, ts: seq<HeaderLine>)
    requires r.halt.Go? && r.p.state.ChunkSizeStart? && r.p.nread == 0
    requires (forall k :: 0 <= k < |cs| ==> WellFormed(cfg, cs[k])) && IsEnding(cfg, r.p.lenient, last, ts)
    ensures var wire := EncodeAll(cs) + Ending(last, ts);
            var told := r.out + ToldAll(cs) + ToldEnding(ts);
            var t := RunBytes(cfg, r, wire);
            && RunBytes(cfg, r, wire[..|wire| - 1]).out == told && RunBytes(cfg, r, wire[..|wire| - 1]).halt.Go?
            && t.out == told + [Happened(ChunkComplete), Happened(MessageComplete)]
            && t.halt == (if r.p.upgrade then Exit else Go)
            && t.p.state == NewMessage(Trailed(r.p, ts))
  {
    hide RunBytes, NewMessage, IsEnding, WellFormed, Ending, EncodeAll, EncodeLines;
    var s := RunBytes(cfg, r, EncodeAll(cs));
    ChunksDecoded(cfg, r, cs);
    EndingDecoded(cfg, s, last, ts);
    var wire, part := EncodeAll(cs) + Ending(last, ts), SizeLine(last) + EncodeLines(ts) + [CR];
    assert wire[..|wire| - 1] == EncodeAll(cs) + part;
    RunConcat(cfg, r, EncodeAll(cs), part);
    RunConcat(cfg, r, EncodeAll(cs), Ending(last, ts));
  }

  // ----- a chunked message from its headers on

  /** The headers announce chunks, and nothing stands against it: no Content-Length
      beside them unless allowed, no upgrade, and an embedder who wants the body. */
  predicate ChunkedHead(cfg: Config, p: Parser) {
    && p.h.flags.chunked && !p.h.flags.trailing && !p.h.flags.skipBody && !LengthClash(p) && !WantsUpgrade(p)
    && cfg.onHeadersComplete(Head(p.line, p.h.flags, p.h.contentLength, false)) == 0
  }

  lemma ChunksBegun(cfg: Config, q: Parser)
    requires q.state.HeadersAlmostDone? && q.nread < cfg.maxHeader && ChunkedHead(cfg, q)
    ensures Feed(cfg, q, LF) == Ok(q.(nread := 0, state := ChunkSizeStart, upgrade := false), [Note(HeadersComplete)])
  {
    hide Completed;
    assert [Note(HeadersComplete)] + [] == [Note(HeadersComplete)];
  }

  lemma SameChunkedHead(cfg: Config, p: Parser, q: Parser)
    requires ChunkedHead(cfg, p) && q.line == p.line && q.allowChunkedLength == p.allowChunkedLength
    requires q.lenient == p.lenient
    requires q.h.flags == p.h.flags && q.h.usesTe == p.h.usesTe && q.h.contentLength == p.h.contentLength
    ensures ChunkedHead(cfg, q)
  {}

  lemma ChunkedHeadEnds(cfg: Config, r: Run)
    requires r.halt.Go? && AtLine(r.p.state) && r.p.nread + 2 <= cfg.maxHeader
    requires ChunkedHead(cfg, r.p.(h := Begun(r.p)))
    ensures RunBytes(cfg, r, CRLF) ==
            Run(r.p.(nread := 0, state := ChunkSizeStart, upgrade := false, h := Begun(r.p)),
                r.out + [Happened(HeadersComplete)], Go)
  {
    hide One, Feed, ChunkedHead, RunBytes;
    LinesEnd(cfg, r.p);
    var c := Run(Feed(cfg, r.p, CR).p, r.out, Go);
    RunTwo(cfg, r, CR, LF);
    QuietByte(cfg, r, CR, c.p);
    SameChunkedHead(cfg, r.p.(h := Begun(r.p)), c.p);
    ChunksBegun(cfg, c.p);
    NoteByte(cfg, c, LF, Feed(cfg, c.p, LF).p, HeadersComplete);
  }

  /** What the lines say of the parser's headers. */
  ghost function Headed(p: Parser, ls: seq<HeaderLine>): Parser {
    WithLines(p.(h := Begun(p)), ls)
  }

  lemma ChunkedHeadRead(cfg: Config, r: Run, ls: seq<HeaderLine>)
    requires r.halt.Go? && AtLine(r.p.state) && !EndsIn(r.out, HField)
    requires forall k :: 0 <= k < |ls| ==> IsLine(r.p.lenient, ls[k])
    requires r.p.nread + |EncodeLines(ls)| + 2 <= cfg.maxHeader && ChunkedHead(cfg, Headed(r.p, ls))
    ensures var t := RunBytes(cfg, r, EncodeLines(ls) + CRLF);
            && t.halt.Go? && t.out == r.out + ToldLines(ls) + [Happened(HeadersComplete)]
            && t.p.state.ChunkSizeStart? && t.p.nread == 0 && !t.p.upgrade && t.p.line == r.p.line
            && t.p.lenient == r.p.lenient && t.p.h.flags == LinesFlags(Begun(r.p).flags, ls)
  {
    hide RunBytes, IsLine, ChunkedHead, LinesFlags, SomeCodes, Begun;
    LinesDecoded(cfg, r, ls);
    var s := RunBytes(cfg, r, EncodeLines(ls));
    RunConcat(cfg, r, EncodeLines(ls), CRLF);
    SameChunkedHead(cfg, Headed(r.p, ls), s.p.(h := Begun(s.p)));
    ChunkedHeadEnds(cfg, s);
  }

  /** A message whose headers announce chunks, from its headers to its last byte: names
      and values, the end of the headers, every chunk's data in order, the trailers; and
      it is complete with the last byte and not before. Then the next message is
      expected, or none, as version and Connection say. */
  lemma ChunkedFromLines(
    cfg: Config, r: Run, ls: seq<HeaderLine>, cs: seq<Chunk>, last: Chunk, ts: seq<HeaderLine>)
    requires r.halt.Go? && AtLine(r.p.state) && !EndsIn(r.out, HField)
    requires forall k :: 0 <= k < |ls| ==> IsLine(r.p.lenient, ls[k])
    requires r.p.nread + |EncodeLines(ls)| + 2 <= cfg.maxHeader && ChunkedHead(cfg, Headed(r.p, ls))
    requires (forall k :: 0 <= k < |cs| ==> WellFormed(cfg, cs[k])) && IsEnding(cfg, r.p.lenient, last, ts)
    ensures var wire := EncodeLines(ls) + CRLF + (EncodeAll(cs) + Ending(last, ts));
            var told := r.out + ToldLines(ls) + [Happened(HeadersComplete)] + ToldAll(cs) + ToldEnding(ts);
            var t := RunBytes(cfg, r, wire);
            && t.halt.Go? && t.out == told + [Happened(ChunkComplete), Happened(MessageComplete)]
            && RunBytes(cfg, r, wire[..|wire| - 1]).out == told && RunBytes(cfg, r, wire[..|wire| - 1]).halt.Go?
            && t.p.state == NextState(r.p.line, LinesFlags(LinesFlags(Begun(r.p).flags, ls).(trailing := true), ts))
  {
    hide RunBytes, IsLine, IsEnding, WellFormed, Ending, EncodeAll, EncodeLines, NextState, NewMessage, Begun,
      LinesFlags, SomeCodes, ToldAll, ToldLines;
    var head, body := EncodeLines(ls) + CRLF, EncodeAll(cs) + Ending(last, ts);
    ChunkedHeadRead(cfg, r, ls);
    var t := RunBytes(cfg, r, head);
    ChunkedMessage(cfg, t, cs, last, ts);
    RunConcat(cfg, r, head, body);
    assert |body| > 0 by { EndingNotEmpty(last, ts); }
    assert (head + body)[..|head + body| - 1] == head + body[..|body| - 1];
    RunConcat(cfg, r, head, body[..|body| - 1]);
    FlagsGrow(t.p.h.flags.(trailing := true), ts);
    NewMessageIs(Trailed(t.p, ts));
  }

  lemma EndingNotEmpty(last: Chunk, ts: seq<HeaderLine>)
    ensures |Ending(last, ts)| > 0
  {}

  /** A line that says so makes a message chunked, whatever other lines say. */
  lemma {:induction false} ChunkedByLine(f: Flags, ls: seq<HeaderLine>, k: nat)
    requires k < |ls| && Low(ls[k].name) == TRANSFER_ENCODING && LastSays(ls[k].value, CHUNKED, CODINGS, true)
    ensures LinesFlags(f, ls).chunked && SomeCodes(ls)
  {
    hide LastSays, LineFlags, Low;
    assert Codes(ls[k]);
    ChunksOne(LinesFlags(f, ls[..|ls| - 1]), ls[|ls| - 1]);
    if k < |ls| - 1 {
      ChunkedByLine(f, ls[..|ls| - 1], k);
    }
  }

  /** And only such a line does. */
  lemma {:induction false} ChunkedOnlyByLine(f: Flags, ls: seq<HeaderLine>) returns (k: nat)
    requires !f.chunked && LinesFlags(f, ls).chunked
    ensures k < |ls| && Low(ls[k].name) == TRANSFER_ENCODING && LastSays(ls[k].value, CHUNKED, CODINGS, true)
  {
    hide LastSays, LineFlags, Low;
    var n := |ls| - 1;
    ChunksOne(LinesFlags(f, ls[..n]), ls[n]);
    if LinesFlags(f, ls[..n]).chunked {
      k := ChunkedOnlyByLine(f, ls[..n]);
    } else {
      k := n;
    }
  }
}
