/** http_parser: single bytes of the reference run, and lines of headers that the
    parser hands over without interpreting them. */
module HttpLines {
  import opened Wrappers
  import opened HttpStep
  import opened HttpRun
  import opened HttpExecute
  import opened HttpNames
  import opened HttpValues

  // ----- single bytes of the reference run

  lemma QuietByte(cfg: Config, r: Run, ch: byte, q: Parser)
    requires r.halt.Go? && OpenOf(r.p.state).None?
    requires Feed(cfg, r.p, ch) == Ok(q, []) || Feed(cfg, r.p, ch) == Ok(q, [Flush(Body)])
    ensures One(cfg, r, ch) == Run(q, r.out, Go)
  {
    hide Feed, OpenOf;
    var x := Marked([], map[]);
    DoNothing(x, [ch], 0);
    DoOne(x, [ch], 0, Flush(Body));
    FlushedNone(x, [ch], 1);
  }

  lemma NoteByte(cfg: Config, r: Run, ch: byte, q: Parser, n: Notice)
    requires r.halt.Go? && OpenOf(r.p.state).None? && Feed(cfg, r.p, ch) == Ok(q, [Note(n)])
    ensures One(cfg, r, ch) == Run(q, r.out + [Happened(n)], Go)
  {
    hide Feed, OpenOf;
    var x := Marked([], map[]);
    DoOne(x, [ch], 0, Note(n));
    FlushedNone(Do(x, [ch], 0, [Note(n)]), [ch], 1);
    MergeOne(r.out, [], Happened(n));
    assert [] + [Happened(n)] == [Happened(n)];
  }

  /** The first byte of a field. */
  lemma MarkByte(cfg: Config, r: Run, f: Field, ch: byte, q: Parser)
    requires r.halt.Go? && OpenOf(r.p.state).None? && Feed(cfg, r.p, ch) == Ok(q, [Mark(f)])
    ensures One(cfg, r, ch) == Run(q, Push(r.out, Data(f, [ch])), Go)
  {
    hide Feed, OpenOf, Push;
    var x := Marked([], map[]);
    DoOne(x, [ch], 0, Mark(f));
    FlushedOne(Do(x, [ch], 0, [Mark(f)]), f, 0, [ch], 1);
    assert [] + [Data(f, [ch])] == [Data(f, [ch])] && [ch][0..1] == [ch];
    MergeOne(r.out, [], Data(f, [ch]));
  }

  /** A further byte of a field. */
  lemma FieldByte(cfg: Config, r: Run, f: Field, ch: byte, q: Parser)
    requires r.halt.Go? && OpenOf(r.p.state) == Some(f) && Feed(cfg, r.p, ch) == Ok(q, [])
    ensures One(cfg, r, ch) == Run(q, Push(r.out, Data(f, [ch])), Go)
  {
    hide Feed, OpenOf, Push, Do, Flushed, Merge;
    var x := Marked([], map[f := 0]);
    assert StartMarks(r.p.state) == x.marks;
    DoNothing(x, [ch], 0);
    FlushedOne(x, f, 0, [ch], 1);
    assert Merge(r.out, []) == r.out by {
      MergeNone(r.out);
    }
    assert [] + [Data(f, [ch])] == [Data(f, [ch])] && [ch][0..1] == [ch];
    MergeOne(r.out, [], Data(f, [ch]));
  }

  lemma MergeNone(out: seq<Event>)
    ensures Merge(out, []) == out
  {}

  /** One more byte of a field that has just begun. */
  lemma FieldGrows(out: seq<Event>, f: Field, a: seq<byte>, ch: byte)
    ensures Push(out + [Data(f, a)], Data(f, [ch])) == out + [Data(f, a + [ch])]
  {
    assert (out + [Data(f, a)])[..|out|] == out;
  }

  /** The byte that ends a field. */
  lemma EndByte(cfg: Config, r: Run, f: Field, ch: byte, q: Parser)
    requires r.halt.Go? && OpenOf(r.p.state) == Some(f) && Feed(cfg, r.p, ch) == Ok(q, [Flush(f)])
    requires EndsIn(r.out, f)
    ensures One(cfg, r, ch) == Run(q, r.out, Go)
  {
    hide Feed, OpenOf, Push;
    var x := Marked([], map[f := 0]);
    var y := Callback(x, [ch], f, 0);
    DoOne(x, [ch], 0, Flush(f));
    assert y.marks == map[] && [ch][0..0] == [];
    FlushedNone(y, [ch], 1);
    assert [] + [Data(f, [])] == [Data(f, [])];
    MergeOne(r.out, [], Data(f, []));
    PushNothing(r.out, f);
  }

  lemma MergeTwo(out: seq<Event>, a: Event, b: Event)
    ensures Merge(out, [a] + [b]) == Push(Push(out, a), b)
  {
    MergeOne(out, [a], b);
    MergeOne(out, [], a);
    assert [] + [a] == [a];
  }

  lemma NotedLast(out: seq<Event>, n: Notice)
    ensures Push(out, Happened(n)) == out + [Happened(n)]
  {}

  /** Two notices from one byte. */
  lemma TwoNotes(cfg: Config, r: Run, ch: byte, res: Res, a: Notice, b: Notice)
    requires r.halt.Go? && OpenOf(r.p.state).None? && res == Feed(cfg, r.p, ch) && !res.halt.Fail?
    requires res.acts == [Note(a)] + [Note(b)]
    ensures One(cfg, r, ch) == Run(res.p, r.out + [Happened(a), Happened(b)], res.halt)
  {
    hide Feed, OpenOf;
    var x := Marked([], map[]);
    assert res.acts[1..] == [Note(b)];
    DoOne(Do1(x, [ch], 0, Note(a)), [ch], 0, Note(b));
    var y := Do(x, [ch], 0, res.acts);
    assert y.events == [Happened(a)] + [Happened(b)] && y.marks == map[];
    FlushedNone(y, [ch], 1);
    MergeTwo(r.out, Happened(a), Happened(b));
    assert r.out + [Happened(a)] + [Happened(b)] == r.out + [Happened(a), Happened(b)];
  }

  const CRLF: seq<byte> := [CR, LF]

  lemma RunLast(cfg: Config, r: Run, a: seq<byte>, ch: byte)
    ensures RunBytes(cfg, r, a + [ch]) == One(cfg, RunBytes(cfg, r, a), ch)
  {
    hide One;
    assert (a + [ch])[..|a|] == a;
  }

  lemma RunTwo(cfg: Config, r: Run, a: byte, b: byte)
    ensures RunBytes(cfg, r, [a, b]) == One(cfg, One(cfg, r, a), b)
  {
    hide One;
    assert [a, b][..1] == [a] && [a][..0] == [];
    assert RunBytes(cfg, r, [a]) == One(cfg, RunBytes(cfg, r, []), a);
  }

  // ----- lines of headers

  /** A header line: its name, the white space after the colon, and its value. */
  datatype HeaderLine = HeaderLine(name: seq<byte>, blanks: seq<byte>, value: seq<byte>)

  predicate IsBlank(c: byte) {
    c == ' ' || c == '\t'
  }

  predicate ValueByte(lenient: bool, c: byte) {
    c != CR && c != LF && (lenient || IsHeaderChar(c))
  }

  /** A line with any name but Content-Length, and a value. */
  predicate IsLine(lenient: bool, l: HeaderLine) {
    && IsName(l.name) && Low(l.name) != CONTENT_LENGTH
    && (forall k :: 0 <= k < |l.blanks| ==> IsBlank(l.blanks[k]))
    && l.value != [] && !IsBlank(l.value[0])
    && (forall k :: 0 <= k < |l.value| ==> ValueByte(lenient, l.value[k]))
  }

  /** What a name makes of a line. */
  datatype Sort = Coding | Options | Upgrades | Plain

  function SortOf(name: seq<byte>): Sort {
    if Low(name) == TRANSFER_ENCODING then Coding
    else if Low(name) == CONNECTION || Low(name) == PROXY_CONNECTION then Options
    else if Low(name) == UPGRADE then Upgrades
    else Plain
  }

  /** Which flags a line sets: those that the words of a Transfer-Encoding or a
      Connection name, and that of an Upgrade. */
  ghost function LineFlags(f: Flags, l: HeaderLine): Flags {
    match SortOf(l.name)
    case Coding => f.(chunked := f.chunked || LastSays(l.value, CHUNKED, CODINGS, true))
    case Options =>
      f.(keepAlive := f.keepAlive || SomeSays(l.value, KEEP_ALIVE), close := f.close || SomeSays(l.value, CLOSE),
         connUpgrade := f.connUpgrade || SomeSays(l.value, UPGRADING))
    case Upgrades => f.(upgrade := true)
    case Plain => f
  }

  ghost function LinesFlags(f: Flags, ls: seq<HeaderLine>): Flags {
    if ls == [] then f else LineFlags(LinesFlags(f, ls[..|ls| - 1]), ls[|ls| - 1])
  }

  /** The line counts as a Transfer-Encoding. */
  predicate Codes(l: HeaderLine) {
    TRANSFER_ENCODING <= Low(l.name)
  }

  predicate SomeCodes(ls: seq<HeaderLine>) {
    exists k :: 0 <= k < |ls| && Codes(ls[k])
  }

  function EncodeLine(l: HeaderLine): seq<byte> {
    l.name + [':'] + (l.blanks + (l.value + CRLF))
  }

  function EncodeLines(ls: seq<HeaderLine>): seq<byte> {
    if ls == [] then [] else EncodeLines(ls[..|ls| - 1]) + EncodeLine(ls[|ls| - 1])
  }

  /** What the embedder is told about a line. */
  function ToldLine(l: HeaderLine): seq<Event> {
    [Data(HField, l.name), Data(HValue, l.value)]
  }

  function ToldLines(ls: seq<HeaderLine>): seq<Event> {
    if ls == [] then [] else ToldLines(ls[..|ls| - 1]) + ToldLine(ls[|ls| - 1])
  }

  /** Where a line may start: at the first one, or after another, which may have
      left a flag to set. */
  predicate AtLine(s: State) {
    s.HeaderFieldStart? || s.HeaderValueLws?
  }

  function Begun(p: Parser): Headers {
    if p.state.HeaderValueLws? then Noted(p.h) else p.h
  }

  lemma NameStarts(cfg: Config, q: Parser, ch: byte)
    requires AtLine(q.state) && q.nread < cfg.maxHeader && Token(ch) != '\0'
    ensures Feed(cfg, q, ch) ==
            Ok(q.(nread := q.nread + 1, state := HeaderField,
                  h := Begun(q).(index := 0, hstate := FirstHeaderState(Token(ch)))), [Mark(HField)])
  {
    hide OnHeadersAlmostDone, FirstHeaderState, Noted;
  }

  lemma NameGoesOn(cfg: Config, q: Parser, ch: byte)
    requires q.state.HeaderField? && q.nread < cfg.maxHeader
    ensures Token(ch) != '\0' ==> Feed(cfg, q, ch) == Ok(q.(nread := q.nread + 1, h := NameChar(q.h, ch)), [])
    ensures ch == ':' ==>
              Feed(cfg, q, ch) == Ok(q.(nread := q.nread + 1, state := HeaderValueDiscardWs), [Flush(HField)])
  {
    hide NameChar;
  }

  lemma BlankSkipped(cfg: Config, q: Parser, ch: byte)
    requires q.state.HeaderValueDiscardWs? && q.nread < cfg.maxHeader && IsBlank(ch)
    ensures Feed(cfg, q, ch) == Ok(q.(nread := q.nread + 1), [])
  {
    hide OnHeaderValueStart;
  }

  lemma ValueStarts(cfg: Config, q: Parser, ch: byte, g: Headers)
    requires q.state.HeaderValueDiscardWs? && q.nread < cfg.maxHeader && !IsBlank(ch) && ch != CR && ch != LF
    requires FirstValueChar(q.h, ch) == Good(g)
    ensures Feed(cfg, q, ch) == Ok(q.(nread := q.nread + 1, state := HeaderValue, h := g), [Mark(HValue)])
  {
    hide FirstValueChar;
  }

  lemma ValueGoesOn(cfg: Config, q: Parser, ch: byte, g: Headers)
    requires q.state.HeaderValue? && q.nread < cfg.maxHeader && ValueByte(q.lenient, ch)
    requires ValueChar(q.h, ch) == Some(g)
    ensures Feed(cfg, q, ch) == Ok(q.(nread := q.nread + 1, h := g), [])
  {
    hide IsHeaderChar, ValueChar;
  }

  lemma ValueEnds(cfg: Config, q: Parser)
    requires q.nread < cfg.maxHeader
    ensures q.state.HeaderValue? ==>
              Feed(cfg, q, CR) == Ok(q.(nread := q.nread + 1, state := HeaderAlmostDone), [Flush(HValue)])
    ensures q.state.HeaderAlmostDone? ==> Feed(cfg, q, LF) == Ok(q.(nread := q.nread + 1, state := HeaderValueLws), [])
  {
    hide ValueChar;
  }

  lemma LinesEnd(cfg: Config, q: Parser)
    requires AtLine(q.state) && q.nread < cfg.maxHeader
    ensures Feed(cfg, q, CR) == Ok(q.(nread := q.nread + 1, state := HeadersAlmostDone, h := Begun(q)), [])
  {
    hide OnHeadersAlmostDone, Noted;
  }

  lemma NameFirst(cfg: Config, r: Run, ch: byte)
    requires r.halt.Go? && AtLine(r.p.state) && Token(ch) != '\0' && r.p.nread < cfg.maxHeader
    requires !EndsIn(r.out, HField)
    ensures One(cfg, r, ch) ==
            Run(r.p.(nread := r.p.nread + 1, state := HeaderField,
                     h := Begun(r.p).(index := 0, hstate := FirstHeaderState(Token(ch)))),
                r.out + [Data(HField, [ch])], Go)
  {
    hide One, Feed, Begun, FirstHeaderState;
    NameStarts(cfg, r.p, ch);
    MarkByte(cfg, r, HField, ch, Feed(cfg, r.p, ch).p);
  }

  lemma NameNext(cfg: Config, r: Run, out: seq<Event>, a: seq<byte>, ch: byte)
    requires r.halt.Go? && r.p.state.HeaderField? && Token(ch) != '\0' && r.p.nread < cfg.maxHeader
    requires r.out == out + [Data(HField, a)]
    ensures One(cfg, r, ch) ==
            Run(r.p.(nread := r.p.nread + 1, h := NameChar(r.p.h, ch)), out + [Data(HField, a + [ch])], Go)
  {
    hide One, Feed, NameChar, Push;
    NameGoesOn(cfg, r.p, ch);
    FieldByte(cfg, r, HField, ch, Feed(cfg, r.p, ch).p);
    FieldGrows(out, HField, a, ch);
  }

  /** The name of a line is handed over, and matched as it comes. */
  lemma {:induction false} NameRead(cfg: Config, r: Run, name: seq<byte>)
    requires r.halt.Go? && AtLine(r.p.state) && IsName(name) && r.p.nread + |name| <= cfg.maxHeader
    requires !EndsIn(r.out, HField)
    ensures RunBytes(cfg, r, name) ==
            Run(r.p.(nread := r.p.nread + |name|, state := HeaderField, h := Named(Begun(r.p), name)),
                r.out + [Data(HField, name)], Go)
  {
    hide One, NameChar, Begun, FirstHeaderState, RunBytes, Token, EndsIn;
    var n := |name| - 1;
    assert name[..n] + [name[n]] == name;
    RunLast(cfg, r, name[..n], name[n]);
    if n == 0 {
      RunNone(cfg, r);
      NameFirst(cfg, r, name[0]);
    } else {
      NameRead(cfg, r, name[..n]);
      NameNext(cfg, RunBytes(cfg, r, name[..n]), r.out, name[..n], name[n]);
    }
  }

  lemma {:induction false} BlanksRead(cfg: Config, r: Run, blanks: seq<byte>)
    requires r.halt.Go? && r.p.state.HeaderValueDiscardWs? && r.p.nread + |blanks| <= cfg.maxHeader
    requires forall k :: 0 <= k < |blanks| ==> IsBlank(blanks[k])
    ensures RunBytes(cfg, r, blanks) == r.(p := r.p.(nread := r.p.nread + |blanks|))
  {
    hide One, Feed, IsBlank;
    if blanks != [] {
      var n := |blanks| - 1;
      BlanksRead(cfg, r, blanks[..n]);
      var t := RunBytes(cfg, r, blanks[..n]);
      BlankSkipped(cfg, t.p, blanks[n]);
      QuietByte(cfg, t, blanks[n], Feed(cfg, t.p, blanks[n]).p);
    }
  }

  lemma ValueFirst(cfg: Config, r: Run, ch: byte, g: Headers)
    requires r.halt.Go? && r.p.state.HeaderValueDiscardWs? && r.p.nread < cfg.maxHeader && !EndsIn(r.out, HValue)
    requires !IsBlank(ch) && ch != CR && ch != LF && FirstValueChar(r.p.h, ch) == Good(g)
    ensures One(cfg, r, ch) ==
            Run(r.p.(nread := r.p.nread + 1, state := HeaderValue, h := g), r.out + [Data(HValue, [ch])], Go)
  {
    hide One, Feed, FirstValueChar, IsBlank;
    ValueStarts(cfg, r.p, ch, g);
    MarkByte(cfg, r, HValue, ch, Feed(cfg, r.p, ch).p);
  }

  lemma ValueNext(cfg: Config, r: Run, out: seq<Event>, a: seq<byte>, ch: byte, g: Headers)
    requires r.halt.Go? && r.p.state.HeaderValue? && r.p.nread < cfg.maxHeader
    requires ValueByte(r.p.lenient, ch) && ValueChar(r.p.h, ch) == Some(g) && r.out == out + [Data(HValue, a)]
    ensures One(cfg, r, ch) == Run(r.p.(nread := r.p.nread + 1, h := g), out + [Data(HValue, a + [ch])], Go)
  {
    hide One, Feed, ValueByte, ValueChar, Push;
    ValueGoesOn(cfg, r.p, ch, g);
    FieldByte(cfg, r, HValue, ch, Feed(cfg, r.p, ch).p);
    FieldGrows(out, HValue, a, ch);
  }

  /** A value is handed over, and read as it comes. */
  lemma {:induction false} ValueRead(cfg: Config, r: Run, value: seq<byte>)
    requires r.halt.Go? && r.p.state.HeaderValueDiscardWs? && r.p.nread + |value| <= cfg.maxHeader
    requires value != [] && !IsBlank(value[0]) && !EndsIn(r.out, HValue) && Valued(r.p.h, value).Some?
    requires forall k :: 0 <= k < |value| ==> ValueByte(r.p.lenient, value[k])
    ensures RunBytes(cfg, r, value) ==
            Run(r.p.(nread := r.p.nread + |value|, state := HeaderValue, h := Valued(r.p.h, value).value),
                r.out + [Data(HValue, value)], Go)
  {
    hide One, FirstValueChar, ValueChar, IsBlank, IsHeaderChar, RunBytes, EndsIn;
    var n := |value| - 1;
    assert value[..n] + [value[n]] == value;
    RunLast(cfg, r, value[..n], value[n]);
    if n == 0 {
      RunNone(cfg, r);
      ValueFirst(cfg, r, value[0], Valued(r.p.h, value).value);
    } else {
      ValueRead(cfg, r, value[..n]);
      ValueNext(cfg, RunBytes(cfg, r, value[..n]), r.out, value[..n], value[n], Valued(r.p.h, value).value);
    }
  }

  /** CR LF after a value. */
  lemma ValueDone(cfg: Config, r: Run)
    requires r.halt.Go? && r.p.state.HeaderValue? && r.p.nread + 2 <= cfg.maxHeader && EndsIn(r.out, HValue)
    ensures RunBytes(cfg, r, CRLF) == r.(p := r.p.(nread := r.p.nread + 2, state := HeaderValueLws))
  {
    hide One, Feed, RunBytes;
    RunTwo(cfg, r, CR, LF);
    ValueEnds(cfg, r.p);
    var t := r.(p := Feed(cfg, r.p, CR).p);
    EndByte(cfg, r, HValue, CR, t.p);
    ValueEnds(cfg, t.p);
    QuietByte(cfg, t, LF, Feed(cfg, t.p, LF).p);
  }

  /** A value that the parser does not interpret. */
  lemma {:induction false} GeneralValue(h: Headers, v: seq<byte>)
    requires v != []
    requires FirstValueChar(h, v[0]).Good? && FirstValueChar(h, v[0]).value.hstate.General?
    ensures Valued(h, v) == Some(FirstValueChar(h, v[0]).value)
  {
    hide FirstValueChar;
    if |v| > 1 {
      GeneralValue(h, v[..|v| - 1]);
    }
  }

  /** A state in which no header is recognised. */
  predicate Uninterpreted(s: HeaderState) {
    s.General? || s.C? || s.CO? || s.CON? || s.MatchingConnection? || s.MatchingProxyConnection?
    || s.MatchingContentLength? || s.MatchingTransferEncoding? || s.MatchingUpgrade?
  }

  lemma OtherFirst(h: Headers, ch: byte)
    ensures Uninterpreted(h.hstate) ==>
              FirstValueChar(h, ch) == Good(h.(index := 0, hstate := General))
    ensures h.hstate.Upgrade? ==>
              FirstValueChar(h, ch) == Good(h.(index := 0, hstate := General, flags := h.flags.(upgrade := true)))
  {}

  lemma NameLeaves(h: Headers, name: seq<byte>)
    requires IsName(name)
    ensures var s := Named(h, name).hstate;
            Uninterpreted(s) || s.Connection? || s.ContentLength? || s.TransferEncoding? || s.Upgrade?
  {
    hide Named;
    NameTracks(h, name);
  }

  /** What a line means: its value sets the flags it should and changes nothing else that
      counts. */
  lemma LineValue(h: Headers, lenient: bool, l: HeaderLine)
    requires IsLine(lenient, l)
    ensures Valued(Named(h, l.name), l.value).Some?
    ensures var g := Noted(Valued(Named(h, l.name), l.value).value);
            && g.flags == LineFlags(h.flags, l) && g.contentLength == h.contentLength
            && (g.usesTe <==> h.usesTe || Codes(l))
  {
    hide Named, Valued, FirstValueChar, LastSays, SomeSays, Low, ValueByte, Noted;
    var g := Named(h, l.name);
    NameRecognised(h, l.name);
    NameMarks(h, l.name);
    NameLeaves(h, l.name);
    if g.hstate.TransferEncoding? {
      CodingIsLastWord(g, l.value);
    } else if g.hstate.Connection? {
      OptionsAreWords(g, l.value);
    } else {
      OtherFirst(g, l.value[0]);
      GeneralValue(g, l.value);
      NotedGeneral(Valued(g, l.value).value);
    }
  }

  lemma NotedGeneral(h: Headers)
    ensures h.hstate.General? ==> Noted(h) == h
  {}

  /** The parser after a line, and after lines. */
  function ReadLine(p: Parser, l: HeaderLine): Parser
    requires l.name != [] && l.value != []
  {
    match Valued(Named(Begun(p), l.name), l.value)
    case Some(g) => p.(nread := p.nread + |EncodeLine(l)|, state := HeaderValueLws, h := g)
    case None => p
  }

  /** q is p after the lines ls. */
  ghost predicate HasRead(p: Parser, q: Parser, ls: seq<HeaderLine>) {
    && AtLine(q.state) && q == p.(nread := p.nread + |EncodeLines(ls)|, state := q.state, h := q.h)
    && Begun(q).flags == LinesFlags(Begun(p).flags, ls) && Begun(q).contentLength == Begun(p).contentLength
    && (Begun(q).usesTe <==> Begun(p).usesTe || SomeCodes(ls))
  }

  /** One line: its name and its value are handed over, and the parser knows what it
      says. */
  lemma LineDecoded(cfg: Config, r: Run, l: HeaderLine)
    requires r.halt.Go? && AtLine(r.p.state) && IsLine(r.p.lenient, l) && !EndsIn(r.out, HField)
    requires r.p.nread + |EncodeLine(l)| <= cfg.maxHeader
    ensures RunBytes(cfg, r, EncodeLine(l)) == Run(ReadLine(r.p, l), r.out + ToldLine(l), Go)
    ensures HasRead(r.p, ReadLine(r.p, l), [l])
  {
    hide One, Feed, RunBytes, Named, Valued, Begun, ValueByte, IsName, Low, HasRead;
    RunConcat(cfg, r, l.name + [':'], l.blanks + (l.value + CRLF));
    var t := RunBytes(cfg, r, l.name + [':']);
    ColonRead(cfg, r, l.name);
    RunConcat(cfg, t, l.blanks, l.value + CRLF);
    BlanksRead(cfg, t, l.blanks);
    var u := RunBytes(cfg, t, l.blanks);
    RunConcat(cfg, u, l.value, CRLF);
    LineValue(Begun(r.p), r.p.lenient, l);
    ValueRead(cfg, u, l.value);
    ValueDone(cfg, RunBytes(cfg, u, l.value));
    assert r.out + [Data(HField, l.name)] + [Data(HValue, l.value)] == r.out + ToldLine(l);
    OneLine(r.p, l);
  }

  lemma OneLine(p: Parser, l: HeaderLine)
    requires AtLine(p.state) && IsLine(p.lenient, l)
    ensures HasRead(p, ReadLine(p, l), [l])
  {
    hide Named, Valued, LineFlags, Codes, Noted, IsName, Low;
    LineValue(Begun(p), p.lenient, l);
    assert [l][..0] == [] && EncodeLines([]) == [] && [] + EncodeLine(l) == EncodeLine(l);
    assert EncodeLines([l]) == EncodeLine(l);
    assert LinesFlags(Begun(p).flags, []) == Begun(p).flags;
    assert SomeCodes([l]) <==> Codes(l) by {
      if Codes(l) {
        assert Codes([l][0]);
      }
    }
  }

  lemma ColonRead(cfg: Config, r: Run, name: seq<byte>)
    requires r.halt.Go? && AtLine(r.p.state) && IsName(name) && !EndsIn(r.out, HField)
    requires r.p.nread + |name| < cfg.maxHeader
    ensures RunBytes(cfg, r, name + [':']) ==
            Run(r.p.(nread := r.p.nread + |name| + 1, state := HeaderValueDiscardWs,
                     h := Named(Begun(r.p), name)), r.out + [Data(HField, name)], Go)
  {
    hide One, Feed, RunBytes, Named, Begun, IsName, Low;
    NameRead(cfg, r, name);
    var t := RunBytes(cfg, r, name);
    RunLast(cfg, r, name, ':');
    NameGoesOn(cfg, t.p, ':');
    EndByte(cfg, t, HField, ':', Feed(cfg, t.p, ':').p);
  }

  lemma MoreLines(p: Parser, q: Parser, t: Parser, ls: seq<HeaderLine>, l: HeaderLine)
    requires HasRead(p, q, ls) && HasRead(q, t, [l])
    ensures HasRead(p, t, ls + [l])
  {
    hide Begun, LineFlags, Codes, EncodeLine;
    assert (ls + [l])[..|ls|] == ls && [l][..0] == [] && EncodeLines([]) == [];
    assert [] + EncodeLine(l) == EncodeLine(l);
    assert LinesFlags(Begun(q).flags, []) == Begun(q).flags;
    assert SomeCodes(ls + [l]) <==> SomeCodes(ls) || SomeCodes([l]) by {
      if k :| 0 <= k < |ls| && Codes(ls[k]) {
        assert Codes((ls + [l])[k]);
      }
      if Codes([l][0]) {
        assert Codes((ls + [l])[|ls|]);
      }
    }
  }

  lemma NoLines(p: Parser)
    requires AtLine(p.state)
    ensures HasRead(p, p, [])
  {}

  /** Lines of headers, read back: every name and every value in order, and the parser
      knows what they say together. */
  lemma {:induction false} LinesDecoded(cfg: Config, r: Run, ls: seq<HeaderLine>)
    requires r.halt.Go? && AtLine(r.p.state) && !EndsIn(r.out, HField)
    requires forall k :: 0 <= k < |ls| ==> IsLine(r.p.lenient, ls[k])
    requires r.p.nread + |EncodeLines(ls)| <= cfg.maxHeader
    ensures var t := RunBytes(cfg, r, EncodeLines(ls));
            && t.halt.Go? && t.out == r.out + ToldLines(ls) && HasRead(r.p, t.p, ls)
            && !EndsIn(t.out, HField)
  {
    hide RunBytes, IsLine, EncodeLine, Begun, LinesFlags, SomeCodes, ReadLine;
    if ls == [] {
      RunNone(cfg, r);
      NoLines(r.p);
    } else {
      var n := |ls| - 1;
      LinesDecoded(cfg, r, ls[..n]);
      var s := RunBytes(cfg, r, EncodeLines(ls[..n]));
      RunConcat(cfg, r, EncodeLines(ls[..n]), EncodeLine(ls[n]));
      LineDecoded(cfg, s, ls[n]);
      MoreLines(r.p, s.p, RunBytes(cfg, s, EncodeLine(ls[n])).p, ls[..n], ls[n]);
      assert ls[..n] + [ls[n]] == ls;
      assert r.out + ToldLines(ls[..n]) + ToldLine(ls[n]) == r.out + ToldLines(ls);
    }
  }
}
