/** http_parser: what every reachable parser keeps, so that no assertion of
    http_parser_execute can fail. */
module HttpInv {
  import opened HttpStep
  import opened HttpRun

  /** How long the word is that is being matched; 0 where none is. */
  function WordLength(s: HeaderState): nat {
    match s
    case MatchingConnection => 10
    case MatchingProxyConnection => 16
    case MatchingContentLength => 14
    case MatchingTransferEncoding => 17
    case MatchingUpgrade => 7
    case TeChunked => 7
    case ConnKeepAlive => 10
    case ConnClose => 5
    case ConnUpgrade => 7
    case _ => 0
  }

  /** The header states a name can be in; any other is "Unknown header_state". */
  predicate NameState(s: HeaderState) {
    match s
    case General | C | CO | CON | MatchingConnection | MatchingProxyConnection | MatchingContentLength
      | MatchingTransferEncoding | MatchingUpgrade | Connection | ContentLength | TransferEncoding | Upgrade => true
    case _ => false
  }

  predicate ValueState(s: HeaderState) {
    !s.Connection? && !s.TransferEncoding?
  }

  predicate ChunkState(s: State) {
    s.ChunkSizeStart? || s.ChunkSize? || s.ChunkParameters? || s.ChunkSizeAlmostDone? || s.ChunkData?
    || s.ChunkDataAlmostDone? || s.ChunkDataDone?
  }

  /** The assertions of http_parser_execute on meeting a byte, and that no bit-field
      of the parser has wrapped. */
  predicate Asserted(p: Parser) {
    (ChunkState(p.state) ==> p.h.flags.chunked)
    && (p.state.ChunkSizeStart? ==> p.nread + 1 == 1)
    && ((p.state.BodyIdentity? || p.state.ChunkData?) ==> p.h.contentLength != 0 && p.h.contentLength != UNSET)
    && (p.state.ChunkDataAlmostDone? ==> p.h.contentLength == 0)
    && (p.state.HeaderField? ==> NameState(p.h.hstate))
    && (p.state.HeaderValue? ==> ValueState(p.h.hstate))
    && p.h.index < 32 && p.line.status < 65536 && p.h.contentLength <= UNSET
  }

  /** How far a match has gone. */
  predicate MatchOk(h: Headers) {
    h.index <= 16
    && (h.hstate == C ==> h.index == 0) && (h.hstate.CO? ==> h.index == 1) && (h.hstate.CON? ==> h.index == 2)
    && (h.hstate.TeTokenStart? || h.hstate.ConnTokenStart? ==> h.index == 0)
    && (WordLength(h.hstate) > 0 ==> h.index + 2 <= WordLength(h.hstate))
  }

  predicate Sane(p: Parser) {
    (ChunkState(p.state) ==> p.h.flags.chunked)
    && (p.state.ChunkSizeStart? ==> p.nread == 0)
    && (p.state.BodyIdentity? || p.state.ChunkData? ==> 0 < p.h.contentLength < UNSET)
    && (p.state.ChunkSize? || p.state.ChunkParameters? || p.state.ChunkSizeAlmostDone? ==>
          p.h.contentLength < UNSET)
    && (p.state.ChunkDataAlmostDone? ==> p.h.contentLength == 0)
    && (p.state.HeaderField? ==> NameState(p.h.hstate) && MatchOk(p.h))
    && (p.state.HeaderValue? ==> ValueState(p.h.hstate) && MatchOk(p.h))
    && (p.state.ReqMethod? ==> p.h.index <= |MethodName(p.line.method_)|)
    && p.h.index <= 16 && p.line.status <= 999 && p.h.contentLength <= UNSET
    && !Passing(p.state)
  }

  /** The states that are left again on the byte that enters them. */
  predicate Passing(s: State) {
    s.HeaderValueStart? || s.HeadersDone? || s.MessageDone?
  }

  lemma SaneIsAsserted(p: Parser)
    requires Sane(p)
    ensures Asserted(p)
  {}

  predicate Keeps(r: Res) {
    r.halt.Fail? || Sane(r.p)
  }

  /** What holds of the numbers in every state. */
  predicate Bounded(p: Parser) {
    p.h.index <= 16 && p.line.status <= 999 && p.h.contentLength <= UNSET
  }

  /** A state without a demand of its own. */
  predicate Plain(s: State) {
    !ChunkState(s) && !s.BodyIdentity? && !s.HeaderField? && !s.HeaderValue? && !s.ReqMethod? && !Passing(s)
  }

  lemma PlainIsSane(p: Parser)
    requires Bounded(p) && Plain(p.state)
    ensures Sane(p)
  {}

  // ----- the first line

  lemma MethodLength(m: Method)
    ensures 3 <= |MethodName(m)| <= 11
  {}

  lemma OtherMethodLonger(m: Method, index: nat, ch: byte)
    ensures OtherMethod(m, index, ch).Some? ==> index + 1 <= |MethodName(OtherMethod(m, index, ch).value)|
  {
    hide MethodName;
    LongNames();
    match OtherMethod(m, index, ch)
    case None =>
    case Some(n) => MethodLength(n);
  }

  lemma LongNames()
    ensures |MethodName(MKCALENDAR)| >= 4 && |MethodName(UNLINK)| >= 4 && |MethodName(PROPPATCH)| >= 5
  {}

  lemma ReqMethodKeeps(p: Parser, ch: byte)
    requires Sane(p) && p.state.ReqMethod?
    ensures Keeps(OnReqMethod(p, ch))
  {
    hide MethodName, OtherMethod, Sane;
    assert Bounded(p) && p.h.index <= |MethodName(p.line.method_)| by {
      SaneMethod(p);
    }
    MethodLength(p.line.method_);
    OtherMethodLonger(p.line.method_, p.h.index, ch);
    var r := OnReqMethod(p, ch);
    if r.halt == Go {
      assert r.p.h.index <= 16;
      if r.p.state.ReqMethod? {
        assert r.p.h.index <= |MethodName(r.p.line.method_)|;
        MethodIsSane(r.p);
      } else {
        PlainIsSane(r.p);
      }
    }
  }

  lemma SaneMethod(p: Parser)
    requires Sane(p)
    ensures Bounded(p)
    ensures p.state.ReqMethod? ==> p.h.index <= |MethodName(p.line.method_)|
  {}

  lemma MethodIsSane(p: Parser)
    requires Bounded(p) && p.state.ReqMethod? && p.h.index <= |MethodName(p.line.method_)|
    ensures Sane(p)
  {}

  lemma StartReqKeeps(p: Parser, ch: byte)
    requires Bounded(p) && Plain(p.state)
    ensures Keeps(OnStartReq(p, ch))
  {
    hide FirstMethod, MethodName, Sane, Plain;
    PlainIsSane(p);
    forall q: Parser | Bounded(q) && q.state.ReqMethod? && q.h.index <= 2
      ensures Sane(q)
    {
      MethodLength(q.line.method_);
      MethodIsSane(q);
    }
  }

  lemma StartKeeps(p: Parser, ch: byte)
    requires Bounded(p) && Plain(p.state)
    ensures Keeps(OnStartReqOrRes(p, ch)) && Keeps(OnStartRes(p, ch)) && Keeps(OnDead(p, ch))
  {
    hide OnStartReq, Sane;
    PlainIsSane(p);
    PlainIsSane(Cleared(p).(state := ResOrRespH));
    PlainIsSane(Cleared(p).(state := ResH));
    StartReqKeeps(Cleared(p).(line := p.line.(kind := Request), state := StartReq), ch);
  }

  lemma ResOrRespHKeeps(p: Parser, ch: byte)
    requires Bounded(p)
    ensures Keeps(OnResOrRespH(p, ch))
  {
    hide Sane, MethodName;
    PlainIsSane(p.(line := p.line.(kind := Response), state := ResHT));
    MethodLength(HEAD);
    MethodIsSane(p.(line := p.line.(kind := Request, method_ := HEAD), h := p.h.(index := 2), state := ReqMethod));
  }

  lemma UrlIsPlain(s: State, ch: byte)
    ensures Plain(ParseUrlChar(s, ch))
  {}

  lemma LineKeeps(p: Parser, ch: byte)
    requires Bounded(p) && Plain(p.state)
    ensures Keeps(OnReqHttpStart(p, ch)) && Keeps(OnReqHttpEnd(p, ch)) && Keeps(OnReqLineAlmostDone(p, ch))
  {
    hide Sane;
    forall q: Parser | Bounded(q) && Plain(q.state)
      ensures Sane(q)
    {
      PlainIsSane(q);
    }
  }

  lemma StatusKeeps(p: Parser, ch: byte)
    requires Bounded(p) && Plain(p.state)
    ensures Keeps(OnResStatusStart(p, ch)) && Keeps(OnResStatus(p, ch))
  {
    hide Sane;
    var q := p.(state := ResStatus, h := p.h.(index := 0));
    PlainIsSane(p);
    PlainIsSane(q);
    PlainIsSane(p.(state := ResLineAlmostDone));
    PlainIsSane(p.(state := HeaderFieldStart));
    PlainIsSane(q.(state := ResLineAlmostDone));
    PlainIsSane(q.(state := HeaderFieldStart));
  }

  lemma StatusCodeKeeps(p: Parser, ch: byte)
    requires Bounded(p) && Plain(p.state)
    ensures Keeps(OnResStatusCode(p, ch)) && Keeps(OnResFirstStatusCode(p, ch))
  {
    hide Sane, OnResStatusStart;
    PlainIsSane(p);
    PlainIsSane(p.(state := ResStatusStart));
    StatusKeeps(p.(state := ResStatusStart), ch);
    if IsNum(ch) {
      PlainIsSane(p.(line := p.line.(status := Digit(ch)), state := ResStatusCode));
      if p.line.status * 10 + Digit(ch) <= 999 {
        PlainIsSane(p.(line := p.line.(status := p.line.status * 10 + Digit(ch))));
      }
    }
  }

  lemma OnUrlKeeps(p: Parser, from: State, ch: byte)
    requires Bounded(p)
    ensures Keeps(OnUrl(p, from, ch))
  {
    hide Sane, ParseUrlChar, Plain;
    UrlIsPlain(from, ch);
    PlainIsSane(p.(state := ParseUrlChar(from, ch)));
  }

  lemma UrlKeeps(p: Parser, ch: byte)
    requires Bounded(p) && Plain(p.state)
    ensures Keeps(OnReqSchema(p, ch)) && Keeps(OnReqTarget(p, ch)) && Keeps(OnReqSpacesBeforeUrl(p, ch))
  {
    hide Sane, OnUrl;
    OnUrlKeeps(p, p.state, ch);
    OnUrlKeeps(p, ReqServerStart, ch);
    OnUrlKeeps(p, ReqSpacesBeforeUrl, ch);
    PlainIsSane(p);
    PlainIsSane(p.(state := ReqHttpStart));
    PlainIsSane(p.(line := p.line.(major := 0, minor := 9), state := ReqLineAlmostDone));
    PlainIsSane(p.(line := p.line.(major := 0, minor := 9), state := HeaderFieldStart));
  }

  lemma VersionKeeps(p: Parser, ch: byte, want: char, major: bool, next: State)
    requires Bounded(p) && Plain(next)
    ensures Keeps(OnVersionDigit(p, ch, major, next))
    ensures Keeps(OnVersionChar(p, ch, want, next))
    ensures Keeps(Expect(p, ch, want, next))
  {
    hide Sane, Plain;
    PlainIsSane(p.(state := next));
    if IsNum(ch) {
      PlainIsSane(p.(line := p.line.(major := Digit(ch)), state := next));
      PlainIsSane(p.(line := p.line.(minor := Digit(ch)), state := next));
    }
  }

  lemma SanePlain(p: Parser)
    requires Sane(p) && !PastFirstLine(p.state) && !p.state.ReqMethod?
    ensures Bounded(p) && Plain(p.state)
  {}

  lemma StatusLineKeeps(p: Parser, ch: byte)
    requires Bounded(p) && Plain(p.state) && InStatusLine(p.state)
    ensures Keeps(OnStatusLine(p, ch))
  {
    hide OnDead, OnStartReqOrRes, OnResOrRespH, OnStartRes, OnVersionDigit, OnVersionChar, OnResFirstStatusCode,
      OnResStatusCode, OnResStatusStart, OnResStatus, Expect, Keeps, Bounded;
    match p.state
    case Dead | StartReqOrRes | StartRes => StartKeeps(p, ch);
    case ResOrRespH => ResOrRespHKeeps(p, ch);
    case ResStatusCode | ResFirstStatusCode => StatusCodeKeeps(p, ch);
    case ResStatusStart | ResStatus => StatusKeeps(p, ch);
    case ResH => VersionKeeps(p, ch, 'T', false, ResHT);
    case ResHT => VersionKeeps(p, ch, 'T', false, ResHTT);
    case ResHTT => VersionKeeps(p, ch, 'P', false, ResHTTP);
    case ResHTTP => VersionKeeps(p, ch, '/', false, ResHttpMajor);
    case ResHttpMajor => VersionKeeps(p, ch, '/', true, ResHttpDot);
    case ResHttpDot => VersionKeeps(p, ch, '.', false, ResHttpMinor);
    case ResHttpMinor => VersionKeeps(p, ch, '.', false, ResHttpEnd);
    case ResHttpEnd => VersionKeeps(p, ch, ' ', false, ResFirstStatusCode);
    case _ => VersionKeeps(p, ch, LF, false, HeaderFieldStart);
  }

  lemma RequestLineKeeps(p: Parser, ch: byte)
    requires Sane(p) && !PastFirstLine(p.state) && !InStatusLine(p.state)
    ensures Keeps(OnRequestLine(p, ch))
  {
    hide OnVersionDigit, OnVersionChar, OnStartReq, OnReqMethod, OnReqSpacesBeforeUrl, OnReqHttpStart, OnReqHttpEnd,
      OnReqLineAlmostDone, OnReqSchema, OnReqTarget, Expect, Keeps, Bounded, Sane;
    if p.state.ReqMethod? {
      ReqMethodKeeps(p, ch);
      return;
    }
    SanePlain(p);
    match p.state
    case StartReq => StartReqKeeps(p, ch);
    case ReqHttpStart | ReqHttpEnd | ReqLineAlmostDone => LineKeeps(p, ch);
    case ReqHttpH => VersionKeeps(p, ch, 'T', false, ReqHttpHT);
    case ReqHttpHT => VersionKeeps(p, ch, 'T', false, ReqHttpHTT);
    case ReqHttpHTT => VersionKeeps(p, ch, 'P', false, ReqHttpHTTP);
    case ReqHttpI => VersionKeeps(p, ch, 'C', false, ReqHttpIC);
    case ReqHttpIC => VersionKeeps(p, ch, 'E', false, ReqHttpHTTP);
    case ReqHttpHTTP => VersionKeeps(p, ch, '/', false, ReqHttpMajor);
    case ReqHttpMajor => VersionKeeps(p, ch, '/', true, ReqHttpDot);
    case ReqHttpDot => VersionKeeps(p, ch, '.', false, ReqHttpMinor);
    case ReqHttpMinor => VersionKeeps(p, ch, '.', false, ReqHttpEnd);
    case _ => UrlKeeps(p, ch);
  }

  // ----- the headers

  lemma CompletedKeeps(p: Parser)
    requires Bounded(p)
    ensures Keeps(Completed(p)) && Keeps(OnMessageDone(p)) && Keeps(Completed(p).(halt := Exit))
  {
    hide Sane, ShouldKeepAlive;
    forall q: Parser | Bounded(q) && Plain(q.state)
      ensures Sane(q)
    {
      PlainIsSane(q);
    }
  }

  lemma HeadersDoneKeeps(p: Parser, ch: byte)
    requires Bounded(p)
    ensures Keeps(OnHeadersDone(p, ch))
  {
    hide Completed, HasBody, NeedsEof, Sane;
    var q := p.(nread := 0);
    CompletedKeeps(q);
    PlainIsSane(q.(state := BodyIdentityEof));
    if p.h.flags.chunked {
      ChunksBegin(q.(state := ChunkSizeStart));
    }
    if 0 < p.h.contentLength < UNSET {
      BodyBegins(q.(state := BodyIdentity));
    }
  }

  lemma ChunksBegin(p: Parser)
    requires Bounded(p) && p.state.ChunkSizeStart? && p.nread == 0 && p.h.flags.chunked
    ensures Sane(p)
  {}

  lemma BodyBegins(p: Parser)
    requires Bounded(p) && p.state.BodyIdentity? && 0 < p.h.contentLength < UNSET
    ensures Sane(p)
  {}

  lemma HeadersAlmostDoneKeeps(cfg: Config, p: Parser, ch: byte)
    requires Bounded(p)
    ensures Keeps(OnHeadersAlmostDone(cfg, p, ch))
  {
    hide OnHeadersDone, OnMessageDone, Sane, LengthClash, HeadOf;
    CompletedKeeps(p.(state := MessageDone));
    var q := p.(state := HeadersDone, upgrade := WantsUpgrade(p));
    match Answered(q, cfg.onHeadersComplete(HeadOf(q)))
    case None =>
    case Some(r) => HeadersDoneKeeps(r, ch);
  }

  lemma HeaderFieldStartKeeps(cfg: Config, p: Parser, ch: byte)
    requires Bounded(p)
    ensures Keeps(OnHeaderFieldStart(cfg, p, ch))
  {
    hide OnHeadersAlmostDone;
    HeadersAlmostDoneKeeps(cfg, p.(state := HeadersAlmostDone), ch);
  }

  /** A header state that says nothing about the index. */
  predicate Found(s: HeaderState) {
    WordLength(s) == 0 && !Fixed(s)
  }

  /** A header state with one index of its own. */
  predicate Fixed(s: HeaderState) {
    s.C? || s.CO? || s.CON? || s.TeTokenStart? || s.ConnTokenStart?
  }

  /** A matched character moves the index on; what is found or lost needs none. */
  lemma MatchingIndex(h: Headers, c: char, word: string, found: HeaderState, lost: HeaderState)
    requires MatchOk(h) && 0 < |word| == WordLength(h.hstate) <= 17
    requires Found(found) && Found(lost) && !Fixed(h.hstate)
    ensures MatchOk(Matching(h, c, word, found, lost))
  {
    hide WordLength, At, MatchOk, Found, Fixed;
    var i := h.index + 1;
    FoundIsOk(h, i, found, |word|);
    FoundIsOk(h, i, lost, |word|);
    if i < |word| - 1 {
      NextIsOk(h);
    }
  }

  lemma FoundIsOk(h: Headers, i: nat, s: HeaderState, length: nat)
    requires Found(s) && MatchOk(h) && i == h.index + 1 && length == WordLength(h.hstate) && 0 < length <= 17
    ensures MatchOk(h.(index := i, hstate := s)) && i < length
  {
    hide WordLength;
  }

  lemma NextIsOk(h: Headers)
    requires MatchOk(h) && h.index + 2 < WordLength(h.hstate) <= 17 && !Fixed(h.hstate)
    ensures MatchOk(h.(index := h.index + 1))
  {
    hide WordLength;
  }

  lemma MatchingKeeps(h: Headers, c: char, word: string, found: HeaderState, lost: HeaderState)
    requires MatchOk(h) && 0 < |word| == WordLength(h.hstate) <= 17
    requires Found(found) && Found(lost) && !Fixed(h.hstate)
    ensures var g := Matching(h, c, word, found, lost);
            MatchOk(g) && g.contentLength == h.contentLength
            && (g.hstate == h.hstate || g.hstate == found || g.hstate == lost)
  {
    hide WordLength, At, MatchOk, Found, Fixed;
    MatchingIndex(h, c, word, found, lost);
  }

  lemma NameCharKeeps(h: Headers, ch: byte)
    requires NameState(h.hstate) && MatchOk(h)
    ensures NameState(NameChar(h, ch).hstate) && MatchOk(NameChar(h, ch))
    ensures NameChar(h, ch).contentLength == h.contentLength
  {
    hide Matching;
    var c := Token(ch);
    match h.hstate
    case MatchingConnection => MatchingKeeps(h, c, "connection", Connection, General);
    case MatchingProxyConnection => MatchingKeeps(h, c, "proxy-connection", Connection, General);
    case MatchingContentLength => MatchingKeeps(h, c, "content-length", ContentLength, General);
    case MatchingTransferEncoding => MatchingKeeps(h, c, "transfer-encoding", TransferEncoding, General);
    case MatchingUpgrade => MatchingKeeps(h, c, "upgrade", Upgrade, General);
    case _ =>
  }

  lemma AddDigitBelow(n: nat, base: nat, d: nat)
    requires (base == 10 || base == 16) && d < base
    ensures AddDigit(n, base, d).Some? ==> AddDigit(n, base, d).value < UNSET
  {}

  lemma LengthCharKeeps(h: Headers, ch: byte)
    requires MatchOk(h) && h.contentLength <= UNSET
    ensures LengthChar(h, ch).Some? ==>
              var g := LengthChar(h, ch).value;
              MatchOk(g) && g.contentLength <= UNSET && ValueState(g.hstate)
  {
    hide AddDigit;
    if IsNum(ch) {
      AddDigitBelow(h.contentLength, 10, Digit(ch));
    }
  }

  lemma AfterWordKeeps(h: Headers, ch: byte)
    requires ValueState(h.hstate) && MatchOk(h)
    ensures ValueState(AfterWord(h, ch).hstate) && MatchOk(AfterWord(h, ch))
    ensures AfterWord(h, ch).contentLength == h.contentLength
  {}

  lemma ValueCharKeeps(h: Headers, ch: byte)
    requires ValueState(h.hstate) && MatchOk(h) && h.contentLength <= UNSET
    ensures ValueChar(h, ch).Some? ==>
              var g := ValueChar(h, ch).value;
              ValueState(g.hstate) && MatchOk(g) && g.contentLength <= UNSET
  {
    hide Matching, LengthChar, Lower, Token, AfterWord;
    AfterWordKeeps(h, ch);
    var c := Lower(ch);
    match h.hstate
    case TeChunked => MatchingKeeps(h, c, "chunked", IsTeChunked, TeToken);
    case ConnKeepAlive => MatchingKeeps(h, c, "keep-alive", IsKeepAlive, ConnToken);
    case ConnClose => MatchingKeeps(h, c, "close", IsClose, ConnToken);
    case ConnUpgrade => MatchingKeeps(h, c, "upgrade", IsConnUpgrade, ConnToken);
    case _ => LengthCharKeeps(h, ch);
  }

  lemma FirstValueCharKeeps(h: Headers, ch: byte)
    requires h.contentLength <= UNSET
    ensures FirstValueChar(h, ch).Good? ==>
              var g := FirstValueChar(h, ch).value;
              ValueState(g.hstate) && MatchOk(g) && g.contentLength <= UNSET
  {}

  lemma HeaderValueStartKeeps(p: Parser, ch: byte)
    requires Bounded(p)
    ensures Keeps(OnHeaderValueStart(p, ch))
  {
    hide FirstValueChar;
    FirstValueCharKeeps(p.h, ch);
  }

  lemma HeaderCharKeeps(p: Parser, ch: byte)
    requires Sane(p)
    ensures p.state.HeaderField? ==> Keeps(OnHeaderField(p, ch))
    ensures p.state.HeaderValue? ==> Keeps(OnHeaderValue(p, ch))
  {
    hide NameChar, ValueChar, NameState, ValueState, WordLength;
    if p.state.HeaderField? {
      NameCharKeeps(p.h, ch);
    } else if p.state.HeaderValue? {
      ValueCharKeeps(p.h, ch);
    }
  }

  lemma FoldKeeps(cfg: Config, p: Parser, ch: byte)
    requires Bounded(p)
    ensures Keeps(OnHeaderValueLws(cfg, p, ch))
    ensures Keeps(OnHeaderValueDiscardLws(cfg, p, ch))
  {
    hide OnHeaderFieldStart, OnHeaderValueStart;
    HeaderFieldStartKeeps(cfg, p.(state := HeaderFieldStart, h := Noted(p.h)), ch);
    HeaderValueStartKeeps(p.(state := HeaderValueStart, h := Folded(p.h)), ch);
    PlainIsSane(p.(state := HeaderValueDiscardWs));
  }

  lemma DiscardKeeps(p: Parser, ch: byte)
    requires Bounded(p) && p.state.HeaderValueDiscardWs?
    ensures Keeps(OnHeaderValueDiscardWs(p, ch))
  {
    hide OnHeaderValueStart;
    HeaderValueStartKeeps(p, ch);
  }

  // ----- the body

  lemma UnhexBelow(ch: byte)
    ensures -1 <= Unhex(ch) < 16
  {}

  lemma ChunkSizeKeeps(p: Parser, ch: byte)
    requires Bounded(p) && p.h.flags.chunked
    ensures Keeps(OnChunkSizeStart(p, ch))
    ensures p.state.ChunkSize? && p.h.contentLength < UNSET ==> Keeps(OnChunkSize(p, ch))
  {
    hide Unhex, AddDigit;
    UnhexBelow(ch);
    if Unhex(ch) >= 0 {
      AddDigitBelow(p.h.contentLength, 16, Unhex(ch));
    }
  }

  lemma ChunkKeeps(p: Parser, ch: byte)
    requires Sane(p) && ChunkState(p.state)
    ensures p.state.ChunkParameters? ==> Keeps(OnChunkParameters(p, ch))
    ensures p.state.ChunkSizeAlmostDone? ==> Keeps(OnChunkSizeAlmostDone(p, ch))
    ensures p.state.ChunkData? ==> Keeps(OnChunkData(p))
    ensures p.state.ChunkDataAlmostDone? ==> Keeps(OnChunkDataAlmostDone(p, ch))
    ensures p.state.ChunkDataDone? ==> Keeps(OnChunkDataDone(p, ch))
  {
    hide MethodName;
  }

  lemma BodyKeeps(p: Parser)
    requires Sane(p) && p.state.BodyIdentity?
    ensures Keeps(OnBodyIdentity(p))
  {
    hide OnMessageDone, MethodName;
    CompletedKeeps(p.(h := OneLess(p.h), state := MessageDone));
  }

  lemma SaneBounds(p: Parser)
    requires Sane(p)
    ensures Bounded(p) && !Passing(p.state)
    ensures ChunkState(p.state) ==> p.h.flags.chunked
    ensures p.state.ChunkSize? ==> p.h.contentLength < UNSET
  {}

  lemma MessageKeeps(cfg: Config, p: Parser, ch: byte)
    requires PastFirstLine(p.state) && Bounded(p) && !Passing(p.state)
    requires p.state.ChunkSizeStart? ==> p.h.flags.chunked
    requires !p.state.ChunkSizeStart? ==> Sane(p)
    ensures Keeps(OnMessage(cfg, p, ch))
  {
    hide OnHeaderFieldStart, OnHeaderField, OnHeaderValueDiscardWs, OnHeaderValueDiscardLws, OnHeaderValue,
      OnHeaderValueLws, OnHeadersAlmostDone, OnBodyIdentity, OnChunkData, OnChunkDataAlmostDone, OnChunkSizeStart,
      OnChunkSize, OnChunkParameters, OnChunkSizeAlmostDone, OnChunkDataDone, OnHeadersDone, OnMessageDone, Sane,
      OnHeaderValueStart, Keeps, Bounded;
    if !p.state.ChunkSizeStart? {
      SaneBounds(p);
    }
    match p.state
    case HeaderFieldStart => HeaderFieldStartKeeps(cfg, p, ch);
    case HeaderField => HeaderCharKeeps(p, ch);
    case HeaderValue => HeaderCharKeeps(p, ch);
    case HeaderValueDiscardWs => DiscardKeeps(p, ch);
    case HeaderValueDiscardWsAlmostDone => VersionKeeps(p, ch, LF, false, HeaderValueDiscardLws);
    case HeaderValueDiscardLws => FoldKeeps(cfg, p, ch);
    case HeaderValueLws => FoldKeeps(cfg, p, ch);
    case HeaderAlmostDone => AlmostDoneKeeps(p, ch);
    case HeadersAlmostDone => HeadersAlmostDoneKeeps(cfg, p, ch);
    case BodyIdentity => BodyKeeps(p);
    case BodyIdentityEof => EofKeeps(p);
    case ChunkSizeStart => ChunkSizeKeeps(p, ch);
    case ChunkSize => ChunkSizeKeeps(p, ch);
    case _ => ChunkKeeps(p, ch);
  }

  lemma AlmostDoneKeeps(p: Parser, ch: byte)
    requires Bounded(p)
    ensures Keeps(OnHeaderAlmostDone(p, ch))
  {
    hide Sane;
    PlainIsSane(p.(state := HeaderValueLws));
  }

  lemma EofKeeps(p: Parser)
    requires Sane(p)
    ensures Keeps(Ok(p, [Mark(Body)]))
  {}

  /** Counting the byte changes nothing else. */
  lemma CountKeeps(p: Parser, n: nat)
    requires Sane(p) && !p.state.ChunkSizeStart?
    ensures Sane(p.(nread := n))
  {}

  /** Every byte, in every state, keeps what the assertions need. */
  lemma FeedKeeps(cfg: Config, p: Parser, ch: byte)
    requires Sane(p)
    ensures Keeps(Feed(cfg, p, ch))
  {
    hide OnStatusLine, OnRequestLine, OnMessage, Sane;
    SaneBounds(p);
    var q := if ParsingHeader(p.state) then p.(nread := p.nread + 1) else p;
    if !p.state.ChunkSizeStart? {
      CountKeeps(p, q.nread);
    }
    if PastFirstLine(p.state) {
      MessageKeeps(cfg, q, ch);
    } else if InStatusLine(p.state) {
      SanePlain(q);
      StatusLineKeeps(q, ch);
    } else {
      RequestLineKeeps(q, ch);
    }
  }

  lemma InitIsSane(kind: Kind)
    ensures Sane(Init(kind))
  {}

  /** Whatever bytes arrive, no assertion fails. */
  lemma {:induction false} EveryRunIsSane(cfg: Config, r: Run, bytes: seq<byte>)
    requires Sane(r.p)
    ensures RunBytes(cfg, r, bytes).halt.Fail? || Sane(RunBytes(cfg, r, bytes).p)
  {
    hide Feed, Sane, Merge, Flushed, Do;
    if bytes != [] {
      var s := RunBytes(cfg, r, bytes[..|bytes| - 1]);
      EveryRunIsSane(cfg, r, bytes[..|bytes| - 1]);
      if s.halt == Go {
        FeedKeeps(cfg, s.p, bytes[|bytes| - 1]);
      }
    }
  }
}
