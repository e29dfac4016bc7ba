/** http_parser: at any moment at most one mark is set, and it is the one the
    state calls for. */
module HttpTidy {
  import opened Wrappers
  import opened HttpStep
  import opened HttpRun

  lemma {:induction false} CleanConcat(open: Option<Field>, a: seq<Act>, b: seq<Act>)
    ensures Clean(open, a + b) <==> Clean(open, a) && Clean(Opens(open, a), b)
    ensures Opens(open, a + b) == Opens(Opens(open, a), b)
    decreases |a|
  {
    if a == [] {
      assert a + b == b;
    } else {
      assert (a + b)[1..] == a[1..] + b;
      CleanConcat(Opens1(open, a[0]), a[1..], b);
    }
  }

  lemma AfterTidy(open: Option<Field>, acts: seq<Act>, r: Res)
    requires Clean(open, acts) && Tidy(Opens(open, acts), r)
    ensures Tidy(open, After(acts, r))
  {
    CleanConcat(open, acts, r.acts);
  }

  lemma OneAct(open: Option<Field>, a: Act)
    ensures Opens(open, [a]) == Opens1(open, a)
    ensures Clean(open, [a]) <==> Clean1(open, a)
  {}

  lemma TwoActs(open: Option<Field>, a: Act, b: Act)
    ensures Opens(open, [a, b]) == Opens1(Opens1(open, a), b)
    ensures Clean(open, [a, b]) <==> Clean1(open, a) && Clean1(Opens1(open, a), b)
  {
    assert [a, b][1..] == [b];
    OneAct(Opens1(open, a), b);
  }

  lemma NoActs(open: Option<Field>)
    ensures Opens(open, []) == open && Clean(open, [])
  {}

  lemma Failed(open: Option<Field>, p: Parser, e: Errno)
    ensures Tidy(open, Err(p, e))
  {}

  lemma Silent(open: Option<Field>, p: Parser)
    requires Agrees(open, p.state)
    ensures Tidy(open, Ok(p, []))
  {}

  lemma Acted(open: Option<Field>, p: Parser, a: Act)
    requires Clean1(open, a) && Agrees(Opens1(open, a), p.state)
    ensures Tidy(open, Ok(p, [a]))
  {
    OneAct(open, a);
  }

  lemma Shapes(open: Option<Field>)
    ensures forall p, e :: Tidy(open, Err(p, e))
    ensures forall p: Parser :: Agrees(open, p.state) ==> Tidy(open, Ok(p, []))
    ensures forall p: Parser, a :: Clean1(open, a) && Agrees(Opens1(open, a), p.state) ==> Tidy(open, Ok(p, [a]))
  {
    hide Tidy, Agrees, Clean1, Opens1, Ok, Err;
    forall p, e {
      Failed(open, p, e);
    }
    forall p: Parser | Agrees(open, p.state) {
      Silent(open, p);
    }
    forall p: Parser, a | Clean1(open, a) && Agrees(Opens1(open, a), p.state) {
      Acted(open, p, a);
    }
  }

  /** Only the states of one field ask for a mark. */
  lemma Unmarked(s: State)
    requires OpenOf(s) == None
    ensures Agrees(None, s)
  {}

  lemma MessageDoneTidy(p: Parser)
    ensures Tidy(None, OnMessageDone(p))
  {
    OneAct(None, Note(MessageComplete));
  }

  lemma HeadersDoneTidy(p: Parser, ch: byte)
    ensures Tidy(None, OnHeadersDone(p, ch))
  {
    hide Tidy, Ok, Err, NeedsEof, HasBody, Completed;
    Shapes(None);
    CompletedTidy(p.(nread := 0));
  }

  lemma CompletedTidy(p: Parser)
    ensures Tidy(None, Completed(p)) && Tidy(None, Completed(p).(halt := Exit))
  {
    hide ShouldKeepAlive;
    OneAct(None, Note(MessageComplete));
  }

  lemma HeadersAlmostDoneTidy(cfg: Config, p: Parser, ch: byte)
    ensures Tidy(None, OnHeadersAlmostDone(cfg, p, ch))
  {
    hide OnHeadersDone, OnMessageDone;
    OneAct(None, Note(ChunkComplete));
    OneAct(None, Note(HeadersComplete));
    var d := p.(state := MessageDone);
    MessageDoneTidy(d);
    AfterTidy(None, [Note(ChunkComplete)], OnMessageDone(d));
    var q := p.(state := HeadersDone, upgrade := WantsUpgrade(p));
    match Answered(q, cfg.onHeadersComplete(HeadOf(q)))
    case None =>
    case Some(r) =>
      HeadersDoneTidy(r, ch);
      AfterTidy(None, [Note(HeadersComplete)], OnHeadersDone(r, ch));
  }

  lemma HeaderFieldStartTidy(cfg: Config, p: Parser, ch: byte)
    ensures Tidy(None, OnHeaderFieldStart(cfg, p, ch))
  {
    hide OnHeadersAlmostDone, Tidy, Ok, Err, FirstHeaderState;
    Shapes(None);
    HeadersAlmostDoneTidy(cfg, p.(state := HeadersAlmostDone), ch);
  }

  lemma HeaderValueStartTidy(p: Parser, ch: byte)
    ensures Tidy(None, OnHeaderValueStart(p, ch))
  {
    OneAct(None, Mark(HValue));
  }

  lemma HeaderValueTidy(p: Parser, ch: byte)
    requires p.state.HeaderValue?
    ensures Tidy(Some(HValue), OnHeaderValue(p, ch))
  {
    hide ValueChar;
    NoActs(Some(HValue));
    OneAct(Some(HValue), Flush(HValue));
    var d := OnHeaderAlmostDone(p.(state := HeaderAlmostDone), ch);
    AfterTidy(Some(HValue), [Flush(HValue)], d);
  }

  lemma HeaderNameTidy(p: Parser, ch: byte)
    requires p.state.HeaderField?
    ensures Tidy(Some(HField), OnHeaderField(p, ch))
  {
    hide NameChar;
    OneAct(Some(HField), Flush(HField));
    NoActs(Some(HField));
  }

  lemma DiscardLwsTidy(cfg: Config, p: Parser, ch: byte)
    ensures Tidy(None, OnHeaderValueDiscardLws(cfg, p, ch))
  {
    hide OnHeaderFieldStart;
    TwoActs(None, Mark(HValue), Flush(HValue));
    var q := p.(state := HeaderFieldStart, h := Noted(p.h));
    HeaderFieldStartTidy(cfg, q, ch);
    AfterTidy(None, [Mark(HValue), Flush(HValue)], OnHeaderFieldStart(cfg, q, ch));
  }

  lemma LwsTidy(cfg: Config, p: Parser, ch: byte)
    ensures Tidy(None, OnHeaderValueLws(cfg, p, ch))
  {
    hide OnHeaderFieldStart, OnHeaderValueStart;
    HeaderFieldStartTidy(cfg, p.(state := HeaderFieldStart, h := Noted(p.h)), ch);
    HeaderValueStartTidy(p.(state := HeaderValueStart, h := Folded(p.h)), ch);
  }

  /** The body's mark may still be set from the byte before, or not: a new buffer
      starts without it. */
  lemma BodyTidy(open: Option<Field>, p: Parser, ch: byte)
    requires open == None || open == Some(Body)
    requires BodyState(p.state)
    ensures p.state.ChunkData? ==> Tidy(open, OnChunkData(p))
    ensures p.state.ChunkDataAlmostDone? ==> Tidy(open, OnChunkDataAlmostDone(p, ch))
    ensures p.state.BodyIdentityEof? ==> Tidy(open, Ok(p, [Mark(Body)]))
    ensures p.state.BodyIdentity? ==> Tidy(open, OnBodyIdentity(p))
  {
    hide Tidy, Ok, Err, OnMessageDone, OneLess;
    Shapes(open);
    if p.state.BodyIdentity? {
      TwoActs(open, Mark(Body), FlushIncl(Body));
      var q := p.(h := OneLess(p.h), state := MessageDone);
      MessageDoneTidy(q);
      AfterTidy(open, [Mark(Body), FlushIncl(Body)], OnMessageDone(q));
    }
  }

  lemma ChunkTidy(p: Parser, ch: byte)
    ensures Tidy(None, OnChunkSizeStart(p, ch))
    ensures p.state.ChunkSize? ==> Tidy(None, OnChunkSize(p, ch))
    ensures p.state.ChunkParameters? ==> Tidy(None, OnChunkParameters(p, ch))
    ensures Tidy(None, OnChunkSizeAlmostDone(p, ch))
    ensures Tidy(None, OnChunkDataDone(p, ch))
  {
    hide Tidy, Ok, Err;
    Shapes(None);
  }

  lemma MessageTidy(cfg: Config, p: Parser, ch: byte)
    requires PastFirstLine(p.state)
    ensures Tidy(OpenOf(p.state), OnMessage(cfg, p, ch))
    ensures BodyState(p.state) ==> Tidy(Some(Body), OnMessage(cfg, p, ch))
  {
    hide OnHeaderFieldStart, OnHeaderField, OnHeaderValueStart, OnHeaderValueDiscardLws, OnHeaderValue,
      OnHeaderValueLws, OnHeadersAlmostDone, OnHeadersDone, OnMessageDone, OnBodyIdentity, OnChunkData,
      OnChunkDataAlmostDone, OnChunkSizeStart, OnChunkSize, OnChunkParameters, OnChunkSizeAlmostDone,
      OnChunkDataDone, Tidy;
    match p.state
    case HeaderFieldStart => HeaderFieldStartTidy(cfg, p, ch);
    case HeaderField => HeaderNameTidy(p, ch);
    case HeaderValueDiscardWs => DiscardWsTidy(p, ch);
    case HeaderValueDiscardWsAlmostDone => ExpectTidy(p, ch, LF, HeaderValueDiscardLws);
    case HeaderValueDiscardLws => DiscardLwsTidy(cfg, p, ch);
    case HeaderValueStart => HeaderValueStartTidy(p, ch);
    case HeaderValue => HeaderValueTidy(p, ch);
    case HeaderValueLws => LwsTidy(cfg, p, ch);
    case HeaderAlmostDone => AlmostDoneTidy(p, ch);
    case HeadersAlmostDone => HeadersAlmostDoneTidy(cfg, p, ch);
    case HeadersDone => HeadersDoneTidy(p, ch);
    case MessageDone => MessageDoneTidy(p);
    case _ =>
      ChunkTidy(p, ch);
      if BodyState(p.state) {
        BodyTidy(None, p, ch);
        BodyTidy(Some(Body), p, ch);
      }
  }

  lemma DiscardWsTidy(p: Parser, ch: byte)
    requires p.state.HeaderValueDiscardWs?
    ensures Tidy(None, OnHeaderValueDiscardWs(p, ch))
  {
    hide OnHeaderValueStart;
    HeaderValueStartTidy(p, ch);
  }

  lemma AlmostDoneTidy(p: Parser, ch: byte)
    ensures Tidy(None, OnHeaderAlmostDone(p, ch))
  {}

  lemma ExpectTidy(p: Parser, ch: byte, want: char, next: State)
    requires OpenOf(next) == None
    ensures Tidy(None, Expect(p, ch, want, next))
  {}

  // ----- the request and status lines

  lemma UrlStays(s: State, ch: byte)
    ensures ParseUrlChar(s, ch) == Dead || OpenOf(ParseUrlChar(s, ch)) == Some(Url)
  {}

  lemma UrlTidy(p: Parser, ch: byte)
    requires OpenOf(p.state) == Some(Url)
    ensures Tidy(Some(Url), OnReqSchema(p, ch))
    ensures Tidy(Some(Url), OnReqTarget(p, ch))
  {
    hide ParseUrlChar, Tidy, Ok, Err;
    UrlStays(p.state, ch);
    Shapes(Some(Url));
  }

  lemma SpacesBeforeUrlTidy(p: Parser, ch: byte)
    requires p.state.ReqSpacesBeforeUrl?
    ensures Tidy(None, OnReqSpacesBeforeUrl(p, ch))
  {
    hide ParseUrlChar;
    UrlStays(ReqServerStart, ch);
    UrlStays(ReqSpacesBeforeUrl, ch);
    OneAct(None, Mark(Url));
    var from := if p.line.method_.CONNECT? then ReqServerStart else ReqSpacesBeforeUrl;
    AfterTidy(None, [Mark(Url)], OnUrl(p, from, ch));
  }

  lemma StatusTidy(p: Parser, ch: byte)
    ensures p.state.ResStatus? ==> Tidy(Some(Status), OnResStatus(p, ch))
    ensures Tidy(None, OnResStatusStart(p, ch))
    ensures p.state.ResStatusCode? ==> Tidy(None, OnResStatusCode(p, ch))
  {
    hide Tidy, Ok, Err;
    Shapes(Some(Status));
    Shapes(None);
    OneAct(None, Mark(Status));
    var q := p.(state := ResStatus, h := p.h.(index := 0));
    AfterTidy(None, [Mark(Status)], if ch == CR || ch == LF then OnResStatus(q, ch) else Ok(q, []));
  }

  lemma StartTidy(p: Parser, ch: byte)
    requires p.state.StartReqOrRes? || p.state.StartRes? || p.state.StartReq? || p.state.Dead?
    ensures p.state.StartReqOrRes? ==> Tidy(None, OnStartReqOrRes(p, ch))
    ensures p.state.StartRes? ==> Tidy(None, OnStartRes(p, ch))
    ensures p.state.StartReq? ==> Tidy(None, OnStartReq(p, ch))
    ensures Tidy(None, OnDead(p, ch))
  {
    hide FirstMethod, Tidy, Ok, Err;
    Shapes(None);
  }

  lemma SimpleTidy(p: Parser, ch: byte)
    ensures Tidy(None, OnResOrRespH(p, ch))
    ensures p.state.ReqMethod? ==> Tidy(None, OnReqMethod(p, ch))
    ensures p.state.ResFirstStatusCode? ==> Tidy(None, OnResFirstStatusCode(p, ch))
    ensures p.state.ReqHttpStart? ==> Tidy(None, OnReqHttpStart(p, ch))
    ensures Tidy(None, OnReqHttpEnd(p, ch))
    ensures Tidy(None, OnReqLineAlmostDone(p, ch))
  {
    hide OtherMethod, MethodName, Tidy, Ok, Err;
    Shapes(None);
  }

  lemma VersionTidy(p: Parser, ch: byte, want: char, major: bool, next: State)
    requires OpenOf(next) == None
    ensures Tidy(None, OnVersionChar(p, ch, want, next))
    ensures Tidy(None, OnVersionDigit(p, ch, major, next))
    ensures Tidy(None, Expect(p, ch, want, next))
  {
    hide Tidy, Agrees, OpenOf, Ok, Err;
    Unmarked(next);
    Failed(None, p, INVALID_VERSION);
    Failed(None, p, STRICT);
    Silent(None, p.(state := next));
    if IsNum(ch) {
      Silent(None, p.(line := p.line.(major := Digit(ch)), state := next));
      Silent(None, p.(line := p.line.(minor := Digit(ch)), state := next));
    }
  }

  lemma StatusLineTidy(p: Parser, ch: byte)
    requires InStatusLine(p.state)
    ensures Tidy(OpenOf(p.state), OnStatusLine(p, ch))
  {
    hide OnDead, OnStartReqOrRes, OnResOrRespH, OnStartRes, OnVersionDigit, OnVersionChar, OnResFirstStatusCode,
      OnResStatusCode, OnResStatusStart, OnResStatus, Expect, Tidy;
    match p.state
    case Dead | StartReqOrRes | StartRes => StartTidy(p, ch);
    case ResOrRespH | ResFirstStatusCode => SimpleTidy(p, ch);
    case ResStatus | ResStatusStart | ResStatusCode => StatusTidy(p, ch);
    case ResH => VersionTidy(p, ch, 'T', false, ResHT);
    case ResHT => VersionTidy(p, ch, 'T', false, ResHTT);
    case ResHTT => VersionTidy(p, ch, 'P', false, ResHTTP);
    case ResHTTP => VersionTidy(p, ch, '/', false, ResHttpMajor);
    case ResHttpMajor => VersionTidy(p, ch, '/', true, ResHttpDot);
    case ResHttpDot => VersionTidy(p, ch, '.', false, ResHttpMinor);
    case ResHttpMinor => VersionTidy(p, ch, '.', false, ResHttpEnd);
    case ResHttpEnd => VersionTidy(p, ch, ' ', false, ResFirstStatusCode);
    case _ => VersionTidy(p, ch, LF, false, HeaderFieldStart);
  }

  lemma RequestLineTidy(p: Parser, ch: byte)
    requires !PastFirstLine(p.state) && !InStatusLine(p.state)
    ensures Tidy(OpenOf(p.state), OnRequestLine(p, ch))
  {
    hide OnVersionDigit, OnVersionChar, OnStartReq, OnReqMethod, OnReqSpacesBeforeUrl, OnReqHttpStart, OnReqHttpEnd,
      OnReqLineAlmostDone, OnReqSchema, OnReqTarget, Expect, Tidy;
    match p.state
    case StartReq => StartTidy(p, ch);
    case ReqMethod | ReqHttpStart | ReqHttpEnd | ReqLineAlmostDone => SimpleTidy(p, ch);
    case ReqSpacesBeforeUrl => SpacesBeforeUrlTidy(p, ch);
    case ReqHttpH => VersionTidy(p, ch, 'T', false, ReqHttpHT);
    case ReqHttpHT => VersionTidy(p, ch, 'T', false, ReqHttpHTT);
    case ReqHttpHTT => VersionTidy(p, ch, 'P', false, ReqHttpHTTP);
    case ReqHttpI => VersionTidy(p, ch, 'C', false, ReqHttpIC);
    case ReqHttpIC => VersionTidy(p, ch, 'E', false, ReqHttpHTTP);
    case ReqHttpHTTP => VersionTidy(p, ch, '/', false, ReqHttpMajor);
    case ReqHttpMajor => VersionTidy(p, ch, '/', true, ReqHttpDot);
    case ReqHttpDot => VersionTidy(p, ch, '.', false, ReqHttpMinor);
    case ReqHttpMinor => VersionTidy(p, ch, '.', false, ReqHttpEnd);
    case _ => UrlTidy(p, ch);
  }

  /** Every byte, in every state, leaves at most the one mark that the next state
      calls for. */
  lemma FeedTidy(cfg: Config, p: Parser, ch: byte)
    ensures Tidy(OpenOf(p.state), Feed(cfg, p, ch))
    ensures BodyState(p.state) ==> Tidy(Some(Body), Feed(cfg, p, ch))
  {
    hide OnStatusLine, OnRequestLine, OnMessage;
    var q := if ParsingHeader(p.state) then p.(nread := p.nread + 1) else p;
    if PastFirstLine(p.state) {
      MessageTidy(cfg, q, ch);
    } else if InStatusLine(p.state) {
      StatusLineTidy(q, ch);
    } else {
      RequestLineTidy(q, ch);
    }
  }

  /** In a body state the first thing done is to set, or to flush, the body's mark. */
  lemma BodyActs(cfg: Config, p: Parser, ch: byte)
    requires BodyState(p.state)
    ensures !Feed(cfg, p, ch).halt.Fail? ==>
              |Feed(cfg, p, ch).acts| > 0
              && (Feed(cfg, p, ch).acts[0] == Mark(Body) || Feed(cfg, p, ch).acts[0] == Flush(Body))
  {
    hide OnMessageDone, OneLess;
  }
}
