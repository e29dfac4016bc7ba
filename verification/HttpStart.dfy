/** http_parser: the first line of a message. Method, target, version and status are
    what the bytes say. */
module HttpStart {
  import opened Wrappers
  import opened HttpStep
  import opened HttpRun
  import opened HttpExecute
  import opened HttpLines
  import opened HttpFraming
  import opened HttpMethods

  // ----- the method

  lemma MethodStarts(cfg: Config, q: Parser, ch: byte, m: Method)
    requires q.state.StartReq? && q.nread < cfg.maxHeader && FirstMethod(ch) == Some(m) && IsAlpha(ch) && ch != CR
    requires ch != LF
    ensures Feed(cfg, q, ch) ==
            Ok(Cleared(q).(nread := q.nread + 1, state := ReqMethod, line := q.line.(method_ := m),
                           h := Cleared(q).h.(index := 1)), [Note(MessageBegin)])
  {
    hide FirstMethod, IsAlpha;
  }

  lemma MethodGoesOn(cfg: Config, q: Parser, ch: byte, m: Method)
    requires q.state.ReqMethod? && q.nread < cfg.maxHeader && ch != '\0' && ch != ' '
    requires if ch == At(MethodName(q.line.method_), q.h.index) then m == q.line.method_
             else IsLetter(ch) && OtherMethod(q.line.method_, q.h.index, ch) == Some(m)
    ensures Feed(cfg, q, ch) ==
            Ok(q.(nread := q.nread + 1, line := q.line.(method_ := m), h := q.h.(index := q.h.index + 1)), [])
  {
    hide MethodName, OtherMethod;
  }

  lemma MethodEnds(cfg: Config, q: Parser)
    requires q.state.ReqMethod? && q.nread < cfg.maxHeader && At(MethodName(q.line.method_), q.h.index) == '\0'
    ensures Feed(cfg, q, ' ') ==
            Ok(q.(nread := q.nread + 1, state := ReqSpacesBeforeUrl, h := q.h.(index := q.h.index + 1)), [])
  {
    hide MethodName, OtherMethod;
  }

  /** The parser after the bytes of a method. */
  function Guessed(p: Parser, n: nat, m: Method): Parser {
    Cleared(p).(nread := p.nread + n, state := ReqMethod, line := p.line.(method_ := m),
                h := Cleared(p).h.(index := n))
  }

  lemma {:induction false} MethodRead(cfg: Config, r: Run, s: seq<byte>)
    requires r.halt.Go? && r.p.state.StartReq? && s != [] && Guess(s).Some? && ' ' !in s
    requires r.p.nread + |s| <= cfg.maxHeader
    ensures RunBytes(cfg, r, s) ==
            Run(Guessed(r.p, |s|, Guess(s).value), r.out + [Happened(MessageBegin)], Go)
  {
    hide One, Feed, RunBytes, FirstMethod, OtherMethod, MethodName, IsAlpha;
    var n := |s| - 1;
    assert s == s[..n] + [s[n]];
    RunLast(cfg, r, s[..n], s[n]);
    if n == 0 {
      RunNone(cfg, r);
      FirstLetterIs(s[0]);
      MethodStarts(cfg, r.p, s[0], Guess(s).value);
      NoteByte(cfg, r, s[0], Feed(cfg, r.p, s[0]).p, MessageBegin);
    } else {
      MethodRead(cfg, r, s[..n]);
      var t := RunBytes(cfg, r, s[..n]);
      MethodGoesOn(cfg, t.p, s[n], Guess(s).value);
      QuietByte(cfg, t, s[n], Feed(cfg, t.p, s[n]).p);
    }
  }

  /** A method's name and a space. */
  lemma MethodDecoded(cfg: Config, r: Run, m: Method, s: seq<byte>)
    requires r.halt.Go? && r.p.state.StartReq? && s == MethodName(m) && r.p.nread + |s| < cfg.maxHeader
    ensures RunBytes(cfg, r, s + [' ']) ==
            Run(Guessed(r.p, |s|, m).(nread := r.p.nread + |s| + 1, state := ReqSpacesBeforeUrl,
                                      h := Cleared(r.p).h.(index := |s| + 1)),
                r.out + [Happened(MessageBegin)], Go)
  {
    hide One, Feed, RunBytes, MethodName, Guess;
    NameLetters(m);
    WholeName(s, m);
    NoSpace(s);
    MethodRead(cfg, r, s);
    var t := RunBytes(cfg, r, s);
    RunLast(cfg, r, s, ' ');
    MethodEnds(cfg, t.p);
    QuietByte(cfg, t, ' ', Feed(cfg, t.p, ' ').p);
  }

  lemma NoSpace(s: seq<byte>)
    requires forall k :: 0 <= k < |s| ==> IsLetter(s[k])
    ensures ' ' !in s
  {}

  // ----- the target

  predicate IsVisible(c: byte) {
    '!' <= c <= '~'
  }

  /** A path, with a query and a fragment or not; or "*". */
  predicate IsTarget(url: seq<byte>) {
    url != [] && (url[0] == '/' || url[0] == '*') && forall k :: 0 <= k < |url| ==> IsVisible(url[k])
  }

  predicate InTarget(s: State) {
    s.ReqPath? || s.ReqQueryStringStart? || s.ReqQueryString? || s.ReqFragmentStart? || s.ReqFragment?
  }

  lemma TargetStarts(cfg: Config, q: Parser, ch: byte)
    requires q.state.ReqSpacesBeforeUrl? && q.nread < cfg.maxHeader && !q.line.method_.CONNECT?
    requires ch == '/' || ch == '*'
    ensures Feed(cfg, q, ch) == Ok(q.(nread := q.nread + 1, state := ReqPath), [Mark(Url)])
  {
    assert [Mark(Url)] + [] == [Mark(Url)];
  }

  /** In the target any visible character goes on. */
  lemma VisibleGoesOn(s: State, ch: byte)
    requires InTarget(s)
    ensures IsVisible(ch) ==> InTarget(ParseUrlChar(s, ch))
    ensures ch != ' ' && !IsVisible(ch) ==> ParseUrlChar(s, ch).Dead?
  {}

  lemma TargetGoesOn(cfg: Config, q: Parser, ch: byte)
    requires InTarget(q.state) && q.nread < cfg.maxHeader && IsVisible(ch)
    ensures Feed(cfg, q, ch) == Ok(q.(nread := q.nread + 1, state := ParseUrlChar(q.state, ch)), [])
  {
    hide ParseUrlChar;
    VisibleGoesOn(q.state, ch);
  }

  lemma TargetEnds(cfg: Config, q: Parser)
    requires InTarget(q.state) && q.nread < cfg.maxHeader
    ensures Feed(cfg, q, ' ') == Ok(q.(nread := q.nread + 1, state := ReqHttpStart), [Flush(Url)])
  {
    hide ParseUrlChar;
  }

  lemma TargetOpen(s: State)
    requires InTarget(s)
    ensures OpenOf(s) == Some(Url)
  {}

  lemma TargetFirst(cfg: Config, r: Run, ch: byte)
    requires r.halt.Go? && r.p.state.ReqSpacesBeforeUrl? && r.p.nread < cfg.maxHeader && !r.p.line.method_.CONNECT?
    requires (ch == '/' || ch == '*') && !EndsIn(r.out, Url)
    ensures One(cfg, r, ch) ==
            Run(r.p.(nread := r.p.nread + 1, state := ReqPath), r.out + [Data(Url, [ch])], Go)
  {
    hide One, Feed;
    TargetStarts(cfg, r.p, ch);
    MarkByte(cfg, r, Url, ch, Feed(cfg, r.p, ch).p);
  }

  lemma TargetNext(cfg: Config, r: Run, out: seq<Event>, a: seq<byte>, ch: byte)
    requires r.halt.Go? && InTarget(r.p.state) && r.p.nread < cfg.maxHeader && IsVisible(ch)
    requires r.out == out + [Data(Url, a)]
    ensures One(cfg, r, ch) ==
            Run(r.p.(nread := r.p.nread + 1, state := ParseUrlChar(r.p.state, ch)), out + [Data(Url, a + [ch])], Go)
  {
    hide One, Feed, ParseUrlChar, Push, InTarget, OpenOf;
    TargetGoesOn(cfg, r.p, ch);
    TargetOpen(r.p.state);
    FieldByte(cfg, r, Url, ch, Feed(cfg, r.p, ch).p);
    FieldGrows(out, Url, a, ch);
  }

  lemma {:induction false} TargetRead(cfg: Config, r: Run, url: seq<byte>)
    requires r.halt.Go? && r.p.state.ReqSpacesBeforeUrl? && !r.p.line.method_.CONNECT? && !EndsIn(r.out, Url)
    requires IsTarget(url) && r.p.nread + |url| <= cfg.maxHeader
    ensures var t := RunBytes(cfg, r, url);
            && t.halt.Go? && t.out == r.out + [Data(Url, url)] && InTarget(t.p.state)
            && t.p == r.p.(nread := r.p.nread + |url|, state := t.p.state)
  {
    hide One, RunBytes, ParseUrlChar, IsVisible, EndsIn, InTarget;
    var n := |url| - 1;
    assert url == url[..n] + [url[n]];
    RunLast(cfg, r, url[..n], url[n]);
    if n == 0 {
      RunNone(cfg, r);
      TargetFirst(cfg, r, url[0]);
      assert InTarget(ReqPath) by { PathIsTarget(); }
    } else {
      TargetRead(cfg, r, url[..n]);
      var t := RunBytes(cfg, r, url[..n]);
      TargetNext(cfg, t, r.out, url[..n], url[n]);
      VisibleGoesOn(t.p.state, url[n]);
    }
  }

  lemma PathIsTarget()
    ensures InTarget(ReqPath)
  {}

  // ----- the version

  /** The next byte of "HTTP/" and what it leads to, in a request or a response. */
  function Letter(s: State): Option<(byte, State)> {
    match s
    case ReqHttpStart => Some(('H', ReqHttpH))
    case ReqHttpH => Some(('T', ReqHttpHT))
    case ReqHttpHT => Some(('T', ReqHttpHTT))
    case ReqHttpHTT => Some(('P', ReqHttpHTTP))
    case ReqHttpHTTP => Some(('/', ReqHttpMajor))
    case ReqHttpDot => Some(('.', ReqHttpMinor))
    case ReqHttpEnd => Some((CR, ReqLineAlmostDone))
    case ReqLineAlmostDone => Some((LF, HeaderFieldStart))
    case ResH => Some(('T', ResHT))
    case ResHT => Some(('T', ResHTT))
    case ResHTT => Some(('P', ResHTTP))
    case ResHTTP => Some(('/', ResHttpMajor))
    case ResHttpDot => Some(('.', ResHttpMinor))
    case ResHttpEnd => Some((' ', ResFirstStatusCode))
    case ResLineAlmostDone => Some((LF, HeaderFieldStart))
    case _ => None
  }

  lemma LetterFeed(cfg: Config, q: Parser)
    requires Letter(q.state).Some? && q.nread < cfg.maxHeader
    ensures Feed(cfg, q, Letter(q.state).value.0) ==
            Ok(q.(nread := q.nread + 1, state := Letter(q.state).value.1), [])
  {}

  lemma LetterRead(cfg: Config, r: Run)
    requires r.halt.Go? && Letter(r.p.state).Some? && r.p.nread < cfg.maxHeader
    ensures One(cfg, r, Letter(r.p.state).value.0) ==
            r.(p := r.p.(nread := r.p.nread + 1, state := Letter(r.p.state).value.1))
  {
    hide One, Feed;
    LetterFeed(cfg, r.p);
    var ch := Letter(r.p.state).value.0;
    QuietByte(cfg, r, ch, Feed(cfg, r.p, ch).p);
  }

  lemma VersionFeed(cfg: Config, q: Parser, ch: byte)
    requires q.nread < cfg.maxHeader && IsNum(ch)
    ensures q.state.ReqHttpMajor? ==>
              Feed(cfg, q, ch) == Ok(q.(nread := q.nread + 1, state := ReqHttpDot,
                                        line := q.line.(major := Digit(ch))), [])
    ensures q.state.ReqHttpMinor? ==>
              Feed(cfg, q, ch) == Ok(q.(nread := q.nread + 1, state := ReqHttpEnd,
                                        line := q.line.(minor := Digit(ch))), [])
    ensures q.state.ResHttpMajor? ==>
              Feed(cfg, q, ch) == Ok(q.(nread := q.nread + 1, state := ResHttpDot,
                                        line := q.line.(major := Digit(ch))), [])
    ensures q.state.ResHttpMinor? ==>
              Feed(cfg, q, ch) == Ok(q.(nread := q.nread + 1, state := ResHttpEnd,
                                        line := q.line.(minor := Digit(ch))), [])
  {}

  function Follow(s: State, w: seq<byte>): Option<State> {
    if w == [] then Some(s)
    else
      match Follow(s, w[..|w| - 1])
      case None => None
      case Some(t) =>
        if Letter(t).Some? && Letter(t).value.0 == w[|w| - 1] then Some(Letter(t).value.1) else None
  }

  lemma {:induction false} LettersRead(cfg: Config, r: Run, w: seq<byte>)
    requires r.halt.Go? && Follow(r.p.state, w).Some? && r.p.nread + |w| <= cfg.maxHeader
    ensures RunBytes(cfg, r, w) ==
            r.(p := r.p.(nread := r.p.nread + |w|, state := Follow(r.p.state, w).value))
  {
    hide One, RunBytes, Letter;
    if w == [] {
      RunNone(cfg, r);
    } else {
      var n := |w| - 1;
      assert w == w[..n] + [w[n]];
      LettersRead(cfg, r, w[..n]);
      RunLast(cfg, r, w[..n], w[n]);
      LetterRead(cfg, RunBytes(cfg, r, w[..n]));
    }
  }

  const HTTP_SLASH: seq<byte> := ['H', 'T', 'T', 'P', '/']
  const TTP_SLASH: seq<byte> := ['T', 'T', 'P', '/']
  const DOT: seq<byte> := ['.']

  lemma FollowOn(s: State, w: seq<byte>, t: State, ch: byte, t': State, v: seq<byte>)
    requires Follow(s, w) == Some(t) && Letter(t) == Some((ch, t')) && v == w + [ch]
    ensures Follow(s, v) == Some(t')
  {
    hide Letter;
    assert v[..|w|] == w;
  }

  lemma RequestWord()
    ensures Follow(ReqHttpStart, HTTP_SLASH) == Some(ReqHttpMajor)
  {
    hide Follow;
    assert Follow(ReqHttpStart, []) == Some(ReqHttpStart) by { FollowNone(ReqHttpStart); }
    FollowOn(ReqHttpStart, [], ReqHttpStart, 'H', ReqHttpH, ['H']);
    FollowOn(ReqHttpStart, ['H'], ReqHttpH, 'T', ReqHttpHT, ['H', 'T']);
    FollowOn(ReqHttpStart, ['H', 'T'], ReqHttpHT, 'T', ReqHttpHTT, ['H', 'T', 'T']);
    FollowOn(ReqHttpStart, ['H', 'T', 'T'], ReqHttpHTT, 'P', ReqHttpHTTP, ['H', 'T', 'T', 'P']);
    FollowOn(ReqHttpStart, ['H', 'T', 'T', 'P'], ReqHttpHTTP, '/', ReqHttpMajor, HTTP_SLASH);
  }

  lemma StatusWord()
    ensures Follow(ResH, TTP_SLASH) == Some(ResHttpMajor)
  {
    hide Follow;
    assert Follow(ResH, []) == Some(ResH) by { FollowNone(ResH); }
    FollowOn(ResH, [], ResH, 'T', ResHT, ['T']);
    FollowOn(ResH, ['T'], ResHT, 'T', ResHTT, ['T', 'T']);
    FollowOn(ResH, ['T', 'T'], ResHTT, 'P', ResHTTP, ['T', 'T', 'P']);
    FollowOn(ResH, ['T', 'T', 'P'], ResHTTP, '/', ResHttpMajor, TTP_SLASH);
  }

  lemma FollowNone(s: State)
    ensures Follow(s, []) == Some(s)
  {}

  lemma Dots()
    ensures Follow(ReqHttpDot, DOT) == Some(ReqHttpMinor) && Follow(ResHttpDot, DOT) == Some(ResHttpMinor)
  {
    hide Follow;
    FollowNone(ReqHttpDot);
    FollowNone(ResHttpDot);
    FollowOn(ReqHttpDot, [], ReqHttpDot, '.', ReqHttpMinor, DOT);
    FollowOn(ResHttpDot, [], ResHttpDot, '.', ResHttpMinor, DOT);
  }

  lemma LineEnd()
    ensures Follow(ReqHttpEnd, CRLF) == Some(HeaderFieldStart)
    ensures Follow(ResHttpEnd, [' ']) == Some(ResFirstStatusCode)
    ensures Follow(ResLineAlmostDone, [LF]) == Some(HeaderFieldStart)
  {
    hide Follow;
    FollowNone(ReqHttpEnd);
    FollowNone(ResHttpEnd);
    FollowNone(ResLineAlmostDone);
    FollowOn(ReqHttpEnd, [], ReqHttpEnd, CR, ReqLineAlmostDone, [CR]);
    FollowOn(ReqHttpEnd, [CR], ReqLineAlmostDone, LF, HeaderFieldStart, CRLF);
    FollowOn(ResHttpEnd, [], ResHttpEnd, ' ', ResFirstStatusCode, [' ']);
    FollowOn(ResLineAlmostDone, [], ResLineAlmostDone, LF, HeaderFieldStart, [LF]);
  }

  /** One digit of the version. */
  lemma VersionDigit(cfg: Config, r: Run, ch: byte)
    requires r.halt.Go? && r.p.nread < cfg.maxHeader && IsNum(ch)
    requires r.p.state.ReqHttpMajor? || r.p.state.ReqHttpMinor? || r.p.state.ResHttpMajor? || r.p.state.ResHttpMinor?
    ensures RunBytes(cfg, r, [ch]) ==
            r.(p := r.p.(nread := r.p.nread + 1,
                         state := if r.p.state.ReqHttpMajor? then ReqHttpDot else if r.p.state.ReqHttpMinor? then
                                    ReqHttpEnd else if r.p.state.ResHttpMajor? then ResHttpDot else ResHttpEnd,
                         line := if r.p.state.ReqHttpMajor? || r.p.state.ResHttpMajor? then
                                   r.p.line.(major := Digit(ch))
                                 else r.p.line.(minor := Digit(ch))))
  {
    hide One, Feed, RunBytes, Digit, IsNum;
    RunNone(cfg, r);
    RunLast(cfg, r, [], ch);
    assert [] + [ch] == [ch];
    VersionFeed(cfg, r.p, ch);
    QuietByte(cfg, r, ch, Feed(cfg, r.p, ch).p);
  }

  /** digit, dot, digit */
  function Version(a: byte, b: byte): seq<byte> {
    [a] + (DOT + [b])
  }

  lemma VersionRead(cfg: Config, r: Run, a: byte, b: byte)
    requires r.halt.Go? && r.p.nread + 3 <= cfg.maxHeader && IsNum(a) && IsNum(b)
    requires r.p.state.ReqHttpMajor? || r.p.state.ResHttpMajor?
    ensures RunBytes(cfg, r, Version(a, b)) ==
            r.(p := r.p.(nread := r.p.nread + 3, state := if r.p.state.ReqHttpMajor? then ReqHttpEnd else ResHttpEnd,
                         line := r.p.line.(major := Digit(a), minor := Digit(b))))
  {
    hide RunBytes, Digit, IsNum, Follow;
    Dots();
    VersionDigit(cfg, r, a);
    var t := RunBytes(cfg, r, [a]);
    RunConcat(cfg, r, [a], DOT + [b]);
    LettersRead(cfg, t, DOT);
    var u := RunBytes(cfg, t, DOT);
    RunConcat(cfg, t, DOT, [b]);
    VersionDigit(cfg, u, b);
  }

  // ----- the request line

  datatype RequestLine = RequestLine(method_: Method, name: seq<byte>, target: seq<byte>, major: byte, minor: byte)

  predicate IsRequestLine(l: RequestLine) {
    && l.name == MethodName(l.method_) && !l.method_.CONNECT? && IsTarget(l.target)
    && IsNum(l.major) && IsNum(l.minor)
  }

  function EncodeRequest(l: RequestLine): seq<byte> {
    l.name + [' '] + (l.target + ([' '] + (HTTP_SLASH + (Version(l.major, l.minor) + CRLF))))
  }

  /** The parser at the first header of a message with that first line. */
  ghost predicate AtHeaders(p: Parser, q: Parser, n: nat, line: Line) {
    && q.state.HeaderFieldStart? && q.nread == p.nread + n && q.line == line
    && q.h.flags == NO_FLAGS && !q.h.usesTe && q.h.contentLength == UNSET
    && q.upgrade == p.upgrade && q.lenient == p.lenient && q.allowChunkedLength == p.allowChunkedLength
  }

  lemma AfterTarget(cfg: Config, r: Run, a: byte, b: byte)
    requires r.halt.Go? && InTarget(r.p.state) && EndsIn(r.out, Url) && IsNum(a) && IsNum(b)
    requires r.p.nread + 11 <= cfg.maxHeader
    ensures RunBytes(cfg, r, [' '] + (HTTP_SLASH + (Version(a, b) + CRLF))) ==
            r.(p := r.p.(nread := r.p.nread + 11, state := HeaderFieldStart,
                         line := r.p.line.(major := Digit(a), minor := Digit(b))))
  {
    hide RunBytes, One, Feed, Digit, IsNum, Follow, Version, InTarget, OpenOf;
    RequestWord();
    LineEnd();
    RunConcat(cfg, r, [' '], HTTP_SLASH + (Version(a, b) + CRLF));
    RunNone(cfg, r);
    RunLast(cfg, r, [], ' ');
    assert [] + [' '] == [' '];
    TargetEnds(cfg, r.p);
    TargetOpen(r.p.state);
    EndByte(cfg, r, Url, ' ', Feed(cfg, r.p, ' ').p);
    var t := RunBytes(cfg, r, [' ']);
    RunConcat(cfg, t, HTTP_SLASH, Version(a, b) + CRLF);
    LettersRead(cfg, t, HTTP_SLASH);
    var u := RunBytes(cfg, t, HTTP_SLASH);
    RunConcat(cfg, u, Version(a, b), CRLF);
    VersionRead(cfg, u, a, b);
    LettersRead(cfg, RunBytes(cfg, u, Version(a, b)), CRLF);
  }

  /** A request line: the parser has its method and version, and its target is handed
      over whole. */
  lemma RequestLineDecoded(cfg: Config, r: Run, l: RequestLine)
    requires r.halt.Go? && r.p.state.StartReq? && IsRequestLine(l)
    requires r.p.nread + |EncodeRequest(l)| <= cfg.maxHeader
    ensures var t := RunBytes(cfg, r, EncodeRequest(l));
            && t.halt.Go? && t.out == r.out + [Happened(MessageBegin), Data(Url, l.target)]
            && AtHeaders(r.p, t.p, |EncodeRequest(l)|,
                         r.p.line.(method_ := l.method_, major := Digit(l.major), minor := Digit(l.minor)))
  {
    hide RunBytes, MethodName, Digit, IsNum, IsTarget, InTarget, Version;
    var rest := [' '] + (HTTP_SLASH + (Version(l.major, l.minor) + CRLF));
    assert |Version(l.major, l.minor)| == 3 by { VersionLength(l.major, l.minor); }
    MethodDecoded(cfg, r, l.method_, l.name);
    var t := RunBytes(cfg, r, l.name + [' ']);
    RunConcat(cfg, r, l.name + [' '], l.target + rest);
    TargetRead(cfg, t, l.target);
    var u := RunBytes(cfg, t, l.target);
    RunConcat(cfg, t, l.target, rest);
    AfterTarget(cfg, u, l.major, l.minor);
    assert r.out + [Happened(MessageBegin)] + [Data(Url, l.target)]
           == r.out + [Happened(MessageBegin), Data(Url, l.target)];
  }

  lemma VersionLength(a: byte, b: byte)
    ensures |Version(a, b)| == 3
  {}

  // ----- the status line

  lemma ResponseStarts(cfg: Config, q: Parser)
    requires q.state.StartRes? && q.nread < cfg.maxHeader
    ensures Feed(cfg, q, 'H') == Ok(Cleared(q).(nread := q.nread + 1, state := ResH), [Note(MessageBegin)])
  {}

  lemma StatusFeed(cfg: Config, q: Parser, ch: byte)
    requires q.nread < cfg.maxHeader && IsNum(ch)
    ensures q.state.ResFirstStatusCode? ==>
              Feed(cfg, q, ch) ==
              Ok(q.(nread := q.nread + 1, state := ResStatusCode, line := q.line.(status := Digit(ch))), [])
    ensures q.state.ResStatusCode? ==>
              var n := q.line.status * 10 + Digit(ch);
              if n > 999 then Feed(cfg, q, ch).halt.Fail?
              else Feed(cfg, q, ch) == Ok(q.(nread := q.nread + 1, line := q.line.(status := n)), [])
  {}

  /** The parser after the digits of a status. */
  function StatusIs(p: Parser, n: nat, status: nat): Parser {
    p.(nread := p.nread + n, state := ResStatusCode, line := p.line.(status := status))
  }

  /** A status is taken if and only if it is at most 999, and then it is the number
      written. */
  lemma {:induction false} StatusRead(cfg: Config, r: Run, ds: seq<byte>)
    requires r.halt.Go? && r.p.state.ResFirstStatusCode? && Numeral(10, ds) && r.p.nread + |ds| <= cfg.maxHeader
    ensures Value(10, ds) >= 0
    ensures if Value(10, ds) <= 999 then
              RunBytes(cfg, r, ds) == r.(p := StatusIs(r.p, |ds|, Value(10, ds)))
            else RunBytes(cfg, r, ds).halt.Fail?
  {
    hide One, Feed, RunBytes, IsNum, Digit, Value;
    var n := |ds| - 1;
    assert ds == ds[..n] + [ds[n]];
    StatusValue(ds);
    RunLast(cfg, r, ds[..n], ds[n]);
    if n == 0 {
      RunNone(cfg, r);
      StatusFeed(cfg, r.p, ds[0]);
      QuietByte(cfg, r, ds[0], Feed(cfg, r.p, ds[0]).p);
    } else {
      StatusRead(cfg, r, ds[..n]);
      StatusNext(cfg, RunBytes(cfg, r, ds[..n]), ds[n]);
    }
  }

  lemma StatusValue(ds: seq<byte>)
    requires Numeral(10, ds)
    ensures forall k :: 0 <= k < |ds| ==> IsNum(ds[k])
    ensures Value(10, ds) >= 0
    ensures |ds| == 1 ==> Value(10, ds) == Digit(ds[0]) <= 9
    ensures |ds| > 1 ==> Numeral(10, ds[..|ds| - 1]) && Value(10, ds[..|ds| - 1]) >= 0
                         && Value(10, ds) == Value(10, ds[..|ds| - 1]) * 10 + Digit(ds[|ds| - 1])
  {
    ValueNat(10, ds);
    forall k | 0 <= k < |ds|
      ensures IsNum(ds[k])
    {
      assert DigitValue(10, ds[k]) >= 0;
    }
    if |ds| == 1 {
      assert ds[..0] == [];
    } else {
      ValueNat(10, ds[..|ds| - 1]);
    }
  }

  lemma StatusNext(cfg: Config, r: Run, ch: byte)
    requires IsNum(ch) && (r.halt.Go? ==> r.p.state.ResStatusCode? && r.p.nread < cfg.maxHeader)
    ensures r.halt.Fail? ==> One(cfg, r, ch) == r
    ensures r.halt.Go? ==>
              var n := r.p.line.status * 10 + Digit(ch);
              if n > 999 then One(cfg, r, ch).halt.Fail?
              else One(cfg, r, ch) == r.(p := r.p.(nread := r.p.nread + 1, line := r.p.line.(status := n)))
  {
    hide Feed, IsNum, Digit, Merge, Flushed, Do;
    if r.halt.Go? {
      StatusFeed(cfg, r.p, ch);
      if r.p.line.status * 10 + Digit(ch) > 999 {
        OneFails(cfg, r, ch);
      } else {
        QuietByte(cfg, r, ch, Feed(cfg, r.p, ch).p);
      }
    }
  }

  predicate IsReason(s: seq<byte>) {
    s != [] && forall k :: 0 <= k < |s| ==> s[k] != CR && s[k] != LF
  }

  lemma ReasonFeed(cfg: Config, q: Parser, ch: byte)
    requires q.nread < cfg.maxHeader
    ensures q.state.ResStatusCode? && ch == ' ' ==>
              Feed(cfg, q, ch) == Ok(q.(nread := q.nread + 1, state := ResStatusStart), [])
    ensures q.state.ResStatusStart? && ch != CR && ch != LF ==>
              Feed(cfg, q, ch) ==
              Ok(q.(nread := q.nread + 1, state := ResStatus, h := q.h.(index := 0)), [Mark(Status)])
    ensures q.state.ResStatus? && ch != CR && ch != LF ==> Feed(cfg, q, ch) == Ok(q.(nread := q.nread + 1), [])
    ensures q.state.ResStatus? && ch == CR ==>
              Feed(cfg, q, ch) == Ok(q.(nread := q.nread + 1, state := ResLineAlmostDone), [Flush(Status)])
  {
    assert [Mark(Status)] + [] == [Mark(Status)];
  }

  lemma {:induction false} ReasonRead(cfg: Config, r: Run, s: seq<byte>)
    requires r.halt.Go? && r.p.state.ResStatusStart? && IsReason(s) && r.p.nread + |s| <= cfg.maxHeader
    requires !EndsIn(r.out, Status)
    ensures RunBytes(cfg, r, s) ==
            Run(r.p.(nread := r.p.nread + |s|, state := ResStatus, h := r.p.h.(index := 0)),
                r.out + [Data(Status, s)], Go)
  {
    hide One, Feed, RunBytes;
    var n := |s| - 1;
    assert s == s[..n] + [s[n]];
    RunLast(cfg, r, s[..n], s[n]);
    if n == 0 {
      RunNone(cfg, r);
      ReasonFeed(cfg, r.p, s[0]);
      MarkByte(cfg, r, Status, s[0], Feed(cfg, r.p, s[0]).p);
    } else {
      ReasonRead(cfg, r, s[..n]);
      var t := RunBytes(cfg, r, s[..n]);
      ReasonFeed(cfg, t.p, s[n]);
      FieldByte(cfg, t, Status, s[n], Feed(cfg, t.p, s[n]).p);
      FieldGrows(r.out, Status, s[..n], s[n]);
    }
  }

  datatype StatusLine = StatusLine(major: byte, minor: byte, digits: seq<byte>, reason: seq<byte>)

  predicate IsStatusLine(l: StatusLine) {
    && IsNum(l.major) && IsNum(l.minor) && Numeral(10, l.digits) && 0 <= Value(10, l.digits) <= 999
    && IsReason(l.reason)
  }

  function EncodeStatus(l: StatusLine): seq<byte> {
    ['H'] + (TTP_SLASH + (Version(l.major, l.minor) + ([' '] + (l.digits + [' '] + (l.reason + CRLF)))))
  }

  /** The digits and the space after them. */
  lemma StatusSpace(cfg: Config, r: Run, ds: seq<byte>)
    requires r.halt.Go? && r.p.state.ResFirstStatusCode? && Numeral(10, ds) && 0 <= Value(10, ds) <= 999
    requires r.p.nread + |ds| < cfg.maxHeader
    ensures RunBytes(cfg, r, ds + [' ']) ==
            r.(p := StatusIs(r.p, |ds|, Value(10, ds)).(nread := r.p.nread + |ds| + 1, state := ResStatusStart))
  {
    hide RunBytes, One, Feed, Numeral, Value;
    StatusRead(cfg, r, ds);
    var t := RunBytes(cfg, r, ds);
    RunLast(cfg, r, ds, ' ');
    ReasonFeed(cfg, t.p, ' ');
    QuietByte(cfg, t, ' ', Feed(cfg, t.p, ' ').p);
  }

  lemma ReasonDone(cfg: Config, r: Run)
    requires r.halt.Go? && r.p.state.ResStatus? && EndsIn(r.out, Status) && r.p.nread + 2 <= cfg.maxHeader
    ensures RunBytes(cfg, r, CRLF) == r.(p := r.p.(nread := r.p.nread + 2, state := HeaderFieldStart))
  {
    hide RunBytes, One, Feed;
    RunTwo(cfg, r, CR, LF);
    ReasonFeed(cfg, r.p, CR);
    EndByte(cfg, r, Status, CR, Feed(cfg, r.p, CR).p);
    LetterRead(cfg, One(cfg, r, CR));
  }

  /** From the status on. */
  lemma AfterVersion(cfg: Config, r: Run, ds: seq<byte>, reason: seq<byte>)
    requires r.halt.Go? && r.p.state.ResFirstStatusCode? && Numeral(10, ds) && 0 <= Value(10, ds) <= 999
    requires IsReason(reason) && r.p.nread + |ds| + |reason| + 3 <= cfg.maxHeader && !EndsIn(r.out, Status)
    ensures RunBytes(cfg, r, ds + [' '] + (reason + CRLF)) ==
            Run(r.p.(nread := r.p.nread + |ds| + |reason| + 3, state := HeaderFieldStart,
                     line := r.p.line.(status := Value(10, ds)), h := r.p.h.(index := 0)),
                r.out + [Data(Status, reason)], Go)
  {
    hide RunBytes, Numeral, Value, IsReason;
    StatusSpace(cfg, r, ds);
    var t := RunBytes(cfg, r, ds + [' ']);
    RunConcat(cfg, r, ds + [' '], reason + CRLF);
    ReasonRead(cfg, t, reason);
    RunConcat(cfg, t, reason, CRLF);
    ReasonDone(cfg, RunBytes(cfg, t, reason));
  }

  /** A status line: the parser has its version and status, and its reason is handed over
      whole. */
  lemma StatusLineDecoded(cfg: Config, r: Run, l: StatusLine)
    requires r.halt.Go? && r.p.state.StartRes? && IsStatusLine(l)
    requires r.p.nread + |EncodeStatus(l)| <= cfg.maxHeader
    ensures var t := RunBytes(cfg, r, EncodeStatus(l));
            && t.halt.Go? && t.out == r.out + [Happened(MessageBegin), Data(Status, l.reason)]
            && AtHeaders(r.p, t.p, |EncodeStatus(l)|,
                         r.p.line.(major := Digit(l.major), minor := Digit(l.minor), status := Value(10, l.digits)))
  {
    hide RunBytes, One, Feed, Numeral, Value, IsReason, Follow, Version, IsNum, Digit;
    StatusWord();
    LineEnd();
    StatusValue(l.digits);
    VersionLength(l.major, l.minor);
    var d := l.digits + [' '] + (l.reason + CRLF);
    var c := [' '] + d;
    var b := Version(l.major, l.minor) + c;
    RunConcat(cfg, r, ['H'], TTP_SLASH + b);
    RunNone(cfg, r);
    RunLast(cfg, r, [], 'H');
    assert [] + ['H'] == ['H'];
    ResponseStarts(cfg, r.p);
    NoteByte(cfg, r, 'H', Feed(cfg, r.p, 'H').p, MessageBegin);
    var t := RunBytes(cfg, r, ['H']);
    RunConcat(cfg, t, TTP_SLASH, b);
    LettersRead(cfg, t, TTP_SLASH);
    var u := RunBytes(cfg, t, TTP_SLASH);
    RunConcat(cfg, u, Version(l.major, l.minor), c);
    VersionRead(cfg, u, l.major, l.minor);
    var v := RunBytes(cfg, u, Version(l.major, l.minor));
    RunConcat(cfg, v, [' '], d);
    LettersRead(cfg, v, [' ']);
    AfterVersion(cfg, RunBytes(cfg, v, [' ']), l.digits, l.reason);
    assert r.out + [Happened(MessageBegin)] + [Data(Status, l.reason)]
           == r.out + [Happened(MessageBegin), Data(Status, l.reason)];
  }
}
