/** http_parser: the names of headers are matched character by character, in any
    case. What the matcher has recognised at the end of a name depends on the
    name alone. */
module HttpNames {
  import opened HttpStep

  /** A name: token characters, at least one. */
  predicate IsName(name: seq<byte>) {
    name != [] && forall k :: 0 <= k < |name| ==> Token(name[k]) != '\0'
  }

  /** The name in lower case. */
  function Low(name: seq<byte>): (l: string)
    ensures |l| == |name| && forall k :: 0 <= k < |name| ==> l[k] == Token(name[k])
  {
    seq(|name|, k requires 0 <= k < |name| => Token(name[k]))
  }

  /** The headers' part of the parser after the name, read from the start of a
      line. */
  function Named(h: Headers, name: seq<byte>): Headers
    requires name != []
  {
    if |name| == 1 then h.(index := 0, hstate := FirstHeaderState(Token(name[0])))
    else NameChar(Named(h, name[..|name| - 1]), name[|name| - 1])
  }

  const CONNECTION := "connection"
  const PROXY_CONNECTION := "proxy-connection"
  const CONTENT_LENGTH := "content-length"
  const TRANSFER_ENCODING := "transfer-encoding"
  const UPGRADE := "upgrade"

  /** What there is to recognise: one of five words, or the beginning of one. */
  function Recognised(l: string): HeaderState {
    if l == CONNECTION || l == PROXY_CONNECTION then Connection
    else if l == CONTENT_LENGTH then ContentLength
    else if l == TRANSFER_ENCODING then TransferEncoding
    else if l == UPGRADE then Upgrade
    else if l == "c" then C
    else if l == "co" then CO
    else if l == "con" then CON
    else if l <= CONNECTION then MatchingConnection
    else if l <= PROXY_CONNECTION then MatchingProxyConnection
    else if l <= CONTENT_LENGTH then MatchingContentLength
    else if l <= TRANSFER_ENCODING then MatchingTransferEncoding
    else if l <= UPGRADE then MatchingUpgrade
    else General
  }

  /** The matcher is where the name is. */
  predicate Tracks(h: Headers, l: string) {
    && h.hstate == Recognised(l)
    && (h.hstate.General? || h.index == |l| - 1)
  }

  lemma Longer(l: string, c: char, word: string)
    requires l != []
    ensures l + [c] <= word <==> l <= word && |l| < |word| && word[|l|] == c
  {
    if l + [c] <= word {
      assert l == (l + [c])[..|l|] && (l + [c])[|l|] == c;
    }
  }

  /** A name that is the beginning of a word is the beginning of no other, but for
      the two that begin alike. */
  lemma Apart(l: string)
    requires l != []
    ensures l <= PROXY_CONNECTION ==> l[0] == 'p'
    ensures l <= TRANSFER_ENCODING ==> l[0] == 't'
    ensures l <= UPGRADE ==> l[0] == 'u'
    ensures l <= CONNECTION || l <= CONTENT_LENGTH ==> l[0] == 'c'
    ensures |l| > 3 && l <= CONNECTION ==> l[3] == 'n'
    ensures |l| > 3 && l <= CONTENT_LENGTH ==> l[3] == 't'
  {}

  /** One more character of a word under way. */
  lemma WordGoesOn(h: Headers, l: string, c: char, word: string, found: HeaderState)
    requires 0 < |l| < |word| && l <= word && h.index == |l| - 1
    ensures var g := Matching(h, c, word, found, General);
            if l + [c] == word then g.hstate == found && g.index == |l|
            else if l + [c] <= word then g.hstate == h.hstate && g.index == |l|
            else g.hstate.General?
  {
    Longer(l, c, word);
    if l + [c] <= word && |l| + 1 == |word| {
      assert l + [c] == word;
    }
  }

  lemma FirstTracks(h: Headers, ch: byte)
    ensures Tracks(Named(h, [ch]), Low([ch]))
  {
    assert Low([ch]) == [Token(ch)];
  }

  /** The reading of Recognised, word by word. */
  lemma WordByWord(l: string)
    requires l != []
    ensures Recognised(l).Connection? <==> l == CONNECTION || l == PROXY_CONNECTION
    ensures Recognised(l).ContentLength? <==> l == CONTENT_LENGTH
    ensures Recognised(l).TransferEncoding? <==> l == TRANSFER_ENCODING
    ensures Recognised(l).Upgrade? <==> l == UPGRADE
    ensures Recognised(l).C? <==> l == "c"
    ensures Recognised(l).CO? <==> l == "co"
    ensures Recognised(l).CON? <==> l == "con"
    ensures Recognised(l).MatchingConnection? <==> l <= CONNECTION && 3 < |l| < |CONNECTION|
    ensures Recognised(l).MatchingContentLength? <==> l <= CONTENT_LENGTH && 3 < |l| < |CONTENT_LENGTH|
    ensures Recognised(l).MatchingProxyConnection? <==> l <= PROXY_CONNECTION && |l| < |PROXY_CONNECTION|
    ensures Recognised(l).MatchingTransferEncoding? <==> l <= TRANSFER_ENCODING && |l| < |TRANSFER_ENCODING|
    ensures Recognised(l).MatchingUpgrade? <==> l <= UPGRADE && |l| < |UPGRADE|
    ensures Recognised(l).General? <==>
              !(l <= CONNECTION) && !(l <= PROXY_CONNECTION) && !(l <= CONTENT_LENGTH) && !(l <= TRANSFER_ENCODING)
              && !(l <= UPGRADE)
  {
    Apart(l);
  }

  /** The words that a matcher's state may still turn into. */
  function WordOf(s: HeaderState): string {
    match s
    case MatchingConnection => CONNECTION
    case MatchingProxyConnection => PROXY_CONNECTION
    case MatchingContentLength => CONTENT_LENGTH
    case MatchingTransferEncoding => TRANSFER_ENCODING
    case MatchingUpgrade => UPGRADE
    case _ => ""
  }

  function FoundOf(s: HeaderState): HeaderState {
    match s
    case MatchingConnection | MatchingProxyConnection => Connection
    case MatchingContentLength => ContentLength
    case MatchingTransferEncoding => TransferEncoding
    case _ => Upgrade
  }

  /** A longer name is recognised by the word its beginning belongs to, or not at
      all. */
  lemma LongerReading(l: string, c: char)
    requires l != [] && WordOf(Recognised(l)) != ""
    ensures var s := Recognised(l);
            Recognised(l + [c]) ==
            if l + [c] == WordOf(s) then FoundOf(s) else if l + [c] <= WordOf(s) then s else General
  {
    hide Recognised;
    WordByWord(l);
    WordByWord(l + [c]);
    Apart(l);
    Apart(l + [c]);
    Longer(l, c, WordOf(Recognised(l)));
  }

  lemma ShortReading(l: string, c: char)
    requires l == "c" || l == "co" || l == "con"
    ensures Recognised(l + [c]) ==
            if l == "c" && c == 'o' then CO else if l == "co" && c == 'n' then CON
            else if l == "con" && c == 'n' then MatchingConnection
            else if l == "con" && c == 't' then MatchingContentLength
            else General
  {
    assert |l + [c]| == |l| + 1 && (l + [c])[|l|] == c;
    assert l + [c] == "co" || l + [c] == "con" <==> (l == "c" && c == 'o') || (l == "co" && c == 'n');
    WordByWord(l + [c]);
    Apart(l + [c]);
    Longer(l, c, CONNECTION);
    Longer(l, c, CONTENT_LENGTH);
  }

  lemma EndReading(l: string, c: char)
    requires l != []
    requires Recognised(l).General?
             || l in {CONNECTION, PROXY_CONNECTION, CONTENT_LENGTH, TRANSFER_ENCODING, UPGRADE}
    ensures Recognised(l + [c]).General?
  {
    hide Recognised;
    WordByWord(l);
    WordByWord(l + [c]);
    Longer(l, c, CONNECTION);
    Longer(l, c, PROXY_CONNECTION);
    Longer(l, c, CONTENT_LENGTH);
    Longer(l, c, TRANSFER_ENCODING);
    Longer(l, c, UPGRADE);
  }

  lemma NextTracks(h: Headers, l: string, ch: byte)
    requires l != [] && Tracks(h, l) && Token(ch) != '\0'
    ensures Tracks(NameChar(h, ch), l + [Token(ch)])
  {
    hide Recognised, Matching;
    var c := Token(ch);
    WordByWord(l);
    if WordOf(h.hstate) != "" {
      LongerReading(l, c);
      WordGoesOn(h, l, c, WordOf(h.hstate), FoundOf(h.hstate));
    } else if h.hstate.C? || h.hstate.CO? || h.hstate.CON? {
      ShortReading(l, c);
    } else {
      EndReading(l, c);
    }
  }

  lemma LowLonger(name: seq<byte>)
    requires name != []
    ensures Low(name) == Low(name[..|name| - 1]) + [Token(name[|name| - 1])]
  {}

  lemma {:induction false} NameTracks(h: Headers, name: seq<byte>)
    requires IsName(name)
    ensures Tracks(Named(h, name), Low(name))
  {
    hide Tracks, NameChar;
    if |name| == 1 {
      assert name == [name[0]];
      FirstTracks(h, name[0]);
    } else {
      var n := |name| - 1;
      NameTracks(h, name[..n]);
      NextTracks(Named(h, name[..n]), Low(name[..n]), name[n]);
      LowLonger(name);
    }
  }

  /** A header is taken for one of the four that the parser interprets if and only
      if its name, in any case, is one of the five words. */
  lemma NameRecognised(h: Headers, name: seq<byte>)
    requires IsName(name)
    ensures Named(h, name).hstate.Connection? <==> Low(name) == CONNECTION || Low(name) == PROXY_CONNECTION
    ensures Named(h, name).hstate.ContentLength? <==> Low(name) == CONTENT_LENGTH
    ensures Named(h, name).hstate.TransferEncoding? <==> Low(name) == TRANSFER_ENCODING
    ensures Named(h, name).hstate.Upgrade? <==> Low(name) == UPGRADE
  {
    hide Recognised, Named;
    NameTracks(h, name);
    WordByWord(Low(name));
  }

  /** A name changes nothing else, but for the mark of a transfer coding: that is
      set by every name that begins with the word, however it goes on. */
  lemma {:induction false} NameMarks(h: Headers, name: seq<byte>)
    requires IsName(name)
    ensures var g := Named(h, name);
            g.flags == h.flags && g.contentLength == h.contentLength
            && (g.usesTe <==> h.usesTe || TRANSFER_ENCODING <= Low(name))
  {
    hide Recognised, Tracks, NameChar;
    var n := |name| - 1;
    if n == 0 {
      assert |Low(name)| == 1;
    } else {
      var g := Named(h, name[..n]);
      NameMarks(h, name[..n]);
      TeStep(g, name[n]);
      MarkStep(h, g, name);
    }
  }

  lemma MarkStep(h: Headers, g: Headers, name: seq<byte>)
    requires IsName(name) && |name| > 1 && g == Named(h, name[..|name| - 1])
    requires g.usesTe <==> h.usesTe || TRANSFER_ENCODING <= Low(name[..|name| - 1])
    ensures NameChar(g, name[|name| - 1]).usesTe <==> h.usesTe || TRANSFER_ENCODING <= Low(name)
  {
    hide Recognised, NameChar;
    var n := |name| - 1;
    var l, m := Low(name[..n]), Low(name);
    LowLonger(name);
    NameTracks(h, name[..n]);
    NameTracks(h, name);
    TeStep(g, name[n]);
    WordByWord(l);
    WordByWord(m);
    Longer(l, Token(name[n]), TRANSFER_ENCODING);
    assert Named(h, name) == NameChar(g, name[n]);
    assert TRANSFER_ENCODING <= m <==> TRANSFER_ENCODING <= l || m == TRANSFER_ENCODING;
  }

  lemma TeStep(g: Headers, ch: byte)
    ensures NameChar(g, ch).flags == g.flags && NameChar(g, ch).contentLength == g.contentLength
    ensures NameChar(g, ch).usesTe <==>
              g.usesTe || (g.hstate.MatchingTransferEncoding? && NameChar(g, ch).hstate.TransferEncoding?)
  {}

  /** A name that the parser does not recognise, and that marks the message all the
      same. */
  const BEGINS_ALIKE: seq<byte> := "Transfer-EncodingX"

  lemma MarkedUnrecognised(h: Headers)
    requires !h.usesTe
    ensures IsName(BEGINS_ALIKE) && Low(BEGINS_ALIKE) == "transfer-encodingx"
    ensures Named(h, BEGINS_ALIKE).usesTe
    ensures Named(h, BEGINS_ALIKE).hstate.General?
  {
    assert Low(BEGINS_ALIKE) == "transfer-encodingx";
    hide Named;
    NameMarks(h, BEGINS_ALIKE);
    NameTracks(h, BEGINS_ALIKE);
  }
}
