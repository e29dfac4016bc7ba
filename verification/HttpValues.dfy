/** http_parser: the values of Transfer-Encoding, Connection and Upgrade. Which flags
    they set is what their words say. */
module HttpValues {
  import opened Wrappers
  import opened HttpStep
  import opened HttpWords

  /** The headers' part of the parser after a value; None is an error. */
  function Valued(h: Headers, v: seq<byte>): Option<Headers>
    requires v != []
  {
    if |v| == 1 then
      match FirstValueChar(h, v[0])
      case Good(g) => Some(g)
      case Bad(_) => None
    else
      match Valued(h, v[..|v| - 1])
      case Some(g) => ValueChar(g, v[|v| - 1])
      case None => None
  }

  const CHUNKED := "chunked"
  const KEEP_ALIVE := "keep-alive"
  const CLOSE := "close"
  const UPGRADING := "upgrade"

  const CODINGS := [CHUNKED]
  const OPTIONS := [KEEP_ALIVE, CLOSE, UPGRADING]

  lemma Good()
    ensures GoodWords(CODINGS) && GoodWords(OPTIONS)
  {}

  /** A mode that a word of the list can have. */
  ghost predicate Real(m: Mode, words: seq<string>) {
    (m.Match? ==> m.i < |words| && 0 < m.k < |words[m.i]|) && (m.Done? ==> m.i < |words|)
  }

  lemma ModeReal(v: seq<byte>, words: seq<string>, swallows: bool, m: Mode)
    requires GoodWords(words) && ModeIs(v, words, swallows, m)
    ensures Real(m, words)
  {}

  // ----- Transfer-Encoding

  predicate TeIs(h: Headers, m: Mode) {
    match m
    case Start => h.hstate.TeTokenStart? && h.index == 0
    case Match(_, k) => h.hstate.TeChunked? && h.index == k - 1
    case Done(_) => h.hstate.IsTeChunked?
    case Other => h.hstate.TeToken?
    case Off => h.hstate.General?
  }

  predicate OnlyMatcher(h: Headers, g: Headers) {
    g == h.(hstate := g.hstate, index := g.index)
  }

  lemma TeOpens(h: Headers, ch: byte) returns (m: Mode)
    requires h.hstate.TransferEncoding?
    ensures GoodWords(CODINGS) && Opens(ch, CODINGS, m)
    ensures var r := FirstValueChar(h, ch);
            r.Good? && TeIs(r.value, m) && OnlyMatcher(h, r.value)
  {
    hide Lower, Token;
    Good();
    assert CODINGS[0] == CHUNKED;
    m := if Lower(ch) == 'c' then Match(0, 1) else Other;
  }

  lemma TeMoves(h: Headers, m: Mode, ch: byte) returns (m': Mode)
    requires TeIs(h, m) && Real(m, CODINGS)
    ensures GoodWords(CODINGS) && Moves(m, ch, CODINGS, true, m')
    ensures var r := ValueChar(h, ch);
            r.Some? && TeIs(r.value, m') && OnlyMatcher(h, r.value)
  {
    hide Lower, Token;
    Good();
    assert CODINGS[0] == CHUNKED;
    match m {
      case Start =>
        m' := if ch == ',' then Off else if IsSkipped(ch) then Start else if Lower(ch) == 'c' then Match(0, 1)
              else if Token(Lower(ch)) == '\0' then Off else Other;
        Commas(ch);
      case Match(_, k) =>
        m' := if Lower(ch) != CHUNKED[k] then Other else if k + 1 < |CHUNKED| then Match(0, k + 1) else Done(0);
      case Done(_) => m' := if ch == ' ' then m else Other;
      case Other => m' := if ch == ',' then Start else Other;
      case Off => m' := Off;
    }
  }

  /** A comma is no token, and neither it nor a space is a letter. */
  lemma Commas(ch: byte)
    ensures ch == ',' ==> Lower(ch) == ',' && Token(Lower(ch)) == '\0'
    ensures IsSkipped(ch) ==> Lower(ch) == ' ' && Token(Lower(ch)) == '\0'
    ensures Lower(ch) != '\t'
  {}

  lemma {:induction false} TeTracks(h: Headers, v: seq<byte>) returns (m: Mode)
    requires h.hstate.TransferEncoding? && v != []
    ensures GoodWords(CODINGS) && ModeIs(v, CODINGS, true, m)
    ensures Valued(h, v).Some? && TeIs(Valued(h, v).value, m) && OnlyMatcher(h, Valued(h, v).value)
  {
    hide ModeIs, Moves, Opens, FirstValueChar, ValueChar, TeIs;
    if |v| == 1 {
      m := TeOpens(h, v[0]);
      assert v == [v[0]];
      ModeOpens(v[0], CODINGS, true, m);
    } else {
      var n := |v| - 1;
      var was := TeTracks(h, v[..n]);
      ModeReal(v[..n], CODINGS, true, was);
      m := TeMoves(Valued(h, v[..n]).value, was, v[n]);
      ModeMoves(v[..n], CODINGS, true, was, v[n], m);
      assert v[..n] + [v[n]] == v;
    }
  }

  /** The last word of the value is looked at and is the one asked for. */
  predicate LastSays(v: seq<byte>, word: string, words: seq<string>, swallows: bool) {
    Says(Split(v), |Split(v)| - 1, word, words, swallows)
  }

  lemma DoneSays(v: seq<byte>, words: seq<string>, swallows: bool, m: Mode, i: nat)
    requires GoodWords(words) && ModeIs(v, words, swallows, m) && i < |words|
    ensures LastSays(v, words[i], words, swallows) <==> m == Done(i)
  {
    hide Split, Text, BeginsOne, IsOne, Begins, IsWord;
    var ws := Split(v);
    var n := |ws| - 1;
    var t := Text(ws, n);
    if AfterWords(ws[..n], words, swallows) == Fresh {
      if IsWord(t, words[i]) {
        FirstLetter(t, words[i]);
        OnlyOne(t, words, i);
        NotBoth(t, words[i]);
        if m.Match? || m.Done? {
          FirstLetter(t, words[m.i]);
        }
      }
    }
  }

  /** The message is marked as chunked by a Transfer-Encoding if and only if the last of
      its words is "chunked" and is looked at. */
  lemma CodingIsLastWord(h: Headers, v: seq<byte>)
    requires h.hstate.TransferEncoding? && v != []
    ensures Valued(h, v).Some?
    ensures var g := Noted(Valued(h, v).value);
            && g.flags == h.flags.(chunked := h.flags.chunked || LastSays(v, CHUNKED, CODINGS, true))
            && g.usesTe == h.usesTe && g.contentLength == h.contentLength
  {
    hide LastSays, ModeIs, Valued;
    var m := TeTracks(h, v);
    assert CODINGS[0] == CHUNKED;
    DoneSays(v, CODINGS, true, m, 0);
    ModeReal(v, CODINGS, true, m);
  }

  // ----- Connection

  predicate ConnIs(h: Headers, m: Mode) {
    match m
    case Start => h.hstate.ConnTokenStart? && h.index == 0
    case Match(i, k) =>
      h.index == k - 1
      && if i == 0 then h.hstate.ConnKeepAlive? else if i == 1 then h.hstate.ConnClose? else h.hstate.ConnUpgrade?
    case Done(i) =>
      if i == 0 then h.hstate.IsKeepAlive? else if i == 1 then h.hstate.IsClose? else h.hstate.IsConnUpgrade?
    case Other => h.hstate.ConnToken?
    case Off => h.hstate.General?
  }

  /** The flag of the i-th option. */
  function Set(flags: Flags, i: nat): Flags {
    if i == 0 then flags.(keepAlive := true) else if i == 1 then flags.(close := true)
    else flags.(connUpgrade := true)
  }

  lemma OptionWords()
    ensures |OPTIONS| == 3 && OPTIONS[0] == KEEP_ALIVE && OPTIONS[1] == CLOSE && OPTIONS[2] == UPGRADING
  {}

  lemma ConnOpens(h: Headers, ch: byte) returns (m: Mode)
    requires h.hstate.Connection?
    ensures GoodWords(OPTIONS) && Opens(ch, OPTIONS, m)
    ensures var r := FirstValueChar(h, ch);
            r.Good? && ConnIs(r.value, m) && OnlyMatcher(h, r.value)
  {
    hide Lower, Token;
    Good();
    OptionWords();
    var c := Lower(ch);
    m := if c == 'k' then Match(0, 1) else if c == 'c' then Match(1, 1) else if c == 'u' then Match(2, 1) else Other;
  }

  lemma ConnMatches(h: Headers, m: Mode, ch: byte) returns (m': Mode)
    requires ConnIs(h, m) && Real(m, OPTIONS) && m.Match?
    ensures GoodWords(OPTIONS) && Moves(m, ch, OPTIONS, false, m')
    ensures var r := ValueChar(h, ch);
            r.Some? && ConnIs(r.value, m') && OnlyMatcher(h, r.value)
  {
    hide Lower, Token;
    Good();
    OptionWords();
    var i, k := m.i, m.k;
    m' := if Lower(ch) != OPTIONS[i][k] then Other else if k + 1 < |OPTIONS[i]| then Match(i, k + 1) else Done(i);
    if i == 0 {
      assert OPTIONS[0][k] == At(KEEP_ALIVE, k);
    } else if i == 1 {
      assert OPTIONS[1][k] == At(CLOSE, k);
    } else {
      assert OPTIONS[2][k] == At(UPGRADING, k);
    }
  }

  lemma ConnMoves(h: Headers, m: Mode, ch: byte) returns (m': Mode)
    requires ConnIs(h, m) && Real(m, OPTIONS)
    ensures GoodWords(OPTIONS) && Moves(m, ch, OPTIONS, false, m')
    ensures var r := ValueChar(h, ch);
            && r.Some? && ConnIs(r.value, m')
            && OnlyMatcher(h.(flags := if m.Done? && ch == ',' then Set(h.flags, m.i) else h.flags), r.value)
  {
    hide Lower, Token;
    if m.Match? {
      m' := ConnMatches(h, m, ch);
    } else {
      m' := ConnOthers(h, m, ch);
    }
  }

  lemma ConnOthers(h: Headers, m: Mode, ch: byte) returns (m': Mode)
    requires ConnIs(h, m) && Real(m, OPTIONS) && !m.Match?
    ensures GoodWords(OPTIONS) && Moves(m, ch, OPTIONS, false, m')
    ensures var r := ValueChar(h, ch);
            && r.Some? && ConnIs(r.value, m')
            && OnlyMatcher(h.(flags := if m.Done? && ch == ',' then Set(h.flags, m.i) else h.flags), r.value)
  {
    hide Lower, Token, Matching;
    Good();
    OptionWords();
    var c := Lower(ch);
    match m {
      case Start =>
        m' := if ch == ',' then Off else if IsSkipped(ch) then Start
              else if c == 'k' then Match(0, 1) else if c == 'c' then Match(1, 1) else if c == 'u' then Match(2, 1)
              else if Token(c) == '\0' then Off else Other;
        Commas(ch);
      case Done(_) => m' := if ch == ' ' then m else if ch == ',' then Start else Other;
      case Other => m' := if ch == ',' then Start else Other;
      case Off => m' := Off;
    }
  }

  /** One of the words before the last comma is looked at and is the one asked for. */
  ghost predicate EarlierSays(v: seq<byte>, word: string) {
    exists i :: 0 <= i < |Split(v)| - 1 && Says(Split(v), i, word, OPTIONS, false)
  }

  /** One of the words is. */
  ghost predicate SomeSays(v: seq<byte>, word: string) {
    exists i :: 0 <= i < |Split(v)| && Says(Split(v), i, word, OPTIONS, false)
  }

  lemma SaysSame(ws: seq<seq<byte>>, us: seq<seq<byte>>, i: nat, word: string)
    requires i < |ws| && i < |us| && ws[..i + 1] == us[..i + 1]
    ensures Says(ws, i, word, OPTIONS, false) == Says(us, i, word, OPTIONS, false)
  {
    assert ws[..i] == ws[..i + 1][..i] && us[..i] == us[..i + 1][..i];
    assert ws[i] == ws[..i + 1][i] && us[i] == us[..i + 1][i];
  }

  lemma EarlierMore(v: seq<byte>, ch: byte, word: string)
    ensures EarlierSays(v + [ch], word) <==>
              EarlierSays(v, word) || (ch == ',' && LastSays(v, word, OPTIONS, false))
  {
    hide Split, Says;
    SplitMore(v, ch);
    var ws, us := Split(v), Split(v + [ch]);
    var n := |ws| - 1;
    forall i | 0 <= i < |us| - 1
      ensures Says(us, i, word, OPTIONS, false) == Says(ws, i, word, OPTIONS, false)
    {
      if ch == ',' {
        assert us[..i + 1] == us[..n + 1][..i + 1];
      } else {
        assert us[..i + 1] == us[..n][..i + 1] && ws[..i + 1] == ws[..n][..i + 1];
      }
      SaysSame(ws, us, i, word);
    }
    if i :| 0 <= i < |ws| - 1 && Says(ws, i, word, OPTIONS, false) {
      assert Says(us, i, word, OPTIONS, false);
    }
    if ch == ',' && LastSays(v, word, OPTIONS, false) {
      assert Says(us, n, word, OPTIONS, false);
    }
  }

  /** The flags of the options that the words before the last comma name. */
  ghost function EarlierSet(flags: Flags, v: seq<byte>): Flags {
    flags.(keepAlive := flags.keepAlive || EarlierSays(v, KEEP_ALIVE), close := flags.close || EarlierSays(v, CLOSE),
           connUpgrade := flags.connUpgrade || EarlierSays(v, UPGRADING))
  }

  lemma NoneEarlier(ch: byte, word: string)
    requires |word| > 1
    ensures !EarlierSays([ch], word)
  {
    hide Says;
    SplitMore([], ch);
    assert [] + [ch] == [ch];
    var none: seq<seq<byte>> := [[]];
    assert Split([]) == none;
    if ch == ',' {
      assert Split([ch])[..1] == none;
      assert !Says(Split([ch]), 0, word, OPTIONS, false) by { EmptySaysNothing(Split([ch]), word); }
    }
  }

  lemma EmptySaysNothing(ws: seq<seq<byte>>, word: string)
    requires |word| > 1 && |ws| > 0 && ws[0] == []
    ensures !Says(ws, 0, word, OPTIONS, false)
  {}

  lemma DoneAll(v: seq<byte>, m: Mode)
    requires GoodWords(OPTIONS) && ModeIs(v, OPTIONS, false, m)
    ensures LastSays(v, KEEP_ALIVE, OPTIONS, false) <==> m == Done(0)
    ensures LastSays(v, CLOSE, OPTIONS, false) <==> m == Done(1)
    ensures LastSays(v, UPGRADING, OPTIONS, false) <==> m == Done(2)
    ensures m.Done? ==> m.i < 3
  {
    hide ModeIs, LastSays;
    OptionWords();
    ModeReal(v, OPTIONS, false, m);
    DoneSays(v, OPTIONS, false, m, 0);
    DoneSays(v, OPTIONS, false, m, 1);
    DoneSays(v, OPTIONS, false, m, 2);
  }

  lemma SetMore(flags: Flags, v: seq<byte>, ch: byte, m: Mode)
    requires GoodWords(OPTIONS) && ModeIs(v, OPTIONS, false, m)
    ensures EarlierSet(flags, v + [ch]) ==
            if m.Done? && ch == ',' then Set(EarlierSet(flags, v), m.i) else EarlierSet(flags, v)
  {
    hide ModeIs, EarlierSays, LastSays, GoodWords;
    EarlierMore(v, ch, KEEP_ALIVE);
    EarlierMore(v, ch, CLOSE);
    EarlierMore(v, ch, UPGRADING);
    DoneAll(v, m);
  }

  lemma {:induction false} ConnTracks(h: Headers, v: seq<byte>) returns (m: Mode)
    requires h.hstate.Connection? && v != []
    ensures GoodWords(OPTIONS) && ModeIs(v, OPTIONS, false, m)
    ensures Valued(h, v).Some? && ConnIs(Valued(h, v).value, m)
    ensures OnlyMatcher(h.(flags := EarlierSet(h.flags, v)), Valued(h, v).value)
  {
    hide ModeIs, Moves, Opens, FirstValueChar, ValueChar, ConnIs, EarlierSays, Set;
    if |v| == 1 {
      m := ConnOpens(h, v[0]);
      assert v == [v[0]];
      ModeOpens(v[0], OPTIONS, false, m);
      NoneEarlier(v[0], KEEP_ALIVE);
      NoneEarlier(v[0], CLOSE);
      NoneEarlier(v[0], UPGRADING);
    } else {
      var n := |v| - 1;
      var was := ConnTracks(h, v[..n]);
      ModeReal(v[..n], OPTIONS, false, was);
      m := ConnMoves(Valued(h, v[..n]).value, was, v[n]);
      ModeMoves(v[..n], OPTIONS, false, was, v[n], m);
      SetMore(h.flags, v[..n], v[n], was);
      assert v[..n] + [v[n]] == v;
    }
  }

  lemma SomeIs(v: seq<byte>, word: string)
    ensures SomeSays(v, word) <==> EarlierSays(v, word) || LastSays(v, word, OPTIONS, false)
  {
    hide Says, Split;
    var n := |Split(v)| - 1;
    if i :| 0 <= i <= n && Says(Split(v), i, word, OPTIONS, false) {
      assert i < n || i == n;
    }
  }

  lemma NotedIs(g: Headers, m: Mode)
    requires ConnIs(g, m)
    ensures Noted(g) == g.(flags := if m.Done? then Set(g.flags, m.i) else g.flags)
  {}

  /** A Connection sets the flag of an option if and only if one of its words is that
      option and is looked at. */
  lemma OptionsAreWords(h: Headers, v: seq<byte>)
    requires h.hstate.Connection? && v != []
    ensures Valued(h, v).Some?
    ensures var g := Noted(Valued(h, v).value);
            && g.flags == h.flags.(keepAlive := h.flags.keepAlive || SomeSays(v, KEEP_ALIVE),
                                   close := h.flags.close || SomeSays(v, CLOSE),
                                   connUpgrade := h.flags.connUpgrade || SomeSays(v, UPGRADING))
            && g.usesTe == h.usesTe && g.contentLength == h.contentLength
  {
    hide LastSays, ModeIs, Valued, EarlierSays, SomeSays, GoodWords, ConnIs, Noted;
    var m := ConnTracks(h, v);
    DoneAll(v, m);
    NotedIs(Valued(h, v).value, m);
    SomeIs(v, KEEP_ALIVE);
    SomeIs(v, CLOSE);
    SomeIs(v, UPGRADING);
  }

  // ----- when a word is looked at

  lemma {:induction false} NoComma(v: seq<byte>)
    requires ',' !in v
    ensures Split(v) == [v]
  {
    if v != [] {
      var n := |v| - 1;
      assert v == v[..n] + [v[n]];
      NoComma(v[..n]);
    }
  }

  /** A value without a comma is one word. */
  lemma OneWord(v: seq<byte>, word: string, words: seq<string>, swallows: bool)
    requires ',' !in v
    ensures LastSays(v, word, words, swallows) <==> IsWord(v, word)
    ensures SomeSays(v, word) <==> IsWord(v, word)
  {
    hide IsWord;
    NoComma(v);
    assert Split(v)[..0] == [];
    assert Says(Split(v), 0, word, OPTIONS, false) <==> IsWord(v, word);
  }

  lemma {:induction false} SplitAppended(v: seq<byte>, w: seq<byte>)
    requires ',' !in w
    ensures Split(v + [','] + w) == Split(v) + [w]
  {
    if w == [] {
      assert v + [','] + w == v + [','];
      SplitMore(v, ',');
    } else {
      var n := |w| - 1;
      assert w == w[..n] + [w[n]];
      SplitAppended(v, w[..n]);
      assert v + [','] + w == v + [','] + w[..n] + [w[n]];
      SplitMore(v + [','] + w[..n], w[n]);
    }
  }

  /** The word after the last comma counts if and only if it is the one asked for and the
      words before that comma let a word be looked for. */
  lemma LastCommaCounts(v: seq<byte>, w: seq<byte>, word: string, words: seq<string>, swallows: bool)
    requires ',' !in w
    ensures LastSays(v + [','] + w, word, words, swallows) <==>
              IsWord(Skip(w), word) && AfterWords(Split(v), words, swallows).Fresh?
  {
    hide Split, IsWord, AfterWords;
    SplitAppended(v, w);
    var ws := Split(v);
    assert (ws + [w])[..|ws|] == ws;
  }

  /** An ordinary word: not empty, not one of those looked for nor the beginning of one,
      and, after a comma, beginning as a token does. */
  predicate IsPlain(t: seq<byte>, first: bool, words: seq<string>) {
    t != [] && !BeginsOne(t, words) && !IsOne(t, words) && (first || !IsOdd(t))
  }

  /** After ordinary words a word is looked for. */
  lemma {:induction false} PlainSeparate(ws: seq<seq<byte>>, words: seq<string>, swallows: bool)
    requires forall i :: 0 <= i < |ws| ==> IsPlain(Text(ws, i), i == 0, words)
    ensures AfterWords(ws, words, swallows).Fresh?
  {
    hide BeginsOne, IsOne, IsOdd;
    if ws != [] {
      var n := |ws| - 1;
      forall i | 0 <= i < n
        ensures IsPlain(Text(ws[..n], i), i == 0, words)
      {
        assert Text(ws[..n], i) == Text(ws, i);
      }
      PlainSeparate(ws[..n], words, swallows);
      assert IsPlain(Text(ws, n), n == 0, words);
    }
  }

  /** Not every last word counts: the comma after "chunked" is taken as part of it. */
  lemma RepeatedCodingMissed()
    ensures IsWord("chunked", CHUNKED)
    ensures !LastSays("chunked" + [','] + "chunked", CHUNKED, CODINGS, true)
  {
    var w: seq<byte> := "chunked";
    assert Fold(w) == CHUNKED && Fold(w)[..7] == CHUNKED;
    LastCommaCounts(w, w, CHUNKED, CODINGS, true);
    NoComma(w);
    var ws := Split(w);
    assert ws[..0] == [] && Text(ws, 0) == w;
    assert IsWord(w, CODINGS[0]);
    assert !BeginsOne(w, CODINGS);
  }
}
