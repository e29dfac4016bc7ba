/** http_parser: header values that are lists of words. What the parser makes of a
    value, character by character, is what its words between commas say. */
module HttpWords {
  import opened HttpStep

  // ----- the words of a value

  /** The value cut at its commas. */
  function Split(v: seq<byte>): (ws: seq<seq<byte>>)
    ensures |ws| > 0
  {
    if v == [] then [[]]
    else
      var ws := Split(v[..|v| - 1]);
      if v[|v| - 1] == ',' then ws + [[]]
      else ws[|ws| - 1 := ws[|ws| - 1] + [v[|v| - 1]]]
  }

  predicate IsSkipped(c: byte) {
    Lower(c) == ' '
  }

  /** A word without what is skipped before it. */
  function Skip(w: seq<byte>): seq<byte> {
    if w != [] && IsSkipped(w[0]) then Skip(w[1..]) else w
  }

  /** The i-th word; before the first one nothing is left to skip. */
  function Text(ws: seq<seq<byte>>, i: nat): seq<byte>
    requires i < |ws|
  {
    if i == 0 then ws[0] else Skip(ws[i])
  }

  function Fold(w: seq<byte>): (l: string)
    ensures |l| == |w| && forall k :: 0 <= k < |w| ==> l[k] == Lower(w[k])
  {
    seq(|w|, k requires 0 <= k < |w| => Lower(w[k]))
  }

  /** t is, in any case, the beginning of the word and not all of it. */
  predicate Begins(t: seq<byte>, word: string) {
    0 < |t| < |word| && Fold(t) <= word
  }

  /** t is the word, in any case, and perhaps spaces after it. */
  predicate IsWord(t: seq<byte>, word: string) {
    |word| <= |t| && Fold(t)[..|word|] == word && forall k :: |word| <= k < |t| ==> t[k] == ' '
  }

  lemma PrefixMore(t: seq<byte>, ch: byte, word: string)
    ensures Fold(t + [ch]) <= word <==> Fold(t) <= word && |t| < |word| && Lower(ch) == word[|t|]
  {
    assert Fold(t + [ch]) == Fold(t) + [Lower(ch)];
    if Fold(t + [ch]) <= word {
      assert Fold(t) == Fold(t + [ch])[..|t|] && Fold(t + [ch])[|t|] == word[|t|];
    }
  }

  lemma IsWordMore(t: seq<byte>, ch: byte, word: string)
    ensures |t| >= |word| ==> (IsWord(t + [ch], word) <==> IsWord(t, word) && ch == ' ')
    ensures |t| < |word| ==> (IsWord(t + [ch], word) <==> Fold(t + [ch]) == word)
  {
    assert Fold(t + [ch]) == Fold(t) + [Lower(ch)];
    if |t| >= |word| {
      assert Fold(t + [ch])[..|word|] == Fold(t)[..|word|];
      assert forall k :: |word| <= k < |t| ==> t[k] == (t + [ch])[k];
      assert (t + [ch])[|t|] == ch;
    } else if |t| + 1 == |word| {
      assert Fold(t + [ch])[..|word|] == Fold(t + [ch]);
    }
  }

  /** A further byte of a word. */
  lemma Grows(t: seq<byte>, ch: byte, word: string)
    requires |word| > 1
    ensures !IsWord([], word) && !Begins([], word)
    ensures t == [] ==> (Begins([ch], word) <==> Lower(ch) == word[0]) && !IsWord([ch], word)
    ensures Begins(t, word) ==>
              && (Begins(t + [ch], word) <==> Lower(ch) == word[|t|] && |t| + 1 < |word|)
              && (IsWord(t + [ch], word) <==> Lower(ch) == word[|t|] && |t| + 1 == |word|)
    ensures IsWord(t, word) ==> !Begins(t + [ch], word) && (IsWord(t + [ch], word) <==> ch == ' ')
    ensures t != [] && !Begins(t, word) && !IsWord(t, word) ==> !Begins(t + [ch], word) && !IsWord(t + [ch], word)
  {
    hide Fold;
    PrefixMore(t, ch, word);
    IsWordMore(t, ch, word);
    if t == [] {
      assert t + [ch] == [ch];
    }
    if |t| + 1 == |word| {
      assert Fold(t + [ch]) <= word <==> Fold(t + [ch]) == word;
    }
  }

  lemma FirstLetter(t: seq<byte>, word: string)
    requires |word| > 1 && (Begins(t, word) || IsWord(t, word))
    ensures t != [] && Lower(t[0]) == word[0]
  {
    if IsWord(t, word) {
      assert Fold(t)[..|word|][0] == Fold(t)[0];
    } else {
      assert Fold(t)[0] == word[0];
    }
  }

  // ----- where the commas count

  /** Between two commas: a word is looked for, the text is inside a word that is not
      looked at, or nothing more is looked at. */
  datatype Between = Fresh | Within | Ignored

  predicate BeginsOne(t: seq<byte>, words: seq<string>) {
    exists i :: 0 <= i < |words| && Begins(t, words[i])
  }

  predicate IsOne(t: seq<byte>, words: seq<string>) {
    exists i :: 0 <= i < |words| && IsWord(t, words[i])
  }

  /** No word of a list begins with it. */
  predicate IsOdd(t: seq<byte>) {
    t != [] && Token(Lower(t[0])) == '\0'
  }

  /** What a comma after a word that was looked at leads to. A comma right after the
      beginning of one of the words is taken as part of it; right after the whole word
      only if `swallows`. After an empty word, or one that begins oddly, no further word
      is looked at, unless it is the first. */
  function AfterOne(t: seq<byte>, first: bool, words: seq<string>, swallows: bool): Between {
    if t == [] then (if first then Within else Ignored)
    else if BeginsOne(t, words) then Within
    else if IsOne(t, words) then (if swallows then Within else Fresh)
    else if IsOdd(t) && !first then Ignored
    else Fresh
  }

  /** What the words, each with a comma after it, lead to. */
  function AfterWords(ws: seq<seq<byte>>, words: seq<string>, swallows: bool): Between {
    if ws == [] then Fresh
    else
      var n := |ws| - 1;
      match AfterWords(ws[..n], words, swallows)
      case Ignored => Ignored
      case Within => Fresh
      case Fresh => AfterOne(Text(ws, n), n == 0, words, swallows)
  }

  /** The i-th word is looked at and is the one asked for. */
  predicate Says(ws: seq<seq<byte>>, i: nat, word: string, words: seq<string>, swallows: bool)
    requires i < |ws|
  {
    AfterWords(ws[..i], words, swallows) == Fresh && IsWord(Text(ws, i), word)
  }

  // ----- one byte more

  lemma {:induction false} SkipMore(w: seq<byte>, ch: byte)
    ensures Skip(w + [ch]) == if Skip(w) == [] && IsSkipped(ch) then [] else Skip(w) + [ch]
  {
    if w == [] {
      assert w + [ch] == [ch] && [ch][1..] == [];
    } else if IsSkipped(w[0]) {
      assert (w + [ch])[1..] == w[1..] + [ch];
      SkipMore(w[1..], ch);
    }
  }

  /** A comma closes the last word; any other byte belongs to it. */
  lemma SplitMore(v: seq<byte>, ch: byte)
    ensures var ws, us := Split(v), Split(v + [ch]);
            var n := |ws| - 1;
            if ch == ',' then us == ws + [[]] && us[..n + 1] == ws
            else us == ws[n := ws[n] + [ch]] && us[..n] == ws[..n]
  {
    assert (v + [ch])[..|v|] == v;
  }

  /** The last word and its text after one byte more. */
  lemma TextMore(v: seq<byte>, ch: byte)
    requires ch != ','
    ensures var ws, us := Split(v), Split(v + [ch]);
            var n := |ws| - 1;
            && |us| == n + 1
            && Text(us, n) == if n > 0 && Text(ws, n) == [] && IsSkipped(ch) then [] else Text(ws, n) + [ch]
  {
    hide Split;
    SplitMore(v, ch);
    var ws := Split(v);
    SkipMore(ws[|ws| - 1], ch);
  }

  // ----- what is known of the last word so far

  /** Before a word; k bytes into word i; past all of it; in some other word; or past
      caring. */
  datatype Mode = Start | Match(i: nat, k: nat) | Done(i: nat) | Other | Off

  /** At least two characters each, none a comma, each beginning with a letter of its
      own. */
  ghost predicate GoodWords(words: seq<string>) {
    && (forall i :: 0 <= i < |words| ==> |words[i]| > 1 && ',' !in words[i] && 'a' <= words[i][0] <= 'z')
    && (forall i, j :: 0 <= i < j < |words| ==> words[i][0] != words[j][0])
  }

  /** The text of a word that is looked at. */
  ghost predicate TextIs(t: seq<byte>, first: bool, words: seq<string>, m: Mode) {
    match m
    case Start => t == []
    case Match(i, k) => i < |words| && k == |t| && Begins(t, words[i])
    case Done(i) => i < |words| && IsWord(t, words[i])
    case Off => !BeginsOne(t, words) && !IsOne(t, words) && IsOdd(t) && !first
    case Other => t != [] && !BeginsOne(t, words) && !IsOne(t, words) && (first || !IsOdd(t))
  }

  ghost predicate ModeIs(v: seq<byte>, words: seq<string>, swallows: bool, m: Mode) {
    var ws := Split(v);
    var n := |ws| - 1;
    match AfterWords(ws[..n], words, swallows)
    case Ignored => m.Off?
    case Within => m.Other?
    case Fresh => TextIs(Text(ws, n), n == 0, words, m)
  }

  /** What a byte makes of it. */
  ghost predicate Moves(m: Mode, ch: byte, words: seq<string>, swallows: bool, m': Mode)
    requires GoodWords(words)
  {
    match m
    case Off => m'.Off?
    case Other => if ch == ',' then m'.Start? else m'.Other?
    case Start =>
      if ch == ',' then m'.Off?
      else if IsSkipped(ch) then m'.Start?
      else if exists i :: 0 <= i < |words| && words[i][0] == Lower(ch) then
        m'.Match? && m'.k == 1 && m'.i < |words| && words[m'.i][0] == Lower(ch)
      else if Token(Lower(ch)) == '\0' then m'.Off?
      else m'.Other?
    case Match(i, k) =>
      i < |words| && 0 < k < |words[i]|
      && if Lower(ch) != words[i][k] then m'.Other?
         else m' == if k + 1 < |words[i]| then Match(i, k + 1) else Done(i)
    case Done(i) =>
      i < |words|
      && if ch == ' ' then m' == m else if ch == ',' && !swallows then m'.Start? else m'.Other?
  }

  lemma GrowsAll(t: seq<byte>, ch: byte, words: seq<string>)
    requires GoodWords(words) && t != [] && !BeginsOne(t, words) && !IsOne(t, words)
    ensures !BeginsOne(t + [ch], words) && !IsOne(t + [ch], words)
  {
    hide Begins, IsWord;
    forall i | 0 <= i < |words|
      ensures !Begins(t + [ch], words[i]) && !IsWord(t + [ch], words[i])
    {
      Grows(t, ch, words[i]);
    }
  }

  /** At most one of the words is begun. */
  lemma OnlyOne(t: seq<byte>, words: seq<string>, i: nat)
    requires GoodWords(words) && i < |words| && t != [] && Lower(t[0]) == words[i][0]
    ensures BeginsOne(t, words) <==> Begins(t, words[i])
    ensures IsOne(t, words) <==> IsWord(t, words[i])
  {
    hide Begins, IsWord;
    forall j | 0 <= j < |words| && j != i
      ensures !Begins(t, words[j]) && !IsWord(t, words[j])
    {
      if Begins(t, words[j]) || IsWord(t, words[j]) {
        FirstLetter(t, words[j]);
      }
    }
  }

  /** One byte more of a text, no comma. */
  lemma TextMoves(t: seq<byte>, first: bool, words: seq<string>, m: Mode, ch: byte, swallows: bool, m': Mode)
    requires GoodWords(words) && TextIs(t, first, words, m) && Moves(m, ch, words, swallows, m') && ch != ','
    requires !m.Start?
    ensures TextIs(t + [ch], first, words, m')
  {
    hide Begins, IsWord, BeginsOne, IsOne;
    match m {
      case Match(i, k) =>
        FirstLetter(t, words[i]);
        Grows(t, ch, words[i]);
        OnlyOne(t + [ch], words, i);
      case Done(i) =>
        FirstLetter(t, words[i]);
        Grows(t, ch, words[i]);
        OnlyOne(t + [ch], words, i);
      case _ => GrowsAll(t, ch, words);
    }
  }

  /** The first byte of a word after a comma. */
  lemma TextStarts(words: seq<string>, ch: byte, swallows: bool, m': Mode)
    requires GoodWords(words) && Moves(Start, ch, words, swallows, m') && ch != ','
    ensures if IsSkipped(ch) then m'.Start? else TextIs([ch], false, words, m')
  {
    hide Begins, IsWord, BeginsOne, IsOne;
    if !IsSkipped(ch) {
      if i :| 0 <= i < |words| && words[i][0] == Lower(ch) {
        Grows([], ch, words[m'.i]);
        OnlyOne([ch], words, m'.i);
      } else {
        NoneBegins(words, ch);
      }
    }
  }

  lemma NoneBegins(words: seq<string>, ch: byte)
    requires GoodWords(words) && forall i :: 0 <= i < |words| ==> words[i][0] != Lower(ch)
    ensures !BeginsOne([ch], words) && !IsOne([ch], words)
  {
    hide Begins, IsWord;
    forall i | 0 <= i < |words|
      ensures !Begins([ch], words[i]) && !IsWord([ch], words[i])
    {
      Grows([], ch, words[i]);
    }
  }

  /** A value's first byte. */
  ghost predicate Opens(ch: byte, words: seq<string>, m: Mode)
    requires GoodWords(words)
  {
    if exists i :: 0 <= i < |words| && words[i][0] == Lower(ch) then
      m.Match? && m.k == 1 && m.i < |words| && words[m.i][0] == Lower(ch)
    else m.Other?
  }

  lemma ModeOpens(ch: byte, words: seq<string>, swallows: bool, m: Mode)
    requires GoodWords(words) && Opens(ch, words, m)
    ensures ModeIs([ch], words, swallows, m)
  {
    hide Begins, IsWord, BeginsOne, IsOne;
    SplitMore([], ch);
    assert [] + [ch] == [ch];
    if ch == ',' {
      var us: seq<seq<byte>> := [[], []];
      var one: seq<seq<byte>> := [[]];
      assert Split([ch]) == us && us[..1] == one && one[..0] == [];
      assert AfterWords(one, words, swallows) == Within;
      CommaIsNone(words);
    } else {
      var us := [[ch]];
      assert Split([ch]) == us && us[..0] == [];
      if i :| 0 <= i < |words| && words[i][0] == Lower(ch) {
        Grows([], ch, words[m.i]);
        OnlyOne([ch], words, m.i);
      } else {
        NoneBegins(words, ch);
      }
    }
  }

  lemma CommaIsNone(words: seq<string>)
    requires GoodWords(words)
    ensures forall i :: 0 <= i < |words| ==> words[i][0] != Lower(',')
  {}

  /** What a value's words say, one byte further. */
  lemma ModeMoves(v: seq<byte>, words: seq<string>, swallows: bool, m: Mode, ch: byte, m': Mode)
    requires GoodWords(words) && v != [] && ModeIs(v, words, swallows, m) && Moves(m, ch, words, swallows, m')
    ensures ModeIs(v + [ch], words, swallows, m')
  {
    hide Begins, IsWord, BeginsOne, IsOne, Split, Text, Moves;
    SplitMore(v, ch);
    var ws, us := Split(v), Split(v + [ch]);
    var n := |ws| - 1;
    if ch == ',' {
      CommaMoves(v, words, swallows, m, m');
    } else {
      TextMore(v, ch);
      assert AfterWords(us[..n], words, swallows) == AfterWords(ws[..n], words, swallows);
      if AfterWords(ws[..n], words, swallows) == Fresh {
        if m.Start? {
          NotFirst(v);
          TextStarts(words, ch, swallows, m');
          assert [] + [ch] == [ch];
        } else {
          TextMoves(Text(ws, n), n == 0, words, m, ch, swallows, m');
          NotEmpty(Text(ws, n), n == 0, words, m);
        }
      } else {
        assert m'.Off? == m.Off? && m'.Other? == m.Other? by { Idle(m, ch, words, swallows, m'); }
      }
    }
  }

  lemma NotEmpty(t: seq<byte>, first: bool, words: seq<string>, m: Mode)
    requires GoodWords(words) && TextIs(t, first, words, m) && !m.Start?
    ensures t != []
  {}

  lemma Idle(m: Mode, ch: byte, words: seq<string>, swallows: bool, m': Mode)
    requires GoodWords(words) && Moves(m, ch, words, swallows, m') && ch != ',' && (m.Off? || m.Other?)
    ensures m' == m
  {}

  /** Only a comma makes a text empty. */
  lemma NotFirst(v: seq<byte>)
    requires v != [] && Text(Split(v), |Split(v)| - 1) == []
    ensures |Split(v)| > 1
  {}

  lemma CommaMoves(v: seq<byte>, words: seq<string>, swallows: bool, m: Mode, m': Mode)
    requires GoodWords(words) && v != [] && ModeIs(v, words, swallows, m) && Moves(m, ',', words, swallows, m')
    ensures ModeIs(v + [','], words, swallows, m')
  {
    hide Begins, IsWord, BeginsOne, IsOne, Split, Text;
    SplitMore(v, ',');
    var ws, us := Split(v), Split(v + [',']);
    var n := |ws| - 1;
    assert Text(us, n + 1) == [] by { EmptyText(us, n + 1); }
    if AfterWords(ws[..n], words, swallows) == Fresh && m.Start? {
      NotFirst(v);
    }
    AfterIs(v, words, swallows, m);
    CommaMatchesNone(words, m);
  }

  lemma CommaMatchesNone(words: seq<string>, m: Mode)
    requires GoodWords(words)
    ensures Lower(',') == ','
    ensures m.Match? && m.i < |words| && m.k < |words[m.i]| ==> words[m.i][m.k] != ','
  {}

  function AfterMode(m: Mode, swallows: bool): Between {
    match m
    case Off | Start => Ignored
    case Other => Fresh
    case Match(_, _) => Within
    case Done(_) => if swallows then Within else Fresh
  }

  /** What a comma leads to. */
  lemma AfterIs(v: seq<byte>, words: seq<string>, swallows: bool, m: Mode)
    requires GoodWords(words) && v != [] && ModeIs(v, words, swallows, m)
    ensures AfterWords(Split(v), words, swallows) == AfterMode(m, swallows)
  {
    hide Begins, IsWord, BeginsOne, IsOne, Split, Text;
    var ws := Split(v);
    var n := |ws| - 1;
    var t := Text(ws, n);
    if AfterWords(ws[..n], words, swallows) == Fresh {
      match m {
        case Start => NotFirst(v);
        case Match(i, _) =>
          FirstLetter(t, words[i]);
          OnlyOne(t, words, i);
        case Done(i) =>
          FirstLetter(t, words[i]);
          OnlyOne(t, words, i);
          NotBoth(t, words[i]);
        case _ =>
      }
    }
  }

  lemma NotBoth(t: seq<byte>, word: string)
    requires IsWord(t, word)
    ensures !Begins(t, word)
  {}

  lemma EmptyText(ws: seq<seq<byte>>, i: nat)
    requires 0 < i < |ws| && ws[i] == []
    ensures Text(ws, i) == []
  {}
}
