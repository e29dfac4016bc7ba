/** http_parser: the methods. The parser guesses a method from its first letter and
    changes its mind on the way; what it ends with is the name that was read. */
module HttpMethods {
  import opened Wrappers
  import opened HttpStep

  /** The method another one is first taken for, the position where they part, and the
      letter there. */
  function Taken(m: Method): Option<(Method, nat, char)> {
    match m
    case PUT => Some((POST, 1, 'U')) case PATCH => Some((POST, 1, 'A')) case PROPFIND => Some((POST, 1, 'R'))
    case PURGE => Some((PUT, 2, 'R')) case PROPPATCH => Some((PROPFIND, 4, 'P'))
    case CHECKOUT => Some((CONNECT, 1, 'H')) case COPY => Some((CONNECT, 2, 'P'))
    case MOVE => Some((MKCOL, 1, 'O')) case MERGE => Some((MKCOL, 1, 'E')) case MSEARCH => Some((MKCOL, 1, '-'))
    case MKACTIVITY => Some((MKCOL, 2, 'A')) case MKCALENDAR => Some((MKCOL, 3, 'A'))
    case SEARCH => Some((SUBSCRIBE, 1, 'E')) case SOURCE => Some((SUBSCRIBE, 1, 'O'))
    case REBIND => Some((REPORT, 2, 'B')) case LINK => Some((LOCK, 1, 'I'))
    case UNSUBSCRIBE => Some((UNLOCK, 2, 'S')) case UNBIND => Some((UNLOCK, 2, 'B'))
    case UNLINK => Some((UNLOCK, 3, 'I'))
    case _ => None
  }

  /** How much of a name the parser must have read to have the method. */
  function Known(m: Method): nat {
    match Taken(m)
    case None => 1
    case Some(q) => q.1 + 1
  }

  predicate IsLetter(c: char) {
    'A' <= c <= 'Z' || c == '-'
  }

  lemma NameLetters(m: Method)
    ensures |MethodName(m)| >= 2 && forall k :: 0 <= k < |MethodName(m)| ==> IsLetter(MethodName(m)[k])
    ensures 'A' <= MethodName(m)[0] <= 'Z'
  {}

  /** Two methods part where the table says. */
  lemma TakenParts(m: Method)
    requires Taken(m).Some?
    ensures var (q, k, c) := Taken(m).value;
            && 0 < k < |MethodName(m)| && Known(q) <= k <= |MethodName(q)|
            && MethodName(q)[..k] == MethodName(m)[..k]
  {
    hide MethodName;
    TakenLengths(m);
    TakenLetters(m);
  }

  lemma TakenLengths(m: Method)
    requires Taken(m).Some?
    ensures var (q, k, c) := Taken(m).value;
            0 < k < |MethodName(m)| && Known(q) <= k <= |MethodName(q)|
  {}

  lemma TakenLetters(m: Method)
    requires Taken(m).Some?
    ensures var (q, k, c) := Taken(m).value;
            && k < |MethodName(m)| && k <= |MethodName(q)|
            && forall j :: 0 <= j < k ==> MethodName(q)[j] == MethodName(m)[j]
  {}

  lemma PartingLetter(m: Method)
    requires Taken(m).Some?
    ensures var (q, k, c) := Taken(m).value;
            k < |MethodName(m)| && MethodName(m)[k] == c && At(MethodName(q), k) != c && IsLetter(c)
  {}

  /** The table of other methods says exactly that. */
  lemma OtherIsTaken(m: Method, k: nat, ch: byte)
    ensures OtherMethod(m, k, ch).Some? ==> Taken(OtherMethod(m, k, ch).value) == Some((m, k, ch))
  {}

  lemma TakenIsOther(n: Method, ch: byte)
    requires Taken(n).Some? && ch == Taken(n).value.2
    ensures OtherMethod(Taken(n).value.0, Taken(n).value.1, ch) == Some(n)
  {}

  lemma FirstIs(m: Method, ch: byte)
    requires Taken(m).None? && ch == MethodName(m)[0]
    ensures FirstMethod(ch) == Some(m)
  {}

  lemma FirstLetterIs(ch: byte)
    ensures FirstMethod(ch).Some? ==>
              MethodName(FirstMethod(ch).value)[0] == ch && IsAlpha(ch) && ch != CR && ch != LF
  {}

  // ----- the guess

  /** The method that the parser has after the bytes s, if it goes on. */
  function Guess(s: seq<byte>): Option<Method>
    requires s != []
  {
    if |s| == 1 then FirstMethod(s[0])
    else
      var n := |s| - 1;
      match Guess(s[..n])
      case None => None
      case Some(m) =>
        if s[n] == '\0' then None
        else if s[n] == At(MethodName(m), n) then Some(m)
        else if IsLetter(s[n]) then OtherMethod(m, n, s[n])
        else None
  }

  lemma OtherSpells(m: Method, s: seq<byte>, ch: byte)
    requires |s| <= |MethodName(m)| && MethodName(m)[..|s|] == s && OtherMethod(m, |s|, ch).Some?
    ensures var n := OtherMethod(m, |s|, ch).value;
            |s| < |MethodName(n)| && MethodName(n)[..|s| + 1] == s + [ch]
  {
    hide MethodName, Taken;
    OtherIsTaken(m, |s|, ch);
    var n := OtherMethod(m, |s|, ch).value;
    TakenParts(n);
    PartingLetter(n);
    assert MethodName(n)[..|s| + 1] == MethodName(n)[..|s|] + [MethodName(n)[|s|]];
  }

  /** What it has begins with what was read. */
  lemma {:induction false} GuessSpells(s: seq<byte>)
    requires s != [] && Guess(s).Some?
    ensures var m := Guess(s).value;
            |s| <= |MethodName(m)| && MethodName(m)[..|s|] == s
  {
    hide MethodName, FirstMethod, OtherMethod;
    var n := |s| - 1;
    if n == 0 {
      FirstLetterIs(s[0]);
      NameLetters(Guess(s).value);
      assert MethodName(Guess(s).value)[..1] == s;
    } else {
      GuessSpells(s[..n]);
      var m := Guess(s[..n]).value;
      assert s == s[..n] + [s[n]];
      if s[n] == At(MethodName(m), n) {
        assert MethodName(m)[..n + 1] == MethodName(m)[..n] + [MethodName(m)[n]];
      } else {
        OtherSpells(m, s[..n], s[n]);
      }
    }
  }

  /** Once enough of a name is read, the parser has its method. */
  lemma {:induction false} GuessKnows(m: Method, s: seq<byte>)
    requires Known(m) <= |s| <= |MethodName(m)| && MethodName(m)[..|s|] == s
    ensures s != [] && Guess(s) == Some(m)
    decreases |s|
  {
    hide MethodName, FirstMethod, OtherMethod, IsLetter;
    var n := |s| - 1;
    NameLetters(m);
    assert s[n] == MethodName(m)[n];
    assert s[n] != '\0' by { assert IsLetter(MethodName(m)[n]); Printable(MethodName(m)[n]); }
    if |s| > Known(m) {
      assert MethodName(m)[..n] == s[..n];
      GuessKnows(m, s[..n]);
    } else if Taken(m).None? {
      FirstIs(m, s[0]);
    } else {
      var (q, k, c) := Taken(m).value;
      TakenParts(m);
      PartingLetter(m);
      assert s[..n] == MethodName(q)[..n];
      GuessKnows(q, s[..n]);
      TakenIsOther(m, s[n]);
    }
  }

  lemma Printable(c: char)
    requires IsLetter(c)
    ensures c != '\0'
  {}

  /** The bytes are a method's whole name if and only if the parser, having read them, has
      a method with no letter left. */
  lemma WholeName(s: seq<byte>, m: Method)
    requires s != []
    ensures s == MethodName(m) <==> Guess(s) == Some(m) && |s| >= |MethodName(m)|
  {
    hide MethodName, Guess, Taken;
    if s == MethodName(m) {
      KnownInside(m);
      assert MethodName(m)[..|s|] == s;
      GuessKnows(m, s);
    }
    if Guess(s) == Some(m) && |s| >= |MethodName(m)| {
      GuessSpells(s);
      assert MethodName(m)[..|s|] == MethodName(m);
    }
  }

  lemma KnownInside(m: Method)
    ensures Known(m) <= |MethodName(m)|
  {
    hide MethodName;
    NameLetters(m);
    if Taken(m).Some? {
      TakenParts(m);
    }
  }
}
