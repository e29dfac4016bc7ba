/** The descriptor table as the kernel stores it: a low bitmap with one bit per
    descriptor, a high bitmap with one bit per full low word, and cached
    summaries. Every method is proved against the set-based specification of
    module FdTable. */
module FdDescriptors {
  import opened Helpers
  import opened Wrappers
  import opened FdBits
  import opened FdTable

  datatype AllocResult = Got(fd: nat) | EMFILE | ENOSPC

  /** NDREDUCE: the number of words that hold x bits. */
  function Words(x: nat): nat {
    (x + 31) / 32
  }

  /** NDHISLOTS */
  function HiSlots(x: nat): nat {
    Words(Words(x))
  }

  /** The size of the low map: 32 low words per high word. */
  function LoSlots(x: nat): nat {
    32 * HiSlots(x)
  }

  /** A bitmap read as one long sequence of bits. */
  ghost function Flat(m: seq<Word>): (f: seq<bool>)
    ensures |f| == 32 * |m|
  {
    if m == [] then [] else Flat(m[..|m| - 1]) + m[|m| - 1]
  }

  /** The plain set that a low map stands for. */
  ghost function UsedOf(lo: seq<Word>): set<nat> {
    set fd: nat | 0 <= fd < |Flat(lo)| && Flat(lo)[fd]
  }

  /** A high bit is set exactly when its low word is full. */
  ghost predicate HiAgrees(lo: seq<Word>, hi: seq<Word>) {
    && |lo| == 32 * |hi|
    && forall k :: 0 <= k < |lo| ==> (Flat(hi)[k] <==> lo[k] == FULL)
  }

  lemma HiLength(lo: seq<Word>, hi: seq<Word>)
    requires HiAgrees(lo, hi)
    ensures |lo| == 32 * |hi|
  {}

  /** Bit j of word `off` sits at position 32 * off + j. */
  lemma Position(m: seq<Word>, off: nat, j: nat)
    requires off < |m| && j < 32
    ensures Flat(m)[32 * off + j] == m[off][j]
  {
    if off < |m| - 1 {
      Position(m[..|m| - 1], off, j);
    }
  }

  /** Changing one bit of one word changes one position. */
  lemma Update(m: seq<Word>, off: nat, i: nat, b: bool)
    requires off < |m| && i < 32
    ensures Flat(m[off := m[off][i := b]]) == Flat(m)[32 * off + i := b]
  {
    var m' := m[off := m[off][i := b]];
    if off < |m| - 1 {
      Update(m[..|m| - 1], off, i, b);
      assert m'[..|m| - 1] == m[..|m| - 1][off := m[off][i := b]];
    } else {
      assert m'[..|m| - 1] == m[..|m| - 1];
    }
  }

  /** The least clear position at or above `from`; at least |f| when there is none. */
  ghost function FirstClear(f: seq<bool>, from: nat): (r: nat)
    ensures from <= r
    ensures r < |f| ==> !f[r]
    ensures forall k :: from <= k < r && k < |f| ==> f[k]
    decreases |f| - from
  {
    if from >= |f| || !f[from] then from else FirstClear(f, from + 1)
  }

  lemma FirstClearIs(f: seq<bool>, from: nat, r: nat)
    requires from <= r < |f| && !f[r]
    requires forall k :: from <= k < r ==> f[k]
    ensures FirstClear(f, from) == r
  {
    var c := FirstClear(f, from);
    assert !f[c];
  }

  lemma FirstClearSkips(f: seq<bool>, from: nat, to: nat)
    requires from <= to <= |f|
    requires forall k :: from <= k < to ==> f[k]
    ensures FirstClear(f, from) == FirstClear(f, to)
    decreases |f| - from
  {
    if from < to {
      FirstClearSkips(f, from + 1, to);
    }
  }

  /** Bit j of word `off` is clear and the bits [i, j) of the word are set: a scan
      from bit i stops there. */
  lemma ScanStops(m: seq<Word>, off: nat, i: nat, j: nat)
    requires off < |m| && i <= j < 32
    requires !m[off][j] && forall b :: i <= b < j ==> m[off][b]
    ensures FirstClear(Flat(m), 32 * off + i) == 32 * off + j
  {
    Position(m, off, j);
    forall k | 32 * off + i <= k < 32 * off + j
      ensures Flat(m)[k]
    {
      Position(m, off, k - 32 * off);
    }
    FirstClearIs(Flat(m), 32 * off + i, 32 * off + j);
  }

  /** A word with no clear bit from i on is skipped. */
  lemma ScanGoesOn(m: seq<Word>, off: nat, i: nat)
    requires off < |m| && i < 32
    requires forall b :: i <= b < 32 ==> m[off][b]
    ensures FirstClear(Flat(m), 32 * off + i) == FirstClear(Flat(m), 32 * off + 32)
  {
    forall k | 32 * off + i <= k < 32 * off + 32
      ensures Flat(m)[k]
    {
      Position(m, off, k - 32 * off);
    }
    FirstClearSkips(Flat(m), 32 * off + i, 32 * off + 32);
  }

  /** `x >> NDENTRYSHIFT` and `x & NDENTRYMASK` */
  method Split(x: nat) returns (off: nat, i: nat)
    ensures x == 32 * off + i && i < 32
  {
    off, i := x / 32, x % 32;
  }

  lemma WordsBound(off: nat, i: nat, bits: nat)
    requires 32 * off + i <= bits && i < 32
    ensures if i == 0 then off <= Words(bits) else off < Words(bits)
    ensures bits <= 32 * Words(bits) < bits + 32
  {}

  ghost function ScanResult(f: seq<bool>, want: nat): int {
    if FirstClear(f, want) < |f| then FirstClear(f, want) else -1
  }

  /** The scan loop of find_next_zero, over whole words. */
  method ScanWords(bitmap: array<Word>, base: nat, first: nat, maxoff: nat) returns (r: int)
    requires first <= maxoff && base + maxoff <= bitmap.Length
    ensures r == ScanResult(Flat(bitmap[base..base + maxoff]), 32 * first)
  {
    hide Flat, FirstClear;
    ghost var m := bitmap[base..base + maxoff];
    var off := first;
    while off < maxoff
      invariant off <= maxoff
      invariant FirstClear(Flat(m), 32 * first) == FirstClear(Flat(m), 32 * off)
    {
      var sub := bitmap[base + off];
      assert m[off] == sub;
      if sub != FULL {
        var j := LeastClear(sub);
        ScanStops(m, off, 0, j);
        return 32 * off + j;
      }
      ScanGoesOn(m, off, 0);
      off := off + 1;
    }
    return -1;
  }

  /** find_next_zero on the words from `base` on: the least clear bit at or above
      `want` in the first `maxoff` of them, or -1. */
  method FindNextZero(bitmap: array<Word>, base: nat, want: nat, bits: nat, maxoff: nat) returns (r: int)
    requires Words(bits) <= maxoff && base + maxoff <= bitmap.Length
    ensures r == if want > bits then -1 else ScanResult(Flat(bitmap[base..base + maxoff]), want)
  {
    hide Flat, FirstClear, Words;
    if want > bits {
      return -1;
    }
    ghost var m := bitmap[base..base + maxoff];
    var off, i := Split(want);
    WordsBound(off, i, bits);
    if i != 0 {
      var sub := HideBelow(bitmap[base + off], i);
      assert m[off] == bitmap[base + off];
      if sub != FULL {
        var j := LeastClear(sub);
        ScanStops(m, off, i, j);
        return 32 * off + j;
      }
      ScanGoesOn(m, off, i);
      off := off + 1;
    }
    r := ScanWords(bitmap, base, off, maxoff);
  }

  /** Setting bit i of low word `off`, and the high bit when the word fills up. */
  lemma HiAfterSet(lo: seq<Word>, hi: seq<Word>, off: nat, i: nat, hi': seq<Word>)
    requires HiAgrees(lo, hi) && off < |lo| && i < 32 && !lo[off][i]
    requires |hi'| == |hi|
    requires Flat(hi') == if lo[off][i := true] == FULL then Flat(hi)[off := true] else Flat(hi)
    ensures HiAgrees(lo[off := lo[off][i := true]], hi')
  {}

  lemma HiAfterClear(lo: seq<Word>, hi: seq<Word>, off: nat, i: nat, hi': seq<Word>)
    requires HiAgrees(lo, hi) && off < |lo| && i < 32
    requires |hi'| == |hi|
    requires Flat(hi') == if lo[off] == FULL then Flat(hi)[off := false] else Flat(hi)
    ensures HiAgrees(lo[off := lo[off][i := false]], hi')
  {
    assert !lo[off][i := false][i];
    assert FULL[i];
  }

  lemma UsedAfterSet(lo: seq<Word>, off: nat, i: nat)
    requires off < |lo| && i < 32
    ensures UsedOf(lo[off := lo[off][i := true]]) == UsedOf(lo) + {32 * off + i}
    ensures 32 * off + i in UsedOf(lo) <==> lo[off][i]
  {
    Update(lo, off, i, true);
    Position(lo, off, i);
  }

  lemma UsedAfterClear(lo: seq<Word>, off: nat, i: nat)
    requires off < |lo| && i < 32
    ensures UsedOf(lo[off := lo[off][i := false]]) == UsedOf(lo) - {32 * off + i}
  {
    Update(lo, off, i, false);
  }

  /** `m[off] |= 1 << i` or `m[off] &= ~(1 << i)` */
  method PutBit(m: array<Word>, off: nat, i: nat, b: bool)
    requires off < m.Length && i < 32
    modifies m
    ensures m[..] == old(m[..])[off := old(m[..])[off][i := b]]
    ensures Flat(m[..]) == old(Flat(m[..]))[32 * off + i := b]
  {
    hide Flat;
    Update(m[..], off, i, b);
    if b {
      m[off] := SetBit(m[off], i);
    } else {
      m[off] := ClearBit(m[off], i);
    }
    assert m[..] == old(m[..])[off := old(m[..])[off][i := b]];
  }

  /** The bitmap half of fd_used. */
  method MarkUsed(lomap: array<Word>, himap: array<Word>, fd: nat)
    requires lomap != himap && HiAgrees(lomap[..], himap[..])
    requires fd < 32 * lomap.Length && fd !in UsedOf(lomap[..])
    modifies lomap, himap
    ensures HiAgrees(lomap[..], himap[..])
    ensures UsedOf(lomap[..]) == old(UsedOf(lomap[..])) + {fd}
  {
    hide Flat, UsedOf, HiAgrees;
    ghost var lo, hi := lomap[..], himap[..];
    var off, i := Split(fd);
    HiLength(lo, hi);
    UsedAfterSet(lo, off, i);
    PutBit(lomap, off, i, true);
    if lomap[off] == FULL {
      var ho, hj := Split(off);
      PutBit(himap, ho, hj, true);
    }
    HiAfterSet(lo, hi, off, i, himap[..]);
  }

  /** The bitmap half of fd_unused. */
  method MarkUnused(lomap: array<Word>, himap: array<Word>, fd: nat)
    requires lomap != himap && HiAgrees(lomap[..], himap[..])
    requires fd < 32 * lomap.Length
    modifies lomap, himap
    ensures HiAgrees(lomap[..], himap[..])
    ensures UsedOf(lomap[..]) == old(UsedOf(lomap[..])) - {fd}
  {
    hide Flat, UsedOf, HiAgrees;
    ghost var lo, hi := lomap[..], himap[..];
    var off, i := Split(fd);
    HiLength(lo, hi);
    UsedAfterClear(lo, off, i);
    if lomap[off] == FULL {
      var ho, hj := Split(off);
      PutBit(himap, ho, hj, false);
    }
    PutBit(lomap, off, i, false);
    HiAfterClear(lo, hi, off, i, himap[..]);
  }

  lemma ZeroWord(lo: seq<Word>, off: nat)
    requires off < |lo| && lo[off] == ZERO
    ensures forall fd :: 32 * off <= fd < 32 * off + 32 ==> fd !in UsedOf(lo)
  {
    forall fd | 32 * off <= fd < 32 * off + 32
      ensures fd !in UsedOf(lo)
    {
      Position(lo, off, fd - 32 * off);
    }
  }

  lemma LastBelowSkips(used: set<nat>, lower: nat, last: nat)
    requires lower <= last
    requires forall fd :: lower <= fd < last ==> fd !in used
    ensures LastBelow(used, last) == LastBelow(used, lower)
  {}

  /** find_last_set: the greatest used descriptor below `last`, or 0. */
  method FindLastSet(lomap: array<Word>, last: nat) returns (r: nat)
    requires last <= 32 * lomap.Length
    ensures r == LastBelow(UsedOf(lomap[..]), last)
  {
    hide UsedOf, Flat;
    ghost var used := UsedOf(lomap[..]);
    var off: int := (last - 1) / 32;
    while off >= 0 && lomap[off] == ZERO
      invariant -1 <= off <= (last - 1) / 32
      invariant forall fd :: 32 * (off + 1) <= fd < last ==> fd !in used
    {
      ZeroWord(lomap[..], off);
      off := off - 1;
    }
    if off < 0 {
      LastBelowSkips(used, 0, last);
      return 0;
    }
    var i := 32 * (off + 1) - 1;
    if i >= last {
      i := last - 1;
    }
    LastBelowSkips(used, i + 1, last);
    r := DownTo(lomap, i);
  }

  /** The second loop of find_last_set. */
  method DownTo(lomap: array<Word>, start: nat) returns (i: nat)
    requires start < 32 * lomap.Length
    ensures i == LastBelow(UsedOf(lomap[..]), start + 1)
  {
    ghost var used := UsedOf(lomap[..]);
    i := start;
    var inuse := FdInuse(lomap, i);
    while i > 0 && !inuse
      invariant i <= start
      invariant inuse == (i in used)
      invariant LastBelow(used, start + 1) == LastBelow(used, i + 1)
    {
      i := i - 1;
      inuse := FdInuse(lomap, i);
    }
  }

  /** fd_inuse */
  method FdInuse(lomap: array<Word>, fd: nat) returns (b: bool)
    requires fd < 32 * lomap.Length
    ensures b == (fd in UsedOf(lomap[..]))
  {
    var off, i := Split(fd);
    b := TestBit(lomap[off], i);
    Position(lomap[..], off, i);
  }

  lemma FlatPrefix(m: seq<Word>, n: nat)
    requires n <= |m|
    ensures Flat(m[..n]) == Flat(m)[..32 * n]
  {
    if n < |m| {
      FlatPrefix(m[..|m| - 1], n);
      assert m[..|m| - 1][..n] == m[..n];
    } else {
      assert m[..n] == m;
    }
  }

  /** What a scan of the first n high words says about all of them. */
  lemma PrefixScan(f: seq<bool>, n: nat, want: nat)
    requires n <= |f|
    ensures ScanResult(f[..n], want) == if FirstClear(f, want) < n then FirstClear(f, want) else -1
    decreases |f| - want
  {
    if want < n && f[want] {
      PrefixScan(f, n, want + 1);
    }
  }

  /** Full low words, which the high map lets the search skip. */
  lemma SkipFullWords(lo: seq<Word>, hi: seq<Word>, off: nat, to: nat)
    requires HiAgrees(lo, hi) && off <= to <= |lo|
    requires forall k :: off <= k < to ==> Flat(hi)[k]
    ensures FirstClear(Flat(lo), 32 * off) == FirstClear(Flat(lo), 32 * to)
    decreases |lo| - off
  {
    if off < to {
      ScanGoesOn(lo, off, 0);
      SkipFullWords(lo, hi, off + 1, to);
    }
  }

  /** The same from the middle of a word. */
  lemma SkipFullWordsFrom(lo: seq<Word>, hi: seq<Word>, off: nat, i: nat, to: nat)
    requires HiAgrees(lo, hi) && off < to <= |lo| && i < 32
    requires forall k :: off <= k < to ==> Flat(hi)[k]
    ensures FirstClear(Flat(lo), 32 * off + i) == FirstClear(Flat(lo), 32 * to)
  {
    assert Flat(hi)[off];
    ScanGoesOn(lo, off, i);
    SkipFullWords(lo, hi, off + 1, to);
  }

  /** The block that the high map points to. */
  lemma BlockFound(lo: seq<Word>, hi: seq<Word>, off: nat, i: nat, block: nat)
    requires HiAgrees(lo, hi) && off < |lo| && i < 32
    requires block == FirstClear(Flat(hi), off) && block < |lo|
    ensures lo[block] != FULL
    ensures FirstClear(Flat(lo), 32 * off + i) == FirstClear(Flat(lo), 32 * block + (if block > off then 0 else i))
  {
    hide Flat, FirstClear;
    if off < block {
      SkipFullWordsFrom(lo, hi, off, i, block);
    }
  }

  /** No low word below `last` is left. */
  lemma NoBlock(lo: seq<Word>, hi: seq<Word>, off: nat, i: nat, last: nat)
    requires HiAgrees(lo, hi) && i < 32 && last <= 32 * |lo|
    requires off > Words(last) || FirstClear(Flat(hi), off) >= 32 * HiSlots(last)
    ensures FirstClear(Flat(lo), 32 * off + i) >= last
  {
    var to := Words(last);
    WordsUp(last);
    if off < to {
      SkipFullWordsFrom(lo, hi, off, i, to);
    }
  }

  lemma WordsUp(x: nat)
    ensures x <= 32 * Words(x) < x + 32
    ensures Words(x) <= 32 * HiSlots(x)
  {}

  lemma HiSlotsMonotone(x: nat, y: nat)
    requires x <= y
    ensures HiSlots(x) <= HiSlots(y)
  {}

  /** What a scan of low words from bit `start` of word `block` on says about the whole
      map: where the next clear bit is, or that the word has none left. */
  ghost predicate LowSays(lo: seq<Word>, block: nat, start: nat, j: int)
    requires block < |lo|
  {
    if j >= 0 then FirstClear(Flat(lo), 32 * block + start) == 32 * block + j
    else
      && FirstClear(Flat(lo), 32 * block + start) == FirstClear(Flat(lo), 32 * block + 32)
      && (lo[block] != FULL ==> FirstClear(Flat(lo), 32 * block) < 32 * block + start)
  }

  lemma LowScan(lo: seq<Word>, block: nat, n: nat, start: nat, j: int)
    requires n >= 1 && block + n <= |lo| && start < 32 && j == ScanResult(Flat(lo[block..block + n]), start)
    ensures LowSays(lo, block, start, j)
  {
    hide FirstClear, Flat, ScanResult;
    var f, g := Flat(lo), Flat(lo[block..block + n]);
    FlatMiddle(lo, block, n);
    ScanFinds(g, start);
    if j >= 0 {
      StopsAt(f, g, 32 * block, start, j);
    } else {
      GoesOn(f, g, 32 * block, start);
      NotFullHasClear(lo, block);
    }
  }

  lemma StopsAt(f: seq<bool>, g: seq<bool>, base: nat, start: nat, j: nat)
    requires base + |g| <= |f| && g == f[base..base + |g|] && start <= j < |g| && !g[j]
    requires forall k :: start <= k < j ==> g[k]
    ensures FirstClear(f, base + start) == base + j
  {
    forall k | base + start <= k < base + j
      ensures f[k]
    {
      assert g[k - base];
    }
    FirstClearIs(f, base + start, base + j);
  }

  lemma GoesOn(f: seq<bool>, g: seq<bool>, base: nat, start: nat)
    requires base + |g| <= |f| && g == f[base..base + |g|] && start < 32 <= |g|
    requires forall k :: start <= k < |g| ==> g[k]
    ensures FirstClear(f, base + start) == FirstClear(f, base + 32)
  {
    forall k | base + start <= k < base + 32
      ensures f[k]
    {
      assert g[k - base];
    }
    FirstClearSkips(f, base + start, base + 32);
  }

  lemma NotFullHasClear(lo: seq<Word>, block: nat)
    requires block < |lo|
    ensures lo[block] != FULL ==> FirstClear(Flat(lo), 32 * block) < 32 * block + 32
  {
    if lo[block] != FULL {
      assert exists b :: 0 <= b < 32 && !lo[block][b];
      var b :| 0 <= b < 32 && !lo[block][b];
      Position(lo, block, b);
      ClearFound(Flat(lo), 32 * block, 32 * block + b);
    }
  }

  lemma ScanFinds(g: seq<bool>, start: nat)
    ensures var c := FirstClear(g, start);
            (ScanResult(g, start) >= 0 ==> ScanResult(g, start) == c && c < |g| && !g[c])
            && (ScanResult(g, start) < 0 ==> c >= |g|)
            && start <= c && forall k :: start <= k < c && k < |g| ==> g[k]
  {}

  lemma ClearFound(f: seq<bool>, from: nat, b: nat)
    requires from <= b < |f| && !f[b]
    ensures FirstClear(f, from) <= b
  {}

  lemma {:induction false} FlatConcat(a: seq<Word>, b: seq<Word>)
    ensures Flat(a + b) == Flat(a) + Flat(b)
  {
    if b == [] {
      assert a + b == a;
    } else {
      assert (a + b)[..|a + b| - 1] == a + b[..|b| - 1];
      FlatConcat(a, b[..|b| - 1]);
    }
  }

  lemma FlatPart(a: seq<Word>, b: seq<Word>, c: seq<Word>)
    ensures Flat(a + b + c)[32 * |a|..32 * |a| + 32 * |b|] == Flat(b)
  {
    hide Flat;
    FlatConcat(a, b);
    FlatConcat(a + b, c);
  }

  lemma FlatMiddle(m: seq<Word>, base: nat, n: nat)
    requires base + n <= |m|
    ensures Flat(m[base..base + n]) == Flat(m)[32 * base..32 * base + 32 * n]
  {
    hide Flat;
    var a, b, c := m[..base], m[base..base + n], m[base + n..];
    assert m == a + b + c;
    FlatPart(a, b, c);
  }

  /** NDLOSLOTS as a bound for the scan of a map, which ends with the map. */
  function ScanBound(loslots: nat -> nat, bits: nat, base: nat, length: nat): nat
    requires base <= length
  {
    Min(loslots(bits), length - base)
  }

  /** All that is assumed of NDLOSLOTS: that many words hold that many bits. */
  ghost predicate Ample(loslots: nat -> nat) {
    forall x: nat :: Words(x) <= loslots(x)
  }

  /** The first call of find_next_zero in fdalloc, on the high map. */
  method ProbeHigh(loslots: nat -> nat, himap: array<Word>, off: nat, last: nat) returns (block: int)
    requires Ample(loslots) && HiSlots(last) <= himap.Length
    ensures block == -1
            || (off <= Words(last) && block == FirstClear(Flat(himap[..]), off) && block < 32 * himap.Length)
    ensures block == -1 ==> off > Words(last) || FirstClear(Flat(himap[..]), off) >= 32 * HiSlots(last)
  {
    hide Flat, FirstClear, Words;
    ghost var hi := himap[..];
    var n := ScanBound(loslots, Words(last), 0, himap.Length);
    assert HiSlots(last) <= n;
    block := FindNextZero(himap, 0, off, Words(last), n);
    FlatPrefix(hi, n);
    assert himap[0..n] == hi[..n];
    PrefixScan(Flat(hi), 32 * n, off);
  }

  /** The second call, on the low map from one word on. */
  method ProbeLow(loslots: nat -> nat, lomap: array<Word>, block: nat, start: nat) returns (j: int)
    requires Ample(loslots) && block < lomap.Length && start < 32
    ensures j >= -1 && LowSays(lomap[..], block, start, j)
  {
    hide Flat, FirstClear, LowSays;
    var n := ScanBound(loslots, NDENTRIES, block, lomap.Length);
    assert Words(NDENTRIES) == 1;
    j := FindNextZero(lomap, block, start, NDENTRIES, n);
    assert lomap[..][block..block + n] == lomap[block..block + n];
    LowScan(lomap[..], block, n, start, j);
  }

  /** What one round of the search says: no block at all, the least unused
      descriptor at or above i, or a block whose only free descriptors are below i. */
  ghost predicate ProbeSays(f: seq<bool>, i: nat, last: nat, block: int, fd: int) {
    if block < 0 then
      fd == -1 && FirstClear(f, i) >= last
    else if fd >= 0 then
      fd == FirstClear(f, i)
    else
      && fd == -1
      && i < 32 * block + 32 <= |f|
      && FirstClear(f, i) == FirstClear(f, 32 * block + 32)
      && FirstClear(f, 32 * block) < i
  }

  lemma ProbeFindsNothing(lo: seq<Word>, hi: seq<Word>, off: nat, low: nat, last: nat)
    requires HiAgrees(lo, hi) && low < 32 && last <= 32 * |lo|
    requires off > Words(last) || FirstClear(Flat(hi), off) >= 32 * HiSlots(last)
    ensures ProbeSays(Flat(lo), 32 * off + low, last, -1, -1)
  {
    NoBlock(lo, hi, off, low, last);
  }

  lemma ProbeFindsFd(lo: seq<Word>, hi: seq<Word>, off: nat, low: nat, last: nat, block: nat, start: nat, j: nat)
    requires HiAgrees(lo, hi) && off < |lo| && low < 32
    requires block == FirstClear(Flat(hi), off) && block < |lo|
    requires start == (if block > off then 0 else low) && LowSays(lo, block, start, j)
    ensures ProbeSays(Flat(lo), 32 * off + low, last, block, 32 * block + j)
  {
    hide Flat, FirstClear, HiAgrees, LowSays;
    BlockFound(lo, hi, off, low, block);
    LowFinds(lo, block, start, j);
  }

  lemma LowFinds(lo: seq<Word>, block: nat, start: nat, j: nat)
    requires block < |lo| && LowSays(lo, block, start, j)
    ensures FirstClear(Flat(lo), 32 * block + start) == 32 * block + j
  {}

  lemma ProbeFindsRetry(lo: seq<Word>, hi: seq<Word>, off: nat, low: nat, last: nat, block: nat, start: nat)
    requires HiAgrees(lo, hi) && off < |lo| && low < 32
    requires block == FirstClear(Flat(hi), off) && block < |lo|
    requires start == (if block > off then 0 else low) && LowSays(lo, block, start, -1)
    ensures ProbeSays(Flat(lo), 32 * off + low, last, block, -1)
  {
    hide Flat, HiAgrees;
    BlockFound(lo, hi, off, low, block);
    assert start == low && block == off;
  }

  /** One round of fdalloc's search, through both maps. */
  method Probe(loslots: nat -> nat, lomap: array<Word>, himap: array<Word>, i: nat, last: nat)
    returns (block: int, fd: int)
    requires Ample(loslots) && HiAgrees(lomap[..], himap[..])
    requires HiSlots(last) <= himap.Length && last <= 32 * lomap.Length
    ensures ProbeSays(Flat(lomap[..]), i, last, block, fd)
  {
    hide Flat, FirstClear, HiAgrees, Words, HiSlots, LowSays, ProbeSays, Ample;
    ghost var lo, hi := lomap[..], himap[..];
    HiLength(lo, hi);
    var off, low := Split(i);
    block := ProbeHigh(loslots, himap, off, last);
    if block == -1 {
      ProbeFindsNothing(lo, hi, off, low, last);
      return -1, -1;
    }
    var start := if block > off then 0 else low;
    var j := ProbeLow(loslots, lomap, block, start);
    if j < 0 {
      ProbeFindsRetry(lo, hi, off, low, last, block, start);
      return block, -1;
    }
    ProbeFindsFd(lo, hi, off, low, last, block, start, j);
    fd := 32 * block + j;
  }

  /** A block whose free descriptors all lie below the start of the search: the next
      search starts above the hint and misses nothing. */
  lemma RetryMissesNothing(f: seq<bool>, want: nat, freefile: nat, last: nat, block: nat)
    requires ProbeSays(f, Max(want, freefile), last, block, -1)
    ensures freefile < 32 * block + 32 && want < 32 * block + 32 <= |f|
    ensures FirstClear(f, Max(want, freefile)) == FirstClear(f, Max(32 * block + 32, freefile))
    ensures want <= freefile ==> exists k :: 0 <= k < freefile && k < |f| && !f[k]
  {
    var c := FirstClear(f, 32 * block);
    assert c < Max(want, freefile);
    assert c < |f| && !f[c];
  }

  /** The search loop of fdalloc, from restart to the point where it takes a
      descriptor or gives up. It starts at the higher of `want` and the hint, and it
      leaves the hint behind only when there is an unused descriptor below it. */
  method Search(loslots: nat -> nat, lomap: array<Word>, himap: array<Word>, freefile: nat, want0: nat, last: nat)
    returns (fd: int, want: nat)
    requires Ample(loslots) && HiAgrees(lomap[..], himap[..])
    requires HiSlots(last) <= himap.Length && last <= 32 * lomap.Length
    ensures want == want0 || freefile < want
    ensures (want <= freefile <==> want0 <= freefile) || !AllBelowSet(Flat(lomap[..]), freefile)
    ensures fd == if FirstClear(Flat(lomap[..]), Max(want0, freefile)) < last
                  then FirstClear(Flat(lomap[..]), Max(want0, freefile)) else -1
  {
    hide Flat, FirstClear, HiAgrees, HiSlots, Ample;
    ghost var f := Flat(lomap[..]);
    want := want0;
    while true
      invariant want == want0 || freefile < want
      invariant (want <= freefile <==> want0 <= freefile) || !AllBelowSet(f, freefile)
      invariant FirstClear(f, Max(want, freefile)) == FirstClear(f, Max(want0, freefile))
      decreases |f| - want
    {
      var i := want;
      if i < freefile {
        i := freefile;
      }
      var block;
      block, fd := Probe(loslots, lomap, himap, i, last);
      if block < 0 || fd >= last {
        return -1, want;
      }
      if fd >= 0 {
        return;
      }
      RetryMissesNothing(f, want, freefile, last, block);
      want := 32 * (block + 1);
    }
  }

  /** Nothing below n is unused. */
  ghost predicate AllBelowSet(f: seq<bool>, n: nat) {
    forall k :: 0 <= k < n && k < |f| ==> f[k]
  }

  ghost predicate Reads(f: seq<bool>, used: set<nat>) {
    forall k: nat :: k in used <==> k < |f| && f[k]
  }

  lemma UsedReads(lo: seq<Word>)
    ensures Reads(Flat(lo), UsedOf(lo))
  {}

  /** What the answer of the search means for the plain set. */
  lemma SearchMeaning(f: seq<bool>, used: set<nat>, freefile: nat, want: nat, last: nat)
    requires Reads(f, used) && last <= |f|
    ensures FirstClear(f, Max(want, freefile)) < last ==>
              IsLeastUnused(used, Max(want, freefile), last, FirstClear(f, Max(want, freefile)))
    ensures FirstClear(f, Max(want, freefile)) >= last ==> NoneUnused(used, Max(want, freefile), last)
  {
    var r := FirstClear(f, Max(want, freefile));
    forall k | Max(want, freefile) <= k < r && k < |f|
      ensures k in used
    {
      assert f[k];
    }
  }

  function Pow2(k: nat): (r: nat)
    ensures r >= 1
  {
    if k == 0 then 1 else 2 * Pow2(k - 1)
  }

  /** fd_nfiles is NDFILE or NDEXTENT doubled some number of times. */
  ghost predicate GoodSize(ndfile: nat, ndextent: nat, nfiles: nat) {
    0 < ndfile < ndextent && (nfiles == ndfile || exists k: nat :: nfiles == ndextent * Pow2(k))
  }

  /** The struct filedesc of one process. */
  class Filedesc {
    const ndfile: nat
    const ndextent: nat
    /** NDLOSLOTS */
    const loslots: nat -> nat
    var lomap: array<Word>
    var himap: array<Word>
    var ofiles: array<Option<FileId>>
    var freefile: nat
    var lastfile: nat
    var openfd: int

    ghost function View(): Table
      reads this, lomap, ofiles
    {
      Table(UsedOf(lomap[..]), ofiles[..], freefile, lastfile, openfd)
    }

    ghost predicate SizeOk(nfiles: nat) {
      GoodSize(ndfile, ndextent, nfiles)
    }

    ghost predicate ValidCore()
      reads this, lomap, himap, ofiles
    {
      && SizeOk(ofiles.Length)
      && Ample(loslots)
      && lomap != himap
      && himap.Length == HiSlots(ofiles.Length)
      && lomap.Length == 32 * himap.Length
      && HiAgrees(lomap[..], himap[..])
      && TableCore(View())
    }

    ghost predicate Valid()
      reads this, lomap, himap, ofiles
    {
      ValidCore() && HintOk(View())
    }

    /** fdinit: an empty table of NDFILE slots. */
    constructor (ndfile: nat, ndextent: nat, loslots: nat -> nat)
      requires 0 < ndfile < ndextent && Ample(loslots)
      ensures Valid()
      ensures fresh(lomap) && fresh(himap) && fresh(ofiles)
      ensures this.ndfile == ndfile && this.ndextent == ndextent && this.loslots == loslots
      ensures View() == Table({}, seq(ndfile, _ => None), 0, 0, 0)
    {
      this.ndfile, this.ndextent, this.loslots := ndfile, ndextent, loslots;
      ofiles := new Option<FileId>[ndfile](_ => None);
      himap := new Word[HiSlots(ndfile)](_ => ZERO);
      lomap := new Word[LoSlots(ndfile)](_ => ZERO);
      freefile, lastfile, openfd := 0, 0, 0;
      new;
      EmptyMaps(lomap[..], himap[..]);
      assert ofiles[..] == seq(ndfile, _ => None);
    }

    /** The empty child that fdcopy fills. */
    constructor Child(ndfile: nat, ndextent: nat, loslots: nat -> nat, n: nat, freefile: nat)
      requires GoodSize(ndfile, ndextent, n) && Ample(loslots)
      ensures ValidCore()
      ensures fresh(lomap) && fresh(himap) && fresh(ofiles)
      ensures this.ndfile == ndfile && this.ndextent == ndextent && this.loslots == loslots
      ensures View() == Table({}, seq(n, _ => None), freefile, 0, 0)
    {
      this.ndfile, this.ndextent, this.loslots := ndfile, ndextent, loslots;
      ofiles := new Option<FileId>[n](_ => None);
      himap := new Word[HiSlots(n)](_ => ZERO);
      lomap := new Word[LoSlots(n)](_ => ZERO);
      this.freefile, lastfile, openfd := freefile, 0, 0;
      new;
      EmptyMaps(lomap[..], himap[..]);
      assert ofiles[..] == seq(n, _ => None);
    }

    /** fd_used */
    method FdUsed(fd: nat)
      requires ValidCore() && fd < ofiles.Length && fd !in View().used
      modifies this`lastfile, this`openfd, lomap, himap
      ensures ValidCore()
      ensures View() == Use(old(View()), fd)
    {
      hide Flat, UsedOf, HiAgrees, TableCore, HintOk, GoodSize, HiSlots;
      ghost var t := View();
      LowCovers(ofiles.Length);
      MarkUsed(lomap, himap, fd);
      if fd > lastfile {
        lastfile := fd;
      }
      openfd := openfd + 1;
      UseKeepsInv(t, fd);
    }

    /** fd_unused */
    method FdUnused(fd: nat)
      requires ValidCore() && fd in View().used && fd < ofiles.Length && ofiles[fd].None?
      modifies this`freefile, this`lastfile, this`openfd, lomap, himap
      ensures ValidCore() && (old(HintOk(View())) ==> HintOk(View()))
      ensures View() == Unuse(old(View()), fd)
    {
      hide Flat, UsedOf, HiAgrees, TableCore, HintOk, GoodSize, HiSlots, Ample;
      ghost var t := View();
      LowCovers(ofiles.Length);
      UnuseKeepsInv(t, fd);
      if fd < freefile {
        freefile := fd;
      }
      MarkUnused(lomap, himap, fd);
      if fd == lastfile {
        lastfile := FindLastSet(lomap, fd);
      }
      openfd := openfd - 1;
    }

    /** fdinsert: a reserved descriptor gets its file. */
    method FdInsert(fd: nat, f: FileId)
      requires ValidCore() && fd in View().used && fd < ofiles.Length && ofiles[fd].None?
      modifies ofiles
      ensures ValidCore() && (old(HintOk(View())) ==> HintOk(View()))
      ensures View() == old(View()).(slots := old(View()).slots[fd := Some(f)])
    {
      hide UsedOf, HiAgrees, GoodSize, HiSlots, Ample;
      ofiles[fd] := Some(f);
    }

    /** fdremove: the slot is emptied and the descriptor released. */
    method FdRemove(fd: nat)
      requires ValidCore() && fd in View().used && fd < ofiles.Length
      modifies this`freefile, this`lastfile, this`openfd, lomap, himap, ofiles
      ensures ValidCore() && (old(HintOk(View())) ==> HintOk(View()))
      ensures View() == Unuse(old(View()).(slots := old(View()).slots[fd := None]), fd)
    {
      hide UsedOf, HiAgrees, GoodSize, HiSlots, Ample;
      ofiles[fd] := None;
      assert ofiles[..] == old(ofiles[..])[fd := None];
      FdUnused(fd);
    }

    /** fdalloc: the least unused descriptor at or above `want` and the hint and below
        both the table size and the limit, or why there is none. While the hint is
        right, that is the least one at or above `want`. */
    method FdAlloc(want: nat, lim: nat) returns (r: AllocResult)
      requires ValidCore()
      modifies this`freefile, this`lastfile, this`openfd, lomap, himap
      ensures ValidCore() && (old(HintOk(View())) ==> HintOk(View()))
      ensures r.Got? ==> Allocates(old(View()), want, r.fd, View()) && r.fd < lim
      ensures !r.Got? ==> NoneUnused(View().used, Max(want, freefile), Min(ofiles.Length, lim)) && View() == old(View())
                          && (r == EMFILE <==> ofiles.Length >= lim)
      ensures old(HintOk(View())) && r.Got? ==> IsLeastUnused(old(View()).used, want, Min(ofiles.Length, lim), r.fd)
      ensures old(HintOk(View())) && !r.Got? ==> NoneUnused(View().used, want, Min(ofiles.Length, lim))
    {
      hide Flat, FirstClear, UsedOf, HiAgrees, TableCore, GoodSize, HiSlots, Reads, AllBelowSet, Ample;
      ghost var t := View();
      var last := Min(ofiles.Length, lim);
      LowCovers(ofiles.Length);
      HiSlotsMonotone(last, ofiles.Length);
      UsedReads(lomap[..]);
      if HintOk(t) {
        HintBelow(Flat(lomap[..]), t);
      }
      var fd, want' := Search(loslots, lomap, himap, freefile, want, last);
      SearchMeaning(Flat(lomap[..]), t.used, freefile, want, last);
      if HintOk(t) {
        HintedIsLeast(t, want, last, if fd < 0 then 0 else fd);
      }
      if fd != -1 {
        FdUsed(fd);
        if want' <= freefile {
          freefile := fd;
        }
        AllocKeepsInv(t, want, fd, View());
        return Got(fd);
      }
      if ofiles.Length >= lim {
        return EMFILE;
      }
      return ENOSPC;
    }

    /** fdexpand: NDEXTENT slots, or twice as many as before. */
    method FdExpand()
      requires ValidCore()
      modifies this`lomap, this`himap, this`ofiles
      ensures ValidCore() && (old(HintOk(View())) ==> HintOk(View()))
      ensures lomap == old(lomap) || fresh(lomap)
      ensures himap == old(himap) || fresh(himap)
      ensures fresh(ofiles)
      ensures ofiles.Length == (if old(ofiles.Length) < ndextent then ndextent else 2 * old(ofiles.Length))
      ensures old(ofiles.Length) < ofiles.Length
      ensures View() == Grow(old(View()), ofiles.Length)
    {
      hide Flat, UsedOf, HiAgrees, TableCore, HintOk, HiSlots, Ample;
      ghost var t := View();
      ghost var lo, hi := lomap[..], himap[..];
      var oldnfiles := ofiles.Length;
      var nfiles := if oldnfiles < ndextent then ndextent else 2 * oldnfiles;
      SizeGrows(oldnfiles);
      HiSlotsMonotone(oldnfiles, nfiles);
      GrowKeepsInv(t, nfiles);
      var newofile := Enlarged(ofiles, nfiles, None);
      if HiSlots(nfiles) > HiSlots(oldnfiles) {
        var newhimap := Enlarged(himap, HiSlots(nfiles), ZERO);
        var newlomap := Enlarged(lomap, LoSlots(nfiles), ZERO);
        MapsGrow(lo, hi, newlomap[..], newhimap[..]);
        himap := newhimap;
        lomap := newlomap;
      }
      ofiles := newofile;
      assert ofiles[..] == Grow(t, nfiles).slots;
    }

    /** The allocation loop of falloc, dup and fcntl(F_DUPFD): grow while there
        is no room below the limit. It ends because each ENOSPC enlarges the
        table, and it fails only when every descriptor that fdalloc looks at below
        the limit is used. */
    method AllocGrow(want: nat, lim: nat) returns (r: AllocResult)
      requires ValidCore()
      modifies this, lomap, himap
      ensures ValidCore() && (old(HintOk(View())) ==> HintOk(View()))
      ensures r.Got? || r == EMFILE
      ensures |old(View()).slots| <= ofiles.Length
      ensures r.Got? ==> Allocates(Grow(old(View()), ofiles.Length), want, r.fd, View()) && r.fd < lim
      ensures r == EMFILE ==> NoneUnused(old(View()).used, Max(want, freefile), lim)
                              && View() == Grow(old(View()), ofiles.Length)
      ensures old(HintOk(View())) && r.Got? ==> IsLeastUnused(old(View()).used, want, lim, r.fd)
      ensures old(HintOk(View())) && r == EMFILE ==> NoneUnused(old(View()).used, want, lim)
    {
      hide UsedOf, HiAgrees, TableCore, HintOk, HiSlots, GoodSize, Ample, Allocates;
      ghost var t := View();
      assert t.slots + seq(0, _ => None) == t.slots;
      r := FdAlloc(want, lim);
      while r == ENOSPC
        invariant ValidCore() && (HintOk(t) ==> HintOk(View()))
        invariant lomap == old(lomap) || fresh(lomap)
        invariant himap == old(himap) || fresh(himap)
        invariant |t.slots| <= ofiles.Length
        invariant r.Got? ==> Allocates(Grow(t, ofiles.Length), want, r.fd, View()) && r.fd < lim
        invariant !r.Got? ==> NoneUnused(t.used, Max(want, t.freefile), Min(ofiles.Length, lim))
                              && View() == Grow(t, ofiles.Length)
                              && (r == EMFILE <==> ofiles.Length >= lim)
        invariant HintOk(t) && r.Got? ==> IsLeastUnused(t.used, want, lim, r.fd)
        invariant HintOk(t) && !r.Got? ==> NoneUnused(t.used, want, Min(ofiles.Length, lim))
        decreases r == ENOSPC, lim - ofiles.Length
      {
        ghost var n := ofiles.Length;
        FdExpand();
        GrowTwice(t, n, ofiles.Length);
        GrowHint(t, ofiles.Length);
        r := FdAlloc(want, lim);
      }
    }

    /** The table size that fdcopy picks: half the parent's as long as the
        descriptors in use still fit. */
    method CopySize() returns (n: nat)
      requires SizeOk(ofiles.Length) && lastfile < ofiles.Length
      ensures SizeOk(n) && lastfile < n <= ofiles.Length
    {
      if lastfile < ndfile {
        SizeAtLeast(ofiles.Length);
        return ndfile;
      }
      n := ofiles.Length;
      while n >= 2 * ndextent && n > lastfile * 2
        invariant SizeOk(n) && lastfile < n <= ofiles.Length
      {
        SizeHalves(n);
        n := n / 2;
      }
    }

    lemma SizeAtLeast(n: nat)
      requires SizeOk(n)
      ensures 0 < ndfile <= n
    {
      if n != ndfile {
        var k: nat :| n == ndextent * Pow2(k);
        TimesAtLeast(ndextent, Pow2(k));
      }
    }

    lemma SizeHalves(n: nat)
      requires SizeOk(n) && n >= 2 * ndextent
      ensures n == 2 * (n / 2) && SizeOk(n / 2)
    {
      var k: nat :| n == ndextent * Pow2(k);
      assert Pow2(0) == 1;
      assert k > 0;
      assert n == 2 * (ndextent * Pow2(k - 1));
    }

    /** One round of fdcopy's loop. */
    method CopyOne(child: Filedesc, i: nat, drop: set<nat>)
      requires i < ofiles.Length && i < child.ofiles.Length
      requires child != this && child.ofiles != ofiles && child.lomap != lomap && child.himap != lomap
      requires child.ValidCore()
      requires child.View() == CopyUpTo(View(), drop, child.ofiles.Length, i)
      modifies child`freefile, child`lastfile, child`openfd, child.lomap, child.himap, child.ofiles
      ensures child.ValidCore()
      ensures child.View() == CopyUpTo(View(), drop, child.ofiles.Length, i + 1)
    {
      hide UsedOf, HiAgrees, HiSlots, GoodSize, TableCore, CopyUpTo;
      ghost var p, n := View(), child.ofiles.Length;
      CopyHolds(p, drop, n, i);
      CopyStep(p, drop, n, i);
      CopyKeepsCore(p, drop, n, i + 1);
      var fp := ofiles[i];
      if fp.Some? {
        if i in drop {
          if i < child.freefile {
            child.freefile := i;
          }
        } else {
          child.FdUsed(i);
          child.ofiles[i] := fp;
          assert child.ofiles[..] == CopyUpTo(p, drop, n, i).slots[i := fp];
        }
      }
    }

    /** fdcopy: a child that holds every file of the parent but those at the descriptors
        in `drop` (kqueues and files with too many references), each at its own. */
    method FdCopy(drop: set<nat>) returns (child: Filedesc)
      requires ValidCore()
      ensures fresh(child) && fresh(child.lomap) && fresh(child.himap) && fresh(child.ofiles)
      ensures lastfile < ofiles.Length && lastfile < child.ofiles.Length
      ensures child.ValidCore()
      ensures child.View() == CopyUpTo(View(), drop, child.ofiles.Length, lastfile + 1)
    {
      hide UsedOf, HiAgrees, HiSlots, GoodSize, TableCore, HintOk, CopyUpTo;
      ghost var p := View();
      SizeAtLeast(ofiles.Length);
      LastInside(p, ofiles.Length);
      var n := CopySize();
      child := new Filedesc.Child(ndfile, ndextent, loslots, n, freefile);
      CopyStart(p, drop, n);
      var i := 0;
      while i <= lastfile
        invariant i <= lastfile + 1 && child.ofiles.Length == n
        invariant fresh(child.lomap) && fresh(child.himap) && fresh(child.ofiles)
        invariant child.ValidCore()
        invariant child.View() == CopyUpTo(p, drop, n, i)
      {
        CopyOne(child, i, drop);
        i := i + 1;
      }
    }

    lemma SizeGrows(nfiles: nat)
      requires SizeOk(nfiles)
      ensures nfiles < (if nfiles < ndextent then ndextent else 2 * nfiles)
      ensures SizeOk(if nfiles < ndextent then ndextent else 2 * nfiles)
    {
      if nfiles < ndextent {
        assert ndextent == ndextent * Pow2(0);
      } else {
        var k: nat :| nfiles == ndextent * Pow2(k);
        assert 2 * nfiles == ndextent * Pow2(k + 1);
      }
    }
  }

  /** mallocarray, memcpy of the old part and memset of the rest. */
  method Enlarged<T>(a: array<T>, n: nat, zero: T) returns (b: array<T>)
    requires a.Length <= n
    ensures fresh(b) && b.Length == n
    ensures forall k :: 0 <= k < a.Length ==> b[k] == a[k]
    ensures forall k :: a.Length <= k < n ==> b[k] == zero
  {
    b := new T[n](_ => zero);
    forall k | 0 <= k < a.Length {
      b[k] := a[k];
    }
  }

  /** Zero words appended to both maps add no descriptor. */
  lemma MapsGrow(lo: seq<Word>, hi: seq<Word>, lo': seq<Word>, hi': seq<Word>)
    requires HiAgrees(lo, hi) && |hi| <= |hi'| && |lo'| == 32 * |hi'|
    requires forall k :: 0 <= k < |lo'| ==> lo'[k] == if k < |lo| then lo[k] else ZERO
    requires forall k :: 0 <= k < |hi'| ==> hi'[k] == if k < |hi| then hi[k] else ZERO
    ensures UsedOf(lo') == UsedOf(lo)
    ensures HiAgrees(lo', hi')
  {
    FlatGrow(lo, lo');
    FlatGrow(hi, hi');
    assert !ZERO[0] && FULL[0];
  }

  lemma FlatGrow(m: seq<Word>, m': seq<Word>)
    requires |m| <= |m'|
    requires forall k :: 0 <= k < |m'| ==> m'[k] == if k < |m| then m[k] else ZERO
    ensures forall k :: 0 <= k < |Flat(m')| ==> Flat(m')[k] == (k < |Flat(m)| && Flat(m)[k])
  {
    if |m| < |m'| {
      FlatGrow(m, m'[..|m'| - 1]);
    } else {
      assert m == m';
    }
  }

  lemma EmptyMaps(lo: seq<Word>, hi: seq<Word>)
    requires |lo| == 32 * |hi|
    requires forall k :: 0 <= k < |lo| ==> lo[k] == ZERO
    requires forall k :: 0 <= k < |hi| ==> hi[k] == ZERO
    ensures UsedOf(lo) == {}
    ensures HiAgrees(lo, hi)
  {
    FlatGrow([], lo);
    FlatGrow([], hi);
    assert !ZERO[0] && FULL[0];
  }

  lemma GrowTwice(t: Table, n: nat, m: nat)
    requires |t.slots| <= n <= m
    ensures Grow(Grow(t, n), m) == Grow(t, m)
  {}

  lemma TimesAtLeast(a: nat, b: nat)
    requires b >= 1
    ensures a * b >= a
  {}

  lemma LastInside(t: Table, n: nat)
    requires TableCore(t) && n == |t.slots| && n > 0
    ensures t.lastfile < n
  {}

  lemma LowCovers(nfiles: nat)
    ensures nfiles <= 32 * LoSlots(nfiles)
  {}

  lemma GrowHint(t: Table, n: nat)
    requires |t.slots| <= n
    ensures HintOk(Grow(t, n)) <==> HintOk(t)
  {}

  lemma HintBelow(f: seq<bool>, t: Table)
    requires Reads(f, t.used) && HintOk(t)
    ensures AllBelowSet(f, t.freefile)
  {}
}
