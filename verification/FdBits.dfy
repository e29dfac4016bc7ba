/** The 32-bit words of the descriptor bitmaps, written as their bits (index 0
    is the least significant one), with the C operators the kernel applies to
    them. */
module FdBits {

  const NDENTRIES: nat := 32

  type Word = w: seq<bool> | |w| == 32 witness Repeat(false, 32)

  function Repeat(b: bool, n: nat): (s: seq<bool>)
    ensures |s| == n
    ensures forall j :: 0 <= j < n ==> s[j] == b
  {
    if n == 0 then [] else Repeat(b, n - 1) + [b]
  }

  const ZERO: Word := Repeat(false, 32)
  /** `~0` */
  const FULL: Word := Repeat(true, 32)

  /** `1 << i` */
  function OneBit(i: nat): Word
    requires i < 32
  {
    seq(32, j => j == i)
  }

  /** `(u_int)~0 >> (NDENTRIES - i)` */
  function LowOnes(i: nat): Word
    requires i < 32
  {
    seq(32, j => j < i)
  }

  /** `a | b` */
  function Or(a: Word, b: Word): Word {
    seq(32, j requires 0 <= j < 32 => a[j] || b[j])
  }

  /** `a & b` */
  function And(a: Word, b: Word): Word {
    seq(32, j requires 0 <= j < 32 => a[j] && b[j])
  }

  /** `~a` */
  function Not(a: Word): Word {
    seq(32, j requires 0 <= j < 32 => !a[j])
  }

  /** ffs(3): one plus the index of the least set bit, 0 for an empty word. */
  function Ffs(w: Word): (r: nat)
    ensures r <= 32
    ensures r == 0 <==> w == ZERO
    ensures r > 0 ==> w[r - 1] && forall j :: 0 <= j < r - 1 ==> !w[j]
  {
    FfsFrom(w, 0)
  }

  function FfsFrom(w: Word, i: nat): (r: nat)
    requires i <= 32
    requires forall j :: 0 <= j < i ==> !w[j]
    ensures r <= 32
    ensures r == 0 <==> w == ZERO
    ensures r > 0 ==> w[r - 1] && (forall j :: 0 <= j < r - 1 ==> !w[j])
    decreases 32 - i
  {
    if i == 32 then
      0
    else if w[i] then
      i + 1
    else
      FfsFrom(w, i + 1)
  }

  /** `w | 1 << i` */
  method SetBit(w: Word, i: nat) returns (r: Word)
    requires i < 32
    ensures r == w[i := true]
  {
    r := Or(w, OneBit(i));
  }

  /** `w & ~(1 << i)` */
  method ClearBit(w: Word, i: nat) returns (r: Word)
    requires i < 32
    ensures r == w[i := false]
  {
    r := And(w, Not(OneBit(i)));
  }

  /** `w & (1 << i)` as a truth value */
  method TestBit(w: Word, i: nat) returns (b: bool)
    requires i < 32
    ensures b == w[i]
  {
    b := And(w, OneBit(i)) != ZERO;
    assert And(w, OneBit(i))[i] == w[i];
  }

  /** `w | ((u_int)~0 >> (NDENTRIES - i))`: hide the positions below i. */
  method HideBelow(w: Word, i: nat) returns (sub: Word)
    requires i < 32
    ensures forall j :: 0 <= j < 32 ==> sub[j] == (j < i || w[j])
  {
    sub := Or(w, LowOnes(i));
  }

  /** `ffs(~w) - 1`: the least clear bit of a word that is not all ones. */
  method LeastClear(w: Word) returns (r: nat)
    requires w != FULL
    ensures r < 32 && !w[r]
    ensures forall j :: 0 <= j < r ==> w[j]
  {
    assert exists j :: 0 <= j < 32 && !w[j];
    ghost var j :| 0 <= j < 32 && !w[j];
    assert Not(w)[j];
    assert forall j :: 0 <= j < 32 ==> w[j] == !Not(w)[j];
    r := Ffs(Not(w)) - 1;
  }
}
