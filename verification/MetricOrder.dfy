/** The order in which a metric keeps its values: by label values, one after the
    other. */
module MetricOrder {

  datatype Kind = String | Int64 | Uint64

  datatype Label = Str(s: string) | Int(i: int) | Uint(u: nat)

  predicate OfKind(a: Label, k: Kind) {
    match k
    case String => a.Str?
    case Int64 => a.Int?
    case Uint64 => a.Uint?
  }

  /** The label values fit the labels of the metric. */
  predicate Typed(a: seq<Label>, kinds: seq<Kind>) {
    |a| == |kinds| && forall i :: 0 <= i < |a| ==> OfKind(a[i], kinds[i])
  }

  function Sign(a: int, b: int): int {
    if a < b then -1 else if a > b then 1 else 0
  }

  /** strcmp, up to the size of its answer. */
  function StrCmp(a: string, b: string): int {
    if a == [] then (if b == [] then 0 else -1)
    else if b == [] then 1
    else if a[0] != b[0] then Sign(a[0] as int, b[0] as int)
    else StrCmp(a[1..], b[1..])
  }

  function CompareLabel(a: Label, b: Label): int {
    match (a, b)
    case (Str(s), Str(t)) => StrCmp(s, t)
    case (Int(i), Int(j)) => Sign(i, j)
    case (Uint(u), Uint(v)) => Sign(u, v)
    case _ => 0
  }

  /** compare_label_vals: the first difference decides, as far as both chains go. */
  function Compare(a: seq<Label>, b: seq<Label>): int {
    if a == [] || b == [] then 0
    else
      var r := CompareLabel(a[0], b[0]);
      if r != 0 then r else Compare(a[1..], b[1..])
  }

  method CompareLabelVals(a: seq<Label>, b: seq<Label>) returns (res: int)
    ensures res == Compare(a, b)
  {
    var i := 0;
    while i < |a| && i < |b|
      invariant 0 <= i <= |a| && i <= |b|
      invariant Compare(a, b) == Compare(a[i..], b[i..])
    {
      res := CompareLabel(a[i], b[i]);
      assert a[i..][1..] == a[i + 1..] && b[i..][1..] == b[i + 1..];
      if res != 0 {
        return;
      }
      i := i + 1;
    }
    res := 0;
  }

  lemma {:induction false} StrCmpOrder(a: string, b: string, c: string)
    ensures StrCmp(a, b) == 0 <==> a == b
    ensures StrCmp(b, a) == -StrCmp(a, b)
    ensures StrCmp(a, b) < 0 && StrCmp(b, c) < 0 ==> StrCmp(a, c) < 0
    decreases |a| + |b| + |c|
  {
    if a != [] && b != [] {
      var z := if c == [] then [] else c[1..];
      StrCmpOrder(a[1..], b[1..], z);
      assert a == [a[0]] + a[1..] && b == [b[0]] + b[1..];
      if c != [] {
        assert c == [c[0]] + c[1..];
      }
    }
  }

  lemma LabelOrder(a: Label, b: Label, c: Label, k: Kind)
    requires OfKind(a, k) && OfKind(b, k) && OfKind(c, k)
    ensures CompareLabel(a, b) == 0 <==> a == b
    ensures CompareLabel(b, a) == -CompareLabel(a, b)
    ensures CompareLabel(a, b) < 0 && CompareLabel(b, c) < 0 ==> CompareLabel(a, c) < 0
  {
    hide StrCmp;
    if k == String {
      StrCmpOrder(a.s, b.s, c.s);
    }
  }

  /** On the label values of one metric the comparison is a strict order in which
      only equal ones are equal: the tree is a map. */
  lemma {:induction false} CompareOrder(a: seq<Label>, b: seq<Label>, c: seq<Label>, kinds: seq<Kind>)
    requires Typed(a, kinds) && Typed(b, kinds) && Typed(c, kinds)
    ensures Compare(a, b) == 0 <==> a == b
    ensures Compare(b, a) == -Compare(a, b)
    ensures Compare(a, b) < 0 && Compare(b, c) < 0 ==> Compare(a, c) < 0
    decreases |kinds|
  {
    hide CompareLabel;
    if kinds != [] {
      LabelOrder(a[0], b[0], c[0], kinds[0]);
      LabelOrder(b[0], c[0], c[0], kinds[0]);
      CompareOrder(a[1..], b[1..], c[1..], kinds[1..]);
      assert a == [a[0]] + a[1..] && b == [b[0]] + b[1..];
    }
  }

  // ----- which order it is

  /** strcmp is the order of the dictionary: a is a proper beginning of b, or its
      character at the first difference is the smaller one. */
  ghost predicate EarlierAt(a: string, b: string, k: nat) {
    && k <= |a| && k < |b| && a[..k] == b[..k]
    && (k < |a| ==> a[k] < b[k])
  }

  lemma SameStart(a: string, b: string, k: nat)
    ensures EarlierAt(a, b, k) && k > 0 ==> a != [] && b != [] && a[0] == b[0]
  {
    if EarlierAt(a, b, k) && k > 0 {
      assert a[..k][0] == b[..k][0];
    }
  }

  lemma {:induction false} StrCmpMeans(a: string, b: string)
    ensures StrCmp(a, b) < 0 <==> exists k: nat :: EarlierAt(a, b, k)
  {
    if a == [] {
      if b != [] {
        assert EarlierAt(a, b, 0);
      }
    } else if b != [] && a[0] == b[0] {
      StrCmpMeans(a[1..], b[1..]);
      if StrCmp(a, b) < 0 {
        var k: nat :| EarlierAt(a[1..], b[1..], k);
        assert a[..k + 1] == [a[0]] + a[1..][..k] && b[..k + 1] == [b[0]] + b[1..][..k];
        assert EarlierAt(a, b, k + 1);
      }
      forall k: nat | EarlierAt(a, b, k)
        ensures k > 0 && EarlierAt(a[1..], b[1..], k - 1)
      {
        if k > 0 {
          assert a[1..][..k - 1] == a[..k][1..] && b[1..][..k - 1] == b[..k][1..];
        }
      }
    } else if b != [] {
      if a[0] < b[0] {
        assert EarlierAt(a, b, 0);
      }
      forall k: nat | EarlierAt(a, b, k)
        ensures k == 0
      {
        SameStart(a, b, k);
      }
    }
  }

  /** One label value is below another: numbers by size, strings as in a dictionary. */
  ghost predicate Below(a: Label, b: Label) {
    match (a, b)
    case (Str(s), Str(t)) => exists k: nat :: EarlierAt(s, t, k)
    case (Int(i), Int(j)) => i < j
    case (Uint(u), Uint(v)) => u < v
    case _ => false
  }

  ghost predicate BelowAt(a: seq<Label>, b: seq<Label>, k: nat) {
    k < |a| && k < |b| && a[..k] == b[..k] && Below(a[k], b[k])
  }

  /** The values of a metric are ordered by their first label in which they differ. */
  lemma {:induction false} CompareMeans(a: seq<Label>, b: seq<Label>, kinds: seq<Kind>)
    requires Typed(a, kinds) && Typed(b, kinds)
    ensures Compare(a, b) < 0 <==> exists k: nat :: BelowAt(a, b, k)
    decreases |kinds|
  {
    hide StrCmp, EarlierAt;
    if kinds != [] {
      LabelOrder(a[0], b[0], b[0], kinds[0]);
      LabelBelow(a[0], b[0], kinds[0]);
      CompareMeans(a[1..], b[1..], kinds[1..]);
      if Compare(a, b) < 0 {
        if a[0] == b[0] {
          var k: nat :| BelowAt(a[1..], b[1..], k);
          assert a[..k + 1] == [a[0]] + a[1..][..k] && b[..k + 1] == [b[0]] + b[1..][..k];
          assert BelowAt(a, b, k + 1);
        } else {
          assert BelowAt(a, b, 0);
        }
      }
      forall k: nat | BelowAt(a, b, k)
        ensures Compare(a, b) < 0
      {
        if k > 0 {
          assert a[..k][0] == b[..k][0];
          assert a[1..][..k - 1] == a[..k][1..] && b[1..][..k - 1] == b[..k][1..];
          assert BelowAt(a[1..], b[1..], k - 1);
        }
      }
    }
  }

  lemma LabelBelow(a: Label, b: Label, k: Kind)
    requires OfKind(a, k) && OfKind(b, k)
    ensures CompareLabel(a, b) < 0 <==> Below(a, b)
  {
    hide StrCmp, EarlierAt;
    if k == String {
      StrCmpMeans(a.s, b.s);
    }
  }
}
