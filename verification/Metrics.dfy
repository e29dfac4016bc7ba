/** A metric's values between two collections: reuse in place, and removal of what
    was not updated. The tree of values is modelled by its in-order sequence. */
module Metrics {
  import opened Helpers
  import opened MetricOrder

  type Labels = seq<Label>

  /** struct metric_val; the value is a string or a number. */
  datatype MetricVal = MetricVal(labels: Labels, value: Label, updated: bool)

  ghost predicate Sorted(vs: seq<MetricVal>) {
    forall i, j :: 0 <= i < j < |vs| ==> Compare(vs[i].labels, vs[j].labels) < 0
  }

  ghost predicate AllTyped(vs: seq<MetricVal>, kinds: seq<Kind>) {
    forall i :: 0 <= i < |vs| ==> Typed(vs[i].labels, kinds)
  }

  ghost predicate Distinct(vs: seq<MetricVal>) {
    forall i, j :: 0 <= i < j < |vs| ==> vs[i].labels != vs[j].labels
  }

  ghost predicate Tree(vs: seq<MetricVal>, kinds: seq<Kind>) {
    AllTyped(vs, kinds) && Sorted(vs) && Distinct(vs)
  }

  /** What the values updated so far say. */
  ghost function Fresh(vs: seq<MetricVal>): map<Labels, Label>
    requires Distinct(vs)
  {
    map i | 0 <= i < |vs| && vs[i].updated :: vs[i].labels := vs[i].value
  }

  /** The label tuples whose value was not updated. */
  ghost function Stale(vs: seq<MetricVal>): set<Labels> {
    set i | 0 <= i < |vs| && !vs[i].updated :: vs[i].labels
  }

  /** A value is on old_values, once, iff it was not updated. */
  ghost predicate OldOk(vs: seq<MetricVal>, olds: seq<Labels>) {
    NoDuplicates(olds) && SetOf(olds) == Stale(vs)
  }

  /** The last value given for each tuple of labels. */
  ghost function LastOf(us: seq<(Labels, Label)>): map<Labels, Label> {
    if us == [] then map[] else LastOf(us[..|us| - 1])[us[|us| - 1].0 := us[|us| - 1].1]
  }

  lemma FreshIs(vs: seq<MetricVal>, l: Labels, v: Label)
    requires Distinct(vs)
    ensures MetricVal(l, v, true) in vs <==> l in Fresh(vs) && Fresh(vs)[l] == v
  {
    if MetricVal(l, v, true) in vs {
      var i :| 0 <= i < |vs| && vs[i] == MetricVal(l, v, true);
      assert vs[i].updated;
    }
    if l in Fresh(vs) {
      var i :| 0 <= i < |vs| && vs[i].updated && vs[i].labels == l;
      assert vs[i] == MetricVal(l, Fresh(vs)[l], true);
    }
  }

  lemma FreshEquals(vs: seq<MetricVal>, m: map<Labels, Label>)
    requires Distinct(vs)
    requires forall l, v :: MetricVal(l, v, true) in vs <==> l in m && m[l] == v
    ensures Fresh(vs) == m
  {
    hide Distinct, Fresh;
    forall l
      ensures l in Fresh(vs) <==> l in m
      ensures l in m ==> Fresh(vs)[l] == m[l]
    {
      if l in m {
        assert MetricVal(l, m[l], true) in vs;
        FreshIs(vs, l, m[l]);
      }
      if l in Fresh(vs) {
        FreshIs(vs, l, Fresh(vs)[l]);
      }
    }
  }

  // ----- changes to one value

  lemma Rewritten(vs: seq<MetricVal>, i: nat, v: Label)
    requires Distinct(vs) && i < |vs|
    ensures var ws := vs[i := MetricVal(vs[i].labels, v, true)];
            Distinct(ws) && Fresh(ws) == Fresh(vs)[vs[i].labels := v]
  {
    var l0 := vs[i].labels;
    var ws := vs[i := MetricVal(l0, v, true)];
    hide Fresh;
    forall l, w
      ensures MetricVal(l, w, true) in ws <==> (if l == l0 then w == v else l in Fresh(vs) && Fresh(vs)[l] == w)
    {
      FreshIs(vs, l, w);
      var x := MetricVal(l, w, true);
      if l == l0 {
        assert ws[i] == MetricVal(l0, v, true);
        if x in ws {
          var j :| 0 <= j < |ws| && ws[j] == x;
          assert j == i;
        }
      } else {
        Elsewhere(vs, i, ws[i], x);
      }
    }
    FreshEquals(ws, Fresh(vs)[l0 := v]);
  }

  lemma Elsewhere(vs: seq<MetricVal>, i: nat, y: MetricVal, x: MetricVal)
    requires i < |vs| && x != y && x != vs[i]
    ensures x in vs[i := y] <==> x in vs
  {
    if x in vs {
      var j :| 0 <= j < |vs| && vs[j] == x;
      assert vs[i := y][j] == x;
    }
  }

  function Inserted(vs: seq<MetricVal>, p: nat, v: MetricVal): seq<MetricVal>
    requires p <= |vs|
  {
    vs[..p] + [v] + vs[p..]
  }

  lemma InsertedMembers(vs: seq<MetricVal>, p: nat, v: MetricVal, x: MetricVal)
    requires p <= |vs|
    ensures x in Inserted(vs, p, v) <==> x in vs || x == v
  {
    assert vs == vs[..p] + vs[p..];
  }

  lemma InsertedTree(vs: seq<MetricVal>, p: nat, v: MetricVal, kinds: seq<Kind>)
    requires Tree(vs, kinds) && Typed(v.labels, kinds) && p <= |vs|
    requires forall i :: 0 <= i < p ==> Compare(vs[i].labels, v.labels) < 0
    requires forall i :: p <= i < |vs| ==> Compare(v.labels, vs[i].labels) < 0
    ensures Tree(Inserted(vs, p, v), kinds)
  {
    var ws := Inserted(vs, p, v);
    forall i, j | 0 <= i < j < |ws|
      ensures Compare(ws[i].labels, ws[j].labels) < 0 && ws[i].labels != ws[j].labels
    {
      CompareOrder(ws[i].labels, ws[j].labels, ws[j].labels, kinds);
    }
  }

  lemma InsertedFresh(vs: seq<MetricVal>, p: nat, v: MetricVal)
    requires Distinct(vs) && p <= |vs| && Distinct(Inserted(vs, p, v)) && v.updated
    requires forall i :: 0 <= i < |vs| ==> vs[i].labels != v.labels
    ensures Fresh(Inserted(vs, p, v)) == Fresh(vs)[v.labels := v.value]
  {
    hide Fresh, Distinct, Inserted;
    var ws := Inserted(vs, p, v);
    forall l, w
      ensures MetricVal(l, w, true) in ws <==>
                (if l == v.labels then w == v.value else l in Fresh(vs) && Fresh(vs)[l] == w)
    {
      FreshIs(vs, l, w);
      InsertedMembers(vs, p, v, MetricVal(l, w, true));
    }
    FreshEquals(ws, Fresh(vs)[v.labels := v.value]);
  }

  function Removed(vs: seq<MetricVal>, p: nat): seq<MetricVal>
    requires p < |vs|
  {
    vs[..p] + vs[p + 1..]
  }

  lemma RemovedMembers(vs: seq<MetricVal>, p: nat, x: MetricVal)
    requires p < |vs| && Distinct(vs)
    ensures x in Removed(vs, p) <==> x in vs && x != vs[p]
  {
    assert vs == vs[..p] + [vs[p]] + vs[p + 1..];
    if x == vs[p] {
      assert forall i :: 0 <= i < |vs| && i != p ==> vs[i] != x;
    }
  }

  lemma RemovedTree(vs: seq<MetricVal>, p: nat, kinds: seq<Kind>)
    requires Tree(vs, kinds) && p < |vs|
    ensures Tree(Removed(vs, p), kinds)
  {}

  lemma RemovedFresh(vs: seq<MetricVal>, p: nat)
    requires Distinct(vs) && p < |vs| && Distinct(Removed(vs, p)) && !vs[p].updated
    ensures Fresh(Removed(vs, p)) == Fresh(vs)
  {
    hide Fresh, Distinct, Removed;
    forall l, w
      ensures MetricVal(l, w, true) in Removed(vs, p) <==> l in Fresh(vs) && Fresh(vs)[l] == w
    {
      FreshIs(vs, l, w);
      RemovedMembers(vs, p, MetricVal(l, w, true));
    }
    FreshEquals(Removed(vs, p), Fresh(vs));
  }

  // ----- the list of old values

  /** LIST_REMOVE */
  function Without(ls: seq<Labels>, l: Labels): seq<Labels> {
    if ls == [] then [] else if ls[0] == l then ls[1..] else [ls[0]] + Without(ls[1..], l)
  }

  lemma {:induction false} WithoutMembers(ls: seq<Labels>, l: Labels)
    requires NoDuplicates(ls)
    ensures NoDuplicates(Without(ls, l))
    ensures forall x :: x in Without(ls, l) <==> x in ls && x != l
  {
    if ls != [] {
      assert ls == [ls[0]] + ls[1..];
      assert ls[0] !in ls[1..];
      if ls[0] != l {
        WithoutMembers(ls[1..], l);
      }
    }
  }

  lemma WithoutSet(ls: seq<Labels>, l: Labels)
    requires NoDuplicates(ls)
    ensures NoDuplicates(Without(ls, l)) && SetOf(Without(ls, l)) == SetOf(ls) - {l}
  {
    hide Without, NoDuplicates;
    WithoutMembers(ls, l);
  }

  lemma RewrittenStale(vs: seq<MetricVal>, i: nat, v: Label)
    requires Distinct(vs) && i < |vs|
    ensures Stale(vs[i := MetricVal(vs[i].labels, v, true)]) == Stale(vs) - {vs[i].labels}
  {
    var ws := vs[i := MetricVal(vs[i].labels, v, true)];
    forall l
      ensures l in Stale(ws) <==> l in Stale(vs) && l != vs[i].labels
    {
      if l in Stale(ws) {
        var j :| 0 <= j < |ws| && !ws[j].updated && ws[j].labels == l;
        assert !vs[j].updated;
      }
      if l in Stale(vs) && l != vs[i].labels {
        var j :| 0 <= j < |vs| && !vs[j].updated && vs[j].labels == l;
        assert !ws[j].updated;
      }
    }
  }

  lemma StaleIs(vs: seq<MetricVal>, l: Labels)
    ensures l in Stale(vs) <==> exists x :: x in vs && x.labels == l && !x.updated
  {
    if l in Stale(vs) {
      var i :| 0 <= i < |vs| && !vs[i].updated && vs[i].labels == l;
      assert vs[i] in vs;
    }
    if x :| x in vs && x.labels == l && !x.updated {
      var i :| 0 <= i < |vs| && vs[i] == x;
      assert !vs[i].updated;
    }
  }

  lemma InsertedStale(vs: seq<MetricVal>, p: nat, v: MetricVal)
    requires p <= |vs| && v.updated
    ensures Stale(Inserted(vs, p, v)) == Stale(vs)
  {
    hide Stale, Inserted;
    forall l
      ensures l in Stale(Inserted(vs, p, v)) <==> l in Stale(vs)
    {
      StaleIs(vs, l);
      StaleIs(Inserted(vs, p, v), l);
      forall x {
        InsertedMembers(vs, p, v, x);
      }
    }
  }

  lemma RemovedStale(vs: seq<MetricVal>, p: nat)
    requires Distinct(vs) && p < |vs|
    ensures Stale(Removed(vs, p)) == Stale(vs) - {vs[p].labels}
  {
    hide Stale, Removed;
    forall l
      ensures l in Stale(Removed(vs, p)) <==> l in Stale(vs) && l != vs[p].labels
    {
      StaleIs(vs, l);
      StaleIs(Removed(vs, p), l);
      forall x {
        RemovedMembers(vs, p, x);
      }
      SameLabels(vs, p);
    }
  }

  lemma SameLabels(vs: seq<MetricVal>, p: nat)
    requires Distinct(vs) && p < |vs|
    ensures forall x :: x in vs && x.labels == vs[p].labels ==> x == vs[p]
  {}

  /** Two trees of updated values that say the same are the same. */
  lemma {:induction false} SameTree(vs: seq<MetricVal>, ws: seq<MetricVal>, kinds: seq<Kind>)
    requires Tree(vs, kinds) && Tree(ws, kinds)
    requires forall x :: x in vs <==> x in ws
    ensures vs == ws
    decreases |vs|
  {
    hide Tree;
    if ws != [] {
      assert ws[|ws| - 1] in vs;
    }
    if vs != [] {
      var n, m := |vs| - 1, |ws| - 1;
      assert vs[n] in ws;
      SameLast(vs, ws, kinds);
      ButLast(vs, kinds);
      ButLast(ws, kinds);
      forall x
        ensures x in vs[..n] <==> x in ws[..m]
      {
        assert x in vs <==> x in ws;
      }
      SameTree(vs[..n], ws[..m], kinds);
      assert vs == vs[..n] + [vs[n]] && ws == ws[..m] + [ws[m]];
    }
  }

  /** After a collection the values are, one by one and in order, what clearing the
      metric and building it anew would have left. */
  lemma ReuseEqualsRebuild(vs: seq<MetricVal>, ws: seq<MetricVal>, kinds: seq<Kind>)
    requires Tree(vs, kinds) && Tree(ws, kinds) && Fresh(vs) == Fresh(ws) && Stale(vs) == Stale(ws) == {}
    ensures vs == ws
  {
    hide Sorted, AllTyped, Fresh;
    forall x
      ensures x in vs <==> x in ws
    {
      AllUpdated(vs, x);
      AllUpdated(ws, x);
      FreshIs(vs, x.labels, x.value);
      FreshIs(ws, x.labels, x.value);
    }
    SameTree(vs, ws, kinds);
  }

  lemma AllUpdated(vs: seq<MetricVal>, x: MetricVal)
    requires Stale(vs) == {}
    ensures x in vs ==> x == MetricVal(x.labels, x.value, true)
  {
    StaleIs(vs, x.labels);
  }

  lemma SameLast(vs: seq<MetricVal>, ws: seq<MetricVal>, kinds: seq<Kind>)
    requires Tree(vs, kinds) && Tree(ws, kinds) && |vs| > 0 && |ws| > 0
    requires vs[|vs| - 1] in ws && ws[|ws| - 1] in vs
    ensures vs[|vs| - 1] == ws[|ws| - 1]
  {
    hide Compare, Typed;
    var a, b := vs[|vs| - 1], ws[|ws| - 1];
    var i :| 0 <= i < |ws| && ws[i] == a;
    var j :| 0 <= j < |vs| && vs[j] == b;
    CompareOrder(a.labels, b.labels, b.labels, kinds);
  }

  lemma ButLast(vs: seq<MetricVal>, kinds: seq<Kind>)
    requires Tree(vs, kinds) && |vs| > 0
    ensures Tree(vs[..|vs| - 1], kinds)
    ensures forall x :: x in vs[..|vs| - 1] <==> x in vs && x != vs[|vs| - 1]
  {
    var n := |vs| - 1;
    assert vs == vs[..n] + [vs[n]];
    assert forall i :: 0 <= i < n ==> vs[i].labels != vs[n].labels;
  }

  lemma AllAbove(vs: seq<MetricVal>, kinds: seq<Kind>, l: Labels, mid: nat)
    requires Tree(vs, kinds) && Typed(l, kinds) && mid < |vs| && Compare(l, vs[mid].labels) < 0
    ensures forall i :: mid <= i < |vs| ==> Compare(l, vs[i].labels) < 0
  {
    forall i | mid < i < |vs|
      ensures Compare(l, vs[i].labels) < 0
    {
      CompareOrder(l, vs[mid].labels, vs[i].labels, kinds);
    }
  }

  lemma AllBelow(vs: seq<MetricVal>, kinds: seq<Kind>, l: Labels, mid: nat)
    requires Tree(vs, kinds) && Typed(l, kinds) && mid < |vs| && Compare(vs[mid].labels, l) < 0
    ensures forall i :: 0 <= i <= mid ==> Compare(vs[i].labels, l) < 0
  {
    forall i | 0 <= i < mid
      ensures Compare(vs[i].labels, l) < 0
    {
      CompareOrder(vs[i].labels, vs[mid].labels, l, kinds);
    }
  }

  lemma UpdatedIsFresh(vs: seq<MetricVal>, p: nat)
    requires Distinct(vs) && p < |vs| && vs[p].updated
    ensures vs[p].labels !in Stale(vs)
  {}

  lemma RewrittenTree(vs: seq<MetricVal>, p: nat, v: Label, kinds: seq<Kind>)
    requires Tree(vs, kinds) && p < |vs|
    ensures Tree(vs[p := MetricVal(vs[p].labels, v, true)], kinds)
  {}

  lemma NotThere(vs: seq<MetricVal>, kinds: seq<Kind>, l: Labels, p: nat)
    requires Tree(vs, kinds) && Typed(l, kinds) && p <= |vs|
    requires forall i :: 0 <= i < p ==> Compare(vs[i].labels, l) < 0
    requires forall i :: p <= i < |vs| ==> Compare(l, vs[i].labels) < 0
    ensures forall i :: 0 <= i < |vs| ==> vs[i].labels != l
  {
    CompareOrder(l, l, l, kinds);
  }

  lemma NotStale(vs: seq<MetricVal>, l: Labels)
    requires forall i :: 0 <= i < |vs| ==> vs[i].labels != l
    ensures l !in Stale(vs)
  {}

  lemma AllOld(was: seq<MetricVal>, vs: seq<MetricVal>, olds: seq<Labels>, kinds: seq<Kind>)
    requires Tree(was, kinds) && |vs| == |was| == |olds|
    requires forall k :: 0 <= k < |was| ==> vs[k] == was[k].(updated := false)
    requires forall k :: 0 <= k < |olds| ==> olds[k] == was[|was| - 1 - k].labels
    ensures Tree(vs, kinds) && OldOk(vs, olds) && Fresh(vs) == map[]
  {
    forall l
      ensures l in SetOf(olds) <==> l in Stale(vs)
    {
      if l in Stale(vs) {
        var i :| 0 <= i < |vs| && vs[i].labels == l;
        assert olds[|was| - 1 - i] == l;
      }
      if l in SetOf(olds) {
        var k :| 0 <= k < |olds| && olds[k] == l;
        assert !vs[|was| - 1 - k].updated;
      }
    }
  }

  lemma OldIsThere(vs: seq<MetricVal>, kinds: seq<Kind>, olds: seq<Labels>) returns (i: nat)
    requires Tree(vs, kinds) && OldOk(vs, olds) && olds != []
    ensures i < |vs| && vs[i].labels == olds[0] && !vs[i].updated && Typed(olds[0], kinds)
  {
    assert olds[0] in SetOf(olds);
    i :| 0 <= i < |vs| && !vs[i].updated && vs[i].labels == olds[0];
  }

  lemma NoneOld(vs: seq<MetricVal>, olds: seq<Labels>)
    requires OldOk(vs, olds)
    ensures olds == [] <==> Stale(vs) == {}
  {
    if olds != [] {
      assert olds[0] in SetOf(olds);
    }
  }

  class Metric {
    const kinds: seq<Kind>
    var values: seq<MetricVal>
    var oldValues: seq<Labels>

    ghost predicate Valid()
      reads this
    {
      Tree(values, kinds) && OldOk(values, oldValues)
    }

    constructor (kinds: seq<Kind>)
      ensures Valid() && values == [] && oldValues == [] && this.kinds == kinds
    {
      this.kinds := kinds;
      values, oldValues := [], [];
    }

    /** RB_FIND: a descent by comparisons, and the place for what is not found. */
    method Find(labels: Labels) returns (found: bool, p: nat)
      requires Tree(values, kinds) && Typed(labels, kinds)
      ensures p <= |values|
      ensures found ==> p < |values| && values[p].labels == labels
      ensures !found ==> forall i :: 0 <= i < p ==> Compare(values[i].labels, labels) < 0
      ensures !found ==> forall i :: p <= i < |values| ==> Compare(labels, values[i].labels) < 0
    {
      var lo, hi := 0, |values|;
      while lo < hi
        invariant 0 <= lo <= hi <= |values|
        invariant forall i :: 0 <= i < lo ==> Compare(values[i].labels, labels) < 0
        invariant forall i :: hi <= i < |values| ==> Compare(labels, values[i].labels) < 0
      {
        var mid := (lo + hi) / 2;
        var r := CompareLabelVals(labels, values[mid].labels);
        CompareOrder(labels, values[mid].labels, labels, kinds);
        if r == 0 {
          return true, mid;
        } else if r < 0 {
          AllAbove(values, kinds, labels, mid);
          hi := mid;
        } else {
          AllBelow(values, kinds, labels, mid);
          lo := mid + 1;
        }
      }
      found, p := false, lo;
    }

    /** metric_update */
    method Update(labels: Labels, v: Label)
      requires Valid() && Typed(labels, kinds)
      modifies this
      ensures Valid() && Fresh(values) == old(Fresh(values))[labels := v]
      ensures Stale(values) == old(Stale(values)) - {labels}
    {
      hide Fresh, Stale, SetOf, Sorted, AllTyped, NoDuplicates;
      var found, p := Find(labels);
      if found {
        if !values[p].updated {
          WithoutSet(oldValues, labels);
          oldValues := Without(oldValues, labels);
        } else {
          UpdatedIsFresh(values, p);
        }
        Rewritten(values, p, v);
        RewrittenStale(values, p, v);
        RewrittenTree(values, p, v, kinds);
        values := values[p := MetricVal(labels, v, true)];
      } else {
        var mv := MetricVal(labels, v, true);
        NotThere(values, kinds, labels, p);
        InsertedTree(values, p, mv, kinds);
        InsertedFresh(values, p, mv);
        InsertedStale(values, p, mv);
        NotStale(values, labels);
        values := Inserted(values, p, mv);
      }
    }

    /** The start of registry_collect: every value becomes an old one. */
    method Collect()
      requires Valid() && oldValues == []
      modifies this
      ensures Valid() && Fresh(values) == map[]
      ensures |values| == |old(values)|
      ensures forall i :: 0 <= i < |values| ==> values[i] == old(values)[i].(updated := false)
    {
      ghost var was := values;
      var i := 0;
      while i < |values|
        invariant 0 <= i <= |values| == |was|
        invariant forall k :: 0 <= k < |was| ==> values[k] == if k < i then was[k].(updated := false) else was[k]
        invariant |oldValues| == i && forall k :: 0 <= k < i ==> oldValues[k] == was[i - 1 - k].labels
      {
        oldValues := [values[i].labels] + oldValues;
        values := values[i := values[i].(updated := false)];
        i := i + 1;
      }
      AllOld(was, values, oldValues, kinds);
    }

    /** metric_clear_old_values */
    method ClearOldValues()
      requires Valid()
      modifies this
      ensures Valid() && oldValues == [] && Fresh(values) == old(Fresh(values)) && Stale(values) == {}
    {
      hide Fresh, Stale, Sorted, AllTyped, NoDuplicates, SetOf;
      while oldValues != []
        invariant Valid() && Fresh(values) == old(Fresh(values))
        decreases |oldValues|
      {
        var l := oldValues[0];
        ghost var i := OldIsThere(values, kinds, oldValues);
        var found, p := Find(l);
        if !found {
          NotThere(values, kinds, l, p);
        }
        assert p == i;
        RemovedTree(values, p, kinds);
        RemovedFresh(values, p);
        RemovedStale(values, p);
        WithoutSet(oldValues, l);
        assert Without(oldValues, l) == oldValues[1..];
        oldValues := oldValues[1..];
        values := Removed(values, p);
      }
      NoneOld(values, oldValues);
    }

    /** metric_clear */
    method Clear()
      requires Valid()
      modifies this
      ensures Valid() && values == [] && oldValues == []
    {
      while values != []
        invariant Valid()
        decreases |values|
      {
        var v := values[0];
        RemovedTree(values, 0, kinds);
        RemovedStale(values, 0);
        if !v.updated {
          WithoutSet(oldValues, v.labels);
          oldValues := Without(oldValues, v.labels);
        } else {
          UpdatedIsFresh(values, 0);
        }
        values := Removed(values, 0);
      }
      assert Stale(values) == {};
      NoneOld(values, oldValues);
    }

    method UpdateAll(us: seq<(Labels, Label)>)
      requires Valid() && Fresh(values) == map[] && forall k :: 0 <= k < |us| ==> Typed(us[k].0, kinds)
      modifies this
      ensures Valid() && Fresh(values) == LastOf(us) && Stale(values) <= old(Stale(values))
    {
      hide Sorted, AllTyped, OldOk, Fresh, Stale, Typed;
      for k := 0 to |us|
        invariant Valid() && Fresh(values) == LastOf(us[..k]) && Stale(values) <= old(Stale(values))
      {
        assert us[..k + 1][..k] == us[..k];
        Update(us[k].0, us[k].1);
      }
      assert us[..|us|] == us;
    }

    /** A collection: what was not updated goes, what was has its last value. */
    method Cycle(us: seq<(Labels, Label)>)
      requires Valid() && oldValues == [] && forall k :: 0 <= k < |us| ==> Typed(us[k].0, kinds)
      modifies this
      ensures Valid() && oldValues == [] && Fresh(values) == LastOf(us) && Stale(values) == {}
    {
      Collect();
      UpdateAll(us);
      ClearOldValues();
    }

    /** Clearing the metric and building it anew. */
    method Rebuild(us: seq<(Labels, Label)>)
      requires Valid() && forall k :: 0 <= k < |us| ==> Typed(us[k].0, kinds)
      modifies this
      ensures Valid() && oldValues == [] && Fresh(values) == LastOf(us) && Stale(values) == {}
    {
      Clear();
      assert Stale(values) == {} && Fresh(values) == map[];
      UpdateAll(us);
      NoneOld(values, oldValues);
    }
  }
}
