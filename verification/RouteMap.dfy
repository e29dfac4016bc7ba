/** RMap: edges between addresses with their distances, and the best neighbour on
    the way to a target. */
module RouteMap {
  import opened Wrappers

  /** 0.0.0.0 */
  const ZERO: seq<bool> :=
    [false, false, false, false, false, false, false, false,
     false, false, false, false, false, false, false, false,
     false, false, false, false, false, false, false, false,
     false, false, false, false, false, false, false, false]

  /** An IPv4 address: its 32 bits in the order of the network, which is the order in
      which ntohl makes them significant. */
  type Ip = s: seq<bool> | |s| == 32 witness ZERO

  datatype Dist = Dist(to: Ip, distance: nat)
  datatype Elem = Elem(from: Ip, dists: seq<Dist>)

  /** One call of rMap_append. */
  datatype Edge = Edge(from: Ip, to: Ip, distance: nat)

  // ----- prefixes

  /** The number of leading bits two addresses have in common. */
  function Common(a: seq<bool>, b: seq<bool>): nat {
    if a == [] || b == [] || a[0] != b[0] then 0 else 1 + Common(a[1..], b[1..])
  }

  lemma {:induction false} CommonIsLongest(a: seq<bool>, b: seq<bool>, n: nat)
    requires |a| == |b|
    ensures Common(a, b) <= |a|
    ensures n <= Common(a, b) <==> n <= |a| && a[..n] == b[..n]
  {
    if a != [] && a[0] == b[0] {
      CommonIsLongest(a[1..], b[1..], if n > 0 then n - 1 else 0);
      if 0 < n <= |a| {
        assert a[..n] == [a[0]] + a[1..][..n - 1];
        assert b[..n] == [b[0]] + b[1..][..n - 1];
      }
    } else if a != [] && 0 < n <= |a| {
      assert a[..n][0] == a[0] && b[..n][0] == b[0];
    }
  }

  /** rmap_longest_prefix_mathing */
  method LongestPrefix(a: Ip, b: Ip) returns (matched: nat)
    ensures matched == Common(a, b)
    ensures matched <= 32 && a[..matched] == b[..matched] && (matched < 32 ==> a[matched] != b[matched])
  {
    matched := 0;
    while matched < 32
      invariant matched <= 32 && a[..matched] == b[..matched]
    {
      if a[matched] != b[matched] {
        break;
      }
      matched := matched + 1;
    }
    CommonIsLongest(a, b, matched);
    if matched < 32 {
      CommonIsLongest(a, b, matched + 1);
      assert a[..matched + 1][matched] != b[..matched + 1][matched];
    }
  }

  // ----- the lists

  /** rMap_find_from_ip */
  function FindFrom(elems: seq<Elem>, from: Ip): (i: int)
    ensures -1 <= i < |elems|
    ensures i >= 0 ==> elems[i].from == from && forall k :: 0 <= k < i ==> elems[k].from != from
    ensures i < 0 ==> forall k :: 0 <= k < |elems| ==> elems[k].from != from
  {
    if elems == [] then -1
    else if FindFrom(elems[..|elems| - 1], from) >= 0 then FindFrom(elems[..|elems| - 1], from)
    else if elems[|elems| - 1].from == from then |elems| - 1
    else -1
  }

  /** rMap_find_to_ip */
  function FindTo(dists: seq<Dist>, to: Ip): (i: int)
    ensures -1 <= i < |dists|
    ensures i >= 0 ==> dists[i].to == to && forall k :: 0 <= k < i ==> dists[k].to != to
    ensures i < 0 ==> forall k :: 0 <= k < |dists| ==> dists[k].to != to
  {
    if dists == [] then -1
    else if FindTo(dists[..|dists| - 1], to) >= 0 then FindTo(dists[..|dists| - 1], to)
    else if dists[|dists| - 1].to == to then |dists| - 1
    else -1
  }

  /** A neighbour's list: the first element with its address holds it. */
  function DistsOf(elems: seq<Elem>, from: Ip): seq<Dist> {
    var i := FindFrom(elems, from);
    if i < 0 then [] else elems[i].dists
  }

  /** The distance that a list's first entry for an address gives. */
  function FirstDistance(dists: seq<Dist>, to: Ip): Option<nat> {
    var i := FindTo(dists, to);
    if i < 0 then None else Some(dists[i].distance)
  }

  /** The least distance ever appended for an edge. */
  function Least(es: seq<Edge>, from: Ip, to: Ip): Option<nat> {
    if es == [] then None
    else
      var d, e := Least(es[..|es| - 1], from, to), es[|es| - 1];
      if e.from != from || e.to != to then d
      else if d.Some? && d.value <= e.distance then d
      else Some(e.distance)
  }

  lemma {:induction false} LeastIsLeast(es: seq<Edge>, from: Ip, to: Ip)
    ensures Least(es, from, to).Some? <==> exists k :: 0 <= k < |es| && es[k].from == from && es[k].to == to
    ensures Least(es, from, to).Some? ==> Edge(from, to, Least(es, from, to).value) in es
    ensures forall k :: 0 <= k < |es| && es[k].from == from && es[k].to == to ==>
              Least(es, from, to).Some? && Least(es, from, to).value <= es[k].distance
  {
    if es != [] {
      var n := |es| - 1;
      LeastIsLeast(es[..n], from, to);
      assert es == es[..n] + [es[n]];
      if k :| 0 <= k < n && es[k].from == from && es[k].to == to {
        assert es[..n][k] == es[k];
      }
    }
  }

  function WithDist(dists: seq<Dist>, to: Ip, distance: nat): seq<Dist> {
    var g := FindTo(dists, to);
    if g >= 0 && dists[g].distance > distance then dists[g := Dist(to, distance)]
    else dists + [Dist(to, distance)]
  }

  /** The target of an edge gets an element of its own. */
  function WithTarget(elems: seq<Elem>, to: Ip): seq<Elem> {
    if FindFrom(elems, to) >= 0 then elems else elems + [Elem(to, [])]
  }

  /** rMap_append. The first edge's target gets an element even if it is its own
      source. */
  function Appended(elems: seq<Elem>, e: Edge): seq<Elem> {
    if elems == [] then [Elem(e.from, [Dist(e.to, e.distance)]), Elem(e.to, [])]
    else
      var f := FindFrom(elems, e.from);
      if f < 0 then WithTarget(elems + [Elem(e.from, [Dist(e.to, e.distance)])], e.to)
      else
        var g := FindTo(elems[f].dists, e.to);
        var more := elems[f := Elem(e.from, WithDist(elems[f].dists, e.to, e.distance))];
        if g >= 0 && elems[f].dists[g].distance > e.distance then more else WithTarget(more, e.to)
  }

  // ----- what the lists keep

  /** No entry is nearer than the first one for its address. */
  ghost predicate FirstIsLeast(dists: seq<Dist>) {
    forall k :: 0 <= k < |dists| ==>
      FirstDistance(dists, dists[k].to).Some? && FirstDistance(dists, dists[k].to).value <= dists[k].distance
  }

  /** Only the first element with an address has entries. */
  ghost predicate OnlyFirst(elems: seq<Elem>) {
    forall i :: 0 <= i < |elems| && elems[i].dists != [] ==> FindFrom(elems, elems[i].from) == i
  }

  ghost predicate Holds(elems: seq<Elem>, es: seq<Edge>) {
    OnlyFirst(elems)
    && (forall from: Ip :: FirstIsLeast(DistsOf(elems, from)))
    && (forall from: Ip, to: Ip :: FirstDistance(DistsOf(elems, from), to) == Least(es, from, to))
  }

  lemma FindToFirst(dists: seq<Dist>, to: Ip, i: nat)
    requires i < |dists| && dists[i].to == to && forall k :: 0 <= k < i ==> dists[k].to != to
    ensures FindTo(dists, to) == i
  {}

  lemma FindFromFirst(elems: seq<Elem>, from: Ip, i: nat)
    requires i < |elems| && elems[i].from == from && forall k :: 0 <= k < i ==> elems[k].from != from
    ensures FindFrom(elems, from) == i
  {}

  lemma FindToNone(dists: seq<Dist>, to: Ip)
    requires forall k :: 0 <= k < |dists| ==> dists[k].to != to
    ensures FindTo(dists, to) == -1
  {}

  /** A new entry changes the first distance only for its own address, and there to
      the lesser one. */
  lemma WithDistFirst(dists: seq<Dist>, to: Ip, distance: nat, x: Ip)
    ensures FirstDistance(WithDist(dists, to, distance), x)
            == if x != to then FirstDistance(dists, x)
               else if FirstDistance(dists, to).Some? && FirstDistance(dists, to).value <= distance
               then FirstDistance(dists, to)
               else Some(distance)
  {
    var more, g, h := WithDist(dists, to, distance), FindTo(dists, to), FindTo(dists, x);
    if h >= 0 {
      FindToFirst(more, x, h);
    } else if x == to {
      FindToFirst(more, x, |dists|);
    } else {
      FindToNone(more, x);
    }
  }

  lemma WithDistLeast(dists: seq<Dist>, to: Ip, distance: nat)
    requires FirstIsLeast(dists)
    ensures FirstIsLeast(WithDist(dists, to, distance))
  {
    var more := WithDist(dists, to, distance);
    forall k | 0 <= k < |more|
      ensures FirstDistance(more, more[k].to).Some? && FirstDistance(more, more[k].to).value <= more[k].distance
    {
      hide FirstDistance, WithDist;
      WithDistFirst(dists, to, distance, more[k].to);
      WithDistEntry(dists, to, distance, k);
    }
  }

  lemma WithDistEntry(dists: seq<Dist>, to: Ip, distance: nat, k: nat)
    requires k < |WithDist(dists, to, distance)|
    ensures WithDist(dists, to, distance)[k] == Dist(to, distance)
            || (k < |dists| && WithDist(dists, to, distance)[k] == dists[k])
  {}

  // ----- elements

  lemma TargetChangesNothing(elems: seq<Elem>, to: Ip, from: Ip)
    ensures DistsOf(WithTarget(elems, to), from) == DistsOf(elems, from)
  {
    var i := FindFrom(elems, from);
    if i >= 0 {
      FindFromFirst(WithTarget(elems, to), from, i);
    } else if FindFrom(elems, to) < 0 && from == to {
      FindFromFirst(elems + [Elem(to, [])], from, |elems|);
    }
  }

  lemma TargetOnlyFirst(elems: seq<Elem>, to: Ip)
    requires OnlyFirst(elems)
    ensures OnlyFirst(WithTarget(elems, to))
  {
    var more := WithTarget(elems, to);
    forall i | 0 <= i < |more| && more[i].dists != []
      ensures FindFrom(more, more[i].from) == i
    {
      FindFromFirst(more, more[i].from, i);
    }
  }

  /** The list of one neighbour is changed. */
  function Changed(elems: seq<Elem>, f: nat, dists: seq<Dist>): seq<Elem>
    requires f < |elems|
  {
    elems[f := Elem(elems[f].from, dists)]
  }

  lemma ChangedDists(elems: seq<Elem>, f: nat, dists: seq<Dist>, from: Ip)
    requires f < |elems| && FindFrom(elems, elems[f].from) == f
    ensures DistsOf(Changed(elems, f, dists), from) == if from == elems[f].from then dists else DistsOf(elems, from)
    ensures FindFrom(Changed(elems, f, dists), from) == FindFrom(elems, from)
  {
    var i := FindFrom(elems, from);
    if i >= 0 {
      FindFromFirst(Changed(elems, f, dists), from, i);
    }
  }

  lemma ChangedOnlyFirst(elems: seq<Elem>, f: nat, dists: seq<Dist>)
    requires f < |elems| && FindFrom(elems, elems[f].from) == f && OnlyFirst(elems)
    ensures OnlyFirst(Changed(elems, f, dists))
  {
    forall i | 0 <= i < |elems| && Changed(elems, f, dists)[i].dists != []
      ensures FindFrom(Changed(elems, f, dists), elems[i].from) == i
    {
      ChangedDists(elems, f, dists, elems[i].from);
    }
  }

  lemma AddedDists(elems: seq<Elem>, e: Elem, from: Ip)
    requires FindFrom(elems, e.from) < 0
    ensures DistsOf(elems + [e], from) == if from == e.from then e.dists else DistsOf(elems, from)
  {
    var i := FindFrom(elems, from);
    if i >= 0 {
      FindFromFirst(elems + [e], from, i);
    } else if from == e.from {
      FindFromFirst(elems + [e], from, |elems|);
    }
  }

  lemma AddedOnlyFirst(elems: seq<Elem>, e: Elem)
    requires FindFrom(elems, e.from) < 0 && OnlyFirst(elems)
    ensures OnlyFirst(elems + [e])
  {
    var more := elems + [e];
    forall i | 0 <= i < |more| && more[i].dists != []
      ensures FindFrom(more, more[i].from) == i
    {
      FindFromFirst(more, more[i].from, i);
    }
  }

  /** What an append does to the list of any neighbour. */
  lemma AppendedDists(elems: seq<Elem>, e: Edge, from: Ip)
    ensures DistsOf(Appended(elems, e), from)
            == if from == e.from then WithDist(DistsOf(elems, e.from), e.to, e.distance) else DistsOf(elems, from)
  {
    hide DistsOf, WithTarget, WithDist;
    var f := FindFrom(elems, e.from);
    if elems == [] {
      FirstDists(e, from);
    } else if f < 0 {
      var more := elems + [Elem(e.from, [Dist(e.to, e.distance)])];
      AddedDists(elems, Elem(e.from, [Dist(e.to, e.distance)]), from);
      TargetChangesNothing(more, e.to, from);
      NoDists(elems, e.from, e.to, e.distance);
    } else {
      var more := Changed(elems, f, WithDist(elems[f].dists, e.to, e.distance));
      ChangedDists(elems, f, WithDist(elems[f].dists, e.to, e.distance), from);
      TargetChangesNothing(more, e.to, from);
      HasDists(elems, f);
    }
  }

  lemma FirstDists(e: Edge, from: Ip)
    ensures DistsOf([Elem(e.from, [Dist(e.to, e.distance)]), Elem(e.to, [])], from)
            == if from == e.from then WithDist(DistsOf([], e.from), e.to, e.distance) else DistsOf([], from)
  {
    var elems := [Elem(e.from, [Dist(e.to, e.distance)]), Elem(e.to, [])];
    if from == e.from {
      FindFromFirst(elems, from, 0);
    } else if from == e.to {
      FindFromFirst(elems, from, 1);
    }
  }

  lemma NoDists(elems: seq<Elem>, from: Ip, to: Ip, distance: nat)
    requires FindFrom(elems, from) < 0
    ensures WithDist(DistsOf(elems, from), to, distance) == [Dist(to, distance)]
  {
    assert FindTo([], to) < 0;
  }

  lemma HasDists(elems: seq<Elem>, f: nat)
    requires f < |elems| && FindFrom(elems, elems[f].from) == f
    ensures DistsOf(elems, elems[f].from) == elems[f].dists
  {}

  lemma AppendedOnlyFirst(elems: seq<Elem>, e: Edge)
    requires OnlyFirst(elems)
    ensures OnlyFirst(Appended(elems, e))
  {
    hide OnlyFirst, WithTarget, WithDist;
    var f := FindFrom(elems, e.from);
    if elems == [] {
      FirstOnly(e);
    } else if f < 0 {
      AddedOnlyFirst(elems, Elem(e.from, [Dist(e.to, e.distance)]));
      TargetOnlyFirst(elems + [Elem(e.from, [Dist(e.to, e.distance)])], e.to);
    } else {
      ChangedOnlyFirst(elems, f, WithDist(elems[f].dists, e.to, e.distance));
      TargetOnlyFirst(Changed(elems, f, WithDist(elems[f].dists, e.to, e.distance)), e.to);
    }
  }

  lemma FirstOnly(e: Edge)
    ensures OnlyFirst([Elem(e.from, [Dist(e.to, e.distance)]), Elem(e.to, [])])
  {
    FindFromFirst([Elem(e.from, [Dist(e.to, e.distance)]), Elem(e.to, [])], e.from, 0);
  }

  /** Every append keeps the lists in step with the edges ever appended, duplicate
      entries or not. */
  lemma AppendedHolds(elems: seq<Elem>, es: seq<Edge>, e: Edge)
    requires Holds(elems, es)
    ensures Holds(Appended(elems, e), es + [e])
  {
    hide OnlyFirst, FirstIsLeast, FirstDistance, DistsOf, Appended, WithDist;
    AppendedOnlyFirst(elems, e);
    forall from: Ip
      ensures FirstIsLeast(DistsOf(Appended(elems, e), from))
    {
      AppendedDists(elems, e, from);
      WithDistLeast(DistsOf(elems, e.from), e.to, e.distance);
    }
    forall from: Ip, to: Ip
      ensures FirstDistance(DistsOf(Appended(elems, e), from), to) == Least(es + [e], from, to)
    {
      AppendedDists(elems, e, from);
      WithDistFirst(DistsOf(elems, e.from), e.to, e.distance, to);
      assert (es + [e])[..|es|] == es;
    }
  }

  lemma EmptyHolds()
    ensures Holds([], [])
  {}

  // ----- the query

  /** The entries of a list for a target, as (source, distance). */
  function EntriesOf(from: Ip, dists: seq<Dist>, to: Ip): seq<(Ip, nat)> {
    if dists == [] then []
    else
      var d := dists[|dists| - 1];
      EntriesOf(from, dists[..|dists| - 1], to) + if d.to == to then [(from, d.distance)] else []
  }

  function Entries(elems: seq<Elem>, to: Ip): seq<(Ip, nat)> {
    if elems == [] then []
    else
      var e := elems[|elems| - 1];
      Entries(elems[..|elems| - 1], to) + EntriesOf(e.from, e.dists, to)
  }

  /** One more entry: nearer, or as near with the longer prefix. Address 0 stands for
      "none so far". */
  function Choose(found: (Ip, nat), x: (Ip, nat), to: Ip): (Ip, nat) {
    if found.0 == ZERO || x.1 < found.1 then x
    else if x.1 == found.1 && Common(to, found.0) < Common(to, x.0) then x
    else found
  }

  function Chosen(xs: seq<(Ip, nat)>, to: Ip): (Ip, nat) {
    if xs == [] then (ZERO, 0) else Choose(Chosen(xs[..|xs| - 1], to), xs[|xs| - 1], to)
  }

  lemma ChosenMore(xs: seq<(Ip, nat)>, x: (Ip, nat), to: Ip)
    ensures Chosen(xs + [x], to) == Choose(Chosen(xs, to), x, to)
  {
    assert (xs + [x])[..|xs|] == xs;
  }

  predicate AtLeastAsGood(a: (Ip, nat), b: (Ip, nat), to: Ip) {
    a.1 < b.1 || (a.1 == b.1 && Common(to, b.0) <= Common(to, a.0))
  }

  lemma ChooseIsBetter(found: (Ip, nat), x: (Ip, nat), to: Ip)
    ensures AtLeastAsGood(Choose(found, x, to), x, to)
    ensures found.0 != ZERO ==> AtLeastAsGood(Choose(found, x, to), found, to)
    ensures Choose(found, x, to) == found || Choose(found, x, to) == x
    ensures found.0 == ZERO ==> Choose(found, x, to) == x
  {
    hide ZERO, Common;
  }

  lemma GoodIsTransitive(a: (Ip, nat), b: (Ip, nat), c: (Ip, nat), to: Ip)
    requires AtLeastAsGood(a, b, to) && AtLeastAsGood(b, c, to)
    ensures AtLeastAsGood(a, c, to)
  {
    hide Common;
  }

  lemma {:induction false} ChosenIsBest(xs: seq<(Ip, nat)>, to: Ip)
    requires forall k :: 0 <= k < |xs| ==> xs[k].0 != ZERO
    ensures Chosen(xs, to).0 == ZERO <==> xs == []
    ensures xs != [] ==> Chosen(xs, to) in xs
    ensures forall k :: 0 <= k < |xs| ==> AtLeastAsGood(Chosen(xs, to), xs[k], to)
  {
    hide ZERO, Choose, AtLeastAsGood;
    if xs != [] {
      var n := |xs| - 1;
      var init := xs[..n];
      ChosenIsBest(init, to);
      ChooseIsBetter(Chosen(init, to), xs[n], to);
      assert xs == init + [xs[n]];
      forall k | 0 <= k < n
        ensures AtLeastAsGood(Chosen(xs, to), xs[k], to)
      {
        assert init[k] == xs[k];
        GoodIsTransitive(Chosen(xs, to), Chosen(init, to), xs[k], to);
      }
    }
  }

  lemma GoodIsTotal(a: (Ip, nat), b: (Ip, nat), to: Ip)
    ensures AtLeastAsGood(a, b, to) || AtLeastAsGood(b, a, to)
    ensures a.0 != ZERO ==> (Choose(a, b, to) == a <==> AtLeastAsGood(a, b, to) || a == b)
    ensures a.0 != ZERO && !AtLeastAsGood(a, b, to) ==> Choose(a, b, to) == b
  {
    hide ZERO, Common;
  }

  lemma FartherIsWorse(z: (Ip, nat), x: (Ip, nat), to: Ip)
    requires z.0 == x.0 && z.1 <= x.1
    ensures AtLeastAsGood(z, x, to)
  {
    hide Common;
  }

  /** x comes from another source than address 0 and is as good as z. */
  predicate Rivals(x: (Ip, nat), z: (Ip, nat), to: Ip) {
    x.0 != ZERO && AtLeastAsGood(x, z, to)
  }

  /** Entries from address 0 throw away what was found before them, but do no harm
      once an entry as good as the best of them was met. */
  lemma {:induction false} ChosenDespiteZero(xs: seq<(Ip, nat)>, z: (Ip, nat), to: Ip)
    requires z.0 == ZERO && forall k :: 0 <= k < |xs| && xs[k].0 == ZERO ==> z.1 <= xs[k].1
    ensures (exists k :: 0 <= k < |xs| && Rivals(xs[k], z, to)) ==>
              Rivals(Chosen(xs, to), z, to) && Chosen(xs, to) in xs
              && forall k :: 0 <= k < |xs| ==> AtLeastAsGood(Chosen(xs, to), xs[k], to)
    ensures Chosen(xs, to).0 != ZERO ==> Chosen(xs, to) in xs
  {
    hide ZERO, Choose, AtLeastAsGood;
    if xs != [] {
      var n := |xs| - 1;
      var init, x, c := xs[..n], xs[n], Chosen(xs[..n], to);
      ChosenDespiteZero(init, z, to);
      ChooseIsBetter(c, x, to);
      assert xs == init + [x];
      if exists k :: 0 <= k < n && Rivals(init[k], z, to) {
        RivalStays(c, x, z, to);
        forall k | 0 <= k < n
          ensures AtLeastAsGood(Chosen(xs, to), xs[k], to)
        {
          assert init[k] == xs[k];
          GoodIsTransitive(Chosen(xs, to), c, xs[k], to);
        }
      } else if Rivals(x, z, to) {
        forall k | 0 <= k < n
          ensures xs[k].0 != ZERO ==> !Rivals(xs[k], z, to)
          ensures AtLeastAsGood(x, xs[k], to)
        {
          assert init[k] == xs[k];
          OtherIsWorse(x, xs[k], z, to);
        }
        RivalTaken(c, x, z, to);
      }
    }
  }

  lemma RivalStays(c: (Ip, nat), x: (Ip, nat), z: (Ip, nat), to: Ip)
    requires Rivals(c, z, to) && z.0 == ZERO && (x.0 == ZERO ==> z.1 <= x.1)
    ensures Rivals(Choose(c, x, to), z, to) && AtLeastAsGood(Choose(c, x, to), c, to)
  {
    hide ZERO, Choose, AtLeastAsGood;
    ChooseIsBetter(c, x, to);
    GoodIsTotal(c, x, to);
    GoodIsTransitive(Choose(c, x, to), c, z, to);
    if x.0 == ZERO {
      FartherIsWorse(z, x, to);
      GoodIsTransitive(c, z, x, to);
    }
  }

  lemma OtherIsWorse(x: (Ip, nat), y: (Ip, nat), z: (Ip, nat), to: Ip)
    requires Rivals(x, z, to) && !Rivals(y, z, to) && z.0 == ZERO && (y.0 == ZERO ==> z.1 <= y.1)
    ensures AtLeastAsGood(x, y, to)
  {
    hide ZERO, AtLeastAsGood;
    if y.0 == ZERO {
      FartherIsWorse(z, y, to);
    } else {
      GoodIsTotal(y, z, to);
    }
    GoodIsTransitive(x, z, y, to);
  }

  lemma RivalTaken(c: (Ip, nat), x: (Ip, nat), z: (Ip, nat), to: Ip)
    requires Rivals(x, z, to) && !Rivals(c, z, to)
    ensures Choose(c, x, to) == x
  {
    hide ZERO, Choose, AtLeastAsGood;
    ChooseIsBetter(c, x, to);
    if c.0 != ZERO {
      GoodIsTotal(c, x, to);
      if AtLeastAsGood(c, x, to) {
        GoodIsTransitive(c, x, z, to);
      }
    }
  }

  // ----- entries and edges

  lemma {:induction false} EntriesOfAre(from: Ip, dists: seq<Dist>, to: Ip, x: (Ip, nat))
    ensures x in EntriesOf(from, dists, to) <==> x.0 == from && Dist(to, x.1) in dists
  {
    if dists != [] {
      var n := |dists| - 1;
      EntriesOfAre(from, dists[..n], to, x);
      assert dists == dists[..n] + [dists[n]];
    }
  }

  lemma {:induction false} EntriesAre(elems: seq<Elem>, to: Ip, x: (Ip, nat))
    ensures x in Entries(elems, to) <==>
              exists i :: 0 <= i < |elems| && elems[i].from == x.0 && Dist(to, x.1) in elems[i].dists
  {
    if elems != [] {
      var n := |elems| - 1;
      EntriesAre(elems[..n], to, x);
      EntriesOfAre(elems[n].from, elems[n].dists, to, x);
      if i :| 0 <= i < |elems| && elems[i].from == x.0 && Dist(to, x.1) in elems[i].dists {
        assert i < n ==> elems[..n][i] == elems[i];
      }
      if i :| 0 <= i < n && elems[..n][i].from == x.0 && Dist(to, x.1) in elems[..n][i].dists {
        assert elems[i].from == x.0;
      }
    }
  }

  /** An entry is no nearer than the least appended distance of its edge. */
  lemma EntryOfEdge(elems: seq<Elem>, es: seq<Edge>, to: Ip, x: (Ip, nat))
    requires Holds(elems, es) && x in Entries(elems, to)
    ensures Least(es, x.0, to).Some? && Least(es, x.0, to).value <= x.1
  {
    hide Least, FindFrom, FindTo, Entries;
    EntriesAre(elems, to, x);
    var i :| 0 <= i < |elems| && elems[i].from == x.0 && Dist(to, x.1) in elems[i].dists;
    assert DistsOf(elems, x.0) == elems[i].dists;
    assert FirstIsLeast(DistsOf(elems, x.0));
    assert FirstDistance(DistsOf(elems, x.0), to) == Least(es, x.0, to);
    var k :| 0 <= k < |elems[i].dists| && elems[i].dists[k] == Dist(to, x.1);
  }

  /** The least appended distance of an edge is among the entries. */
  lemma EdgeOfEntry(elems: seq<Elem>, es: seq<Edge>, from: Ip, to: Ip)
    requires Holds(elems, es) && Least(es, from, to).Some?
    ensures (from, Least(es, from, to).value) in Entries(elems, to)
  {
    hide Least, Entries;
    var d := Least(es, from, to).value;
    assert FirstDistance(DistsOf(elems, from), to) == Some(d);
    var i := FindFrom(elems, from);
    var k := FindTo(elems[i].dists, to);
    assert elems[i].dists[k] == Dist(to, d);
    EntriesAre(elems, to, (from, d));
  }

  /** r is a neighbour with the least distance to the target, and of those one with
      the longest common prefix. */
  ghost predicate IsBest(es: seq<Edge>, to: Ip, r: Ip) {
    Least(es, r, to).Some?
    && forall from: Ip :: Least(es, from, to).Some? ==>
         AtLeastAsGood((r, Least(es, r, to).value), (from, Least(es, from, to).value), to)
  }

  /** What the query promises. */
  ghost predicate IsRight(es: seq<Edge>, to: Ip, found: Ip) {
    (found == ZERO <==> forall from: Ip :: Least(es, from, to).None?) && (found != ZERO ==> IsBest(es, to, found))
  }

  lemma BestOfEntries(elems: seq<Elem>, es: seq<Edge>, to: Ip)
    requires Holds(elems, es) && Least(es, ZERO, to).None?
    ensures IsRight(es, to, Chosen(Entries(elems, to), to).0)
  {
    hide Least, Holds, Entries, Chosen, Common;
    var xs := Entries(elems, to);
    var c := Chosen(xs, to);
    forall k | 0 <= k < |xs|
      ensures xs[k].0 != ZERO
      ensures Least(es, xs[k].0, to).Some? && Least(es, xs[k].0, to).value <= xs[k].1
    {
      EntryOfEdge(elems, es, to, xs[k]);
    }
    ChosenIsBest(xs, to);
    forall from: Ip | Least(es, from, to).Some?
      ensures xs != [] && AtLeastAsGood(c, (from, Least(es, from, to).value), to)
    {
      EdgeOfEntry(elems, es, from, to);
      var x := (from, Least(es, from, to).value);
      var k :| 0 <= k < |xs| && xs[k] == x;
    }
    if xs != [] {
      var k :| 0 <= k < |xs| && xs[k] == c;
      assert Least(es, c.0, to).Some? && Least(es, c.0, to).value <= c.1;
    }
  }

  /** No edge to the target comes from address 0, or another source is as good. */
  ghost predicate ZeroIsHarmless(es: seq<Edge>, to: Ip) {
    Least(es, ZERO, to).None?
    || exists r: Ip :: r != ZERO && Least(es, r, to).Some?
                       && AtLeastAsGood((r, Least(es, r, to).value), (ZERO, Least(es, ZERO, to).value), to)
  }

  lemma BestDespiteZero(elems: seq<Elem>, es: seq<Edge>, to: Ip)
    requires Holds(elems, es) && Least(es, ZERO, to).Some? && ZeroIsHarmless(es, to)
    ensures IsRight(es, to, Chosen(Entries(elems, to), to).0)
  {
    hide Least, Holds, Entries, Chosen, Common, ZERO;
    ZeroIsIp();
    var xs := Entries(elems, to);
    var c, z := Chosen(xs, to), (ZERO, Least(es, ZERO, to).value);
    forall k | 0 <= k < |xs|
      ensures Least(es, xs[k].0, to).Some? && Least(es, xs[k].0, to).value <= xs[k].1
    {
      EntryOfEdge(elems, es, to, xs[k]);
    }
    var r: Ip :| r != ZERO && Least(es, r, to).Some? && AtLeastAsGood((r, Least(es, r, to).value), z, to);
    EdgeOfEntry(elems, es, r, to);
    var i :| 0 <= i < |xs| && xs[i] == (r, Least(es, r, to).value);
    assert Rivals(xs[i], z, to);
    ChosenDespiteZero(xs, z, to);
    forall from: Ip | Least(es, from, to).Some?
      ensures AtLeastAsGood(c, (from, Least(es, from, to).value), to)
    {
      EdgeOfEntry(elems, es, from, to);
      var k :| 0 <= k < |xs| && xs[k] == (from, Least(es, from, to).value);
    }
    var k :| 0 <= k < |xs| && xs[k] == c;
    assert Least(es, c.0, to).Some? && Least(es, c.0, to).value <= c.1;
  }

  lemma BestIsHarmless(es: seq<Edge>, to: Ip, r: Ip)
    requires r != ZERO && IsBest(es, to, r)
    ensures ZeroIsHarmless(es, to)
  {
    hide Least, ZERO, AtLeastAsGood;
    ZeroIsIp();
    var z: Ip := ZERO;
    if Least(es, z, to).Some? {
      assert AtLeastAsGood((r, Least(es, r, to).value), (z, Least(es, z, to).value), to);
    }
  }

  /** The query is right for a target exactly when address 0 does no harm there. */
  lemma RightExactlyWhenHarmless(elems: seq<Elem>, es: seq<Edge>, to: Ip)
    requires Holds(elems, es)
    ensures IsRight(es, to, Chosen(Entries(elems, to), to).0) <==> ZeroIsHarmless(es, to)
  {
    hide Least, Holds, Entries, Chosen, AtLeastAsGood, ZERO, IsBest;
    ZeroIsIp();
    if Least(es, ZERO, to).None? {
      BestOfEntries(elems, es, to);
    } else if ZeroIsHarmless(es, to) {
      BestDespiteZero(elems, es, to);
    } else {
      var found := Chosen(Entries(elems, to), to).0;
      assert found == ZERO ==> !IsRight(es, to, found);
      if found != ZERO && IsBest(es, to, found) {
        BestIsHarmless(es, to, found);
      }
    }
  }

  /** With an edge from address 0 the query can go wrong: whatever comes after it is
      answered, however far it is. */
  lemma ZeroIsMistaken(far: Ip, t: Ip, d: nat, e: nat)
    requires far != ZERO && t != ZERO && far != t && d < e
    ensures var es := [Edge(ZERO, t, d), Edge(far, t, e)];
            Chosen(Entries(Appended(Appended([], es[0]), es[1]), t), t).0 == far && !IsBest(es, t, far)
  {
    hide ZERO, Appended, Entries, Chosen, IsBest, Least;
    ZeroIsIp();
    TwoEdges(ZERO, far, t, d, e);
    TwoEntries(ZERO, far, t, d, e);
    TwoLeast(ZERO, far, t, d, e);
    ChosenMore([(ZERO, d)], (far, e), t);
    ChosenMore([], (ZERO, d), t);
    ChosenNone(t);
    assert [] + [(ZERO, d)] == [(ZERO, d)];
    NotBest([Edge(ZERO, t, d), Edge(far, t, e)], t, far, e, ZERO, d);
  }

  lemma ZeroIsIp()
    ensures |ZERO| == 32
  {}

  lemma ChosenNone(t: Ip)
    ensures Chosen([], t) == (ZERO, 0)
  {}

  lemma NotBest(es: seq<Edge>, t: Ip, r: Ip, d: nat, other: Ip, e: nat)
    requires Least(es, r, t) == Some(d) && Least(es, other, t) == Some(e) && e < d
    ensures !IsBest(es, t, r)
  {
    hide Least, Common;
    assert !AtLeastAsGood((r, d), (other, e), t);
  }

  lemma TwoEdges(a: Ip, b: Ip, t: Ip, d: nat, e: nat)
    requires a != b && a != t && b != t
    ensures Appended(Appended([], Edge(a, t, d)), Edge(b, t, e))
            == [Elem(a, [Dist(t, d)]), Elem(t, []), Elem(b, [Dist(t, e)])]
  {
    hide WithDist;
    var one := [Elem(a, [Dist(t, d)]), Elem(t, [])];
    assert FindFrom(one, b) < 0;
    FindFromFirst(one + [Elem(b, [Dist(t, e)])], t, 1);
    assert one + [Elem(b, [Dist(t, e)])] == [Elem(a, [Dist(t, d)]), Elem(t, []), Elem(b, [Dist(t, e)])];
  }

  lemma TwoEntries(a: Ip, b: Ip, t: Ip, d: nat, e: nat)
    ensures Entries([Elem(a, [Dist(t, d)]), Elem(t, []), Elem(b, [Dist(t, e)])], t) == [(a, d)] + [(b, e)]
  {
    OneEntry(a, t, d);
    OneEntry(b, t, e);
    var three := [Elem(a, [Dist(t, d)]), Elem(t, []), Elem(b, [Dist(t, e)])];
    var two, one := three[..2], three[..1];
    assert two[..1] == one && one[..0] == [];
    assert Entries(one, t) == [] + [(a, d)] == [(a, d)];
    assert Entries(two, t) == [(a, d)] + [] == [(a, d)];
  }

  lemma TwoLeast(a: Ip, b: Ip, t: Ip, d: nat, e: nat)
    requires a != b
    ensures Least([Edge(a, t, d), Edge(b, t, e)], a, t) == Some(d)
    ensures Least([Edge(a, t, d), Edge(b, t, e)], b, t) == Some(e)
  {
    var es := [Edge(a, t, d), Edge(b, t, e)];
    var one := es[..1];
    assert one == [es[0]] && one[..0] == [];
    assert Least(one, a, t) == Some(d) && Least(one, b, t) == None;
  }

  lemma OneEntry(from: Ip, to: Ip, d: nat)
    ensures EntriesOf(from, [Dist(to, d)], to) == [(from, d)]
  {
    assert [Dist(to, d)][..0] == [];
  }

  class RMap {
    var elems: seq<Elem>
    /** Every edge appended so far. */
    ghost var history: seq<Edge>

    ghost predicate Valid()
      reads this
    {
      Holds(elems, history)
    }

    constructor ()
      ensures Valid() && elems == [] && history == []
    {
      elems, history := [], [];
      EmptyHolds();
    }

    method FindFromIp(from: Ip) returns (i: int)
      ensures i == FindFrom(elems, from)
    {
      i := 0;
      while i < |elems|
        invariant 0 <= i <= |elems| && forall k :: 0 <= k < i ==> elems[k].from != from
      {
        if elems[i].from == from {
          FindFromFirst(elems, from, i);
          return;
        }
        i := i + 1;
      }
      i := -1;
    }

    method FindToIp(dists: seq<Dist>, to: Ip) returns (i: int)
      ensures i == FindTo(dists, to)
    {
      i := 0;
      while i < |dists|
        invariant 0 <= i <= |dists| && forall k :: 0 <= k < i ==> dists[k].to != to
      {
        if dists[i].to == to {
          FindToFirst(dists, to, i);
          return;
        }
        i := i + 1;
      }
      FindToNone(dists, to);
      i := -1;
    }

    /** The else-branches of rMap_append: an element for the target, if it has none. */
    method AddTarget(to: Ip)
      modifies this`elems
      ensures elems == WithTarget(old(elems), to)
    {
      var t := FindFromIp(to);
      if t < 0 {
        elems := elems + [Elem(to, [])];
      }
    }

    /** rMap_append */
    method Append(from: Ip, to: Ip, distance: nat)
      requires Valid()
      modifies this
      ensures Valid() && history == old(history) + [Edge(from, to, distance)]
      ensures elems == Appended(old(elems), Edge(from, to, distance))
    {
      hide Holds, WithTarget;
      AppendedHolds(elems, history, Edge(from, to, distance));
      history := history + [Edge(from, to, distance)];
      if elems == [] {
        elems := [Elem(from, [Dist(to, distance)]), Elem(to, [])];
        return;
      }
      var f := FindFromIp(from);
      if f >= 0 {
        var g := FindToIp(elems[f].dists, to);
        if g >= 0 && elems[f].dists[g].distance > distance {
          elems := elems[f := Elem(from, elems[f].dists[g := Dist(to, distance)])];
        } else {
          elems := elems[f := Elem(from, elems[f].dists + [Dist(to, distance)])];
          AddTarget(to);
        }
      } else {
        elems := elems + [Elem(from, [Dist(to, distance)])];
        AddTarget(to);
      }
    }

    /** rMap_shortest_and_longest_matching_prefix_to */
    method Query(to: Ip) returns (found: Ip)
      requires Valid()
      ensures found == Chosen(Entries(elems, to), to).0
      ensures IsRight(history, to, found) <==> ZeroIsHarmless(history, to)
    {
      hide Least, Holds, IsRight, ZeroIsHarmless, Choose, Chosen;
      var distance := 0;
      found := ZERO;
      ChosenNone(to);
      var i := 0;
      while i < |elems|
        invariant 0 <= i <= |elems|
        invariant (found, distance) == Chosen(Entries(elems[..i], to), to)
      {
        assert elems[..i + 1][..i] == elems[..i];
        found, distance := QueryElem(elems[i], found, distance, to, Entries(elems[..i], to));
        i := i + 1;
      }
      assert elems[..|elems|] == elems;
      RightExactlyWhenHarmless(elems, history, to);
    }

    /** The inner loop of the query, over the list of one source. */
    method QueryElem(e: Elem, found0: Ip, distance0: nat, to: Ip, ghost before: seq<(Ip, nat)>)
      returns (found: Ip, distance: nat)
      requires (found0, distance0) == Chosen(before, to)
      ensures (found, distance) == Chosen(before + EntriesOf(e.from, e.dists, to), to)
    {
      hide Choose, Chosen;
      found, distance := found0, distance0;
      assert before + [] == before;
      var j := 0;
      while j < |e.dists|
        invariant 0 <= j <= |e.dists|
        invariant (found, distance) == Chosen(before + EntriesOf(e.from, e.dists[..j], to), to)
      {
        ghost var soFar := before + EntriesOf(e.from, e.dists[..j], to);
        assert e.dists[..j + 1][..j] == e.dists[..j];
        if e.dists[j].to == to {
          assert before + EntriesOf(e.from, e.dists[..j + 1], to) == soFar + [(e.from, e.dists[j].distance)];
          ChosenMore(soFar, (e.from, e.dists[j].distance), to);
          found, distance := Step(found, distance, e.from, e.dists[j].distance, to);
        } else {
          assert before + EntriesOf(e.from, e.dists[..j + 1], to) == soFar;
        }
        j := j + 1;
      }
      assert e.dists[..|e.dists|] == e.dists;
    }

    method Step(found: Ip, distance: nat, from: Ip, d: nat, to: Ip) returns (f: Ip, n: nat)
      ensures (f, n) == Choose((found, distance), (from, d), to)
    {
      f, n := found, distance;
      if found == ZERO {
        f, n := from, d;
      } else if d < distance {
        f, n := from, d;
      } else if d == distance {
        var prefix := LongestPrefix(to, found);
        var tmp := LongestPrefix(to, from);
        if prefix < tmp {
          f, n := from, d;
        }
      }
    }
  }
}
