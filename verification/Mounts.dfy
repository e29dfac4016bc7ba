/** The mount list: mounting, and unmounting a file system together with everything
    nested in it. */
module Mounts {
  import opened Helpers
  import opened Wrappers

  /** A struct mount; one that was freed is not used again. */
  type Mount = nat

  const EBUSY := 16

  /** The mount whose vnode each mount covers; none for the root. */
  type Covers = map<Mount, Option<Mount>>

  /** Every mount comes after the one it is nested in. */
  ghost predicate Ordered(list: seq<Mount>, covers: Covers) {
    NoDuplicates(list)
    && (forall i :: 0 <= i < |list| ==> list[i] in covers)
    && (forall i :: 0 <= i < |list| && covers[list[i]].Some? ==> covers[list[i]].value in list[..i])
  }

  /** A way up from a to m, from each mount to the one it covers. */
  ghost predicate IsPath(covers: Covers, path: seq<Mount>, a: Mount, m: Mount) {
    |path| > 0 && path[0] == a && path[|path| - 1] == m
    && forall k :: 0 <= k < |path| - 1 ==> path[k] in covers && covers[path[k]] == Some(path[k + 1])
  }

  /** a is m, or nested in it at any depth. */
  ghost predicate Below(covers: Covers, a: Mount, m: Mount) {
    exists path :: IsPath(covers, path, a, m)
  }

  lemma BelowSelf(covers: Covers, m: Mount)
    ensures Below(covers, m, m)
  {
    assert IsPath(covers, [m], m, m);
  }

  lemma BelowStep(covers: Covers, a: Mount, m: Mount)
    requires a in covers && a != m
    ensures Below(covers, a, m) <==> covers[a].Some? && Below(covers, covers[a].value, m)
  {
    if Below(covers, a, m) {
      var path :| IsPath(covers, path, a, m);
      assert IsPath(covers, path[1..], path[1], m);
    }
    if covers[a].Some? && Below(covers, covers[a].value, m) {
      var path :| IsPath(covers, path, covers[a].value, m);
      assert IsPath(covers, [a] + path, a, m);
    }
  }

  /** What is nested in a mount comes after it. */
  lemma {:induction false} BelowIsLater(list: seq<Mount>, covers: Covers, i: nat, j: nat)
    requires Ordered(list, covers) && i < |list| && j < |list| && Below(covers, list[i], list[j])
    ensures j <= i
    decreases i
  {
    if i != j {
      assert list[i] != list[j];
      BelowStep(covers, list[i], list[j]);
      var q := covers[list[i]].value;
      assert q in list[..i];
      var k :| 0 <= k < i && list[k] == q;
      BelowIsLater(list, covers, k, j);
    }
  }

  /** The mounts of a list that are m or nested in it, in list order. */
  ghost function Nested(list: seq<Mount>, covers: Covers, m: Mount): seq<Mount> {
    if list == [] then []
    else
      var rest := Nested(list[..|list| - 1], covers, m);
      if Below(covers, list[|list| - 1], m) then rest + [list[|list| - 1]] else rest
  }

  /** All the other mounts. */
  ghost function Outside(list: seq<Mount>, covers: Covers, m: Mount): seq<Mount> {
    if list == [] then []
    else
      var rest := Outside(list[..|list| - 1], covers, m);
      if Below(covers, list[|list| - 1], m) then rest else rest + [list[|list| - 1]]
  }

  lemma {:induction false} NestedMembers(list: seq<Mount>, covers: Covers, m: Mount, a: Mount)
    ensures a in Nested(list, covers, m) <==> a in list && Below(covers, a, m)
    ensures a in Outside(list, covers, m) <==> a in list && !Below(covers, a, m)
  {
    if list != [] {
      var n := |list| - 1;
      NestedMembers(list[..n], covers, m, a);
      assert list == list[..n] + [list[n]];
    }
  }

  /** What is collected at the head of a list comes off it last in, first out. */
  function RemovalOrder(s: seq<Mount>): seq<Mount> {
    if s == [] then [] else [s[|s| - 1]] + RemovalOrder(s[..|s| - 1])
  }

  /** Each mount comes after everything nested in it. */
  ghost predicate InnerFirst(covers: Covers, s: seq<Mount>) {
    forall i, j :: 0 <= i < j < |s| ==> s[i] != s[j] && !Below(covers, s[j], s[i])
  }

  lemma {:induction false} RemovalAt(s: seq<Mount>, k: nat)
    requires k < |s|
    ensures |RemovalOrder(s)| == |s| && RemovalOrder(s)[k] == s[|s| - 1 - k]
    decreases |s|
  {
    if k > 0 {
      RemovalAt(s[..|s| - 1], k - 1);
    } else if |s| > 1 {
      RemovalAt(s[..|s| - 1], 0);
    }
  }

  /** Nested mounts keep the order of the list. */
  lemma {:induction false} NestedAt(list: seq<Mount>, covers: Covers, m: Mount, i: nat, j: nat)
    returns (a: nat, b: nat)
    requires Ordered(list, covers) && i < j < |Nested(list, covers, m)|
    ensures a < b < |list| && list[a] == Nested(list, covers, m)[i] && list[b] == Nested(list, covers, m)[j]
    decreases |list|
  {
    var n := |list| - 1;
    var init := list[..n];
    ShorterOrdered(list, covers, n);
    if j < |Nested(init, covers, m)| {
      a, b := NestedAt(init, covers, m, i, j);
    } else {
      b := n;
      NestedMembers(init, covers, m, Nested(list, covers, m)[i]);
      a :| 0 <= a < n && init[a] == Nested(list, covers, m)[i];
    }
  }

  lemma ShorterOrdered(list: seq<Mount>, covers: Covers, n: nat)
    requires Ordered(list, covers) && n <= |list|
    ensures Ordered(list[..n], covers)
  {
    forall i | 0 <= i < n
      ensures list[..n][..i] == list[..i]
    {}
  }

  /** Taking the nested mounts from the end of the list takes inner ones first. */
  lemma RemovalInnerFirst(list: seq<Mount>, covers: Covers, m: Mount)
    requires Ordered(list, covers)
    ensures InnerFirst(covers, RemovalOrder(Nested(list, covers, m)))
  {
    var s := Nested(list, covers, m);
    if s != [] {
      RemovalAt(s, 0);
    }
    forall i, j | 0 <= i < j < |RemovalOrder(s)|
      ensures RemovalOrder(s)[i] != RemovalOrder(s)[j] && !Below(covers, RemovalOrder(s)[j], RemovalOrder(s)[i])
    {
      RemovalAt(s, i);
      RemovalAt(s, j);
      var a, b := NestedAt(list, covers, m, |s| - 1 - j, |s| - 1 - i);
      if Below(covers, list[a], list[b]) {
        BelowIsLater(list, covers, a, b);
      }
    }
  }

  /** Leaving out mounts together with all that is nested in them keeps the order. */
  lemma OutsideOrdered(list: seq<Mount>, covers: Covers, m: Mount)
    requires Ordered(list, covers)
    ensures Ordered(Outside(list, covers, m), covers)
    decreases |list|
  {
    if list != [] {
      var n := |list| - 1;
      var rest, x := Outside(list[..n], covers, m), list[n];
      ShorterOrdered(list, covers, n);
      OutsideOrdered(list[..n], covers, m);
      if !Below(covers, x, m) {
        forall a
          ensures a in rest <==> a in list[..n] && !Below(covers, a, m)
        {
          NestedMembers(list[..n], covers, m, a);
        }
        BelowSelf(covers, m);
        BelowStep(covers, x, m);
        AppendOrdered(rest, covers, x);
      }
    }
  }

  lemma AppendOrdered(list: seq<Mount>, covers: Covers, x: Mount)
    requires Ordered(list, covers) && x !in list && x in covers && (covers[x].Some? ==> covers[x].value in list)
    ensures Ordered(list + [x], covers)
  {
    forall i | 0 <= i < |list|
      ensures (list + [x])[..i] == list[..i]
    {}
    assert (list + [x])[..|list|] == list;
  }

  /** The list without some of its mounts. */
  function Minus(list: seq<Mount>, gone: set<Mount>): seq<Mount> {
    if list == [] then []
    else
      var rest := Minus(list[..|list| - 1], gone);
      if list[|list| - 1] in gone then rest else rest + [list[|list| - 1]]
  }

  lemma {:induction false} MinusMembers(list: seq<Mount>, gone: set<Mount>, a: Mount)
    ensures a in Minus(list, gone) <==> a in list && a !in gone
  {
    if list != [] {
      var n := |list| - 1;
      MinusMembers(list[..n], gone, a);
      assert list == list[..n] + [list[n]];
    }
  }

  lemma {:induction false} MinusNone(list: seq<Mount>)
    ensures Minus(list, {}) == list
  {
    if list != [] {
      MinusNone(list[..|list| - 1]);
    }
  }

  lemma {:induction false} MinusMore(list: seq<Mount>, gone: set<Mount>, x: Mount)
    ensures Minus(Minus(list, gone), {x}) == Minus(list, gone + {x})
  {
    if list != [] {
      var n := |list| - 1;
      MinusMore(list[..n], gone, x);
      var rest := Minus(list[..n], gone);
      if list[n] !in gone {
        assert (rest + [list[n]])[..|rest|] == rest;
      }
    }
  }

  lemma {:induction false} MinusNested(list: seq<Mount>, covers: Covers, m: Mount, gone: set<Mount>)
    requires forall a :: a in list ==> (a in gone <==> Below(covers, a, m))
    ensures Minus(list, gone) == Outside(list, covers, m)
  {
    if list != [] {
      var n := |list| - 1;
      assert list[n] in list;
      MinusNested(list[..n], covers, m, gone);
    }
  }

  /** No mount of the list is mounted on x. */
  ghost predicate NoneOn(list: seq<Mount>, covers: Covers, x: Mount) {
    forall a :: a in list && a in covers ==> covers[a] != Some(x)
  }

  /** A mount without others nested in it may leave the list. */
  lemma {:induction false} LeafLeaves(list: seq<Mount>, covers: Covers, x: Mount)
    requires Ordered(list, covers) && NoneOn(list, covers, x)
    ensures Ordered(Minus(list, {x}), covers)
  {
    if list != [] {
      var n := |list| - 1;
      ShorterOrdered(list, covers, n);
      LeafLeaves(list[..n], covers, x);
      if list[n] != x {
        var rest := Minus(list[..n], {x});
        MinusMembers(list[..n], {x}, list[n]);
        if covers[list[n]].Some? {
          MinusMembers(list[..n], {x}, covers[list[n]].value);
        }
        AppendOrdered(rest, covers, list[n]);
      }
    }
  }

  // ----- what is collected

  lemma {:induction false} NothingEarlier(list: seq<Mount>, covers: Covers, k: nat, i: nat)
    requires Ordered(list, covers) && i <= k < |list|
    ensures Nested(list[..i], covers, list[k]) == []
  {
    hide Ordered, Below;
    if i > 0 {
      assert list[..i][..i - 1] == list[..i - 1];
      NothingEarlier(list, covers, k, i - 1);
      if Below(covers, list[i - 1], list[k]) {
        BelowIsLater(list, covers, i - 1, k);
      }
    }
  }

  lemma FirstNested(list: seq<Mount>, covers: Covers, k: nat)
    requires Ordered(list, covers) && k < |list|
    ensures Nested(list[..k + 1], covers, list[k]) == [list[k]]
  {
    assert list[..k + 1][..k] == list[..k];
    NothingEarlier(list, covers, k, k);
    BelowSelf(covers, list[k]);
  }

  /** One pass suffices: whether a mount is nested shows in what was collected before
      it was met. */
  lemma NextNested(list: seq<Mount>, covers: Covers, m: Mount, i: nat)
    requires Ordered(list, covers) && i < |list| && list[i] != m
    ensures var soFar := Nested(list[..i], covers, m);
            Below(covers, list[i], m) <==> covers[list[i]].Some? && covers[list[i]].value in soFar
    ensures Nested(list[..i + 1], covers, m)
            == Nested(list[..i], covers, m) + if Below(covers, list[i], m) then [list[i]] else []
  {
    assert list[..i + 1][..i] == list[..i];
    BelowStep(covers, list[i], m);
    if covers[list[i]].Some? {
      NestedMembers(list[..i], covers, m, covers[list[i]].value);
    }
  }

  lemma RemovalMore(s: seq<Mount>, x: Mount)
    ensures RemovalOrder(s + [x]) == [x] + RemovalOrder(s)
  {
    assert (s + [x])[..|s|] == s;
  }

  lemma {:induction false} RemovalMembers(s: seq<Mount>, a: Mount)
    ensures a in RemovalOrder(s) <==> a in s
  {
    if s != [] {
      RemovalMembers(s[..|s| - 1], a);
      assert s == s[..|s| - 1] + [s[|s| - 1]];
    }
  }

  lemma RemovalNone()
    ensures RemovalOrder([]) == []
  {}

  lemma ListedOnce(list: seq<Mount>, covers: Covers, k: nat, i: nat)
    requires Ordered(list, covers) && k < i < |list|
    ensures list[i] in covers && list[i] != list[k]
  {}

  lemma SetOfNone()
    ensures SetOf<Mount>([]) == {}
  {}

  /** A mount is removed after everything in the list that is nested in it. */
  lemma TakenIsLeaf(list: seq<Mount>, covers: Covers, m: Mount, all: seq<Mount>, k: nat)
    requires Ordered(list, covers) && all == RemovalOrder(Nested(list, covers, m)) && k < |all|
    ensures NoneOn(Minus(list, SetOf(all[..k])), covers, all[k])
  {
    RemovalInnerFirst(list, covers, m);
    forall a | a in Minus(list, SetOf(all[..k])) && a in covers
      ensures covers[a] != Some(all[k])
    {
      MinusMembers(list, SetOf(all[..k]), a);
      if covers[a] == Some(all[k]) {
        InnerIsTaken(list, covers, m, all, k, a);
      }
    }
  }

  lemma InnerIsTaken(list: seq<Mount>, covers: Covers, m: Mount, all: seq<Mount>, k: nat, a: Mount)
    requires Ordered(list, covers) && all == RemovalOrder(Nested(list, covers, m)) && k < |all|
    requires InnerFirst(covers, all) && a in list && covers[a] == Some(all[k])
    ensures a in all[..k]
  {
    RemovalMembers(Nested(list, covers, m), all[k]);
    NestedMembers(list, covers, m, all[k]);
    var up :| IsPath(covers, up, all[k], m);
    assert IsPath(covers, [a] + up, a, m);
    RemovalMembers(Nested(list, covers, m), a);
    NestedMembers(list, covers, m, a);
    var j :| 0 <= j < |all| && all[j] == a;
    assert IsPath(covers, [a, all[k]], a, all[k]);
    if j == k {
      Acyclic(list, covers, a);
    }
  }

  lemma Acyclic(list: seq<Mount>, covers: Covers, a: Mount)
    requires Ordered(list, covers) && a in list
    ensures covers[a] != Some(a)
  {
    var i :| 0 <= i < |list| && list[i] == a;
    assert a !in list[..i];
  }

  class MountTable {
    var list: seq<Mount>
    var covers: Covers
    /** The mounts that this thread has busied for writing. */
    var busied: set<Mount>

    ghost predicate Valid()
      reads this
    {
      Ordered(list, covers)
    }

    constructor ()
      ensures Valid() && list == [] && covers == map[] && busied == {}
    {
      list, covers, busied := [], map[], {};
    }

    /** sys_mount, once the file system is set up: at the end of the list. */
    method Insert(m: Mount, on: Option<Mount>)
      requires Valid() && m !in covers && (on.Some? ==> on.value in list)
      modifies this
      ensures Valid() && list == old(list) + [m] && covers == old(covers)[m := on] && busied == old(busied)
    {
      MoreCovers(list, covers, m, on);
      list, covers := list + [m], covers[m := on];
      AppendOrdered(old(list), covers, m);
    }

    /** Is the mount that x covers among those collected? */
    method CoversCollected(mplist: seq<Mount>, x: Mount) returns (yes: bool)
      requires x in covers
      ensures yes <==> covers[x].Some? && covers[x].value in mplist
    {
      yes := false;
      var k := 0;
      while k < |mplist|
        invariant 0 <= k <= |mplist|
        invariant !(covers[x].Some? && covers[x].value in mplist[..k])
      {
        if covers[x] == Some(mplist[k]) {
          return true;
        }
        k := k + 1;
      }
      assert mplist[..|mplist|] == mplist;
    }

    /** The first part of dounmount: the mounts nested in m, inner ones first. */
    method Collect(k: nat, force: bool, busy: Mount -> int) returns (error: int, mplist: seq<Mount>)
      requires Valid() && k < |list| && busied == {list[k]}
      modifies this`busied
      ensures busied == SetOf(mplist)
      ensures error == 0 ==> mplist == RemovalOrder(Nested(list, covers, list[k]))
      ensures error == 0 && !force ==> Nested(list, covers, list[k]) == [list[k]]
      ensures error != 0 && !force ==> error == EBUSY && Nested(list, covers, list[k]) != [list[k]]
      ensures error != 0 && force ==>
                exists x :: x in Nested(list, covers, list[k]) && x != list[k] && error == busy(x)
      ensures error == 0 && force ==>
                forall x :: x in Nested(list, covers, list[k]) && x != list[k] ==> busy(x) == 0
    {
      hide Ordered, Nested, Below, RemovalOrder;
      var m := list[k];
      mplist, error := [m], 0;
      FirstNested(list, covers, k);
      RemovalMore([], m);
      RemovalNone();
      assert [] + [m] == [m];
      var i := k + 1;
      while i < |list|
        invariant k < i <= |list| && busied == SetOf(mplist)
        invariant mplist == RemovalOrder(Nested(list[..i], covers, m))
        invariant !force ==> Nested(list[..i], covers, m) == [m]
        invariant force ==> forall x :: x in Nested(list[..i], covers, m) && x != m ==> busy(x) == 0
      {
        var x := list[i];
        ListedOnce(list, covers, k, i);
        NextNested(list, covers, m, i);
        ghost var soFar := Nested(list[..i], covers, m);
        if covers[x].Some? {
          RemovalMembers(soFar, covers[x].value);
        }
        var nested := CoversCollected(mplist, x);
        assert Nested(list[..i + 1], covers, m) == if nested then soFar + [x] else soFar;
        if nested {
          NestedMembers(list, covers, m, x);
          if !force {
            return EBUSY, mplist;
          }
          error := busy(x);
          if error != 0 {
            return;
          }
          busied := busied + {x};
          RemovalMore(soFar, x);
          mplist := [x] + mplist;
        }
        i := i + 1;
      }
      assert list[..|list|] == list;
    }

    /** dounmount_leaf: leaf(m) is what the file system itself answers. */
    method UnmountLeaf(m: Mount, leaf: Mount -> int) returns (error: int)
      requires Valid() && NoneOn(list, covers, m)
      modifies this`list, this`busied
      ensures Valid() && error == leaf(m) && busied == old(busied) - {m}
      ensures list == if error == 0 then Minus(old(list), {m}) else old(list)
    {
      error := leaf(m);
      if error == 0 {
        LeafLeaves(list, covers, m);
        list := Minus(list, {m});
      }
      busied := busied - {m};
    }

    /** The err label: everything collected is let go. */
    method Release(mplist0: seq<Mount>)
      modifies this`busied
      ensures busied == old(busied) - SetOf(mplist0)
    {
      var mplist := mplist0;
      while mplist != []
        invariant busied - SetOf(mplist) == old(busied) - SetOf(mplist0)
        decreases |mplist|
      {
        assert mplist == [mplist[0]] + mplist[1..];
        busied := busied - {mplist[0]};
        mplist := mplist[1..];
      }
    }

    /** dounmount. `gone` are the mounts that were removed, in that order. */
    method Unmount(k: nat, force: bool, busy: Mount -> int, leaf: Mount -> int)
      returns (error: int, ghost gone: seq<Mount>)
      requires Valid() && k < |list| && busied == {list[k]}
      modifies this`list, this`busied
      ensures Valid() && busied == {}
      ensures list == Minus(old(list), SetOf(gone)) && gone <= RemovalOrder(Nested(old(list), covers, old(list)[k]))
      ensures error == 0 ==>
                gone == RemovalOrder(Nested(old(list), covers, old(list)[k]))
                && list == Outside(old(list), covers, old(list)[k])
      ensures !force && Nested(old(list), covers, old(list)[k]) != [old(list)[k]] ==>
                error == EBUSY && list == old(list)
      ensures error != 0 ==>
                (!force && error == EBUSY && Nested(old(list), covers, old(list)[k]) != [old(list)[k]])
                || (exists x :: x in Nested(old(list), covers, old(list)[k]) && (error == leaf(x) || error == busy(x)))
    {
      hide Ordered, Nested, Below, RemovalOrder, Outside, Minus;
      var m := list[k];
      ghost var all := RemovalOrder(Nested(list, covers, m));
      gone := [];
      MinusNone(list);
      assert SetOf<Mount>([]) == {};
      var mplist;
      error, mplist := Collect(k, force, busy);
      if error != 0 {
        Release(mplist);
        return;
      }
      error, gone := Drain(k, mplist, leaf);
      if error != 0 {
        RemovalMembers(Nested(old(list), covers, m), all[|gone|]);
      }
    }

    /** The second part of dounmount. */
    method Drain(ghost k: nat, mplist0: seq<Mount>, leaf: Mount -> int) returns (error: int, ghost gone: seq<Mount>)
      requires Valid() && k < |list| && busied == SetOf(mplist0)
      requires mplist0 == RemovalOrder(Nested(list, covers, list[k]))
      modifies this`list, this`busied
      ensures Valid() && busied == {} && gone <= mplist0 && list == Minus(old(list), SetOf(gone))
      ensures error == 0 ==> gone == mplist0 && list == Outside(old(list), covers, old(list)[k])
      ensures error != 0 ==> |gone| < |mplist0| && error == leaf(mplist0[|gone|])
    {
      hide Ordered, Nested, Below, RemovalOrder, Outside, NoneOn, Minus, SetOf;
      error, gone := 0, [];
      var mplist := mplist0;
      ghost var was, j := list, 0;
      MinusNone(list);
      SetOfNone();
      assert mplist0[..0] == gone;
      while mplist != []
        invariant Valid() && j <= |mplist0| && gone == mplist0[..j] && mplist == mplist0[j..]
        invariant busied == SetOf(mplist) && list == Minus(was, SetOf(gone))
        decreases |mplist|
      {
        var x := mplist[0];
        TakeOne(was, covers, was[k], mplist0, j);
        mplist := mplist[1..];
        error := UnmountLeaf(x, leaf);
        if error != 0 {
          Release(mplist);
          return;
        }
        j := j + 1;
        gone := mplist0[..j];
      }
      assert gone == mplist0;
      AllTaken(was, covers, was[k], gone);
    }
  }

  lemma TakeOne(list: seq<Mount>, covers: Covers, m: Mount, all: seq<Mount>, k: nat)
    requires Ordered(list, covers) && all == RemovalOrder(Nested(list, covers, m)) && k < |all|
    ensures NoneOn(Minus(list, SetOf(all[..k])), covers, all[k])
    ensures Minus(Minus(list, SetOf(all[..k])), {all[k]}) == Minus(list, SetOf(all[..k + 1]))
    ensures SetOf(all[k..]) - {all[k]} == SetOf(all[k + 1..])
  {
    hide Ordered, Nested, RemovalOrder, NoneOn, Minus;
    TakenIsLeaf(list, covers, m, all, k);
    TakenOnce(list, covers, m, all, k);
    MinusMore(list, SetOf(all[..k]), all[k]);
    assert all[..k + 1] == all[..k] + [all[k]];
    assert SetOf(all[..k + 1]) == SetOf(all[..k]) + {all[k]};
  }

  lemma AllTaken(list: seq<Mount>, covers: Covers, m: Mount, all: seq<Mount>)
    requires all == RemovalOrder(Nested(list, covers, m))
    ensures Minus(list, SetOf(all)) == Outside(list, covers, m)
  {
    forall a | a in list
      ensures a in SetOf(all) <==> Below(covers, a, m)
    {
      RemovalMembers(Nested(list, covers, m), a);
      NestedMembers(list, covers, m, a);
    }
    MinusNested(list, covers, m, SetOf(all));
  }

  lemma TakenOnce(list: seq<Mount>, covers: Covers, m: Mount, all: seq<Mount>, k: nat)
    requires Ordered(list, covers) && all == RemovalOrder(Nested(list, covers, m)) && k < |all|
    ensures SetOf(all[k..]) - {all[k]} == SetOf(all[k + 1..])
  {
    RemovalInnerFirst(list, covers, m);
    assert all[k..] == [all[k]] + all[k + 1..];
    assert all[k] !in all[k + 1..];
  }

  lemma MoreCovers(list: seq<Mount>, covers: Covers, m: Mount, on: Option<Mount>)
    requires Ordered(list, covers) && m !in covers
    ensures Ordered(list, covers[m := on]) && m !in list
  {
    assert m in list ==> m in covers;
  }
}
