/** unveil(2): entries that lose their vnode. The covers of the others still lead to
    what a search finds, one loss after the other. */
module UnveilLoss {
  import opened Wrappers
  import opened UnveilCover

  /** The list after unveil_removevnode zapped entry i. */
  function Zap(paths: seq<Unveil>, i: nat): seq<Unveil>
    requires i < |paths|
  {
    paths[i := paths[i].(vp := None, flags := {})]
  }

  /** A search that found the entry finds what the entry itself is covered by. */
  lemma {:induction false} ZappedSearch(t: Tree, paths: seq<Unveil>, i: nat, v: Vnode)
    requires TreeOk(t) && Distinct(paths) && i < |paths| && paths[i].vp.Some?
    ensures FindCover(t, Zap(paths, i), v) ==
            if FindCover(t, paths, v) == i then FindCover(t, Zap(paths, i), paths[i].vp.value)
            else FindCover(t, paths, v)
    decreases t.depth(v)
  {
    if v != t.root {
      var p := t.up(v);
      ZappedLookup(paths, i, p);
      if Lookup(paths, p) < 0 || Lookup(paths, p) == i {
        ZappedSearch(t, paths, i, p);
      }
    }
  }

  lemma ZappedLookup(paths: seq<Unveil>, i: nat, v: Vnode)
    requires Distinct(paths) && i < |paths| && paths[i].vp.Some?
    ensures Lookup(Zap(paths, i), v) == if Lookup(paths, v) == i then -1 else Lookup(paths, v)
  {
    hide Lookup;
    var a, b := Lookup(paths, v), Lookup(Zap(paths, i), v);
    if b >= 0 {
      assert paths[b].vp == Some(v);
    }
    if a >= 0 && a != i {
      assert Zap(paths, i)[a].vp == Some(v);
    }
  }

  /** So does a chain of covers. */
  lemma {:induction false} ZappedChain(t: Tree, paths: seq<Unveil>, hs: seq<nat>, i: nat, k: int)
    requires Climbs(t, paths, hs) && i < |paths| && paths[i].vp.Some? && -1 <= k < |paths|
    ensures Climbs(t, Zap(paths, i), hs)
    ensures Live(t, Zap(paths, i), hs, k) ==
            if Live(t, paths, hs, k) == i then Live(t, Zap(paths, i), hs, paths[i].cover) else Live(t, paths, hs, k)
    decreases if k < 0 then 0 else hs[k] + 1
  {
    if k >= 0 && paths[k].vp.None? {
      ZappedChain(t, paths, hs, i, paths[k].cover);
    }
  }

  lemma ZapKeepsCovers(t: Tree, paths: seq<Unveil>, hs: seq<nat>, i: nat)
    requires TreeOk(t) && CoversAt(t, paths, hs) && i < |paths| && paths[i].vp.Some?
    ensures CoversAt(t, Zap(paths, i), hs)
  {
    hide FindCover, Lookup, Live;
    var r, u := Zap(paths, i), paths[i].vp.value;
    ZappedChain(t, paths, hs, i, paths[i].cover);
    ZappedSearch(t, paths, i, u);
    if FindCover(t, paths, u) >= 0 {
      CoverIsHigher(t, paths, u);
    }
    forall j | 0 <= j < |r| && r[j].vp.Some?
      ensures Live(t, r, hs, r[j].cover) == FindCover(t, r, r[j].vp.value)
    {
      ZappedChain(t, paths, hs, i, paths[j].cover);
      ZappedSearch(t, paths, i, paths[j].vp.value);
    }
  }

  // ----- a whole file system goes

  /** The vnodes of an unmounted file system: with a directory go all below it. */
  ghost predicate Closed(t: Tree, gone: Vnode -> bool) {
    forall v: Vnode :: v != t.root && gone(t.up(v)) ==> gone(v)
  }

  predicate IsGone(uv: Unveil, gone: Vnode -> bool) {
    uv.vp.Some? && gone(uv.vp.value)
  }

  /** The loop of dounmount_leaf, as far as the first k entries of a process go. */
  function Unmounted(paths: seq<Unveil>, gone: Vnode -> bool, k: nat): (r: seq<Unveil>)
    requires k <= |paths|
    ensures |r| == |paths|
    ensures forall i :: 0 <= i < |paths| ==>
              r[i] == if i < k && IsGone(paths[i], gone) then Zap(paths, i)[i] else paths[i]
  {
    if k == 0 then paths
    else
      var r := Unmounted(paths, gone, k - 1);
      if IsGone(paths[k - 1], gone) then Zap(r, k - 1) else r
  }

  lemma {:induction false} UnmountKeepsCovers(t: Tree, paths: seq<Unveil>, hs: seq<nat>, gone: Vnode -> bool, k: nat)
    requires TreeOk(t) && CoversAt(t, paths, hs) && k <= |paths|
    ensures CoversAt(t, Unmounted(paths, gone, k), hs)
  {
    hide CoversAt, IsGone;
    if k > 0 {
      UnmountKeepsCovers(t, paths, hs, gone, k - 1);
      if IsGone(paths[k - 1], gone) {
        assert paths[k - 1].vp.Some? by { GoneHasVnode(paths[k - 1], gone); }
        ZapKeepsCovers(t, Unmounted(paths, gone, k - 1), hs, k - 1);
      }
    }
  }

  lemma GoneHasVnode(uv: Unveil, gone: Vnode -> bool)
    requires IsGone(uv, gone)
    ensures uv.vp.Some?
  {}

  /** No entry that has its vnode hangs on one that has not. */
  ghost predicate NoneHangs(paths: seq<Unveil>) {
    forall i :: 0 <= i < |paths| && paths[i].vp.Some? && 0 <= paths[i].cover < |paths| ==>
      paths[paths[i].cover].vp.Some?
  }

  lemma {:induction false} BelowGone(t: Tree, paths: seq<Unveil>, gone: Vnode -> bool, v: Vnode)
    requires TreeOk(t) && Closed(t, gone) && FindCover(t, paths, v) >= 0
    requires IsGone(paths[FindCover(t, paths, v)], gone)
    ensures gone(v)
    decreases t.depth(v)
  {
    if Lookup(paths, t.up(v)) < 0 {
      BelowGone(t, paths, gone, t.up(v));
    }
  }

  /** An unmount leaves no entry hanging, because all below a lost directory is lost
      with it. */
  lemma UnmountLeavesNoneHanging(t: Tree, paths: seq<Unveil>, hs: seq<nat>, gone: Vnode -> bool)
    requires TreeOk(t) && CoversAt(t, paths, hs) && NoneHangs(paths) && Closed(t, gone)
    ensures NoneHangs(Unmounted(paths, gone, |paths|))
  {
    hide FindCover, Lookup;
    var r := Unmounted(paths, gone, |paths|);
    forall i | 0 <= i < |r| && r[i].vp.Some? && 0 <= r[i].cover < |r|
      ensures r[r[i].cover].vp.Some?
    {
      var c := paths[i].cover;
      assert Live(t, paths, hs, c) == c;
      if IsGone(paths[c], gone) {
        BelowGone(t, paths, gone, paths[i].vp.value);
      }
    }
  }

  /** Nor does an addition: what it searches for again, it finds with its vnode. */
  lemma AddLeavesNoneHanging(t: Tree, paths: seq<Unveil>, u: Vnode, r: seq<Unveil>)
    requires TreeOk(t) && NoneHangs(paths) && IsAddVnode(t, paths, u, r)
    requires forall i :: 0 <= i < |paths| ==> -1 <= paths[i].cover < |paths|
    ensures NoneHangs(r)
  {
    hide FindCover, Lookup;
    var e := NewEntry(t, paths, u);
    forall i | 0 <= i < |r| && r[i].vp.Some? && 0 <= r[i].cover < |r|
      ensures r[r[i].cover].vp.Some?
    {
      NewEntryCover(t, paths, u);
      if i == |paths| {
        CoverIsHigher(t, paths, u);
      } else if r[i] != paths[i] {
        CoverIsHigher(t, paths + [e], paths[i].vp.value);
      }
    }
  }
}
