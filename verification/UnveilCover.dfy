/** unveil(2): the list of unveiled directories of a process, and for each of
    them the index of the nearest unveiled directory above it. */
module UnveilCover {
  import opened Wrappers

  type Vnode = nat

  /** The directory tree as a process sees it: `up` is what a lookup of ".."
      yields, mount points included, and `root` is where it stops. */
  datatype Tree = Tree(up: Vnode -> Vnode, depth: Vnode -> nat, root: Vnode)

  ghost predicate TreeOk(t: Tree) {
    forall v: Vnode :: (t.depth(v) == 0 <==> v == t.root) && (v != t.root ==> t.depth(t.up(v)) == t.depth(v) - 1)
  }

  datatype Perm = Read | Write | Exec | Create | UserSet

  /** struct unveil; a zapped entry has no vnode. */
  datatype Unveil = Unveil(vp: Option<Vnode>, cover: int, names: map<string, set<Perm>>, flags: set<Perm>)

  /** unveil_lookup: the position of the first entry for v, -1 when there is none. */
  function Lookup(paths: seq<Unveil>, v: Vnode): (i: int)
    ensures -1 <= i < |paths|
    ensures i >= 0 ==> paths[i].vp == Some(v)
    ensures i == -1 <==> forall k :: 0 <= k < |paths| ==> paths[k].vp != Some(v)
  {
    if paths == [] then -1
    else if Lookup(paths[..|paths| - 1], v) >= 0 then Lookup(paths[..|paths| - 1], v)
    else if paths[|paths| - 1].vp == Some(v) then |paths| - 1
    else -1
  }

  /** unveil_find_cover: walk up from v to the first unveiled directory. */
  ghost function FindCover(t: Tree, paths: seq<Unveil>, v: Vnode): (c: int)
    requires TreeOk(t)
    ensures -1 <= c < |paths|
    decreases t.depth(v)
  {
    if v == t.root then -1
    else if Lookup(paths, t.up(v)) >= 0 then Lookup(paths, t.up(v))
    else FindCover(t, paths, t.up(v))
  }

  /** k steps up from v. */
  ghost function Above(t: Tree, v: Vnode, k: nat): Vnode {
    if k == 0 then v else t.up(Above(t, v, k - 1))
  }

  /** c is the nearest unveiled directory strictly above v, or -1: no entry names
      a vnode between them. */
  ghost predicate NearestAbove(t: Tree, paths: seq<Unveil>, v: Vnode, c: int)
    requires TreeOk(t)
  {
    if c < 0 then
      c == -1 && forall k: nat :: 1 <= k <= t.depth(v) ==> Lookup(paths, Above(t, v, k)) == -1
    else
      exists k: nat :: 1 <= k <= t.depth(v) && c == Lookup(paths, Above(t, v, k))
                       && forall j: nat :: 1 <= j < k ==> Lookup(paths, Above(t, v, j)) == -1
  }

  lemma AboveShift(t: Tree, v: Vnode, k: nat)
    ensures Above(t, t.up(v), k) == Above(t, v, k + 1)
  {
    if k > 0 {
      AboveShift(t, v, k - 1);
    }
  }

  /** The walk finds the nearest unveiled directory above. */
  lemma {:induction false} FindCoverIsNearest(t: Tree, paths: seq<Unveil>, v: Vnode)
    requires TreeOk(t)
    ensures NearestAbove(t, paths, v, FindCover(t, paths, v))
    decreases t.depth(v)
  {
    hide Lookup;
    var c := FindCover(t, paths, v);
    assert Above(t, v, 1) == t.up(v) by { assert Above(t, v, 0) == v; }
    if v != t.root && Lookup(paths, t.up(v)) < 0 {
      var p := t.up(v);
      FindCoverIsNearest(t, paths, p);
      if c < 0 {
        forall k: nat | 1 <= k <= t.depth(v)
          ensures Lookup(paths, Above(t, v, k)) == -1
        {
          if k > 1 {
            AboveShift(t, v, k - 1);
          }
        }
      } else {
        var k: nat :| 1 <= k <= t.depth(p) && c == Lookup(paths, Above(t, p, k))
                      && forall j: nat :: 1 <= j < k ==> Lookup(paths, Above(t, p, j)) == -1;
        AboveShift(t, v, k);
        forall j: nat | 1 <= j < k + 1
          ensures Lookup(paths, Above(t, v, j)) == -1
        {
          if j > 1 {
            AboveShift(t, v, j - 1);
          }
        }
        assert 1 <= k + 1 <= t.depth(v) && c == Lookup(paths, Above(t, v, k + 1));
      }
    }
  }

  /** Whatever a search finds still has its vnode, and lies nearer to the root. */
  lemma CoverIsHigher(t: Tree, paths: seq<Unveil>, v: Vnode)
    requires TreeOk(t) && FindCover(t, paths, v) >= 0
    ensures paths[FindCover(t, paths, v)].vp.Some?
    ensures t.depth(paths[FindCover(t, paths, v)].vp.value) < t.depth(v)
    decreases t.depth(v)
  {
    if Lookup(paths, t.up(v)) < 0 {
      CoverIsHigher(t, paths, t.up(v));
    }
  }

  // ----- the covers of a list, some of whose entries may have lost their vnode

  /** At most one entry per vnode; zapped entries have none. */
  ghost predicate Distinct(paths: seq<Unveil>) {
    forall i, j :: 0 <= i < j < |paths| && paths[i].vp.Some? ==> paths[i].vp != paths[j].vp
  }

  /** Covers lie nearer to the root: `hs` holds the depth of every entry's directory,
      also of one that is gone. A zapped entry has no flags. */
  ghost predicate Climbs(t: Tree, paths: seq<Unveil>, hs: seq<nat>) {
    && |hs| == |paths|
    && (forall i :: 0 <= i < |paths| ==>
          -1 <= paths[i].cover < |paths| && (paths[i].cover >= 0 ==> hs[paths[i].cover] < hs[i]))
    && (forall i :: 0 <= i < |paths| && paths[i].vp.Some? ==> hs[i] == t.depth(paths[i].vp.value))
    && (forall i :: 0 <= i < |paths| && paths[i].vp.None? ==> paths[i].flags == {})
  }

  /** The first entry from i on, cover by cover, that still has its vnode. */
  ghost function Live(t: Tree, paths: seq<Unveil>, hs: seq<nat>, i: int): (c: int)
    requires Climbs(t, paths, hs) && -1 <= i < |paths|
    ensures -1 <= c < |paths| && (c >= 0 ==> paths[c].vp.Some?)
    ensures c >= 0 ==> i >= 0 && hs[c] <= hs[i]
    decreases if i < 0 then 0 else hs[i] + 1
  {
    if i < 0 || paths[i].vp.Some? then i else Live(t, paths, hs, paths[i].cover)
  }

  /** Every uv_cover leads to what a fresh search would find. */
  ghost predicate CoversAt(t: Tree, paths: seq<Unveil>, hs: seq<nat>)
    requires TreeOk(t)
  {
    && Distinct(paths) && Climbs(t, paths, hs)
    && forall i :: 0 <= i < |paths| && paths[i].vp.Some? ==>
         Live(t, paths, hs, paths[i].cover) == FindCover(t, paths, paths[i].vp.value)
  }

  ghost predicate CoversOk(t: Tree, paths: seq<Unveil>)
    requires TreeOk(t)
  {
    exists hs :: CoversAt(t, paths, hs)
  }

  // ----- a list that grew at its end, or changed in fields other than uv_vp

  ghost predicate SameVnodes(a: seq<Unveil>, b: seq<Unveil>) {
    |a| == |b| && forall i :: 0 <= i < |a| ==> a[i].vp == b[i].vp
  }

  lemma LookupSame(a: seq<Unveil>, b: seq<Unveil>, v: Vnode)
    requires SameVnodes(a, b)
    ensures Lookup(a, v) == Lookup(b, v)
  {}

  lemma FindCoverSame(t: Tree, a: seq<Unveil>, b: seq<Unveil>, v: Vnode)
    requires TreeOk(t) && SameVnodes(a, b)
    ensures FindCover(t, a, v) == FindCover(t, b, v)
    decreases t.depth(v)
  {
    if v != t.root {
      LookupSame(a, b, t.up(v));
      FindCoverSame(t, a, b, t.up(v));
    }
  }

  /** Adding an entry for u: a search either finds what it found before, or it
      finds the new entry and used to find what the new entry itself is covered
      by. */
  lemma {:induction false} InterposedOnlyBelowSameCover(t: Tree, paths: seq<Unveil>, e: Unveil, u: Vnode, v: Vnode)
    requires TreeOk(t) && e.vp == Some(u)
    ensures || FindCover(t, paths + [e], v) == FindCover(t, paths, v)
            || (FindCover(t, paths + [e], v) == |paths| && FindCover(t, paths, v) == FindCover(t, paths, u))
    decreases t.depth(v)
  {
    if v != t.root {
      var p := t.up(v);
      assert (paths + [e])[..|paths|] == paths;
      if Lookup(paths, p) < 0 && p != u {
        InterposedOnlyBelowSameCover(t, paths, e, u, p);
      }
    }
  }

  /** An entry never covers itself. */
  lemma {:induction false} NewEntryOwnCover(t: Tree, paths: seq<Unveil>, e: Unveil, u: Vnode, v: Vnode)
    requires TreeOk(t) && e.vp == Some(u) && t.depth(v) <= t.depth(u)
    ensures FindCover(t, paths + [e], v) == FindCover(t, paths, v)
    decreases t.depth(v)
  {
    if v != t.root {
      assert (paths + [e])[..|paths|] == paths;
      NewEntryOwnCover(t, paths, e, u, t.up(v));
    }
  }

  /** The entry that unveil_add_vnode appends for u. */
  ghost function NewEntry(t: Tree, paths: seq<Unveil>, u: Vnode): Unveil
    requires TreeOk(t)
  {
    Unveil(Some(u), FindCover(t, paths + [Unveil(Some(u), -1, map[], {})], u), map[], {})
  }

  /** An old entry afterwards: only those that share the new entry's cover are
      searched again. */
  ghost function Rechecked(t: Tree, all: seq<Unveil>, e: Unveil, o: Unveil): Unveil
    requires TreeOk(t)
  {
    if o.cover == e.cover && o.vp.Some? then o.(cover := FindCover(t, all, o.vp.value)) else o
  }

  /** r is the list that unveil_add_vnode leaves when it adds u. */
  ghost predicate IsAddVnode(t: Tree, paths: seq<Unveil>, u: Vnode, r: seq<Unveil>)
    requires TreeOk(t)
  {
    var e := NewEntry(t, paths, u);
    && |r| == |paths| + 1
    && r[|paths|] == e
    && forall i :: 0 <= i < |paths| ==> r[i] == Rechecked(t, paths + [e], e, paths[i])
  }

  /** The re-check loop of unveil_add_vnode over the first k entries. It does not test
      uv_vp: None is a search from an entry that has lost its vnode. */
  ghost function RecheckUpTo(t: Tree, all: seq<Unveil>, e: Unveil, paths: seq<Unveil>, k: nat): Option<seq<Unveil>>
    requires TreeOk(t) && k <= |paths|
  {
    if k == 0 then Some([])
    else
      match RecheckUpTo(t, all, e, paths, k - 1)
      case None => None
      case Some(r) =>
        var o := paths[k - 1];
        if o.cover == e.cover && o.vp.None? then None else Some(r + [Rechecked(t, all, e, o)])
  }

  /** No entry that has lost its vnode has the cover that u would get. */
  ghost predicate SafeToAdd(t: Tree, paths: seq<Unveil>, u: Vnode)
    requires TreeOk(t)
  {
    forall i :: 0 <= i < |paths| && paths[i].vp.None? ==> paths[i].cover != FindCover(t, paths, u)
  }

  lemma {:induction false} RecheckMeans(t: Tree, all: seq<Unveil>, e: Unveil, paths: seq<Unveil>, k: nat)
    requires TreeOk(t) && k <= |paths|
    ensures RecheckUpTo(t, all, e, paths, k).Some? <==>
            forall i :: 0 <= i < k && paths[i].vp.None? ==> paths[i].cover != e.cover
    ensures RecheckUpTo(t, all, e, paths, k).Some? ==>
              var r := RecheckUpTo(t, all, e, paths, k).value;
              |r| == k && forall i :: 0 <= i < k ==> r[i] == Rechecked(t, all, e, paths[i])
  {
    hide FindCover;
    if k > 0 {
      RecheckMeans(t, all, e, paths, k - 1);
    }
  }

  lemma NewEntryCover(t: Tree, paths: seq<Unveil>, u: Vnode)
    requires TreeOk(t)
    ensures NewEntry(t, paths, u).cover == FindCover(t, paths, u)
  {
    NewEntryOwnCover(t, paths, Unveil(Some(u), -1, map[], {}), u, u);
  }

  /** The loop gets through exactly when no entry without a vnode has the new entry's
      cover, and then it leaves the list of IsAddVnode. */
  lemma AddIsSafeIff(t: Tree, paths: seq<Unveil>, u: Vnode)
    requires TreeOk(t)
    ensures var e := NewEntry(t, paths, u);
            var r := RecheckUpTo(t, paths + [e], e, paths, |paths|);
            (r.Some? <==> SafeToAdd(t, paths, u)) && (r.Some? ==> IsAddVnode(t, paths, u, r.value + [e]))
  {
    hide FindCover, RecheckUpTo;
    var e := NewEntry(t, paths, u);
    NewEntryCover(t, paths, u);
    RecheckMeans(t, paths + [e], e, paths, |paths|);
  }

  /** A process that unveiled one directory and lost it, as an unmount makes it, cannot
      add another: whatever it adds, the loop starts a search from no vnode. */
  lemma LostFirstEntryBlocksAdding(t: Tree, a: Vnode, names: map<string, set<Perm>>, u: Vnode)
    requires TreeOk(t)
    ensures IsAddVnode(t, [], a, [Unveil(Some(a), -1, map[], {})])
    ensures !SafeToAdd(t, [Unveil(None, -1, names, {})], u)
  {
    var none: seq<Unveil> := [];
    var lost := [Unveil(None, -1, names, {})];
    NewEntryCover(t, none, a);
    NothingCovers(t, none, a);
    NothingCovers(t, lost, u);
    assert lost[0].vp.None?;
  }

  lemma {:induction false} NothingCovers(t: Tree, paths: seq<Unveil>, v: Vnode)
    requires TreeOk(t) && forall i :: 0 <= i < |paths| ==> paths[i].vp.None?
    ensures FindCover(t, paths, v) == -1
    decreases t.depth(v)
  {
    if v != t.root {
      NothingCovers(t, paths, t.up(v));
    }
  }

  lemma {:induction false} OldCoverStands(t: Tree, paths: seq<Unveil>, e: Unveil, u: Vnode, v: Vnode)
    requires TreeOk(t) && e.vp == Some(u) && FindCover(t, paths, v) != FindCover(t, paths, u)
    ensures FindCover(t, paths + [e], v) == FindCover(t, paths, v)
  {
    InterposedOnlyBelowSameCover(t, paths, e, u, v);
  }

  /** A chain of covers that ends at c ends there at once, or some zapped entry on it
      has the cover c. */
  lemma {:induction false} DirectOrZapped(t: Tree, paths: seq<Unveil>, hs: seq<nat>, i: int, c: int)
    requires Climbs(t, paths, hs) && -1 <= i < |paths| && Live(t, paths, hs, i) == c
    requires forall k :: 0 <= k < |paths| && paths[k].vp.None? ==> paths[k].cover != c
    ensures i == c
    decreases if i < 0 then 0 else hs[i] + 1
  {
    if i >= 0 && paths[i].vp.None? {
      DirectOrZapped(t, paths, hs, paths[i].cover, c);
    }
  }

  /** Chains run through zapped entries only, so they survive what leaves these alone. */
  lemma {:induction false} LiveSame(t: Tree, a: seq<Unveil>, hs: seq<nat>, b: seq<Unveil>, gs: seq<nat>, i: int)
    requires Climbs(t, a, hs) && Climbs(t, b, gs) && -1 <= i < |a| <= |b|
    requires forall k :: 0 <= k < |a| ==> a[k].vp == b[k].vp && (a[k].vp.None? ==> a[k].cover == b[k].cover)
    ensures Live(t, a, hs, i) == Live(t, b, gs, i)
    decreases if i < 0 then 0 else hs[i] + 1
  {
    if i >= 0 && a[i].vp.None? {
      LiveSame(t, a, hs, b, gs, a[i].cover);
    }
  }

  lemma AddedClimbs(t: Tree, paths: seq<Unveil>, hs: seq<nat>, u: Vnode, r: seq<Unveil>)
    requires TreeOk(t) && Climbs(t, paths, hs) && IsAddVnode(t, paths, u, r)
    ensures Climbs(t, r, hs + [t.depth(u)])
  {
    hide FindCover, Lookup;
    var e, gs := NewEntry(t, paths, u), hs + [t.depth(u)];
    NewEntryCover(t, paths, u);
    forall i | 0 <= i < |r|
      ensures -1 <= r[i].cover < |r| && (r[i].cover >= 0 ==> gs[r[i].cover] < gs[i])
    {
      if i == |paths| && e.cover >= 0 {
        CoverIsHigher(t, paths, u);
      } else if i < |paths| && r[i] != paths[i] && r[i].cover >= 0 {
        CoverIsHigher(t, paths + [e], paths[i].vp.value);
      }
    }
  }

  /** Entry i of the new list names its nearest cover. */
  lemma EntryCovered(t: Tree, paths: seq<Unveil>, hs: seq<nat>, u: Vnode, r: seq<Unveil>, i: nat)
    requires TreeOk(t) && CoversAt(t, paths, hs) && Lookup(paths, u) == -1
    requires SafeToAdd(t, paths, u) && IsAddVnode(t, paths, u, r) && Climbs(t, r, hs + [t.depth(u)])
    requires i < |r| && r[i].vp.Some?
    ensures Live(t, r, hs + [t.depth(u)], r[i].cover) == FindCover(t, r, r[i].vp.value)
  {
    hide FindCover, Lookup, Distinct;
    var e, gs := NewEntry(t, paths, u), hs + [t.depth(u)];
    var v := r[i].vp.value;
    NewEntryCover(t, paths, u);
    NewEntryOwnCover(t, paths, e, u, u);
    assert SameVnodes(r, paths + [e]);
    FindCoverSame(t, r, paths + [e], v);
    if i < |paths| && paths[i].cover != e.cover {
      if FindCover(t, paths, v) == e.cover {
        DirectOrZapped(t, paths, hs, paths[i].cover, e.cover);
      }
      OldCoverStands(t, paths, e, u, v);
      LiveSame(t, paths, hs, r, gs, paths[i].cover);
    } else if r[i].cover >= 0 {
      CoverIsHigher(t, r, v);
    }
  }

  /** Re-checking only those entries is as good as searching for all of them, in every
      list that unveil_add_vnode gets through. */
  lemma IncrementalEqualsRecomputed(t: Tree, paths: seq<Unveil>, hs: seq<nat>, u: Vnode, r: seq<Unveil>)
    requires TreeOk(t) && CoversAt(t, paths, hs) && Lookup(paths, u) == -1
    requires SafeToAdd(t, paths, u) && IsAddVnode(t, paths, u, r)
    ensures CoversAt(t, r, hs + [t.depth(u)])
  {
    hide FindCover, Lookup, SafeToAdd, Live;
    AddedClimbs(t, paths, hs, u, r);
    forall i | 0 <= i < |r| && r[i].vp.Some?
      ensures Live(t, r, hs + [t.depth(u)], r[i].cover) == FindCover(t, r, r[i].vp.value)
    {
      EntryCovered(t, paths, hs, u, r, i);
    }
  }
}
