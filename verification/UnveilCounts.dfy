/** The counters of unveil(2) across processes: v_uvcount of every vnode and
    ps_uvncount of every process, over additions, forks, exits and revoked
    vnodes. */
module UnveilCounts {
  import opened Wrappers
  import opened UnveilCover
  import opened UnveilLoss

  const UNVEIL_MAX_VNODES: nat := 128
  const UNVEIL_MAX_NAMES: nat := 128

  /** PANIC is a search from an entry without a vnode. */
  datatype Errno = OK | EINVAL | E2BIG | PANIC

  /** The unveil fields of struct process; ps_uvvcount is |paths|. */
  datatype Proc = Proc(paths: seq<Unveil>, ncount: int)

  function One(uv: Unveil, v: Vnode): nat {
    if uv.vp == Some(v) then 1 else 0
  }

  function InPaths(paths: seq<Unveil>, v: Vnode): nat {
    if paths == [] then 0 else InPaths(paths[..|paths| - 1], v) + One(paths[|paths| - 1], v)
  }

  /** How many entries of all processes name v. */
  function InProcs(procs: seq<Proc>, v: Vnode): nat {
    if procs == [] then 0 else InProcs(procs[..|procs| - 1], v) + InPaths(procs[|procs| - 1].paths, v)
  }

  function Names(paths: seq<Unveil>): nat {
    if paths == [] then 0 else Names(paths[..|paths| - 1]) + |paths[|paths| - 1].names|
  }

  function Count(uvcount: map<Vnode, int>, v: Vnode): int {
    if v in uvcount then uvcount[v] else 0
  }

  /** v_uvcount is the number of entries that name the vnode. */
  ghost predicate CountsOk(procs: seq<Proc>, uvcount: map<Vnode, int>) {
    forall v: Vnode :: Count(uvcount, v) == InProcs(procs, v)
  }

  ghost predicate ProcOk(p: Proc) {
    Distinct(p.paths) && p.ncount == Names(p.paths)
  }

  ghost predicate Inv(procs: seq<Proc>, uvcount: map<Vnode, int>) {
    CountsOk(procs, uvcount) && forall i :: 0 <= i < |procs| ==> ProcOk(procs[i])
  }

  // ----- how the sums change

  lemma PathsUpdate(paths: seq<Unveil>, i: nat, uv: Unveil, v: Vnode)
    requires i < |paths|
    ensures InPaths(paths[i := uv], v) == InPaths(paths, v) - One(paths[i], v) + One(uv, v)
  {
    var n := |paths| - 1;
    if i < n {
      PathsUpdate(paths[..n], i, uv, v);
      assert paths[i := uv][..n] == paths[..n][i := uv];
    } else {
      assert paths[i := uv][..n] == paths[..n];
    }
  }

  lemma NamesUpdate(paths: seq<Unveil>, i: nat, uv: Unveil)
    requires i < |paths|
    ensures Names(paths[i := uv]) == Names(paths) - |paths[i].names| + |uv.names|
  {
    var n := |paths| - 1;
    if i < n {
      NamesUpdate(paths[..n], i, uv);
      assert paths[i := uv][..n] == paths[..n][i := uv];
    } else {
      assert paths[i := uv][..n] == paths[..n];
    }
  }

  lemma ProcsUpdate(procs: seq<Proc>, i: nat, p: Proc, v: Vnode)
    requires i < |procs|
    ensures InProcs(procs[i := p], v) == InProcs(procs, v) - InPaths(procs[i].paths, v) + InPaths(p.paths, v)
  {
    var n := |procs| - 1;
    if i < n {
      ProcsUpdate(procs[..n], i, p, v);
      assert procs[i := p][..n] == procs[..n][i := p];
    } else {
      assert procs[i := p][..n] == procs[..n];
    }
  }

  /** One process changed, and the counters with it. */
  lemma Recount(procs: seq<Proc>, uvcount: map<Vnode, int>, i: nat, p: Proc, uvcount': map<Vnode, int>)
    requires CountsOk(procs, uvcount) && i < |procs|
    requires forall v: Vnode ::
               Count(uvcount', v) - Count(uvcount, v) == InPaths(p.paths, v) - InPaths(procs[i].paths, v)
    ensures CountsOk(procs[i := p], uvcount')
  {
    forall v: Vnode
      ensures Count(uvcount', v) == InProcs(procs[i := p], v)
    {
      ProcsUpdate(procs, i, p, v);
    }
  }

  lemma NotFound(paths: seq<Unveil>, v: Vnode)
    requires Lookup(paths, v) == -1
    ensures InPaths(paths, v) == 0
  {}

  lemma Found(paths: seq<Unveil>, v: Vnode)
    requires Lookup(paths, v) >= 0
    ensures InPaths(paths, v) > 0
  {
    PathsUpdate(paths, Lookup(paths, v), Unveil(None, -1, map[], {}), v);
  }

  lemma PartOfAll(procs: seq<Proc>, i: nat, v: Vnode)
    requires i < |procs|
    ensures InPaths(procs[i].paths, v) <= InProcs(procs, v)
  {
    ProcsUpdate(procs, i, Proc([], 0), v);
  }

  ghost predicate Zapped(paths: seq<Unveil>, n: nat) {
    n <= |paths| && forall i :: 0 <= i < n ==> paths[i].vp.None? && paths[i].names == map[]
  }

  lemma AllZapped(paths: seq<Unveil>)
    requires Zapped(paths, |paths|)
    ensures Names(paths) == 0
    ensures forall v: Vnode :: InPaths(paths, v) == 0
  {
    if paths != [] {
      AllZapped(paths[..|paths| - 1]);
    }
  }

  /** Entry i of process p loses its vnode, and the vnode one count. */
  lemma ZapKeepsCounts(procs: seq<Proc>, uvcount: map<Vnode, int>, p: nat, i: nat, q: Proc, uvcount': map<Vnode, int>)
    requires CountsOk(procs, uvcount) && p < |procs| && i < |procs[p].paths|
    requires |q.paths| == |procs[p].paths| && q.paths == procs[p].paths[i := q.paths[i]] && q.paths[i].vp.None?
    requires uvcount' == (match procs[p].paths[i].vp
                          case None => uvcount
                          case Some(v) => uvcount[v := Count(uvcount, v) - 1])
    ensures CountsOk(procs[p := q], uvcount')
  {
    forall v: Vnode
      ensures Count(uvcount', v) - Count(uvcount, v) == InPaths(q.paths, v) - InPaths(procs[p].paths, v)
    {
      PathsUpdate(procs[p].paths, i, q.paths[i], v);
    }
    Recount(procs, uvcount, p, q, uvcount');
  }

  lemma SameCounts(procs: seq<Proc>, uvcount: map<Vnode, int>, p: nat, q: Proc)
    requires CountsOk(procs, uvcount) && p < |procs|
    requires forall v: Vnode :: InPaths(q.paths, v) == InPaths(procs[p].paths, v)
    ensures CountsOk(procs[p := q], uvcount)
  {
    Recount(procs, uvcount, p, q, uvcount);
  }

  /** An entry appended for v, and one count for it. */
  lemma AppendKeepsCounts(
    procs: seq<Proc>, uvcount: map<Vnode, int>, p: nat, uv: Unveil, q: Proc, uvcount': map<Vnode, int>)
    requires CountsOk(procs, uvcount) && p < |procs| && q.paths == procs[p].paths + [uv]
    requires uvcount' == (match uv.vp
                          case None => uvcount
                          case Some(v) => uvcount[v := Count(uvcount, v) + 1])
    ensures CountsOk(procs[p := q], uvcount')
  {
    forall v: Vnode
      ensures Count(uvcount', v) - Count(uvcount, v) == InPaths(q.paths, v) - InPaths(procs[p].paths, v)
    {
      assert q.paths[..|procs[p].paths|] == procs[p].paths;
    }
    Recount(procs, uvcount, p, q, uvcount');
  }

  // ----- what each operation does, told without the invariant

  /** The table of entries or of names is full. */
  predicate IsFull(p: Proc) {
    |p.paths| >= UNVEIL_MAX_VNODES || p.ncount >= UNVEIL_MAX_NAMES
  }

  /** vp has an entry, or one can be added. */
  ghost predicate MayAdd(t: Tree, paths: seq<Unveil>, vp: Vnode)
    requires TreeOk(t)
  {
    Lookup(paths, vp) >= 0 || SafeToAdd(t, paths, vp)
  }

  /** v_uvcount of vp goes up if it gets an entry. */
  function Raised(uvcount: map<Vnode, int>, paths: seq<Unveil>, vp: Vnode): map<Vnode, int> {
    if Lookup(paths, vp) >= 0 then uvcount else uvcount[vp := Count(uvcount, vp) + 1]
  }

  function NewName(uv: Unveil, directory: bool, name: string): nat {
    if directory || name in uv.names then 0 else 1
  }

  /** Whether unveil_add stores a new name. */
  function NewNames(paths: seq<Unveil>, vp: Vnode, directory: bool, name: string): nat {
    if Lookup(paths, vp) >= 0 then NewName(paths[Lookup(paths, vp)], directory, name) else if directory then 0 else 1
  }

  ghost predicate StepAdd(t: Tree, procs: seq<Proc>, uvcount: map<Vnode, int>, p: nat, vp: Vnode, directory: bool,
                          name: string, flags: set<Perm>, procs': seq<Proc>, uvcount': map<Vnode, int>)
    requires TreeOk(t) && p < |procs|
  {
    |procs'| == |procs| && procs' == procs[p := procs'[p]]
    && IsAdded(t, procs[p].paths, vp, directory, name, flags, procs'[p].paths)
    && procs'[p].ncount == procs[p].ncount + NewNames(procs[p].paths, vp, directory, name)
    && uvcount' == Raised(uvcount, procs[p].paths, vp)
  }

  ghost predicate StepDestroy(procs: seq<Proc>, uvcount: map<Vnode, int>, p: nat,
                              procs': seq<Proc>, uvcount': map<Vnode, int>)
    requires p < |procs|
  {
    procs' == procs[p := Proc([], procs[p].ncount - Names(procs[p].paths))]
    && forall v: Vnode :: Count(uvcount', v) == Count(uvcount, v) - InPaths(procs[p].paths, v)
  }

  ghost predicate StepCopy(procs: seq<Proc>, uvcount: map<Vnode, int>, p: nat, c: nat,
                           procs': seq<Proc>, uvcount': map<Vnode, int>)
    requires p < |procs| && c < |procs|
  {
    |procs'| == |procs| && procs' == procs[c := Proc(procs[p].paths, Names(procs[p].paths))]
    && forall v: Vnode :: Count(uvcount', v) == Count(uvcount, v) + InPaths(procs[p].paths, v)
  }

  /** The processes that have an entry for v. */
  function Holders(procs: seq<Proc>, v: Vnode): nat {
    if procs == [] then 0
    else Holders(procs[..|procs| - 1], v) + if Lookup(procs[|procs| - 1].paths, v) >= 0 then 1 else 0
  }

  ghost predicate StepRemove(procs: seq<Proc>, uvcount: map<Vnode, int>, v: Vnode,
                             procs': seq<Proc>, uvcount': map<Vnode, int>)
  {
    |procs'| == |procs| && (forall k :: 0 <= k < |procs| ==> procs'[k] == Forgets(procs[k], v))
    && (forall u: Vnode :: Count(uvcount', u) == Count(uvcount, u) - if u == v then Holders(procs, v) else 0)
  }

  /** At most one entry per process: as many processes as entries. */
  lemma {:induction false} HoldersCount(procs: seq<Proc>, v: Vnode)
    requires forall k :: 0 <= k < |procs| ==> Distinct(procs[k].paths)
    ensures Holders(procs, v) == InProcs(procs, v)
  {
    if procs != [] {
      var n := |procs| - 1;
      HoldersCount(procs[..n], v);
      OneEntry(procs[n].paths, v);
    }
  }

  lemma {:induction false} OneEntry(paths: seq<Unveil>, v: Vnode)
    requires Distinct(paths)
    ensures InPaths(paths, v) == if Lookup(paths, v) >= 0 then 1 else 0
  {
    if paths != [] {
      OneEntry(paths[..|paths| - 1], v);
    }
  }

  /** All processes and the counters kept in their vnodes. */
  class Kernel {
    var procs: seq<Proc>
    var uvcount: map<Vnode, int>

    ghost predicate Valid()
      reads this
    {
      Inv(procs, uvcount)
    }

    /** unveil_lookup, with its early exit on v_uvcount. */
    method LookupVnode(p: nat, v: Vnode) returns (i: int)
      requires p < |procs| && CountsOk(procs, uvcount)
      ensures i == Lookup(procs[p].paths, v)
    {
      var paths := procs[p].paths;
      if Count(uvcount, v) == 0 {
        PartOfAll(procs, p, v);
        if Lookup(paths, v) >= 0 {
          Found(paths, v);
        }
        return -1;
      }
      i := 0;
      while i < |paths|
        invariant 0 <= i <= |paths|
        invariant Lookup(paths[..i], v) == -1
      {
        assert paths[..i + 1][..i] == paths[..i];
        if paths[i].vp == Some(v) {
          FirstIndex(paths, i, v);
          return i;
        }
        i := i + 1;
      }
      assert paths[..|paths|] == paths;
      return -1;
    }

    /** unveil_destroy: the KASSERT on ps_uvncount at its end holds. */
    method Destroy(p: nat)
      requires Valid() && p < |procs|
      modifies this
      ensures StepDestroy(old(procs), old(uvcount), p, procs, uvcount)
      ensures Valid() && procs[p].ncount == 0
    {
      hide Names, InPaths, CountsOk;
      ghost var before := procs;
      var i := 0;
      while i < |procs[p].paths|
        invariant |procs| == |before| && i <= |procs[p].paths|
        invariant procs == before[p := procs[p]]
        invariant CountsOk(procs, uvcount)
        invariant Zapped(procs[p].paths, i) && procs[p].ncount == Names(procs[p].paths)
        decreases |procs[p].paths| - i
      {
        var me := procs[p];
        var uv := me.paths[i];
        var gone := Unveil(None, uv.cover, map[], {});
        NamesUpdate(me.paths, i, gone);
        var q := Proc(me.paths[i := gone], me.ncount - |uv.names|);
        var counts := match uv.vp case None => uvcount case Some(v) => uvcount[v := Count(uvcount, v) - 1];
        ZapKeepsCounts(procs, uvcount, p, i, q, counts);
        uvcount := counts;
        procs := procs[p := q];
        i := i + 1;
      }
      AllZapped(procs[p].paths);
      assert procs[p].ncount == 0;
      NoEntries();
      SameCounts(procs, uvcount, p, Proc([], 0));
      procs := procs[p := Proc([], 0)];
      assert procs == before[p := Proc([], 0)];
      CountsAfter(before, p, Proc([], 0), old(uvcount), uvcount);
    }

    /** unveil_copy: the child of a fork gets the parent's list. */
    method Copy(p: nat, c: nat)
      requires Valid() && p < |procs| && c < |procs| && p != c && procs[c] == Proc([], 0)
      modifies this
      ensures StepCopy(old(procs), old(uvcount), p, c, procs, uvcount)
      ensures Valid() && procs[c] == procs[p]
    {
      hide Names, InPaths, CountsOk;
      NoEntries();
      ghost var before := procs;
      var from := procs[p].paths;
      if |from| == 0 {
        assert procs[c].paths == from;
        return;
      }
      var i := 0;
      while i < |from|
        invariant |procs| == |before| && i <= |from|
        invariant procs == before[c := procs[c]] && procs[c].paths == from[..i]
        invariant CountsOk(procs, uvcount)
        invariant procs[c].ncount == Names(procs[c].paths)
      {
        var me := procs[c];
        var uv := from[i];
        assert from[..i + 1] == from[..i] + [uv];
        NamesAppend(me.paths, uv);
        var q := Proc(me.paths + [uv], me.ncount + |uv.names|);
        var counts := match uv.vp case None => uvcount case Some(v) => uvcount[v := Count(uvcount, v) + 1];
        AppendKeepsCounts(procs, uvcount, c, uv, q, counts);
        uvcount := counts;
        procs := procs[c := q];
        i := i + 1;
      }
      assert from[..|from|] == from;
      assert procs == before[c := procs[c]];
      CountsAfter(before, c, procs[c], old(uvcount), uvcount);
    }

    /** One round of unveil_removevnode, in process k. */
    method Forget(k: nat, v: Vnode)
      requires Valid() && k < |procs|
      modifies this
      ensures Valid()
      ensures procs == old(procs)[k := Forgets(old(procs)[k], v)]
      ensures Lookup(procs[k].paths, v) == -1
      ensures forall u: Vnode :: u != v ==> Count(uvcount, u) == old(Count(uvcount, u))
    {
      hide Names, InPaths, CountsOk, Lookup;
      var i := LookupVnode(k, v);
      if i >= 0 {
        CountPositive(procs, uvcount, k, v);
        assert Count(uvcount, v) > 0;
        var me := procs[k];
        var q := Forgets(me, v);
        NamesUpdate(me.paths, i, q.paths[i]);
        ZapKeepsCounts(procs, uvcount, k, i, q, uvcount[v := Count(uvcount, v) - 1]);
        ForgetsOnce(me, v);
        uvcount := uvcount[v := Count(uvcount, v) - 1];
        procs := procs[k := q];
      }
    }

    /** unveil_removevnode: every process forgets v, the panic on a zero count is
        not reached, and the KASSERT at the end holds. */
    method RemoveVnode(v: Vnode)
      requires Valid()
      modifies this
      ensures Valid()
      ensures Count(uvcount, v) == 0
      ensures StepRemove(old(procs), old(uvcount), v, procs, uvcount)
    {
      hide Names, InPaths, InProcs, Lookup, Holders;
      HoldersCount(procs, v);
      if Count(uvcount, v) == 0 {
        NobodyNames(procs, v);
        return;
      }
      var k := 0;
      while k < |procs|
        invariant |procs| == |old(procs)| && k <= |procs|
        invariant Valid()
        invariant forall j :: 0 <= j < k ==> procs[j] == Forgets(old(procs)[j], v) && Lookup(procs[j].paths, v) == -1
        invariant forall j :: k <= j < |procs| ==> procs[j] == old(procs)[j]
        invariant forall u: Vnode :: u != v ==> Count(uvcount, u) == old(Count(uvcount, u))
      {
        Forget(k, v);
        k := k + 1;
      }
      ForgottenByAll(procs, v);
    }

    /** unveil_find_cover */
    method FindCoverOf(t: Tree, p: nat, dp: Vnode) returns (ret: int)
      requires TreeOk(t) && p < |procs| && CountsOk(procs, uvcount)
      ensures ret == FindCover(t, procs[p].paths, dp)
    {
      hide Lookup, CountsOk;
      ret := -1;
      var vp := dp;
      while vp != t.root
        invariant ret == -1 && FindCover(t, procs[p].paths, vp) == FindCover(t, procs[p].paths, dp)
        decreases t.depth(vp)
      {
        var parent := t.up(vp);
        ret := LookupVnode(p, parent);
        if ret >= 0 {
          return;
        }
        LookupRange(procs[p].paths, parent);
        vp := parent;
      }
    }

    /** unveil_add_vnode, after unveil_add raised v_uvcount of u. It gets through exactly
        when no entry without a vnode has the new one's cover; then the list is the one of
        IsAddVnode. */
    method AddVnode(t: Tree, p: nat, u: Vnode) returns (ok: bool)
      requires TreeOk(t) && p < |procs| && Valid() && Lookup(procs[p].paths, u) == -1
      modifies this
      ensures ok <==> SafeToAdd(t, old(procs)[p].paths, u)
      ensures ok ==> Valid() && |procs| == |old(procs)|
      ensures ok ==> procs == old(procs)[p := old(procs)[p].(paths := procs[p].paths)]
      ensures ok ==> uvcount == old(uvcount)[u := Count(old(uvcount), u) + 1]
      ensures ok ==> IsAddVnode(t, old(procs)[p].paths, u, procs[p].paths)
    {
      hide Names, InPaths, CountsOk, Lookup, FindCover;
      ghost var before := procs;
      ghost var was := procs[p].paths;
      var e0 := Unveil(Some(u), -1, map[], {});
      var me := procs[p];
      AppendKeepsCounts(procs, uvcount, p, e0, me.(paths := me.paths + [e0]), uvcount[u := Count(uvcount, u) + 1]);
      uvcount := uvcount[u := Count(uvcount, u) + 1];
      procs := procs[p := me.(paths := me.paths + [e0])];
      var c := FindCoverOf(t, p, u);
      var e := e0.(cover := c);
      SetCover(p, |me.paths|, c);
      assert procs[p].paths == was + [e];
      ghost var all := was + [e];
      NewEntryCover(t, was, u);
      var i := 0;
      while i < |me.paths|
        invariant i <= |was| && |procs| == |before| && |procs[p].paths| == |was| + 1
        invariant procs == before[p := before[p].(paths := procs[p].paths)]
        invariant uvcount == old(uvcount)[u := Count(old(uvcount), u) + 1]
        invariant CountsOk(procs, uvcount) && SameVnodes(procs[p].paths, all)
        invariant procs[p].paths[|was|] == e
        invariant forall k :: 0 <= k < i ==> procs[p].paths[k] == Rechecked(t, all, e, was[k])
        invariant forall k :: i <= k < |was| ==> procs[p].paths[k] == was[k]
        invariant forall k :: 0 <= k < i && was[k].vp.None? ==> was[k].cover != c
      {
        if procs[p].paths[i].cover == c {
          if procs[p].paths[i].vp.None? {
            return false;
          }
          var ci := FindCoverOf(t, p, procs[p].paths[i].vp.value);
          FindCoverSame(t, procs[p].paths, all, was[i].vp.value);
          SetCover(p, i, ci);
        }
        i := i + 1;
      }
      AddedOk(before[p], procs[p], u, t);
      return true;
    }

    /** `ps_uvpaths[i].uv_cover = c` */
    method SetCover(p: nat, i: nat, c: int)
      requires p < |procs| && i < |procs[p].paths| && CountsOk(procs, uvcount)
      modifies this`procs
      ensures var was := old(procs)[p];
              procs == old(procs)[p := was.(paths := was.paths[i := was.paths[i].(cover := c)])]
      ensures CountsOk(procs, uvcount)
    {
      hide InPaths, CountsOk;
      var me := procs[p];
      var q := me.(paths := me.paths[i := me.paths[i].(cover := c)]);
      SameVnodesSameCounts(me.paths, q.paths);
      SameCounts(procs, uvcount, p, q);
      procs := procs[p := q];
    }

    /** unveil_add of directory vp, or of a name in it. `perms` is None for a
        permission string that does not parse. */
    method Add(t: Tree, p: nat, vp: Vnode, directory: bool, name: string, perms: Option<set<Perm>>) returns (e: Errno)
      requires TreeOk(t) && p < |procs| && Valid()
      modifies this
      ensures e == EINVAL <==> perms.None?
      ensures e == E2BIG <==> perms.Some? && IsFull(old(procs)[p])
      ensures e == PANIC <==> perms.Some? && !IsFull(old(procs)[p]) && !MayAdd(t, old(procs)[p].paths, vp)
      ensures e != PANIC ==> Valid()
      ensures e == EINVAL || e == E2BIG ==> procs == old(procs) && uvcount == old(uvcount)
      ensures e == OK ==> StepAdd(t, old(procs), old(uvcount), p, vp, directory, name, perms.value, procs, uvcount)
      ensures e == OK ==> AddSays(old(procs)[p].paths, vp, directory, name, perms.value, procs[p].paths)
      ensures e != PANIC && CoversOk(t, old(procs)[p].paths) ==> CoversOk(t, procs[p].paths)
    {
      hide Lookup, FindCover, IsAddVnode, CoversOk, Inv, IsAdded, SafeToAdd, Distinct, AddSays;
      if perms.None? {
        return EINVAL;
      }
      if |procs[p].paths| >= UNVEIL_MAX_VNODES || procs[p].ncount >= UNVEIL_MAX_NAMES {
        return E2BIG;
      }
      ghost var was := procs[p].paths;
      var ok, i := EnsureEntry(t, p, vp);
      if !ok {
        return PANIC;
      }
      ghost var base := procs[p].paths;
      EntryHasVnode(t, was, vp, base, i);
      SetPerms(t, p, i, directory, name, perms.value);
      AddedBy(t, was, vp, directory, name, perms.value, base, i, procs[p].paths);
      AddMeans(t, was, vp, directory, name, perms.value, procs[p].paths);
      AddedNames(t, was, vp, directory, name, base, i);
      return OK;
    }

    /** The entry for vp, a new one if need be. */
    method EnsureEntry(t: Tree, p: nat, vp: Vnode) returns (ok: bool, i: nat)
      requires TreeOk(t) && p < |procs| && Valid()
      modifies this
      ensures ok <==> MayAdd(t, old(procs)[p].paths, vp)
      ensures ok ==> Valid() && |procs| == |old(procs)|
                     && procs == old(procs)[p := old(procs)[p].(paths := procs[p].paths)]
      ensures ok ==> i < |procs[p].paths| && IsEntryFor(t, old(procs)[p].paths, vp, procs[p].paths, i)
      ensures ok ==> uvcount == Raised(old(uvcount), old(procs)[p].paths, vp)
      ensures ok && CoversOk(t, old(procs)[p].paths) ==> CoversOk(t, procs[p].paths)
    {
      hide Lookup, FindCover, IsAddVnode, CoversOk, CountsOk, ProcOk, SafeToAdd, Distinct;
      ghost var was := procs[p].paths;
      var k := LookupVnode(p, vp);
      LookupRange(procs[p].paths, vp);
      if k >= 0 {
        LookupInside(procs[p].paths, vp);
        return true, k;
      }
      i := |procs[p].paths|;
      ok := AddVnode(t, p, vp);
      if ok {
        AddVnodeLength(t, was, vp, procs[p].paths);
        if CoversOk(t, was) {
          AddKeepsCovers(t, was, vp, procs[p].paths);
        }
      }
    }

    /** The permissions of entry i, for itself or for one name. */
    method SetPerms(t: Tree, p: nat, i: nat, directory: bool, name: string, flags: set<Perm>)
      requires TreeOk(t) && p < |procs| && Valid() && i < |procs[p].paths|
      modifies this`procs
      ensures Valid() && |procs| == |old(procs)| && procs == old(procs)[p := procs[p]]
      ensures procs[p].paths == WithPerms(old(procs)[p].paths, i, directory, name, flags)
      ensures procs[p].ncount == old(procs)[p].ncount + NewName(old(procs)[p].paths[i], directory, name)
      ensures old(procs)[p].paths[i].vp.Some? && CoversOk(t, old(procs)[p].paths) ==> CoversOk(t, procs[p].paths)
    {
      hide Names, InPaths, CountsOk, FindCover, CoversOk;
      var me := procs[p];
      var uv := me.paths[i];
      var n := me.ncount;
      if directory {
        uv := uv.(flags := flags);
      } else {
        if name !in uv.names {
          n := n + 1;
        }
        MapGrows(uv.names, name, flags);
        uv := uv.(names := uv.names[name := flags]);
      }
      var q := Proc(me.paths[i := uv], n);
      NamesUpdate(me.paths, i, uv);
      SameVnodesSameCounts(me.paths, q.paths);
      SameCounts(procs, uvcount, p, q);
      if uv.vp.Some? && CoversOk(t, me.paths) {
        CoversKept(t, me.paths, q.paths);
      }
      procs := procs[p := q];
    }
  }

  lemma MapGrows(m: map<string, set<Perm>>, k: string, x: set<Perm>)
    ensures |m[k := x]| == if k in m then |m| else |m| + 1
  {
    assert m[k := x].Keys == m.Keys + {k};
  }

  lemma LookupInside(paths: seq<Unveil>, v: Vnode)
    ensures Lookup(paths, v) < |paths|
  {}

  function WithPerms(paths: seq<Unveil>, i: nat, directory: bool, name: string, flags: set<Perm>): seq<Unveil>
    requires i < |paths|
  {
    paths[i := if directory then paths[i].(flags := flags)
               else paths[i].(names := paths[i].names[name := flags])]
  }

  /** base is the list with an entry for vp, and i its position. */
  ghost predicate IsEntryFor(t: Tree, paths: seq<Unveil>, vp: Vnode, base: seq<Unveil>, i: nat)
    requires TreeOk(t)
  {
    if Lookup(paths, vp) >= 0 then base == paths && i == Lookup(paths, vp)
    else IsAddVnode(t, paths, vp, base) && i == |paths|
  }

  lemma AddedBy(t: Tree, paths: seq<Unveil>, vp: Vnode, directory: bool, name: string, flags: set<Perm>,
                base: seq<Unveil>, i: nat, r: seq<Unveil>)
    requires TreeOk(t) && i < |base| && IsEntryFor(t, paths, vp, base, i)
    requires r == WithPerms(base, i, directory, name, flags)
    ensures IsAdded(t, paths, vp, directory, name, flags, r)
  {}

  /** The list after a successful unveil_add: the entry of vp, old or new, has
      the new permissions, for itself or for one name in it. */
  ghost predicate IsAdded(t: Tree, paths: seq<Unveil>, vp: Vnode, directory: bool, name: string, flags: set<Perm>,
                          r: seq<Unveil>)
    requires TreeOk(t)
  {
    exists base: seq<Unveil>, i: nat ::
      i < |base| && IsEntryFor(t, paths, vp, base, i) && r == WithPerms(base, i, directory, name, flags)
  }

  lemma EntryHasVnode(t: Tree, paths: seq<Unveil>, vp: Vnode, base: seq<Unveil>, i: nat)
    requires TreeOk(t) && i < |base| && IsEntryFor(t, paths, vp, base, i)
    ensures base[i].vp == Some(vp)
  {}

  /** What the flags and names of vp were before: none of either without an entry. */
  function FlagsOf(paths: seq<Unveil>, vp: Vnode): set<Perm> {
    if Lookup(paths, vp) < 0 then {} else paths[Lookup(paths, vp)].flags
  }

  function NamesOf(paths: seq<Unveil>, vp: Vnode): map<string, set<Perm>> {
    if Lookup(paths, vp) < 0 then map[] else paths[Lookup(paths, vp)].names
  }

  /** After adding, the directory, or the name in it, has exactly the permissions given;
      nothing else that any directory has changes. */
  ghost predicate AddSays(
    a: seq<Unveil>, vp: Vnode, directory: bool, name: string, flags: set<Perm>, b: seq<Unveil>)
  {
    && Lookup(b, vp) >= 0
    && FlagsOf(b, vp) == (if directory then flags else FlagsOf(a, vp))
    && NamesOf(b, vp) == (if directory then NamesOf(a, vp) else NamesOf(a, vp)[name := flags])
    && forall v: Vnode :: v != vp ==>
         (Lookup(b, v) == Lookup(a, v)) && FlagsOf(b, v) == FlagsOf(a, v) && NamesOf(b, v) == NamesOf(a, v)
  }

  lemma EntrySays(t: Tree, paths: seq<Unveil>, vp: Vnode, base: seq<Unveil>, i: nat)
    requires TreeOk(t) && i < |base| && IsEntryFor(t, paths, vp, base, i)
    ensures Lookup(base, vp) == i && base[i].flags == FlagsOf(paths, vp) && base[i].names == NamesOf(paths, vp)
    ensures forall v: Vnode :: v != vp ==>
              Lookup(base, v) == Lookup(paths, v) && FlagsOf(base, v) == FlagsOf(paths, v)
              && NamesOf(base, v) == NamesOf(paths, v)
  {
    hide FindCover;
    if Lookup(paths, vp) < 0 {
      var e := NewEntry(t, paths, vp);
      assert (paths + [e])[..|paths|] == paths;
      assert SameVnodes(base, paths + [e]);
      LookupSame(base, paths + [e], vp);
      forall v: Vnode | v != vp
        ensures Lookup(base, v) == Lookup(paths, v)
      {
        LookupSame(base, paths + [e], v);
      }
    }
  }

  lemma AddMeans(t: Tree, paths: seq<Unveil>, vp: Vnode, directory: bool, name: string, flags: set<Perm>,
                 r: seq<Unveil>)
    requires TreeOk(t) && IsAdded(t, paths, vp, directory, name, flags, r)
    ensures AddSays(paths, vp, directory, name, flags, r)
  {
    hide Lookup, IsEntryFor;
    var base: seq<Unveil>, i: nat :|
      i < |base| && IsEntryFor(t, paths, vp, base, i) && r == WithPerms(base, i, directory, name, flags);
    EntrySays(t, paths, vp, base, i);
    LookupSame(r, base, vp);
    forall v: Vnode | v != vp
      ensures Lookup(r, v) == Lookup(base, v) && FlagsOf(r, v) == FlagsOf(base, v) && NamesOf(r, v) == NamesOf(base, v)
    {
      LookupSame(r, base, v);
    }
  }

  /** unveil_parsepermissions */
  method ParsePermissions(permissions: string) returns (r: Option<set<Perm>>)
    ensures r.None? <==> exists c :: c in permissions && c !in {'r', 'w', 'x', 'c'}
    ensures r.Some? ==>
              && (Read in r.value <==> 'r' in permissions) && (Write in r.value <==> 'w' in permissions)
              && (Exec in r.value <==> 'x' in permissions) && (Create in r.value <==> 'c' in permissions)
              && UserSet !in r.value
  {
    var perms: set<Perm> := {};
    for i := 0 to |permissions|
      invariant forall c :: c in permissions[..i] ==> c in {'r', 'w', 'x', 'c'}
      invariant Read in perms <==> 'r' in permissions[..i]
      invariant Write in perms <==> 'w' in permissions[..i]
      invariant Exec in perms <==> 'x' in permissions[..i]
      invariant Create in perms <==> 'c' in permissions[..i]
      invariant UserSet !in perms
    {
      assert permissions[..i + 1] == permissions[..i] + [permissions[i]];
      match permissions[i]
      case 'r' => perms := perms + {Read};
      case 'w' => perms := perms + {Write};
      case 'x' => perms := perms + {Exec};
      case 'c' => perms := perms + {Create};
      case _ =>
        assert permissions[i] in permissions;
        return None;
    }
    assert permissions[..|permissions|] == permissions;
    return Some(perms);
  }

  lemma AddedNames(t: Tree, paths: seq<Unveil>, vp: Vnode, directory: bool, name: string,
                   base: seq<Unveil>, i: nat)
    requires TreeOk(t) && i < |base| && IsEntryFor(t, paths, vp, base, i)
    ensures NewName(base[i], directory, name) == NewNames(paths, vp, directory, name)
  {}

  lemma AddVnodeLength(t: Tree, paths: seq<Unveil>, u: Vnode, r: seq<Unveil>)
    requires TreeOk(t) && IsAddVnode(t, paths, u, r)
    ensures |r| == |paths| + 1
  {}

  lemma AddKeepsCovers(t: Tree, paths: seq<Unveil>, u: Vnode, r: seq<Unveil>)
    requires TreeOk(t) && CoversOk(t, paths) && Lookup(paths, u) == -1
    requires SafeToAdd(t, paths, u) && IsAddVnode(t, paths, u, r)
    ensures CoversOk(t, r)
  {
    hide CoversAt, SafeToAdd, IsAddVnode, Lookup;
    var hs :| CoversAt(t, paths, hs);
    IncrementalEqualsRecomputed(t, paths, hs, u, r);
  }

  lemma CoversKept(t: Tree, a: seq<Unveil>, b: seq<Unveil>)
    requires TreeOk(t) && CoversOk(t, a) && SameVnodes(a, b)
    requires forall i :: 0 <= i < |a| ==> a[i].cover == b[i].cover && (a[i].vp.None? ==> a[i].flags == b[i].flags)
    ensures CoversOk(t, b)
  {
    hide FindCover, Live;
    var hs :| CoversAt(t, a, hs);
    assert Climbs(t, b, hs);
    forall i | 0 <= i < |b| && b[i].vp.Some?
      ensures Live(t, b, hs, b[i].cover) == FindCover(t, b, b[i].vp.value)
    {
      FindCoverSame(t, a, b, b[i].vp.value);
      LiveSame(t, a, hs, b, hs, b[i].cover);
    }
    assert CoversAt(t, b, hs);
  }

  lemma LookupRange(paths: seq<Unveil>, v: Vnode)
    ensures Lookup(paths, v) >= -1
  {}

  lemma SameVnodesSameCounts(a: seq<Unveil>, b: seq<Unveil>)
    requires SameVnodes(a, b)
    ensures forall v: Vnode :: InPaths(a, v) == InPaths(b, v)
  {
    if a != [] {
      SameVnodesSameCounts(a[..|a| - 1], b[..|b| - 1]);
    }
  }

  lemma {:induction false} SameNames(a: seq<Unveil>, b: seq<Unveil>)
    requires |a| == |b| && forall i :: 0 <= i < |a| ==> a[i].names == b[i].names
    ensures Names(a) == Names(b)
  {
    if a != [] {
      SameNames(a[..|a| - 1], b[..|b| - 1]);
    }
  }

  lemma AddedOk(before: Proc, after: Proc, u: Vnode, t: Tree)
    requires TreeOk(t) && ProcOk(before) && Lookup(before.paths, u) == -1
    requires after == before.(paths := after.paths) && IsAddVnode(t, before.paths, u, after.paths)
    ensures ProcOk(after)
  {
    hide FindCover, Names;
    SameNames(after.paths[..|before.paths|], before.paths);
    NamesAppend(after.paths[..|before.paths|], after.paths[|before.paths|]);
    assert after.paths == after.paths[..|before.paths|] + [after.paths[|before.paths|]];
  }

  lemma CountPositive(procs: seq<Proc>, uvcount: map<Vnode, int>, k: nat, v: Vnode)
    requires CountsOk(procs, uvcount) && k < |procs| && Lookup(procs[k].paths, v) >= 0
    ensures Count(uvcount, v) > 0
  {
    Found(procs[k].paths, v);
    PartOfAll(procs, k, v);
  }

  lemma ForgetsOnce(p: Proc, v: Vnode)
    requires Distinct(p.paths)
    ensures Lookup(Forgets(p, v).paths, v) == -1 && Distinct(Forgets(p, v).paths)
  {}

  /** The process after unveil_removevnode zapped its entry for v; its names stay
      until it exits. */
  function Forgets(p: Proc, v: Vnode): Proc {
    var i := Lookup(p.paths, v);
    if i >= 0 then p.(paths := Zap(p.paths, i)) else p
  }

  lemma NamesAppend(paths: seq<Unveil>, uv: Unveil)
    ensures Names(paths + [uv]) == Names(paths) + |uv.names|
  {
    assert (paths + [uv])[..|paths|] == paths;
  }

  lemma NobodyNames(procs: seq<Proc>, v: Vnode)
    requires InProcs(procs, v) == 0
    ensures forall k :: 0 <= k < |procs| ==> Lookup(procs[k].paths, v) == -1
  {
    forall k | 0 <= k < |procs|
      ensures Lookup(procs[k].paths, v) == -1
    {
      PartOfAll(procs, k, v);
      if Lookup(procs[k].paths, v) >= 0 {
        Found(procs[k].paths, v);
      }
    }
  }

  lemma ForgottenByAll(procs: seq<Proc>, v: Vnode)
    requires forall k :: 0 <= k < |procs| ==> Lookup(procs[k].paths, v) == -1
    ensures InProcs(procs, v) == 0
  {
    if procs != [] {
      ForgottenByAll(procs[..|procs| - 1], v);
      NotFound(procs[|procs| - 1].paths, v);
    }
  }

  lemma FirstIndex(paths: seq<Unveil>, i: nat, v: Vnode)
    requires i < |paths| && paths[i].vp == Some(v) && Lookup(paths[..i], v) == -1
    ensures Lookup(paths, v) == i
  {
    if i < |paths| - 1 {
      assert paths[..|paths| - 1][..i] == paths[..i];
      FirstIndex(paths[..|paths| - 1], i, v);
    }
  }

  lemma NoEntries()
    ensures Names([]) == 0 && forall v: Vnode :: InPaths([], v) == 0
  {}

  lemma CountsAfter(procs: seq<Proc>, p: nat, q: Proc, uvcount: map<Vnode, int>, uvcount': map<Vnode, int>)
    requires p < |procs| && CountsOk(procs, uvcount) && CountsOk(procs[p := q], uvcount')
    ensures forall v: Vnode ::
              Count(uvcount', v) == Count(uvcount, v) - InPaths(procs[p].paths, v) + InPaths(q.paths, v)
  {
    forall v: Vnode
      ensures Count(uvcount', v) == Count(uvcount, v) - InPaths(procs[p].paths, v) + InPaths(q.paths, v)
    {
      ProcsUpdate(procs, p, q, v);
    }
  }
}
