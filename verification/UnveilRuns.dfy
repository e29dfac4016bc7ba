/** unveil(2) over whole runs: any processes adding, forking and exiting, and vnodes
    revoked under them. */
module UnveilRuns {
  import opened Wrappers
  import opened UnveilCover
  import opened UnveilLoss
  import opened UnveilCounts

  datatype State = State(procs: seq<Proc>, uvcount: map<Vnode, int>)

  /** The tree may be another one every time: file systems come and go. */
  datatype Op =
    | Add(t: Tree, p: nat, vp: Vnode, directory: bool, name: string, perms: Option<set<Perm>>)
    | Copy(p: nat, c: nat)
    | Destroy(p: nat)
    | Remove(v: Vnode)

  ghost predicate Enabled(s: State, op: Op) {
    match op
    case Add(t, p, _, _, _, _) => TreeOk(t) && p < |s.procs|
    case Copy(p, c) => p < |s.procs| && c < |s.procs| && p != c && s.procs[c] == Proc([], 0)
    case Destroy(p) => p < |s.procs|
    case Remove(_) => true
  }

  /** A search from an entry without a vnode: what the kernel does not survive. */
  ghost predicate Panics(s: State, op: Op)
    requires Enabled(s, op)
  {
    op.Add? && op.perms.Some? && !IsFull(s.procs[op.p]) && !MayAdd(op.t, s.procs[op.p].paths, op.vp)
  }

  ghost predicate Step(s: State, op: Op, s': State)
    requires Enabled(s, op)
  {
    match op
    case Add(t, p, vp, directory, name, perms) =>
      if perms.None? || IsFull(s.procs[p]) then s' == s
      else StepAdd(t, s.procs, s.uvcount, p, vp, directory, name, perms.value, s'.procs, s'.uvcount)
    case Copy(p, c) => StepCopy(s.procs, s.uvcount, p, c, s'.procs, s'.uvcount)
    case Destroy(p) => StepDestroy(s.procs, s.uvcount, p, s'.procs, s'.uvcount)
    case Remove(v) => StepRemove(s.procs, s.uvcount, v, s'.procs, s'.uvcount)
  }

  /** No process has unveiled anything. */
  ghost predicate Start(s: State) {
    (forall k :: 0 <= k < |s.procs| ==> s.procs[k] == Proc([], 0)) && s.uvcount == map[]
  }

  ghost predicate IsRun(ss: seq<State>, ops: seq<Op>) {
    |ss| == |ops| + 1 && Start(ss[0])
    && forall i :: 0 <= i < |ops| ==>
         Enabled(ss[i], ops[i]) && !Panics(ss[i], ops[i]) && Step(ss[i], ops[i], ss[i + 1])
  }

  ghost predicate Ok(s: State) {
    Inv(s.procs, s.uvcount)
  }

  /** The assertions: unveil_lookup's on v_uvcount of what it finds, unveil_destroy's on
      ps_uvncount, unveil_removevnode's panic and its assertion on v_uvcount. */
  ghost predicate Asserted(s: State) {
    (forall k, v: Vnode :: 0 <= k < |s.procs| && Lookup(s.procs[k].paths, v) >= 0 ==> Count(s.uvcount, v) > 0)
    && (forall k :: 0 <= k < |s.procs| ==> s.procs[k].ncount - Names(s.procs[k].paths) == 0)
    && (forall v: Vnode :: Count(s.uvcount, v) - Holders(s.procs, v) == 0)
  }

  lemma OkIsAsserted(s: State)
    requires Ok(s)
    ensures Asserted(s)
  {
    hide Lookup, Names, Holders, InProcs;
    forall k, v: Vnode | 0 <= k < |s.procs| && Lookup(s.procs[k].paths, v) >= 0
      ensures Count(s.uvcount, v) > 0
    {
      CountPositive(s.procs, s.uvcount, k, v);
    }
    forall v: Vnode
      ensures Count(s.uvcount, v) - Holders(s.procs, v) == 0
    {
      HoldersCount(s.procs, v);
    }
  }

  lemma {:induction false} StartIsOk(s: State)
    requires Start(s)
    ensures Ok(s)
  {
    NoEntries();
    forall v: Vnode
      ensures Count(s.uvcount, v) == InProcs(s.procs, v)
    {
      NoneNamed(s.procs, v);
    }
  }

  lemma {:induction false} NoneNamed(procs: seq<Proc>, v: Vnode)
    requires forall k :: 0 <= k < |procs| ==> procs[k] == Proc([], 0)
    ensures InProcs(procs, v) == 0
  {
    if procs != [] {
      NoneNamed(procs[..|procs| - 1], v);
    }
  }

  // ----- steps

  lemma DestroyKeepsOk(s: State, p: nat, s': State)
    requires Ok(s) && p < |s.procs| && StepDestroy(s.procs, s.uvcount, p, s'.procs, s'.uvcount)
    ensures Ok(s')
  {
    hide InPaths, Names, InProcs;
    NoEntries();
    Recount(s.procs, s.uvcount, p, s'.procs[p], s'.uvcount);
  }

  lemma CopyKeepsOk(s: State, p: nat, c: nat, s': State)
    requires Ok(s) && Enabled(s, Copy(p, c)) && StepCopy(s.procs, s.uvcount, p, c, s'.procs, s'.uvcount)
    ensures Ok(s')
  {
    hide InPaths, Names, InProcs;
    NoEntries();
    Recount(s.procs, s.uvcount, c, s'.procs[c], s'.uvcount);
  }

  /** Forgetting v takes its entry and no other. */
  lemma ForgetCounts(p: Proc, v: Vnode, u: Vnode)
    requires Distinct(p.paths)
    ensures InPaths(Forgets(p, v).paths, u) == if u == v then 0 else InPaths(p.paths, u)
    ensures Names(Forgets(p, v).paths) == Names(p.paths)
  {
    hide InPaths, Names;
    var i := Lookup(p.paths, v);
    OneEntry(p.paths, v);
    if i >= 0 {
      PathsUpdate(p.paths, i, Forgets(p, v).paths[i], u);
      NamesUpdate(p.paths, i, Forgets(p, v).paths[i]);
    }
  }

  lemma {:induction false} ForgetAllCounts(procs: seq<Proc>, procs': seq<Proc>, v: Vnode, u: Vnode)
    requires |procs'| == |procs| && forall k :: 0 <= k < |procs| ==> procs'[k] == Forgets(procs[k], v)
    requires forall k :: 0 <= k < |procs| ==> Distinct(procs[k].paths)
    ensures InProcs(procs', u) == if u == v then 0 else InProcs(procs, u)
  {
    hide Forgets, Distinct;
    if procs != [] {
      var n := |procs| - 1;
      ForgetAllCounts(procs[..n], procs'[..n], v, u);
      ForgetCounts(procs[n], v, u);
    }
  }

  lemma RemoveKeepsOk(s: State, v: Vnode, s': State)
    requires Ok(s) && StepRemove(s.procs, s.uvcount, v, s'.procs, s'.uvcount)
    ensures Ok(s')
  {
    hide InPaths, Names, InProcs, Forgets, Holders;
    HoldersCount(s.procs, v);
    forall u: Vnode
      ensures Count(s'.uvcount, u) == InProcs(s'.procs, u)
    {
      ForgetAllCounts(s.procs, s'.procs, v, u);
    }
    forall k | 0 <= k < |s'.procs|
      ensures ProcOk(s'.procs[k])
    {
      ForgetCounts(s.procs[k], v, v);
      ForgetsOnce(s.procs[k], v);
      ForgetsKeepsCount(s.procs[k], v);
    }
  }

  lemma ForgetsKeepsCount(p: Proc, v: Vnode)
    ensures Forgets(p, v).ncount == p.ncount
  {}

  lemma AddKeepsOk(t: Tree, s: State, p: nat, vp: Vnode, directory: bool, name: string, flags: set<Perm>, s': State)
    requires Ok(s) && TreeOk(t) && p < |s.procs|
    requires StepAdd(t, s.procs, s.uvcount, p, vp, directory, name, flags, s'.procs, s'.uvcount)
    ensures Ok(s')
  {
    hide InPaths, Names, InProcs, IsAddVnode, Lookup, CountsOk;
    var paths := s.procs[p].paths;
    var base: seq<Unveil>, i: nat :| i < |base| && IsEntryFor(t, paths, vp, base, i)
                                     && s'.procs[p].paths == WithPerms(base, i, directory, name, flags);
    AddedNames(t, paths, vp, directory, name, base, i);
    EntryKeepsOk(t, s, p, vp, base, i);
    var mid := State(s.procs[p := s.procs[p].(paths := base)], Raised(s.uvcount, paths, vp));
    PermsKeepOk(mid, p, i, directory, name, flags, s'.procs[p]);
    assert s'.procs == mid.procs[p := s'.procs[p]];
  }

  lemma EntryKeepsOk(t: Tree, s: State, p: nat, vp: Vnode, base: seq<Unveil>, i: nat)
    requires Ok(s) && TreeOk(t) && p < |s.procs| && i < |base| && IsEntryFor(t, s.procs[p].paths, vp, base, i)
    ensures Ok(State(s.procs[p := s.procs[p].(paths := base)], Raised(s.uvcount, s.procs[p].paths, vp)))
  {
    hide InPaths, Names, InProcs, FindCover, CountsOk;
    var me := s.procs[p];
    if Lookup(me.paths, vp) >= 0 {
      assert s.procs[p := me.(paths := base)] == s.procs;
    } else {
      var e := NewEntry(t, me.paths, vp);
      var q := me.(paths := me.paths + [e]);
      LookupRange(me.paths, vp);
      AppendKeepsCounts(s.procs, s.uvcount, p, e, q, Raised(s.uvcount, me.paths, vp));
      assert SameVnodes(q.paths, base);
      SameVnodesSameCounts(q.paths, base);
      SameCounts(s.procs[p := q], Raised(s.uvcount, me.paths, vp), p, me.(paths := base));
      assert s.procs[p := q][p := me.(paths := base)] == s.procs[p := me.(paths := base)];
      AddedOk(me, me.(paths := base), vp, t);
    }
  }

  lemma PermsKeepOk(s: State, p: nat, i: nat, directory: bool, name: string, flags: set<Perm>, q: Proc)
    requires Ok(s) && p < |s.procs| && i < |s.procs[p].paths|
    requires q.paths == WithPerms(s.procs[p].paths, i, directory, name, flags)
    requires q.ncount == s.procs[p].ncount + NewName(s.procs[p].paths[i], directory, name)
    ensures Ok(State(s.procs[p := q], s.uvcount))
  {
    hide InPaths, Names, InProcs, CountsOk;
    var me := s.procs[p];
    MapGrows(me.paths[i].names, name, flags);
    NamesUpdate(me.paths, i, q.paths[i]);
    assert q.paths == me.paths[i := q.paths[i]];
    SameVnodesSameCounts(me.paths, q.paths);
    SameCounts(s.procs, s.uvcount, p, q);
  }

  lemma StepKeepsOk(s: State, op: Op, s': State)
    requires Ok(s) && Enabled(s, op) && Step(s, op, s')
    ensures Ok(s')
  {
    hide Ok, StepAdd, StepCopy, StepDestroy, StepRemove;
    match op
    case Add(t, p, vp, directory, name, perms) =>
      if perms.Some? && !IsFull(s.procs[p]) {
        AddKeepsOk(t, s, p, vp, directory, name, perms.value, s');
      }
    case Copy(p, c) => CopyKeepsOk(s, p, c, s');
    case Destroy(p) => DestroyKeepsOk(s, p, s');
    case Remove(v) => RemoveKeepsOk(s, v, s');
  }

  /** Conservation: in every run of all four operations v_uvcount is the number of
      entries naming the vnode, no process has two, ps_uvncount is the number of names
      stored, and no assertion fails, entries without a vnode or not. */
  lemma {:induction false} EveryRunConserves(ss: seq<State>, ops: seq<Op>, n: nat)
    requires IsRun(ss, ops) && n < |ss|
    ensures Ok(ss[n]) && Asserted(ss[n])
  {
    hide Ok, Asserted, Start, Step, Panics;
    if n == 0 {
      StartIsOk(ss[0]);
    } else {
      EveryRunConserves(ss, ops, n - 1);
      StepKeepsOk(ss[n - 1], ops[n - 1], ss[n]);
    }
    OkIsAsserted(ss[n]);
  }

  // ----- the covers, as long as directories stay where they are

  ghost predicate AllCovered(t: Tree, s: State)
    requires TreeOk(t)
  {
    forall k :: 0 <= k < |s.procs| ==> CoversOk(t, s.procs[k].paths)
  }

  lemma NoneCovered(t: Tree)
    requires TreeOk(t)
    ensures CoversOk(t, [])
  {
    assert CoversAt(t, [], []);
  }

  lemma ForgetKeepsCovers(t: Tree, p: Proc, v: Vnode)
    requires TreeOk(t) && CoversOk(t, p.paths)
    ensures CoversOk(t, Forgets(p, v).paths)
  {
    hide CoversAt, Zap;
    var i := Lookup(p.paths, v);
    if i >= 0 {
      var hs :| CoversAt(t, p.paths, hs);
      ZapKeepsCovers(t, p.paths, hs, i);
    }
  }

  lemma AddStepKeepsCovers(t: Tree, s: State, p: nat, vp: Vnode, directory: bool, name: string, flags: set<Perm>,
                           s': State)
    requires TreeOk(t) && p < |s.procs| && CoversOk(t, s.procs[p].paths) && MayAdd(t, s.procs[p].paths, vp)
    requires StepAdd(t, s.procs, s.uvcount, p, vp, directory, name, flags, s'.procs, s'.uvcount)
    ensures CoversOk(t, s'.procs[p].paths)
  {
    hide CoversOk, SafeToAdd, IsAddVnode, Lookup;
    var paths := s.procs[p].paths;
    var base: seq<Unveil>, i: nat :| i < |base| && IsEntryFor(t, paths, vp, base, i)
                                     && s'.procs[p].paths == WithPerms(base, i, directory, name, flags);
    LookupRange(paths, vp);
    if Lookup(paths, vp) < 0 {
      AddKeepsCovers(t, paths, vp, base);
    }
    EntryHasVnode(t, paths, vp, base, i);
    CoversKept(t, base, s'.procs[p].paths);
  }

  lemma StepKeepsCovers(t: Tree, s: State, op: Op, s': State)
    requires TreeOk(t) && AllCovered(t, s) && Enabled(s, op) && !Panics(s, op) && Step(s, op, s')
    requires op.Add? ==> op.t == t
    ensures AllCovered(t, s')
  {
    hide CoversOk, MayAdd, IsAdded, IsFull;
    match op
    case Add(_, p, vp, directory, name, perms) =>
      if perms.Some? && !IsFull(s.procs[p]) {
        AddStepKeepsCovers(t, s, p, vp, directory, name, perms.value, s');
      }
    case Copy(_, _) =>
    case Destroy(_) => NoneCovered(t);
    case Remove(v) =>
      forall k | 0 <= k < |s.procs|
        ensures CoversOk(t, s'.procs[k].paths)
      {
        ForgetKeepsCovers(t, s.procs[k], v);
      }
  }

  /** In every run over one tree, whatever vnodes are lost, the covers of every process
      lead to what a fresh search finds. */
  lemma {:induction false} EveryRunKeepsCovers(t: Tree, ss: seq<State>, ops: seq<Op>, n: nat)
    requires TreeOk(t) && IsRun(ss, ops) && n < |ss|
    requires forall i :: 0 <= i < |ops| && ops[i].Add? ==> ops[i].t == t
    ensures AllCovered(t, ss[n])
  {
    hide CoversOk, Step, Panics;
    if n == 0 {
      NoneCovered(t);
    } else {
      EveryRunKeepsCovers(t, ss, ops, n - 1);
      StepKeepsCovers(t, ss[n - 1], ops[n - 1], ss[n]);
    }
  }

  /** What the kernel does not survive is reachable: unveil a, lose it to an unmount,
      unveil any u. */
  lemma LossThenAddPanics(t: Tree, a: Vnode, t': Tree, u: Vnode, flags: set<Perm>)
    returns (ss: seq<State>, ops: seq<Op>)
    requires TreeOk(t) && TreeOk(t')
    ensures IsRun(ss, ops) && |ops| == 2 && ops[0].Add? && ops[1] == Remove(a)
    ensures var again := Add(t', 0, u, true, "", Some(flags));
            Enabled(ss[2], again) && Panics(ss[2], again)
  {
    var none := Proc([], 0);
    var e := Unveil(Some(a), -1, map[], {});
    var first := Add(t, 0, a, true, "", Some(flags));
    var s0 := State([none], map[]);
    var s1 := State([Proc([e.(flags := flags)], 0)], map[a := 1]);
    var s2 := State([Proc([Unveil(None, -1, map[], {})], 0)], map[a := 0]);
    ss, ops := [s0, s1, s2], [first, Remove(a)];
    LostFirstEntryBlocksAdding(t, a, map[], a);
    LostFirstEntryBlocksAdding(t', a, map[], u);
    FirstAdd(t, a, flags);
    assert s1.procs[..0] == [];
    assert Forgets(s1.procs[0], a) == s2.procs[0];
    assert Holders(s1.procs, a) == 1;
  }

  lemma FirstAdd(t: Tree, a: Vnode, flags: set<Perm>)
    requires TreeOk(t)
    ensures MayAdd(t, [], a)
    ensures StepAdd(t, [Proc([], 0)], map[], 0, a, true, "", flags,
                    [Proc([Unveil(Some(a), -1, map[], flags)], 0)], map[a := 1])
  {
    var base := [Unveil(Some(a), -1, map[], {})];
    LostFirstEntryBlocksAdding(t, a, map[], a);
    assert IsEntryFor(t, [], a, base, 0);
    assert WithPerms(base, 0, true, "", flags) == [Unveil(Some(a), -1, map[], flags)];
  }
}
