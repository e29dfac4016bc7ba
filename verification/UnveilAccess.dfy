/** Access decisions of unveil(2): the checks that namei makes on its way and at
    the end of a path, against a plain walk of the directory tree. */
module UnveilAccess {
  import opened Wrappers
  import opened UnveilCover
  import opened UnveilLoss

  datatype Verdict = Granted | EACCES | ENOENT

  /** unveil_flagmatch */
  predicate FlagMatch(need: set<Perm>, flags: set<Perm>) {
    flags != {} && need * {Read, Write, Exec, Create} <= flags
  }

  /** `flags & UNVEIL_USERSET`, for the mask that UNVEIL_USERSET stands for. */
  predicate IsUserSet(flags: set<Perm>, mask: set<Perm>) {
    flags * mask != {}
  }

  /** What is asked of every path: the permissions wanted and the user-set mask. */
  datatype Query = Query(need: set<Perm>, mask: set<Perm>)

  /** The reference: walk up the tree, directory by directory, to the first
      unveiled one that decides. */
  ghost function Decide(t: Tree, paths: seq<Unveil>, q: Query, v: Vnode): Verdict
    requires TreeOk(t)
    decreases t.depth(v)
  {
    var i := Lookup(paths, v);
    if i >= 0 && FlagMatch(q.need, paths[i].flags) then Granted
    else if i >= 0 && IsUserSet(paths[i].flags, q.mask) then EACCES
    else if v == t.root then ENOENT
    else Decide(t, paths, q, t.up(v))
  }

  /** The decision from the entry at position i on, or none. */
  ghost function DecideAt(t: Tree, paths: seq<Unveil>, q: Query, i: int): Verdict
    requires TreeOk(t) && -1 <= i < |paths| && (i >= 0 ==> paths[i].vp.Some?)
  {
    if i < 0 then ENOENT else Decide(t, paths, q, paths[i].vp.value)
  }

  // ----- what a decision says about permissions

  /** Every permission that is wanted is among the flags, and there is some flag. */
  predicate Allows(need: set<Perm>, flags: set<Perm>) {
    && flags != {}
    && (Read in need ==> Read in flags)
    && (Write in need ==> Write in flags)
    && (Exec in need ==> Exec in flags)
    && (Create in need ==> Create in flags)
  }

  lemma FlagMatchMeans(need: set<Perm>, flags: set<Perm>)
    ensures FlagMatch(need, flags) <==> Allows(need, flags)
  {
    if Allows(need, flags) {
      forall p | p in need * {Read, Write, Exec, Create}
        ensures p in flags
      {}
    }
  }

  lemma UserSetMeans(flags: set<Perm>, mask: set<Perm>)
    ensures IsUserSet(flags, mask) <==> !(flags !! mask)
  {
    if flags * mask == {} {
      forall p | p in flags
        ensures p !in mask
      {
        assert p !in flags * mask;
      }
    }
  }

  /** The entry of v, if it has one, has the flags fs. */
  ghost predicate Unveiled(paths: seq<Unveil>, v: Vnode, fs: set<Perm>) {
    exists i :: 0 <= i < |paths| && paths[i].vp == Some(v) && paths[i].flags == fs
                && Lookup(paths, v) == i
  }

  /** v has no entry, or one that neither allows what is asked nor was set by the user. */
  ghost predicate Passes(paths: seq<Unveil>, q: Query, v: Vnode) {
    forall fs :: Unveiled(paths, v, fs) ==> !Allows(q.need, fs) && fs !! q.mask
  }

  /** The k-th directory above v decides: those before it pass, and its flags allow what
      is asked, or do not although the user set some. */
  ghost predicate DecidesAt(t: Tree, paths: seq<Unveil>, q: Query, v: Vnode, k: nat, granted: bool) {
    && (forall j: nat :: j < k ==> Passes(paths, q, Above(t, v, j)))
    && exists fs :: Unveiled(paths, Above(t, v, k), fs)
                    && if granted then Allows(q.need, fs) else !Allows(q.need, fs) && !(fs !! q.mask)
  }

  /** r is granted, or refused by the user's own flags, exactly when the nearest directory
      at or above v that decides does so. */
  ghost predicate TreeSays(t: Tree, paths: seq<Unveil>, q: Query, v: Vnode, r: Verdict) {
    && (r == Granted <==> exists k: nat :: k <= t.depth(v) && DecidesAt(t, paths, q, v, k, true))
    && (r == EACCES <==> exists k: nat :: k <= t.depth(v) && DecidesAt(t, paths, q, v, k, false))
  }

  lemma UnveiledIs(paths: seq<Unveil>, v: Vnode, fs: set<Perm>)
    ensures Unveiled(paths, v, fs) <==> Lookup(paths, v) >= 0 && paths[Lookup(paths, v)].flags == fs
  {}

  lemma PassesIs(paths: seq<Unveil>, q: Query, v: Vnode)
    ensures var i := Lookup(paths, v);
            Passes(paths, q, v) <==>
            i < 0 || (!FlagMatch(q.need, paths[i].flags) && !IsUserSet(paths[i].flags, q.mask))
  {
    hide Unveiled, FlagMatch, Allows, Lookup;
    var i := Lookup(paths, v);
    forall fs
      ensures Unveiled(paths, v, fs) <==> i >= 0 && paths[i].flags == fs
    {
      UnveiledIs(paths, v, fs);
    }
    if i >= 0 {
      FlagMatchMeans(q.need, paths[i].flags);
      assert Unveiled(paths, v, paths[i].flags);
      UserSetMeans(paths[i].flags, q.mask);
    }
  }

  lemma FirstDecides(t: Tree, paths: seq<Unveil>, q: Query, v: Vnode, granted: bool)
    ensures var i := Lookup(paths, v);
            DecidesAt(t, paths, q, v, 0, granted) <==>
            i >= 0 && if granted then FlagMatch(q.need, paths[i].flags)
                      else !FlagMatch(q.need, paths[i].flags) && IsUserSet(paths[i].flags, q.mask)
  {
    hide Unveiled, FlagMatch, Allows, Lookup, Passes;
    var i := Lookup(paths, v);
    assert Above(t, v, 0) == v;
    forall fs
      ensures Unveiled(paths, v, fs) <==> i >= 0 && paths[i].flags == fs
    {
      UnveiledIs(paths, v, fs);
    }
    if i >= 0 {
      FlagMatchMeans(q.need, paths[i].flags);
      UserSetMeans(paths[i].flags, q.mask);
    }
  }

  lemma LaterDecides(t: Tree, paths: seq<Unveil>, q: Query, v: Vnode, k: nat, granted: bool)
    ensures DecidesAt(t, paths, q, v, k + 1, granted) <==>
              Passes(paths, q, v) && DecidesAt(t, paths, q, t.up(v), k, granted)
  {
    hide Unveiled, Allows, Passes;
    assert Above(t, v, 0) == v;
    AboveShift(t, v, k);
    if DecidesAt(t, paths, q, v, k + 1, granted) {
      forall j: nat | j < k
        ensures Passes(paths, q, Above(t, t.up(v), j))
      {
        AboveShift(t, v, j);
      }
      assert Passes(paths, q, Above(t, v, 0));
    }
    if Passes(paths, q, v) && DecidesAt(t, paths, q, t.up(v), k, granted) {
      forall j: nat | j < k + 1
        ensures Passes(paths, q, Above(t, v, j))
      {
        if j > 0 {
          AboveShift(t, v, j - 1);
        }
      }
    }
  }

  lemma DecidesSomewhere(t: Tree, paths: seq<Unveil>, q: Query, v: Vnode, granted: bool)
    requires TreeOk(t) && v != t.root
    ensures (exists k: nat :: k <= t.depth(v) && DecidesAt(t, paths, q, v, k, granted)) <==>
            (DecidesAt(t, paths, q, v, 0, granted)
             || (Passes(paths, q, v)
                 && exists k: nat :: k <= t.depth(t.up(v)) && DecidesAt(t, paths, q, t.up(v), k, granted)))
  {
    hide DecidesAt, Passes;
    if k: nat :| k <= t.depth(v) && DecidesAt(t, paths, q, v, k, granted) {
      if k > 0 {
        LaterDecides(t, paths, q, v, k - 1, granted);
      }
    }
    if Passes(paths, q, v) {
      if k: nat :| k <= t.depth(t.up(v)) && DecidesAt(t, paths, q, t.up(v), k, granted) {
        LaterDecides(t, paths, q, v, k, granted);
      }
    }
  }

  /** The walk decides as the nearest deciding directory does. */
  lemma {:induction false} DecideMeans(t: Tree, paths: seq<Unveil>, q: Query, v: Vnode)
    requires TreeOk(t)
    ensures TreeSays(t, paths, q, v, Decide(t, paths, q, v))
    decreases t.depth(v)
  {
    hide DecidesAt, Passes, FlagMatch, IsUserSet, Lookup;
    FirstDecides(t, paths, q, v, true);
    FirstDecides(t, paths, q, v, false);
    PassesIs(paths, q, v);
    if v != t.root {
      DecideMeans(t, paths, q, t.up(v));
      DecidesSomewhere(t, paths, q, v, true);
      DecidesSomewhere(t, paths, q, v, false);
    }
  }

  /** No entry and no name has permission p. */
  ghost predicate NowhereHas(paths: seq<Unveil>, p: Perm) {
    forall i :: 0 <= i < |paths| ==>
      p !in paths[i].flags && forall name :: name in paths[i].names ==> p !in paths[i].names[name]
  }

  lemma {:induction false} NotGranted(t: Tree, paths: seq<Unveil>, q: Query, v: Vnode, p: Perm)
    requires TreeOk(t) && NowhereHas(paths, p) && p in q.need && p != UserSet
    ensures Decide(t, paths, q, v) != Granted
    decreases t.depth(v)
  {
    var i := Lookup(paths, v);
    if i >= 0 {
      FlagMatchMeans(q.need, paths[i].flags);
    }
    if v != t.root {
      NotGranted(t, paths, q, t.up(v), p);
    }
  }

  /** Directories that are not unveiled decide nothing: the walk from v's parent
      and the jump to v's cover agree. */
  lemma {:induction false} JumpEqualsWalk(t: Tree, paths: seq<Unveil>, q: Query, v: Vnode)
    requires TreeOk(t) && v != t.root
    ensures FindCover(t, paths, v) >= 0 ==> paths[FindCover(t, paths, v)].vp.Some?
    ensures Decide(t, paths, q, t.up(v)) == DecideAt(t, paths, q, FindCover(t, paths, v))
    decreases t.depth(v)
  {
    var p := t.up(v);
    if Lookup(paths, p) < 0 && p != t.root {
      JumpEqualsWalk(t, paths, q, p);
    }
  }

  lemma LookupOwn(paths: seq<Unveil>, i: nat)
    requires Distinct(paths) && i < |paths| && paths[i].vp.Some?
    ensures Lookup(paths, paths[i].vp.value) == i
  {}

  /** unveil_covered; a zapped entry is asked about no vnode, which it has. */
  function Covered(t: Tree, paths: seq<Unveil>, i: int, dvp: Option<Vnode>): (r: int)
    requires -1 <= i < |paths| && (i >= 0 ==> -1 <= paths[i].cover < |paths|)
    ensures -1 <= r < |paths|
  {
    if i >= 0 && paths[i].vp == dvp then
      if dvp == Some(t.root) then i else paths[i].cover
    else
      i
  }

  /** The decision from entry i on, zapped or not. */
  ghost function DecideFrom(t: Tree, paths: seq<Unveil>, hs: seq<nat>, q: Query, i: int): Verdict
    requires TreeOk(t) && Climbs(t, paths, hs) && -1 <= i < |paths|
  {
    DecideAt(t, paths, q, Live(t, paths, hs, i))
  }

  /** What entry i contributes: it decides, ends the search at the root, or
      passes on to its cover, which is higher up. */
  lemma EntryStep(t: Tree, paths: seq<Unveil>, hs: seq<nat>, q: Query, i: nat)
    requires TreeOk(t) && CoversAt(t, paths, hs) && i < |paths|
    ensures FlagMatch(q.need, paths[i].flags) ==> DecideFrom(t, paths, hs, q, i) == Granted
    ensures !FlagMatch(q.need, paths[i].flags) && IsUserSet(paths[i].flags, q.mask) ==>
              DecideFrom(t, paths, hs, q, i) == EACCES
    ensures !FlagMatch(q.need, paths[i].flags) && !IsUserSet(paths[i].flags, q.mask) ==>
              DecideFrom(t, paths, hs, q, i) ==
              if paths[i].vp == Some(t.root) then ENOENT else DecideFrom(t, paths, hs, q, paths[i].cover)
  {
    hide FindCover, Lookup;
    if paths[i].vp.Some? {
      var v := paths[i].vp.value;
      LookupOwn(paths, i);
      if v != t.root {
        JumpEqualsWalk(t, paths, q, v);
      }
    }
  }

  /** The fallback loop of unveil_check_final. It follows uv_cover, which strictly
      climbs the tree, so it takes at most as many steps as there are entries,
      passes through zapped ones, and decides as the walk of the whole tree does. */
  method Fallback(t: Tree, paths: seq<Unveil>, ghost hs: seq<nat>, q: Query, start: int)
    returns (r: Verdict, steps: nat)
    requires TreeOk(t) && CoversAt(t, paths, hs) && -1 <= start < |paths|
    ensures r == DecideFrom(t, paths, hs, q, start)
    ensures steps <= |paths|
  {
    hide FindCover, Lookup, DecideFrom, CoversAt, FlagMatch, IsUserSet;
    assert Climbs(t, paths, hs) by { Climbing(t, paths, hs); }
    var uv := start;
    steps := 0;
    ghost var seen: set<int> := {};
    while uv >= 0
      invariant -1 <= uv < |paths|
      invariant DecideFrom(t, paths, hs, q, uv) == DecideFrom(t, paths, hs, q, start)
      invariant steps == |seen| <= |paths| && forall i :: i in seen ==> 0 <= i < |paths|
      invariant uv >= 0 ==> forall i :: i in seen ==> hs[uv] < hs[i]
      decreases if uv >= 0 then hs[uv] + 1 else 0
    {
      EntryStep(t, paths, hs, q, uv);
      if FlagMatch(q.need, paths[uv].flags) {
        return Granted, steps;
      }
      if IsUserSet(paths[uv].flags, q.mask) {
        return EACCES, steps;
      }
      seen := seen + {uv};
      Fits(seen, |paths|);
      steps := steps + 1;
      var nuv := Covered(t, paths, uv, paths[uv].vp);
      if nuv == uv {
        return ENOENT, steps;
      }
      uv := nuv;
    }
    assert DecideFrom(t, paths, hs, q, uv) == ENOENT by { NothingLeft(t, paths, hs, q); }
    return ENOENT, steps;
  }

  lemma Climbing(t: Tree, paths: seq<Unveil>, hs: seq<nat>)
    requires TreeOk(t) && CoversAt(t, paths, hs)
    ensures Climbs(t, paths, hs) && Distinct(paths)
  {}

  lemma NothingLeft(t: Tree, paths: seq<Unveil>, hs: seq<nat>, q: Query)
    requires TreeOk(t) && Climbs(t, paths, hs)
    ensures DecideFrom(t, paths, hs, q, -1) == ENOENT
  {}

  lemma Fits(seen: set<int>, n: nat)
    requires forall i :: i in seen ==> 0 <= i < n
    ensures |seen| <= n
  {
    if n > 0 {
      Fits(seen - {n - 1}, n - 1);
    } else {
      assert forall x: int :: x !in seen;
      assert seen == {};
    }
  }

  // ----- the end of a path

  /** What namei hands to unveil_check_final: the vnode found, if it is a
      directory, else the parent directory and the last name. */
  datatype Target = Directory(vp: Vnode) | Terminal(dvp: Vnode, name: string)

  /** unveil_check_final, with the fallback as a walk of the tree. */
  ghost function Final(t: Tree, paths: seq<Unveil>, hs: seq<nat>, q: Query, target: Target, match_: int): Verdict
    requires TreeOk(t) && Climbs(t, paths, hs) && -1 <= match_ < |paths|
  {
    match target
    case Directory(vp) =>
      var i := Lookup(paths, vp);
      if i < 0 then DecideFrom(t, paths, hs, q, match_)
      else if FlagMatch(q.need, paths[i].flags) then Granted
      else if IsUserSet(paths[i].flags, q.mask) then EACCES
      else ENOENT
    case Terminal(dvp, name) =>
      var i := Lookup(paths, dvp);
      if i < 0 then DecideFrom(t, paths, hs, q, match_)
      else if name in paths[i].names then
        if FlagMatch(q.need, paths[i].names[name]) then Granted else EACCES
      else Decide(t, paths, q, dvp)
  }

  /** From the match on: the nearest deciding directory at or above the one it leads to. */
  ghost predicate MatchSays(t: Tree, paths: seq<Unveil>, hs: seq<nat>, q: Query, match_: int, r: Verdict)
    requires TreeOk(t) && Climbs(t, paths, hs) && -1 <= match_ < |paths|
  {
    var c := Live(t, paths, hs, match_);
    if c < 0 then r == ENOENT else TreeSays(t, paths, q, paths[c].vp.value, r)
  }

  /** Whose flags decide: those of the directory asked for, those of the name, or those
      of the nearest directory that decides. */
  ghost predicate FinalSays(
    t: Tree, paths: seq<Unveil>, hs: seq<nat>, q: Query, target: Target, match_: int, r: Verdict)
    requires TreeOk(t) && Climbs(t, paths, hs) && -1 <= match_ < |paths|
  {
    match target
    case Directory(vp) =>
      var i := Lookup(paths, vp);
      if i < 0 then MatchSays(t, paths, hs, q, match_, r)
      else
        && (r == Granted <==> Allows(q.need, paths[i].flags))
        && (r == EACCES <==> !Allows(q.need, paths[i].flags) && !(paths[i].flags !! q.mask))
    case Terminal(dvp, name) =>
      var i := Lookup(paths, dvp);
      if i < 0 then MatchSays(t, paths, hs, q, match_, r)
      else if name in paths[i].names then
        r == if Allows(q.need, paths[i].names[name]) then Granted else EACCES
      else TreeSays(t, paths, q, dvp, r)
  }

  lemma MatchMeans(t: Tree, paths: seq<Unveil>, hs: seq<nat>, q: Query, match_: int)
    requires TreeOk(t) && Climbs(t, paths, hs) && -1 <= match_ < |paths|
    ensures MatchSays(t, paths, hs, q, match_, DecideFrom(t, paths, hs, q, match_))
  {
    hide TreeSays, Decide;
    var c := Live(t, paths, hs, match_);
    if c >= 0 {
      DecideMeans(t, paths, q, paths[c].vp.value);
    }
  }

  lemma FinalMeans(t: Tree, paths: seq<Unveil>, hs: seq<nat>, q: Query, target: Target, match_: int)
    requires TreeOk(t) && Climbs(t, paths, hs) && -1 <= match_ < |paths|
    ensures FinalSays(t, paths, hs, q, target, match_, Final(t, paths, hs, q, target, match_))
  {
    hide TreeSays, Decide, DecideFrom, MatchSays, FlagMatch, Allows, Lookup, Live, Climbs;
    var dir := if target.Directory? then target.vp else target.dvp;
    var i := Lookup(paths, dir);
    MatchMeans(t, paths, hs, q, match_);
    DecideMeans(t, paths, q, dir);
    if i >= 0 {
      FlagMatchMeans(q.need, paths[i].flags);
      UserSetMeans(paths[i].flags, q.mask);
      if target.Terminal? && target.name in paths[i].names {
        FlagMatchMeans(q.need, paths[i].names[target.name]);
      }
    }
  }

  /** What no entry and no name permits is granted to nobody. */
  lemma NothingFromNothing(t: Tree, paths: seq<Unveil>, hs: seq<nat>, q: Query, target: Target, match_: int, p: Perm)
    requires TreeOk(t) && Climbs(t, paths, hs) && -1 <= match_ < |paths|
    requires NowhereHas(paths, p) && p in q.need && p != UserSet
    ensures Final(t, paths, hs, q, target, match_) != Granted
  {
    hide Decide, FlagMatch, Lookup, Climbs;
    var dir := if target.Directory? then target.vp else target.dvp;
    var i := Lookup(paths, dir);
    NotGranted(t, paths, q, dir, p);
    var c := Live(t, paths, hs, match_);
    if c >= 0 {
      NotGranted(t, paths, q, paths[c].vp.value, p);
    }
    if i >= 0 {
      FlagMatchMeans(q.need, paths[i].flags);
      if target.Terminal? && target.name in paths[i].names {
        FlagMatchMeans(q.need, paths[i].names[target.name]);
      }
    }
  }

  /** unveil_check_final. `denied` is AUNVEIL, set on every refusal. */
  method CheckFinal(t: Tree, paths: seq<Unveil>, ghost hs: seq<nat>, q: Query, target: Target, match_: int)
    returns (r: Verdict, denied: bool)
    requires TreeOk(t) && CoversAt(t, paths, hs) && -1 <= match_ < |paths|
    ensures FinalSays(t, paths, hs, q, target, match_, r)
    ensures r == Final(t, paths, hs, q, target, match_)
    ensures denied <==> r != Granted
  {
    hide FindCover, FinalSays;
    FinalMeans(t, paths, hs, q, target, match_);
    var last := match_;
    match target {
      case Directory(vp) =>
        var i := Lookup(paths, vp);
        if i >= 0 {
          if !FlagMatch(q.need, paths[i].flags) {
            return if IsUserSet(paths[i].flags, q.mask) then EACCES else ENOENT, true;
          }
          return Granted, false;
        }
      case Terminal(dvp, name) =>
        var i := Lookup(paths, dvp);
        if i >= 0 {
          if name in paths[i].names {
            if !FlagMatch(q.need, paths[i].names[name]) {
              return EACCES, true;
            }
            return Granted, false;
          }
          if FlagMatch(q.need, paths[i].flags) {
            return Granted, false;
          }
          if IsUserSet(paths[i].flags, q.mask) {
            return EACCES, true;
          }
          last := i;
        }
    }
    var steps;
    r, steps := Fallback(t, paths, hs, q, last);
    denied := r != Granted;
  }

  // ----- the way along a path

  /** unveil_check_component, for the directory that a component is looked up in. */
  function CheckComponent(t: Tree, paths: seq<Unveil>, match_: int, dp: Vnode, dotdot: bool): (r: int)
    requires -1 <= match_ < |paths| && (match_ >= 0 ==> -1 <= paths[match_].cover < |paths|)
    ensures -1 <= r < |paths|
  {
    if dotdot then
      var uv := Covered(t, paths, match_, Some(dp));
      if uv >= 0 then uv
      else if match_ >= 0 && paths[match_].vp == Some(dp) then -1
      else match_
    else
      var uv := Lookup(paths, dp);
      if uv >= 0 then uv else match_
  }

  /** The nearest unveiled directory at or above d: what unveil_start_relative
      looks up. */
  ghost function NearestAt(t: Tree, paths: seq<Unveil>, d: Vnode): (i: int)
    requires TreeOk(t)
    ensures -1 <= i < |paths|
  {
    if Lookup(paths, d) >= 0 then Lookup(paths, d) else FindCover(t, paths, d)
  }

  datatype Move = Into(child: Vnode) | DotDot

  /** Where a walk of components leads. */
  ghost function Arrives(t: Tree, d: Vnode, moves: seq<Move>): Vnode {
    if moves == [] then d
    else
      var e := Arrives(t, d, moves[..|moves| - 1]);
      match moves[|moves| - 1]
      case Into(c) => c
      case DotDot => if e == t.root then e else t.up(e)
  }

  ghost predicate IsWalk(t: Tree, d: Vnode, moves: seq<Move>) {
    forall k :: 0 <= k < |moves| && moves[k].Into? ==>
      moves[k].child != t.root && t.up(moves[k].child) == Arrives(t, d, moves[..k])
  }

  /** ni_unveil_match after the walk. */
  ghost function MatchAfter(t: Tree, paths: seq<Unveil>, d: Vnode, m: int, moves: seq<Move>): (r: int)
    requires -1 <= m < |paths|
    requires forall i :: 0 <= i < |paths| ==> -1 <= paths[i].cover < |paths|
    ensures -1 <= r < |paths|
  {
    if moves == [] then m
    else CheckComponent(t, paths, MatchAfter(t, paths, d, m, moves[..|moves| - 1]),
                        Arrives(t, d, moves[..|moves| - 1]), moves[|moves| - 1].DotDot?)
  }

  /** At a directory, the match leads to the nearest unveiled one at or above it, or,
      before that directory itself was looked at, strictly above it. */
  ghost predicate Tracks(t: Tree, paths: seq<Unveil>, hs: seq<nat>, d: Vnode, m: int)
    requires TreeOk(t) && Climbs(t, paths, hs) && -1 <= m < |paths|
  {
    Live(t, paths, hs, m) == NearestAt(t, paths, d) || Live(t, paths, hs, m) == FindCover(t, paths, d)
  }

  /** A match that ".." clears when it should: ".." recognises the directory of an entry
      by its vnode, and a zapped entry has none. It does no harm if it leads nowhere, or
      to the root, which ".." does not leave. */
  ghost predicate Clears(t: Tree, paths: seq<Unveil>, hs: seq<nat>, m: int)
    requires Climbs(t, paths, hs) && -1 <= m < |paths|
  {
    var k := Live(t, paths, hs, m);
    k == m || k < 0 || paths[k].vp == Some(t.root)
  }

  /** So it is with the cover of every entry that has its vnode. */
  ghost predicate Settled(t: Tree, paths: seq<Unveil>, hs: seq<nat>)
    requires Climbs(t, paths, hs)
  {
    forall i :: 0 <= i < |paths| && paths[i].vp.Some? ==> Clears(t, paths, hs, paths[i].cover)
  }

  /** Where no entry hangs on a zapped one, as unmounts and additions leave it. */
  lemma NoneHangsSettled(t: Tree, paths: seq<Unveil>, hs: seq<nat>)
    requires Climbs(t, paths, hs) && NoneHangs(paths)
    ensures Settled(t, paths, hs)
  {}

  lemma LooksUp(t: Tree, paths: seq<Unveil>, hs: seq<nat>, d: Vnode, m: int)
    requires TreeOk(t) && CoversAt(t, paths, hs) && -1 <= m < |paths| && Tracks(t, paths, hs, d, m)
    ensures Live(t, paths, hs, CheckComponent(t, paths, m, d, false)) == NearestAt(t, paths, d)
    ensures Clears(t, paths, hs, m) ==> Clears(t, paths, hs, CheckComponent(t, paths, m, d, false))
  {}

  lemma StepsUp(t: Tree, paths: seq<Unveil>, hs: seq<nat>, d: Vnode, m: int)
    requires TreeOk(t) && CoversAt(t, paths, hs) && -1 <= m < |paths| && Tracks(t, paths, hs, d, m)
    requires Settled(t, paths, hs) && Clears(t, paths, hs, m)
    ensures var n := CheckComponent(t, paths, m, d, true);
            && Clears(t, paths, hs, n)
            && (Live(t, paths, hs, n) == NearestAt(t, paths, if d == t.root then d else t.up(d))
                || (d == t.root && n == m))
  {
    hide Lookup;
    if m >= 0 && paths[m].vp.Some? {
      LookupOwn(paths, m);
    }
    if FindCover(t, paths, d) >= 0 {
      CoverIsHigher(t, paths, d);
    }
  }

  /** On every walk, the match stays the nearest unveiled directory. */
  lemma {:induction false} MatchTracksWalk(
    t: Tree, paths: seq<Unveil>, hs: seq<nat>, d: Vnode, m: int, moves: seq<Move>)
    requires TreeOk(t) && CoversAt(t, paths, hs) && Settled(t, paths, hs) && -1 <= m < |paths|
    requires Tracks(t, paths, hs, d, m) && Clears(t, paths, hs, m) && IsWalk(t, d, moves)
    ensures Tracks(t, paths, hs, Arrives(t, d, moves), MatchAfter(t, paths, d, m, moves))
    ensures Clears(t, paths, hs, MatchAfter(t, paths, d, m, moves))
  {
    hide TreeOk, CoversAt, Lookup, Settled, Clears;
    Climbing(t, paths, hs);
    if moves != [] {
      var n := |moves| - 1;
      forall k | 0 <= k < n
        ensures moves[..n][..k] == moves[..k]
      {}
      MatchTracksWalk(t, paths, hs, d, m, moves[..n]);
      var e, m1 := Arrives(t, d, moves[..n]), MatchAfter(t, paths, d, m, moves[..n]);
      if moves[n].DotDot? {
        StepsUp(t, paths, hs, e, m1);
      } else {
        LooksUp(t, paths, hs, e, m1);
      }
    }
  }

  // ----- what a zapped cover does to the match

  function Ups(k: nat): seq<Move> {
    seq(k, _ => DotDot)
  }

  /** Steps up from an entry that hangs on a zapped one: the match becomes the zapped
      entry and stays it, however far up. */
  lemma {:induction false} MatchStays(t: Tree, paths: seq<Unveil>, hs: seq<nat>, i: nat, k: nat)
    requires TreeOk(t) && CoversAt(t, paths, hs) && i < |paths| && paths[i].vp.Some?
    requires paths[i].cover >= 0 && paths[paths[i].cover].vp.None? && 1 <= k <= t.depth(paths[i].vp.value)
    ensures var y := paths[i].vp.value;
            && MatchAfter(t, paths, y, i, Ups(k)) == paths[i].cover
            && t.depth(Arrives(t, y, Ups(k))) == t.depth(y) - k
  {
    hide FindCover, Lookup;
    var y := paths[i].vp.value;
    assert Ups(k)[..k - 1] == Ups(k - 1);
    if k > 1 {
      MatchStays(t, paths, hs, i, k - 1);
    }
  }

  /** Every match that starts right stays right on every walk. */
  ghost predicate AlwaysTracks(t: Tree, paths: seq<Unveil>, hs: seq<nat>)
    requires TreeOk(t) && Climbs(t, paths, hs)
  {
    forall d: Vnode, m, moves: seq<Move> ::
      -1 <= m < |paths| && Tracks(t, paths, hs, d, m) && Clears(t, paths, hs, m) && IsWalk(t, d, moves) ==>
        Tracks(t, paths, hs, Arrives(t, d, moves), MatchAfter(t, paths, d, m, moves))
  }

  lemma StraysUnlessClears(t: Tree, paths: seq<Unveil>, hs: seq<nat>, i: nat)
    requires TreeOk(t) && CoversAt(t, paths, hs) && AlwaysTracks(t, paths, hs)
    requires i < |paths| && paths[i].vp.Some?
    ensures Clears(t, paths, hs, paths[i].cover)
  {
    hide FindCover, Lookup;
    var y, k := paths[i].vp.value, Live(t, paths, hs, paths[i].cover);
    if !Clears(t, paths, hs, paths[i].cover) {
      LookupOwn(paths, i);
      CoverIsHigher(t, paths, y);
      var n := t.depth(y) - t.depth(paths[k].vp.value) + 1;
      MatchStays(t, paths, hs, i, n);
      var e := Arrives(t, y, Ups(n));
      assert Tracks(t, paths, hs, e, MatchAfter(t, paths, y, i, Ups(n))) by {
        assert IsWalk(t, y, Ups(n)) && Tracks(t, paths, hs, y, i) && Clears(t, paths, hs, i);
      }
      NearestNotLower(t, paths, e);
      assert false;
    }
  }

  lemma NearestNotLower(t: Tree, paths: seq<Unveil>, d: Vnode)
    requires TreeOk(t)
    ensures forall k :: 0 <= k < |paths| && (k == NearestAt(t, paths, d) || k == FindCover(t, paths, d)) ==>
              paths[k].vp.Some? && t.depth(paths[k].vp.value) <= t.depth(d)
  {
    if FindCover(t, paths, d) >= 0 {
      CoverIsHigher(t, paths, d);
    }
  }

  /** The match is the nearest unveiled directory on every walk if and only if no entry
      hangs on a zapped one below an unveiled directory other than the root. */
  lemma TracksEveryWalkIff(t: Tree, paths: seq<Unveil>, hs: seq<nat>)
    requires TreeOk(t) && CoversAt(t, paths, hs)
    ensures AlwaysTracks(t, paths, hs) <==> Settled(t, paths, hs)
  {
    hide CoversAt, Tracks, Clears, IsWalk, MatchAfter;
    Climbing(t, paths, hs);
    if Settled(t, paths, hs) {
      forall d: Vnode, m, moves: seq<Move> | -1 <= m < |paths| && Tracks(t, paths, hs, d, m)
                                             && Clears(t, paths, hs, m) && IsWalk(t, d, moves)
        ensures Tracks(t, paths, hs, Arrives(t, d, moves), MatchAfter(t, paths, d, m, moves))
      {
        MatchTracksWalk(t, paths, hs, d, m, moves);
      }
    }
    if AlwaysTracks(t, paths, hs) {
      forall i | 0 <= i < |paths| && paths[i].vp.Some?
        ensures Clears(t, paths, hs, paths[i].cover)
      {
        StraysUnlessClears(t, paths, hs, i);
      }
    }
  }

  // ----- whole lookups

  /** A lookup that starts with a right match, in a list where it stays right. */
  ghost predicate Starts(t: Tree, paths: seq<Unveil>, hs: seq<nat>, d: Vnode, m: int, moves: seq<Move>) {
    && TreeOk(t) && CoversAt(t, paths, hs) && Settled(t, paths, hs) && -1 <= m < |paths|
    && Tracks(t, paths, hs, d, m) && Clears(t, paths, hs, m) && IsWalk(t, d, moves)
  }

  /** The whole lookup: whatever path led to directory e, once its last component
      is checked, a name without an entry of its own is decided as a plain walk
      from e up the tree decides it. */
  lemma LookupDecidesAsTree(
    t: Tree, paths: seq<Unveil>, hs: seq<nat>, q: Query, d: Vnode, m: int, moves: seq<Move>, name: string)
    requires Starts(t, paths, hs, d, m, moves)
    requires Lookup(paths, Arrives(t, d, moves)) >= 0 ==> name !in paths[Lookup(paths, Arrives(t, d, moves))].names
    ensures var e := Arrives(t, d, moves);
            var last := CheckComponent(t, paths, MatchAfter(t, paths, d, m, moves), e, false);
            Final(t, paths, hs, q, Terminal(e, name), last) == Decide(t, paths, q, e)
  {
    hide Settled, Clears, IsWalk, FindCover, FlagMatch, IsUserSet;
    var e := Arrives(t, d, moves);
    MatchTracksWalk(t, paths, hs, d, m, moves);
    LooksUp(t, paths, hs, e, MatchAfter(t, paths, d, m, moves));
    DecideFromNearest(t, paths, q, e);
  }

  /** The entry of a directory settles what is asked of the directory itself, or there
      is nothing above it that would. */
  ghost predicate OwnEntrySettles(t: Tree, paths: seq<Unveil>, q: Query, vp: Vnode)
    requires TreeOk(t)
  {
    var i := Lookup(paths, vp);
    i < 0 || FlagMatch(q.need, paths[i].flags) || IsUserSet(paths[i].flags, q.mask)
    || vp == t.root || Decide(t, paths, q, t.up(vp)) == ENOENT
  }

  /** A path that ends in a directory is decided as the walk up the tree decides it
      exactly then: a directory that has an entry only for names in it is refused with
      ENOENT, whatever the directories above it grant. */
  lemma DirectoryDecidedAsTreeIff(
    t: Tree, paths: seq<Unveil>, hs: seq<nat>, q: Query, d: Vnode, m: int, moves: seq<Move>)
    requires Starts(t, paths, hs, d, m, moves)
    ensures var vp := Arrives(t, d, moves);
            Final(t, paths, hs, q, Directory(vp), MatchAfter(t, paths, d, m, moves)) == Decide(t, paths, q, vp)
            <==> OwnEntrySettles(t, paths, q, vp)
  {
    hide Settled, Clears, IsWalk, FindCover, FlagMatch, IsUserSet;
    MatchTracksWalk(t, paths, hs, d, m, moves);
    DecideFromNearest(t, paths, q, Arrives(t, d, moves));
  }

  lemma DecideFromNearest(t: Tree, paths: seq<Unveil>, q: Query, d: Vnode)
    requires TreeOk(t)
    ensures NearestAt(t, paths, d) >= 0 ==> paths[NearestAt(t, paths, d)].vp.Some?
    ensures Decide(t, paths, q, d) == DecideAt(t, paths, q, NearestAt(t, paths, d))
  {
    if Lookup(paths, d) < 0 && d != t.root {
      JumpEqualsWalk(t, paths, q, d);
    }
  }

  // ----- where the decision is not the walk's

  /** The tree in which every directory has one below it: /, /1, /1/2 and so on. */
  const LADDER := Tree(v => if v == 0 then 0 else v - 1, v => v, 0)

  /** One step of a search on it. */
  lemma LadderStep(paths: seq<Unveil>, v: Vnode)
    ensures TreeOk(LADDER)
    ensures FindCover(LADDER, paths, v) == if v == 0 then -1 else NearestAt(LADDER, paths, v - 1)
  {}

  /** /1 is unveiled for reading, and one name in /1/2. */
  const NAME_BELOW := [Unveil(Some(1), -1, map[], {Read, UserSet}), Unveil(Some(2), 0, map["x" := {Read}], {})]

  lemma NameBelowCovers()
    ensures TreeOk(LADDER) && CoversAt(LADDER, NAME_BELOW, [1, 2])
    ensures Lookup(NAME_BELOW, 1) == 0 && Lookup(NAME_BELOW, 2) == 1 && Settled(LADDER, NAME_BELOW, [1, 2])
  {
    hide Lookup, FindCover;
    LookupOwn(NAME_BELOW, 0);
    LookupOwn(NAME_BELOW, 1);
    assert Lookup(NAME_BELOW, 0) == -1;
    LadderStep(NAME_BELOW, 0);
    LadderStep(NAME_BELOW, 1);
    LadderStep(NAME_BELOW, 2);
  }

  /** /1/2 itself is refused on the way down from /1, although it lies in /1. */
  lemma DirectoryRefusedBelowGrant()
    ensures TreeOk(LADDER) && Starts(LADDER, NAME_BELOW, [1, 2], 1, 0, [Into(2)])
    ensures var q := Query({Read}, {UserSet});
            var m := MatchAfter(LADDER, NAME_BELOW, 1, 0, [Into(2)]);
            && Arrives(LADDER, 1, [Into(2)]) == 2
            && Final(LADDER, NAME_BELOW, [1, 2], q, Directory(2), m) == ENOENT
            && Decide(LADDER, NAME_BELOW, q, 2) == Granted
  {
    hide Lookup, FindCover, CoversAt, TreeOk, Settled;
    NameBelowCovers();
    assert [Into(2)][..0] == [];
    assert Decide(LADDER, NAME_BELOW, Query({Read}, {UserSet}), 1) == Granted;
  }

  /** /1 is unveiled for reading; /1/2, now without its vnode, and /1/2/3 were unveiled
      below it. */
  const HANGING := [
    Unveil(Some(1), -1, map[], {Read, UserSet}), Unveil(None, 0, map[], {}), Unveil(Some(3), 1, map[], {Read, UserSet})
  ]

  lemma HangingCovers()
    ensures TreeOk(LADDER) && CoversAt(LADDER, HANGING, [1, 2, 3])
    ensures Lookup(HANGING, 0) == -1 && Lookup(HANGING, 1) == 0 && Lookup(HANGING, 3) == 2
  {
    hide Lookup, FindCover;
    LookupOwn(HANGING, 0);
    LookupOwn(HANGING, 2);
    assert Lookup(HANGING, 0) == -1 && Lookup(HANGING, 2) == -1;
    LadderStep(HANGING, 0);
    LadderStep(HANGING, 1);
    LadderStep(HANGING, 2);
    LadderStep(HANGING, 3);
  }

  /** From /1/2/3 up to the root the match is still that of /1/2, which leads to /1, so
      a name in the root is decided as if it were in /1. */
  lemma StrayMatchDecides()
    ensures TreeOk(LADDER) && CoversAt(LADDER, HANGING, [1, 2, 3])
    ensures Tracks(LADDER, HANGING, [1, 2, 3], 3, 2) && Clears(LADDER, HANGING, [1, 2, 3], 2)
    ensures var q := Query({Read}, {UserSet});
            var last := CheckComponent(LADDER, HANGING, MatchAfter(LADDER, HANGING, 3, 2, Ups(3)), 0, false);
            && Arrives(LADDER, 3, Ups(3)) == 0
            && Final(LADDER, HANGING, [1, 2, 3], q, Terminal(0, "x"), last) == Granted
            && Decide(LADDER, HANGING, q, 0) == ENOENT
  {
    hide Lookup, FindCover, CoversAt, TreeOk, MatchAfter, Arrives;
    HangingCovers();
    MatchStays(LADDER, HANGING, [1, 2, 3], 2, 3);
  }
}
