/** Reference counting of open files while any number of threads open, duplicate,
    close, fork and exit at once. A step is what one thread does between two
    points where it holds no lock: one fd_getfile, one FRELE, or one region under
    the descriptor-table lock. */
module FdRefs {
  import opened Wrappers
  import opened FdTable

  /** Why a call took a reference with fd_getfile. */
  datatype Kind =
    | Plain               // to use the file and let it go
    | Dup(min: nat)       // dup (min is 0) and fcntl(F_DUPFD)
    | Dup2(to: nat)       // dup2, dup3

  /** Where a thread is, with the references it holds. */
  datatype Call =
    | Idle
    | Got(tab: nat, kind: Kind, f: FileId)
    | Opening(tab: nat, fd: nat, f: FileId)
    | Closing(f: FileId)
    | Releasing(f: FileId)
    | Freeing(slots: seq<Option<FileId>>, fd: nat, last: nat)
    | FreeClosing(slots: seq<Option<FileId>>, fd: nat, last: nat, f: FileId)
    | FreeReleasing(slots: seq<Option<FileId>>, fd: nat, last: nat, f: FileId)

  /** `count` holds f_count of every file that fdrop has not destroyed, and `inserted`
      the files that have FIF_INSERTED. */
  datatype Kernel = Kernel(tables: seq<Table>, count: map<FileId, nat>, calls: seq<Call>, inserted: set<FileId>)

  datatype Action =
    | GetFile(th: nat, tab: nat, fd: nat, kind: Kind)
    | GiveUp(th: nat)
    | Expand(tab: nat, nfiles: nat)
    | DupFinish(th: nat, fd: nat, t': Table)
    | DupTooMany(th: nat, fd: nat, t': Table)
    | Dup2Finish(th: nat)
    | Close(th: nat, tab: nat, fd: nat)
    | CloseDrop(th: nat)
    | Release(th: nat)
    | Open(th: nat, tab: nat, fd: nat, t': Table, f: FileId)
    | OpenNoFile(tab: nat, fd: nat, t': Table)
    | OpenInsert(th: nat)
    | OpenFail(th: nat)
    | Fork(tab: nat, drop: set<nat>, size: nat)
    | ExitStart(th: nat, tab: nat)
    | ExitNext(th: nat)

  // ----- how often a file is referred to

  function One(o: Option<FileId>, f: FileId): nat {
    if o == Some(f) then 1 else 0
  }

  function InSlots(s: seq<Option<FileId>>, f: FileId): nat {
    if s == [] then 0 else InSlots(s[..|s| - 1], f) + One(s[|s| - 1], f)
  }

  function InTables(ts: seq<Table>, f: FileId): nat {
    if ts == [] then 0 else InTables(ts[..|ts| - 1], f) + InSlots(ts[|ts| - 1].slots, f)
  }

  function Held(c: Call, f: FileId): nat {
    match c
    case Idle => 0
    case Got(_, _, g) => if g == f then 1 else 0
    case Opening(_, _, g) => if g == f then 2 else 0
    case Closing(g) => if g == f then 2 else 0
    case Releasing(g) => if g == f then 1 else 0
    case Freeing(s, _, _) => InSlots(s, f)
    case FreeClosing(s, _, _, g) => InSlots(s, f) + if g == f then 2 else 0
    case FreeReleasing(s, _, _, g) => InSlots(s, f) + if g == f then 1 else 0
  }

  function InCalls(cs: seq<Call>, f: FileId): nat {
    if cs == [] then 0 else InCalls(cs[..|cs| - 1], f) + Held(cs[|cs| - 1], f)
  }

  function Count(k: Kernel, f: FileId): nat {
    if f in k.count then k.count[f] else 0
  }

  // ----- the steps

  function Took(k: Kernel, f: FileId): Kernel {
    k.(count := k.count[f := Count(k, f) + 1])
  }

  /** FRELE: the last reference destroys the file (fdrop). */
  function Dropped(k: Kernel, f: FileId): Kernel
    requires Count(k, f) > 0
  {
    if k.count[f] == 1 then k.(count := k.count - {f})
    else k.(count := k.count[f := k.count[f] - 1])
  }

  function SetTable(k: Kernel, tab: nat, t: Table): Kernel
    requires tab < |k.tables|
  {
    k.(tables := k.tables[tab := t])
  }

  function SetCall(k: Kernel, th: nat, c: Call): Kernel
    requires th < |k.calls|
  {
    k.(calls := k.calls[th := c])
  }

  function SetSlot(t: Table, fd: nat, o: Option<FileId>): Table
    requires fd < |t.slots|
  {
    t.(slots := t.slots[fd := o])
  }

  predicate Refers(c: Call, tab: nat) {
    (c.Got? || c.Opening?) && c.tab == tab
  }

  ghost predicate Enabled(k: Kernel, a: Action) {
    match a
    case GetFile(th, tab, fd, kind) =>
      th < |k.calls| && k.calls[th] == Idle && tab < |k.tables|
    case GiveUp(th) =>
      th < |k.calls| && k.calls[th].Got?
    case Expand(tab, nfiles) =>
      tab < |k.tables| && 0 < |k.tables[tab].slots| <= nfiles
    case DupFinish(th, fd, t') =>
      th < |k.calls| && k.calls[th].Got? && k.calls[th].kind.Dup? && k.calls[th].tab < |k.tables|
      && Allocates(k.tables[k.calls[th].tab], k.calls[th].kind.min, fd, t')
    case DupTooMany(th, fd, t') =>
      th < |k.calls| && k.calls[th].Got? && k.calls[th].kind.Dup? && k.calls[th].tab < |k.tables|
      && Allocates(k.tables[k.calls[th].tab], k.calls[th].kind.min, fd, t')
    case Dup2Finish(th) =>
      th < |k.calls| && k.calls[th].Got? && k.calls[th].kind.Dup2? && k.calls[th].tab < |k.tables|
      && k.calls[th].kind.to < |k.tables[k.calls[th].tab].slots|
    case Close(th, tab, fd) =>
      th < |k.calls| && k.calls[th] == Idle && tab < |k.tables|
    case CloseDrop(th) =>
      th < |k.calls| && (k.calls[th].Closing? || k.calls[th].FreeClosing?)
    case Release(th) =>
      th < |k.calls| && (k.calls[th].Releasing? || k.calls[th].FreeReleasing?)
    case Open(th, tab, fd, t', f) =>
      th < |k.calls| && k.calls[th] == Idle && tab < |k.tables|
      && Allocates(k.tables[tab], 0, fd, t') && f !in k.count
    case OpenNoFile(tab, fd, t') =>
      tab < |k.tables| && Allocates(k.tables[tab], 0, fd, t')
    case OpenInsert(th) =>
      th < |k.calls| && k.calls[th].Opening?
    case OpenFail(th) =>
      th < |k.calls| && k.calls[th].Opening?
    case Fork(tab, drop, size) =>
      tab < |k.tables| && k.tables[tab].lastfile < |k.tables[tab].slots| && k.tables[tab].lastfile < size
    case ExitStart(th, tab) =>
      th < |k.calls| && k.calls[th] == Idle && tab < |k.tables|
      && forall i :: 0 <= i < |k.calls| ==> !Refers(k.calls[i], tab)
    case ExitNext(th) =>
      th < |k.calls| && k.calls[th].Freeing?
  }

  /** The assertions of the kernel that the step runs into: closef's count of at
      least 2, FRELE's live count, fdinsert's empty slot, finishdup's file that was
      inserted, fd_unused's descriptor up to the last one, and dodup3's descriptor that
      fdalloc can only have found where it was asked to. */
  ghost predicate NoPanic(k: Kernel, a: Action)
    requires Enabled(k, a)
  {
    match a
    case GiveUp(th) => k.calls[th].kind.Dup2? ==> k.calls[th].f in k.inserted && AllocatesItself(k, k.calls[th])
    case DupFinish(th, _, _) => k.calls[th].f in k.inserted
    case DupTooMany(th, _, _) => k.calls[th].f in k.inserted
    case Dup2Finish(th) => k.calls[th].f in k.inserted
    case Close(_, tab, fd) => InUse(k.tables[tab], fd) ==> fd <= k.tables[tab].lastfile
    case OpenNoFile(_, fd, t') => fd <= t'.lastfile
    case CloseDrop(th) => Count(k, k.calls[th].f) >= 2
    case Release(th) => Count(k, k.calls[th].f) >= 1
    case OpenInsert(th) => EmptyReserved(k, k.calls[th])
    case OpenFail(th) => EmptyReserved(k, k.calls[th]) && k.calls[th].fd <= k.tables[k.calls[th].tab].lastfile
    case _ => true
  }

  predicate InUse(t: Table, fd: nat) {
    fd < |t.slots| && t.slots[fd].Some?
  }

  /** dup2 to a descriptor outside the table: what fdalloc hands out is that one. */
  ghost predicate AllocatesItself(k: Kernel, c: Call)
    requires c.Got? && c.kind.Dup2?
  {
    c.tab < |k.tables| && |k.tables[c.tab].slots| <= c.kind.to ==>
      forall fd: nat, t': Table :: Allocates(k.tables[c.tab], c.kind.to, fd, t') ==> fd == c.kind.to
  }

  /** The descriptor an open reserved is still reserved and still empty. */
  ghost predicate EmptyReserved(k: Kernel, c: Call)
    requires c.Opening?
  {
    c.tab < |k.tables| && Reserved(k.tables[c.tab], c.fd)
  }

  predicate Reserved(t: Table, fd: nat) {
    fd in t.used && fd < |t.slots| && t.slots[fd].None?
  }

  ghost function Next(k: Kernel, a: Action): Kernel
    requires Enabled(k, a) && NoPanic(k, a)
  {
    match a
    case GetFile(th, tab, fd, kind) =>
      var t := k.tables[tab];
      if InUse(t, fd) then
        SetCall(Took(k, t.slots[fd].value), th, Got(tab, kind, t.slots[fd].value))
      else k
    case GiveUp(th) =>
      SetCall(k, th, Releasing(k.calls[th].f))
    case Expand(tab, nfiles) =>
      SetTable(k, tab, Grow(k.tables[tab], nfiles))
    case DupFinish(th, fd, t') =>
      SetCall(SetTable(k, k.calls[th].tab, SetSlot(t', fd, Some(k.calls[th].f))), th, Idle)
    case DupTooMany(th, fd, t') =>
      SetCall(SetTable(k, k.calls[th].tab, t'), th, Releasing(k.calls[th].f))
    case Dup2Finish(th) =>
      Dup2Next(k, th, k.calls[th].tab, k.calls[th].kind.to, k.calls[th].f)
    case Close(th, tab, fd) =>
      var t := k.tables[tab];
      if InUse(t, fd) then
        var f := t.slots[fd].value;
        SetCall(SetTable(Took(k, f), tab, Unuse(SetSlot(t, fd, None), fd)), th, Closing(f))
      else k
    case CloseDrop(th) =>
      var c := k.calls[th];
      SetCall(k.(count := k.count[c.f := k.count[c.f] - 1]), th,
              if c.Closing? then Releasing(c.f) else FreeReleasing(c.slots, c.fd, c.last, c.f))
    case Release(th) =>
      var c := k.calls[th];
      SetCall(Dropped(k, c.f), th,
              if c.Releasing? then Idle else Freeing(c.slots, c.fd + 1, c.last))
    case Open(th, tab, fd, t', f) =>
      SetCall(SetTable(k.(count := k.count[f := 2], inserted := k.inserted - {f}), tab, t'), th, Opening(tab, fd, f))
    case OpenNoFile(tab, fd, t') =>
      SetTable(k, tab, Unuse(t', fd))
    case OpenInsert(th) =>
      var c := k.calls[th];
      SetCall(SetTable(k.(inserted := k.inserted + {c.f}), c.tab, SetSlot(k.tables[c.tab], c.fd, Some(c.f))),
              th, Releasing(c.f))
    case OpenFail(th) =>
      var c := k.calls[th];
      SetCall(SetTable(k, c.tab, Unuse(SetSlot(k.tables[c.tab], c.fd, None), c.fd)), th, Closing(c.f))
    case Fork(tab, drop, size) =>
      var child := CopyUpTo(k.tables[tab], drop, size, k.tables[tab].lastfile + 1);
      k.(tables := k.tables + [child],
         count := map f | f in k.count :: k.count[f] + InSlots(child.slots, f))
    case ExitStart(th, tab) =>
      SetCall(SetTable(k, tab, Table({}, [], 0, 0, 0)), th, Freeing(k.tables[tab].slots, 0, k.tables[tab].lastfile))
    case ExitNext(th) =>
      var c := k.calls[th];
      if c.fd > c.last then
        SetCall(k, th, Idle)
      else if c.fd < |c.slots| && c.slots[c.fd].Some? then
        var f := c.slots[c.fd].value;
        SetCall(Took(k, f), th, FreeClosing(c.slots[c.fd := None], c.fd, c.last, f))
      else
        SetCall(k, th, Freeing(c.slots, c.fd + 1, c.last))
  }

  /** finishdup for dup2: replace an open file, take a free descriptor, or give
      up with EBUSY on a descriptor that an open has reserved. */
  function Dup2Next(k: Kernel, th: nat, tab: nat, to: nat, f: FileId): Kernel
    requires th < |k.calls| && tab < |k.tables| && to < |k.tables[tab].slots|
  {
    var t := k.tables[tab];
    match t.slots[to]
    case Some(g) =>
      SetCall(SetTable(Took(k, g), tab, SetSlot(t, to, Some(f))), th, Closing(g))
    case None =>
      if to in t.used then
        SetCall(k, th, Releasing(f))
      else
        SetCall(SetTable(k, tab, SetSlot(Use(t, to), to, Some(f))), th, Idle)
  }

  // ----- the invariant

  /** f_count is the number of slots that hold the file plus the references of
      calls in progress. */
  ghost predicate Balanced(k: Kernel) {
    && (forall f: FileId :: Count(k, f) == InTables(k.tables, f) + InCalls(k.calls, f))
    && (forall f :: f in k.count ==> k.count[f] > 0)
  }

  ghost predicate CallOk(k: Kernel, c: Call) {
    match c
    case Got(tab, _, _) => tab < |k.tables|
    case Opening(_, _, _) => EmptyReserved(k, c)
    case Freeing(s, fd, last) => Emptied(s, fd, last)
    case FreeClosing(s, fd, last, _) => Emptied(s, fd + 1, last)
    case FreeReleasing(s, fd, last, _) => Emptied(s, fd + 1, last)
    case _ => true
  }

  /** The slots outside [fd, last] hold nothing. */
  ghost predicate Emptied(s: seq<Option<FileId>>, fd: nat, last: nat) {
    forall i :: 0 <= i < |s| && (i < fd || last < i) ==> s[i].None?
  }

  ghost predicate DistinctOpens(k: Kernel) {
    forall i, j :: 0 <= i < j < |k.calls| && k.calls[i].Opening? && k.calls[j].Opening? ==>
      k.calls[i].tab != k.calls[j].tab || k.calls[i].fd != k.calls[j].fd
  }

  ghost predicate Shaped(k: Kernel) {
    && (forall i :: 0 <= i < |k.tables| ==> TableCore(k.tables[i]))
    && (forall i :: 0 <= i < |k.calls| ==> CallOk(k, k.calls[i]))
    && DistinctOpens(k)
  }

  ghost predicate SlotsIn(s: seq<Option<FileId>>, fs: set<FileId>) {
    forall i :: 0 <= i < |s| && s[i].Some? ==> s[i].value in fs
  }

  /** Files that a slot or fd_getfile can yield were inserted. */
  ghost predicate AllInserted(k: Kernel) {
    && (forall i :: 0 <= i < |k.tables| ==> SlotsIn(k.tables[i].slots, k.inserted))
    && (forall i :: 0 <= i < |k.calls| && k.calls[i].Got? ==> k.calls[i].f in k.inserted)
  }

  ghost predicate Inv(k: Kernel) {
    Balanced(k) && Shaped(k) && AllInserted(k)
  }

  // ----- how the sums change

  lemma SlotsUpdate(s: seq<Option<FileId>>, i: nat, o: Option<FileId>, f: FileId)
    requires i < |s|
    ensures InSlots(s[i := o], f) == InSlots(s, f) - One(s[i], f) + One(o, f)
  {
    var n := |s| - 1;
    if i < n {
      SlotsUpdate(s[..n], i, o, f);
      assert s[i := o][..n] == s[..n][i := o];
    } else {
      assert s[i := o][..n] == s[..n];
    }
  }

  lemma TablesUpdate(ts: seq<Table>, i: nat, t: Table, f: FileId)
    requires i < |ts|
    ensures InTables(ts[i := t], f) == InTables(ts, f) - InSlots(ts[i].slots, f) + InSlots(t.slots, f)
  {
    var n := |ts| - 1;
    if i < n {
      TablesUpdate(ts[..n], i, t, f);
      assert ts[i := t][..n] == ts[..n][i := t];
    } else {
      assert ts[i := t][..n] == ts[..n];
    }
  }

  lemma CallsUpdate(cs: seq<Call>, i: nat, c: Call, f: FileId)
    requires i < |cs|
    ensures InCalls(cs[i := c], f) == InCalls(cs, f) - Held(cs[i], f) + Held(c, f)
  {
    var n := |cs| - 1;
    if i < n {
      CallsUpdate(cs[..n], i, c, f);
      assert cs[i := c][..n] == cs[..n][i := c];
    } else {
      assert cs[i := c][..n] == cs[..n];
    }
  }

  lemma HeldCounts(k: Kernel, th: nat, f: FileId)
    requires Balanced(k) && th < |k.calls|
    ensures Held(k.calls[th], f) <= Count(k, f)
  {
    CallsUpdate(k.calls, th, Idle, f);
  }

  /** A step that changes one table, one call and the counts to match. */
  lemma Rebalance(k: Kernel, k': Kernel, tab: nat, t': Table, th: nat, c': Call)
    requires Balanced(k) && tab < |k.tables| && th < |k.calls|
    requires k'.tables == k.tables[tab := t'] && k'.calls == k.calls[th := c']
    requires forall f: FileId :: Count(k', f) - Count(k, f) ==
               InSlots(t'.slots, f) - InSlots(k.tables[tab].slots, f) + Held(c', f) - Held(k.calls[th], f)
    requires forall f :: f in k'.count ==> k'.count[f] > 0
    ensures Balanced(k')
  {
    forall f: FileId
      ensures Count(k', f) == InTables(k'.tables, f) + InCalls(k'.calls, f)
    {
      TablesUpdate(k.tables, tab, t', f);
      CallsUpdate(k.calls, th, c', f);
    }
  }

  lemma RebalanceCall(k: Kernel, k': Kernel, th: nat, c': Call)
    requires Balanced(k) && th < |k.calls|
    requires k'.tables == k.tables && k'.calls == k.calls[th := c']
    requires forall f: FileId :: Count(k', f) - Count(k, f) == Held(c', f) - Held(k.calls[th], f)
    requires forall f :: f in k'.count ==> k'.count[f] > 0
    ensures Balanced(k')
  {
    forall f: FileId
      ensures Count(k', f) == InTables(k'.tables, f) + InCalls(k'.calls, f)
    {
      CallsUpdate(k.calls, th, c', f);
    }
  }

  /** No assertion of the kernel fails in a state that satisfies the invariant. */
  lemma NeverPanics(k: Kernel, a: Action)
    requires Inv(k) && Enabled(k, a)
    ensures NoPanic(k, a)
  {
    hide Balanced, Held, Count;
    match a
    case CloseDrop(th) => HeldEnough(k, th);
    case Release(th) => HeldEnough(k, th);
    case OpenNoFile(tab, fd, t') => AllocKeepsInv(k.tables[tab], 0, fd, t');
    case _ =>
  }

  lemma HeldEnough(k: Kernel, th: nat)
    requires Balanced(k) && th < |k.calls|
    ensures k.calls[th].Closing? || k.calls[th].FreeClosing? ==> Count(k, k.calls[th].f) >= 2
    ensures k.calls[th].Releasing? || k.calls[th].FreeReleasing? ==> Count(k, k.calls[th].f) >= 1
  {
    if k.calls[th].Closing? || k.calls[th].FreeClosing? || k.calls[th].Releasing? || k.calls[th].FreeReleasing? {
      HeldCounts(k, th, k.calls[th].f);
    }
  }

  // ----- every step keeps the balance

  lemma GrowKeepsCounts(t: Table, nfiles: nat, f: FileId)
    requires |t.slots| <= nfiles
    ensures InSlots(Grow(t, nfiles).slots, f) == InSlots(t.slots, f)
    decreases nfiles
  {
    if |t.slots| < nfiles {
      GrowKeepsCounts(t, nfiles - 1, f);
      assert Grow(t, nfiles).slots[..nfiles - 1] == Grow(t, nfiles - 1).slots;
    } else {
      assert Grow(t, nfiles).slots == t.slots;
    }
  }

  lemma BalanceGetFile(k: Kernel, a: Action)
    requires Inv(k) && a.GetFile? && Enabled(k, a) && NoPanic(k, a)
    ensures Balanced(Next(k, a))
  {
    var t := k.tables[a.tab];
    if a.fd < |t.slots| && t.slots[a.fd].Some? {
      RebalanceCall(k, Next(k, a), a.th, Got(a.tab, a.kind, t.slots[a.fd].value));
    }
  }

  lemma BalanceGiveUp(k: Kernel, a: Action)
    requires Inv(k) && a.GiveUp? && Enabled(k, a) && NoPanic(k, a)
    ensures Balanced(Next(k, a))
  {
    RebalanceCall(k, Next(k, a), a.th, Releasing(k.calls[a.th].f));
  }

  lemma BalanceExpand(k: Kernel, a: Action)
    requires Inv(k) && a.Expand? && Enabled(k, a) && NoPanic(k, a)
    ensures Balanced(Next(k, a))
  {
    forall f: FileId
      ensures InTables(Next(k, a).tables, f) == InTables(k.tables, f)
    {
      TablesUpdate(k.tables, a.tab, Grow(k.tables[a.tab], a.nfiles), f);
      GrowKeepsCounts(k.tables[a.tab], a.nfiles, f);
    }
  }

  lemma BalanceDup(k: Kernel, a: Action)
    requires Inv(k) && a.DupFinish? && Enabled(k, a) && NoPanic(k, a)
    ensures Balanced(Next(k, a))
  {
    var c := k.calls[a.th];
    var t := k.tables[c.tab];
    AllocKeepsInv(t, c.kind.min, a.fd, a.t');
    forall f: FileId
      ensures InSlots(t.slots[a.fd := Some(c.f)], f) == InSlots(t.slots, f) + One(Some(c.f), f)
    {
      SlotsUpdate(t.slots, a.fd, Some(c.f), f);
    }
    Rebalance(k, Next(k, a), c.tab, SetSlot(a.t', a.fd, Some(c.f)), a.th, Idle);
  }

  lemma BalanceDupTooMany(k: Kernel, a: Action)
    requires Inv(k) && a.DupTooMany? && Enabled(k, a) && NoPanic(k, a)
    ensures Balanced(Next(k, a))
  {
    hide TableCore, Allocates, HintOk, InSlots, AllInserted;
    var c := k.calls[a.th];
    AllocKeepsInv(k.tables[c.tab], c.kind.min, a.fd, a.t');
    Rebalance(k, Next(k, a), c.tab, a.t', a.th, Releasing(c.f));
  }

  lemma SlotReplaced(t: Table, fd: nat, g: FileId)
    requires fd < |t.slots|
    ensures forall f: FileId :: InSlots(t.slots[fd := Some(g)], f) ==
              InSlots(t.slots, f) - One(t.slots[fd], f) + One(Some(g), f)
  {
    forall f: FileId
      ensures InSlots(t.slots[fd := Some(g)], f) == InSlots(t.slots, f) - One(t.slots[fd], f) + One(Some(g), f)
    {
      SlotsUpdate(t.slots, fd, Some(g), f);
    }
  }

  lemma BalanceDup2Replace(k: Kernel, th: nat, tab: nat, to: nat, f: FileId)
    requires Inv(k) && th < |k.calls| && tab < |k.tables| && to < |k.tables[tab].slots|
    requires k.calls[th].Got? && k.calls[th].f == f && k.tables[tab].slots[to].Some?
    ensures Balanced(Dup2Next(k, th, tab, to, f))
  {
    hide InSlots;
    var t := k.tables[tab];
    SlotReplaced(t, to, f);
    Rebalance(k, Dup2Next(k, th, tab, to, f), tab, SetSlot(t, to, Some(f)), th, Closing(t.slots[to].value));
  }

  lemma BalanceDup2(k: Kernel, a: Action)
    requires Inv(k) && a.Dup2Finish? && Enabled(k, a) && NoPanic(k, a)
    ensures Balanced(Next(k, a))
  {
    hide InSlots;
    var c := k.calls[a.th];
    var t, to := k.tables[c.tab], c.kind.to;
    SlotReplaced(t, to, c.f);
    if t.slots[to].Some? {
      BalanceDup2Replace(k, a.th, c.tab, to, c.f);
    } else if to in t.used {
      RebalanceCall(k, Next(k, a), a.th, Releasing(c.f));
    } else {
      Rebalance(k, Next(k, a), c.tab, SetSlot(Use(t, to), to, Some(c.f)), a.th, Idle);
    }
  }

  lemma BalanceClose(k: Kernel, a: Action)
    requires Inv(k) && a.Close? && Enabled(k, a) && NoPanic(k, a)
    ensures Balanced(Next(k, a))
  {
    var t := k.tables[a.tab];
    if a.fd < |t.slots| && t.slots[a.fd].Some? {
      var g := t.slots[a.fd].value;
      forall f: FileId
        ensures InSlots(t.slots[a.fd := None], f) == InSlots(t.slots, f) - One(Some(g), f)
      {
        SlotsUpdate(t.slots, a.fd, None, f);
      }
      Rebalance(k, Next(k, a), a.tab, Unuse(SetSlot(t, a.fd, None), a.fd), a.th, Closing(g));
    }
  }

  lemma BalanceDrop(k: Kernel, a: Action)
    requires Inv(k) && (a.CloseDrop? || a.Release?) && Enabled(k, a) && NoPanic(k, a)
    ensures Balanced(Next(k, a))
  {
    RebalanceCall(k, Next(k, a), a.th, Next(k, a).calls[a.th]);
  }

  lemma BalanceOpen(k: Kernel, a: Action)
    requires Inv(k) && a.Open? && Enabled(k, a) && NoPanic(k, a)
    ensures Balanced(Next(k, a))
  {
    AllocKeepsInv(k.tables[a.tab], 0, a.fd, a.t');
    Rebalance(k, Next(k, a), a.tab, a.t', a.th, Opening(a.tab, a.fd, a.f));
  }

  lemma BalanceOpenNoFile(k: Kernel, a: Action)
    requires Inv(k) && a.OpenNoFile? && Enabled(k, a) && NoPanic(k, a)
    ensures Balanced(Next(k, a))
  {
    hide TableCore, Allocates, HintOk;
    UnuseUndoesAlloc(k.tables[a.tab], 0, a.fd, a.t');
    forall f: FileId
      ensures InTables(Next(k, a).tables, f) == InTables(k.tables, f)
    {
      TablesUpdate(k.tables, a.tab, Unuse(a.t', a.fd), f);
    }
  }

  lemma BalanceOpenEnd(k: Kernel, a: Action)
    requires Inv(k) && (a.OpenInsert? || a.OpenFail?) && Enabled(k, a) && NoPanic(k, a)
    ensures Balanced(Next(k, a))
  {
    var c := k.calls[a.th];
    var t := k.tables[c.tab];
    if a.OpenInsert? {
      forall f: FileId
        ensures InSlots(t.slots[c.fd := Some(c.f)], f) == InSlots(t.slots, f) + One(Some(c.f), f)
      {
        SlotsUpdate(t.slots, c.fd, Some(c.f), f);
      }
      Rebalance(k, Next(k, a), c.tab, SetSlot(t, c.fd, Some(c.f)), a.th, Releasing(c.f));
    } else {
      assert t.slots[c.fd := None] == t.slots;
      Rebalance(k, Next(k, a), c.tab, Unuse(SetSlot(t, c.fd, None), c.fd), a.th, Closing(c.f));
    }
  }

  /** A file the child inherits is alive, so its count is there to raise. */
  lemma InheritedIsAlive(k: Kernel, tab: nat, drop: set<nat>, size: nat, n: nat, f: FileId)
    requires Inv(k) && tab < |k.tables| && n <= |k.tables[tab].slots| && n <= size
    ensures InSlots(CopyUpTo(k.tables[tab], drop, size, n).slots, f) > 0 ==> f in k.count
  {
    var s := CopyUpTo(k.tables[tab], drop, size, n).slots;
    CopyHolds(k.tables[tab], drop, size, n);
    if InSlots(s, f) > 0 {
      var i := SomeSlot(s, f);
      SlotsUpdate(k.tables[tab].slots, i, None, f);
      TablesUpdate(k.tables, tab, Table({}, [], 0, 0, 0), f);
    }
  }

  lemma SomeSlot(s: seq<Option<FileId>>, f: FileId) returns (i: nat)
    requires InSlots(s, f) > 0
    ensures i < |s| && s[i] == Some(f)
  {
    i := |s| - 1;
    if s[i] != Some(f) {
      i := SomeSlot(s[..i], f);
    }
  }

  lemma BalanceFork(k: Kernel, a: Action)
    requires Inv(k) && a.Fork? && Enabled(k, a) && NoPanic(k, a)
    ensures Balanced(Next(k, a))
  {
    var t := k.tables[a.tab];
    var child := CopyUpTo(t, a.drop, a.size, t.lastfile + 1);
    var k' := Next(k, a);
    forall f: FileId
      ensures Count(k', f) == InTables(k'.tables, f) + InCalls(k'.calls, f)
    {
      assert k'.tables[..|k.tables|] == k.tables;
      InheritedIsAlive(k, a.tab, a.drop, a.size, t.lastfile + 1, f);
    }
  }

  lemma BalanceExitStart(k: Kernel, a: Action)
    requires Inv(k) && a.ExitStart? && Enabled(k, a) && NoPanic(k, a)
    ensures Balanced(Next(k, a))
  {
    var t := k.tables[a.tab];
    Rebalance(k, Next(k, a), a.tab, Table({}, [], 0, 0, 0), a.th, Freeing(t.slots, 0, t.lastfile));
  }

  lemma NothingLeft(s: seq<Option<FileId>>, f: FileId)
    requires forall i :: 0 <= i < |s| ==> s[i].None?
    ensures InSlots(s, f) == 0
  {}

  lemma BalanceExitNext(k: Kernel, a: Action)
    requires Inv(k) && a.ExitNext? && Enabled(k, a) && NoPanic(k, a)
    ensures Balanced(Next(k, a))
  {
    var c := k.calls[a.th];
    assert CallOk(k, c);
    if c.fd > c.last {
      forall f: FileId
        ensures InSlots(c.slots, f) == 0
      {
        NothingLeft(c.slots, f);
      }
      RebalanceCall(k, Next(k, a), a.th, Idle);
    } else if c.fd < |c.slots| && c.slots[c.fd].Some? {
      var g := c.slots[c.fd].value;
      forall f: FileId
        ensures InSlots(c.slots[c.fd := None], f) == InSlots(c.slots, f) - One(Some(g), f)
      {
        SlotsUpdate(c.slots, c.fd, None, f);
      }
      RebalanceCall(k, Next(k, a), a.th, FreeClosing(c.slots[c.fd := None], c.fd, c.last, g));
    } else {
      RebalanceCall(k, Next(k, a), a.th, Freeing(c.slots, c.fd + 1, c.last));
    }
  }

  // ----- every step keeps the shape

  /** Table `tab` became t' and call `th` became c': the others keep their shape
      when t' still reserves, empty, what they reserved. */
  lemma Reshape(k: Kernel, k': Kernel, tab: nat, t': Table, th: nat, c': Call)
    requires Shaped(k) && tab < |k.tables| && th < |k.calls|
    requires k'.tables == k.tables[tab := t'] && k'.calls == k.calls[th := c']
    requires TableCore(t') && CallOk(k', c')
    requires forall i :: 0 <= i < |k.calls| && i != th && k.calls[i].Opening? && k.calls[i].tab == tab ==>
               EmptyReserved(k', k.calls[i])
    requires c'.Opening? ==> forall i :: 0 <= i < |k.calls| && i != th && k.calls[i].Opening? ==>
               k.calls[i].tab != c'.tab || k.calls[i].fd != c'.fd
    ensures Shaped(k')
  {
    forall i | 0 <= i < |k'.calls|
      ensures CallOk(k', k'.calls[i])
    {
      assert CallOk(k, k.calls[i]);
      if i != th && k.calls[i].Opening? && k.calls[i].tab != tab {
        assert k'.tables[k.calls[i].tab] == k.tables[k.calls[i].tab];
      }
    }
  }

  lemma ReshapeCall(k: Kernel, k': Kernel, th: nat, c': Call)
    requires Shaped(k) && th < |k.calls|
    requires k'.tables == k.tables && k'.calls == k.calls[th := c']
    requires CallOk(k', c') && !c'.Opening?
    ensures Shaped(k')
  {
    forall i | 0 <= i < |k'.calls|
      ensures CallOk(k', k'.calls[i])
    {
      assert CallOk(k, k.calls[i]);
    }
  }

  /** Opens in progress on a table that kept its reserved descriptors empty. */
  lemma StillReserved(k: Kernel, k': Kernel, tab: nat, t': Table, except: nat)
    requires Shaped(k) && tab < |k.tables| && k'.tables == k.tables[tab := t']
    requires |k.tables[tab].slots| <= |t'.slots|
    requires forall fd :: Reserved(k.tables[tab], fd) && fd != except ==> Reserved(t', fd)
    ensures forall i ::
              0 <= i < |k.calls| && k.calls[i].Opening? && k.calls[i].tab == tab && k.calls[i].fd != except ==>
              EmptyReserved(k', k.calls[i])
  {
    forall i | 0 <= i < |k.calls| && k.calls[i].Opening? && k.calls[i].tab == tab && k.calls[i].fd != except
      ensures EmptyReserved(k', k.calls[i])
    {
      assert CallOk(k, k.calls[i]);
    }
  }

  lemma ShapeCalls(k: Kernel, a: Action)
    requires Inv(k) && Enabled(k, a) && NoPanic(k, a)
    requires a.GetFile? || a.GiveUp? || a.CloseDrop? || a.Release?
    ensures Shaped(Next(k, a))
  {
    assert CallOk(k, k.calls[a.th]);
    if Next(k, a) != k {
      ReshapeCall(k, Next(k, a), a.th, Next(k, a).calls[a.th]);
    }
  }

  lemma ShapeExpand(k: Kernel, a: Action)
    requires Inv(k) && a.Expand? && Enabled(k, a) && NoPanic(k, a)
    ensures Shaped(Next(k, a))
  {
    var t := k.tables[a.tab];
    GrowKeepsInv(t, a.nfiles);
    ReshapeTable(k, Next(k, a), a.tab, Grow(t, a.nfiles));
  }

  lemma ReshapeTable(k: Kernel, k': Kernel, tab: nat, t': Table)
    requires Shaped(k) && tab < |k.tables|
    requires k' == k.(tables := k.tables[tab := t'])
    requires TableCore(t') && |k.tables[tab].slots| <= |t'.slots|
    requires forall fd :: Reserved(k.tables[tab], fd) ==> Reserved(t', fd)
    ensures Shaped(k')
  {
    StillReserved(k, k', tab, t', |k.tables[tab].slots|);
    forall i | 0 <= i < |k'.calls|
      ensures CallOk(k', k'.calls[i])
    {
      assert CallOk(k, k.calls[i]);
      if k.calls[i].Opening? && k.calls[i].tab != tab {
        assert k'.tables[k.calls[i].tab] == k.tables[k.calls[i].tab];
      }
    }
  }

  lemma ShapeDup(k: Kernel, a: Action)
    requires Inv(k) && (a.DupFinish? || a.DupTooMany?) && Enabled(k, a) && NoPanic(k, a)
    ensures Shaped(Next(k, a))
  {
    hide TableCore, HintOk, Take;
    var c := k.calls[a.th];
    var t := k.tables[c.tab];
    AllocKeepsInv(t, c.kind.min, a.fd, a.t');
    FilledCore(a.t', a.fd, c.f);
    var t' := if a.DupFinish? then SetSlot(a.t', a.fd, Some(c.f)) else a.t';
    StillReserved(k, Next(k, a), c.tab, t', |t.slots|);
    Reshape(k, Next(k, a), c.tab, t', a.th, Next(k, a).calls[a.th]);
  }

  lemma FilledCore(t: Table, fd: nat, f: FileId)
    requires TableCore(t) && fd in t.used && fd < |t.slots|
    ensures TableCore(SetSlot(t, fd, Some(f)))
  {}

  lemma ShapeDup2(k: Kernel, a: Action)
    requires Inv(k) && a.Dup2Finish? && Enabled(k, a) && NoPanic(k, a)
    ensures Shaped(Next(k, a))
  {
    var c := k.calls[a.th];
    var t, to := k.tables[c.tab], c.kind.to;
    if t.slots[to].None? && to in t.used {
      ReshapeCall(k, Next(k, a), a.th, Releasing(c.f));
    } else {
      if t.slots[to].None? {
        UseKeepsInv(t, to);
      }
      var t' := Next(k, a).tables[c.tab];
      StillReserved(k, Next(k, a), c.tab, t', |t.slots|);
      Reshape(k, Next(k, a), c.tab, t', a.th, Next(k, a).calls[a.th]);
    }
  }

  lemma UnuseKeepsCore(t: Table, fd: nat)
    requires TableCore(t) && fd in t.used && fd < |t.slots|
    ensures TableCore(Unuse(SetSlot(t, fd, None), fd))
  {
    assert t.used == t.used - {fd} + {fd};
  }

  lemma ShapeClose(k: Kernel, a: Action)
    requires Inv(k) && a.Close? && Enabled(k, a) && NoPanic(k, a)
    ensures Shaped(Next(k, a))
  {
    var t := k.tables[a.tab];
    if a.fd < |t.slots| && t.slots[a.fd].Some? {
      UnuseKeepsCore(t, a.fd);
      var t' := Unuse(SetSlot(t, a.fd, None), a.fd);
      StillReserved(k, Next(k, a), a.tab, t', |t.slots|);
      Reshape(k, Next(k, a), a.tab, t', a.th, Closing(t.slots[a.fd].value));
    }
  }

  lemma ShapeOpen(k: Kernel, a: Action)
    requires Inv(k) && a.Open? && Enabled(k, a) && NoPanic(k, a)
    ensures Shaped(Next(k, a))
  {
    var t := k.tables[a.tab];
    AllocKeepsInv(t, 0, a.fd, a.t');
    StillReserved(k, Next(k, a), a.tab, a.t', |t.slots|);
    forall i | 0 <= i < |k.calls| && k.calls[i].Opening? && k.calls[i].tab == a.tab
      ensures k.calls[i].fd != a.fd
    {
      assert CallOk(k, k.calls[i]);
    }
    Reshape(k, Next(k, a), a.tab, a.t', a.th, Opening(a.tab, a.fd, a.f));
  }

  lemma ShapeOpenNoFile(k: Kernel, a: Action)
    requires Inv(k) && a.OpenNoFile? && Enabled(k, a) && NoPanic(k, a)
    ensures Shaped(Next(k, a))
  {
    var t := k.tables[a.tab];
    UnuseUndoesAlloc(t, 0, a.fd, a.t');
    ReshapeTable(k, Next(k, a), a.tab, Unuse(a.t', a.fd));
  }

  lemma ShapeOpenEnd(k: Kernel, a: Action)
    requires Inv(k) && (a.OpenInsert? || a.OpenFail?) && Enabled(k, a) && NoPanic(k, a)
    ensures Shaped(Next(k, a))
  {
    var c := k.calls[a.th];
    var t := k.tables[c.tab];
    var t' := Next(k, a).tables[c.tab];
    if a.OpenFail? {
      UnuseKeepsCore(t, c.fd);
    }
    StillReserved(k, Next(k, a), c.tab, t', c.fd);
    Reshape(k, Next(k, a), c.tab, t', a.th, Next(k, a).calls[a.th]);
  }

  lemma ShapeFork(k: Kernel, a: Action)
    requires Inv(k) && a.Fork? && Enabled(k, a) && NoPanic(k, a)
    ensures Shaped(Next(k, a))
  {
    var t := k.tables[a.tab];
    CopyKeepsCore(t, a.drop, a.size, t.lastfile + 1);
    forall i | 0 <= i < |k.calls|
      ensures CallOk(Next(k, a), k.calls[i])
    {
      assert CallOk(k, k.calls[i]);
    }
  }

  lemma ShapeExitStart(k: Kernel, a: Action)
    requires Inv(k) && a.ExitStart? && Enabled(k, a) && NoPanic(k, a)
    ensures Shaped(Next(k, a))
  {
    var t := k.tables[a.tab];
    Reshape(k, Next(k, a), a.tab, Table({}, [], 0, 0, 0), a.th, Freeing(t.slots, 0, t.lastfile));
  }

  lemma ShapeExitNext(k: Kernel, a: Action)
    requires Inv(k) && a.ExitNext? && Enabled(k, a) && NoPanic(k, a)
    ensures Shaped(Next(k, a))
  {
    assert CallOk(k, k.calls[a.th]);
    ReshapeCall(k, Next(k, a), a.th, Next(k, a).calls[a.th]);
  }

  // ----- main results

  lemma BalanceKept(k: Kernel, a: Action)
    requires Inv(k) && Enabled(k, a) && NoPanic(k, a)
    ensures Balanced(Next(k, a))
  {
    hide Next, Balanced, Shaped, Enabled, NoPanic;
    match a
    case GetFile(_, _, _, _) => BalanceGetFile(k, a);
    case GiveUp(_) => BalanceGiveUp(k, a);
    case Expand(_, _) => BalanceExpand(k, a);
    case DupFinish(_, _, _) => BalanceDup(k, a);
    case DupTooMany(_, _, _) => BalanceDupTooMany(k, a);
    case Dup2Finish(_) => BalanceDup2(k, a);
    case Close(_, _, _) => BalanceClose(k, a);
    case CloseDrop(_) => BalanceDrop(k, a);
    case Release(_) => BalanceDrop(k, a);
    case Open(_, _, _, _, _) => BalanceOpen(k, a);
    case OpenNoFile(_, _, _) => BalanceOpenNoFile(k, a);
    case OpenInsert(_) => BalanceOpenEnd(k, a);
    case OpenFail(_) => BalanceOpenEnd(k, a);
    case Fork(_, _, _) => BalanceFork(k, a);
    case ExitStart(_, _) => BalanceExitStart(k, a);
    case ExitNext(_) => BalanceExitNext(k, a);
  }

  lemma ShapeKept(k: Kernel, a: Action)
    requires Inv(k) && Enabled(k, a) && NoPanic(k, a)
    ensures Shaped(Next(k, a))
  {
    hide Next, Balanced, Shaped, Enabled, NoPanic;
    match a
    case GetFile(_, _, _, _) => ShapeCalls(k, a);
    case GiveUp(_) => ShapeCalls(k, a);
    case Expand(_, _) => ShapeExpand(k, a);
    case DupFinish(_, _, _) => ShapeDup(k, a);
    case DupTooMany(_, _, _) => ShapeDup(k, a);
    case Dup2Finish(_) => ShapeDup2(k, a);
    case Close(_, _, _) => ShapeClose(k, a);
    case CloseDrop(_) => ShapeCalls(k, a);
    case Release(_) => ShapeCalls(k, a);
    case Open(_, _, _, _, _) => ShapeOpen(k, a);
    case OpenNoFile(_, _, _) => ShapeOpenNoFile(k, a);
    case OpenInsert(_) => ShapeOpenEnd(k, a);
    case OpenFail(_) => ShapeOpenEnd(k, a);
    case Fork(_, _, _) => ShapeFork(k, a);
    case ExitStart(_, _) => ShapeExitStart(k, a);
    case ExitNext(_) => ShapeExitNext(k, a);
  }

  /** A file that is not there is in no slot and with no call. */
  lemma NewIsNowhere(k: Kernel, f: FileId)
    requires Balanced(k) && f !in k.count
    ensures forall i, fd :: 0 <= i < |k.tables| && 0 <= fd < |k.tables[i].slots| ==> k.tables[i].slots[fd] != Some(f)
    ensures forall i :: 0 <= i < |k.calls| && k.calls[i].Got? ==> k.calls[i].f != f
  {
    forall i, fd | 0 <= i < |k.tables| && 0 <= fd < |k.tables[i].slots|
      ensures k.tables[i].slots[fd] != Some(f)
    {
      TablesUpdate(k.tables, i, k.tables[i].(slots := []), f);
      SlotsUpdate(k.tables[i].slots, fd, None, f);
    }
    forall i | 0 <= i < |k.calls| && k.calls[i].Got?
      ensures k.calls[i].f != f
    {
      HeldCounts(k, i, f);
    }
  }

  lemma InsertedAlloc(k: Kernel, a: Action)
    requires Inv(k) && Enabled(k, a) && NoPanic(k, a)
    requires a.DupFinish? || a.DupTooMany? || a.Open? || a.OpenNoFile?
    ensures AllInserted(Next(k, a))
  {
    hide Balanced, TableCore, HintOk, Unuse, Take, Allocates;
    match a
    case DupFinish(th, fd, t') => AllocKeepsInv(k.tables[k.calls[th].tab], k.calls[th].kind.min, fd, t');
    case DupTooMany(th, fd, t') => AllocKeepsInv(k.tables[k.calls[th].tab], k.calls[th].kind.min, fd, t');
    case Open(_, tab, fd, t', f) =>
      AllocKeepsInv(k.tables[tab], 0, fd, t');
      NewIsNowhere(k, f);
    case OpenNoFile(tab, fd, t') =>
      AllocKeepsInv(k.tables[tab], 0, fd, t');
      assert Unuse(t', fd).slots == t'.slots by { UnuseSlots(t', fd); }
  }

  lemma UnuseSlots(t: Table, fd: nat)
    ensures Unuse(t, fd).slots == t.slots
  {}

  lemma InsertedFork(k: Kernel, a: Action)
    requires Inv(k) && a.Fork? && Enabled(k, a) && NoPanic(k, a)
    ensures AllInserted(Next(k, a))
  {
    hide Balanced, TableCore, CopyUpTo;
    var p := k.tables[a.tab];
    CopyHolds(p, a.drop, a.size, p.lastfile + 1);
    assert SlotsIn(p.slots, k.inserted);
  }

  lemma InsertedSlots(k: Kernel, a: Action)
    requires Inv(k) && Enabled(k, a) && NoPanic(k, a)
    requires a.Expand? || a.Dup2Finish? || a.ExitStart?
    ensures AllInserted(Next(k, a))
  {
    hide Balanced, TableCore, Allocates, InSlots;
  }

  lemma InsertedEnds(k: Kernel, a: Action)
    requires Inv(k) && Enabled(k, a) && NoPanic(k, a)
    requires a.Close? || a.OpenInsert? || a.OpenFail?
    ensures AllInserted(Next(k, a))
  {
    hide Balanced, TableCore, Allocates, InSlots;
  }

  lemma InsertedCalls(k: Kernel, a: Action)
    requires Inv(k) && Enabled(k, a) && NoPanic(k, a)
    requires a.GetFile? || a.GiveUp? || a.CloseDrop? || a.Release? || a.ExitNext?
    ensures AllInserted(Next(k, a))
  {
    hide Balanced, TableCore, Allocates, InSlots;
  }

  lemma InsertedKept(k: Kernel, a: Action)
    requires Inv(k) && Enabled(k, a) && NoPanic(k, a)
    ensures AllInserted(Next(k, a))
  {
    hide Inv, Next, Enabled, NoPanic;
    if a.Fork? {
      InsertedFork(k, a);
    } else if a.DupFinish? || a.DupTooMany? || a.Open? || a.OpenNoFile? {
      InsertedAlloc(k, a);
    } else if a.GetFile? || a.GiveUp? || a.CloseDrop? || a.Release? || a.ExitNext? {
      InsertedCalls(k, a);
    } else if a.Close? || a.OpenInsert? || a.OpenFail? {
      InsertedEnds(k, a);
    } else {
      InsertedSlots(k, a);
    }
  }

  /** Every step of every thread keeps the invariant and trips no assertion. */
  lemma StepKeepsInv(k: Kernel, a: Action)
    requires Inv(k) && Enabled(k, a)
    ensures NoPanic(k, a)
    ensures Inv(Next(k, a))
  {
    hide Next, Balanced, Shaped, AllInserted, Enabled, NoPanic;
    NeverPanics(k, a);
    BalanceKept(k, a);
    ShapeKept(k, a);
    InsertedKept(k, a);
  }

  /** No file is open yet, and no call is in progress. */
  ghost predicate Start(k: Kernel) {
    && (forall i :: 0 <= i < |k.tables| ==>
          k.tables[i] == Table({}, seq(|k.tables[i].slots|, _ => None), 0, 0, 0))
    && k.count == map[]
    && (forall i :: 0 <= i < |k.calls| ==> k.calls[i] == Idle)
  }

  /** A run that no panic has stopped. */
  ghost predicate IsRun(ks: seq<Kernel>, acts: seq<Action>) {
    && |ks| == |acts| + 1
    && Start(ks[0])
    && forall i :: 0 <= i < |acts| ==>
         Enabled(ks[i], acts[i]) && NoPanic(ks[i], acts[i]) && ks[i + 1] == Next(ks[i], acts[i])
  }

  lemma StartInv(k: Kernel)
    requires Start(k)
    ensures Inv(k)
  {
    forall f: FileId
      ensures InTables(k.tables, f) + InCalls(k.calls, f) == 0
    {
      NoTableRefs(k.tables, f);
      NoCallRefs(k.calls, f);
    }
  }

  lemma NoTableRefs(ts: seq<Table>, f: FileId)
    requires forall i :: 0 <= i < |ts| ==> ts[i] == Table({}, seq(|ts[i].slots|, _ => None), 0, 0, 0)
    ensures InTables(ts, f) == 0
  {
    if ts != [] {
      NoTableRefs(ts[..|ts| - 1], f);
      NothingLeft(ts[|ts| - 1].slots, f);
    }
  }

  lemma NoCallRefs(cs: seq<Call>, f: FileId)
    requires forall i :: 0 <= i < |cs| ==> cs[i] == Idle
    ensures InCalls(cs, f) == 0
  {}

  /** Over every interleaving: f_count equals the slots holding the file plus the
      references of calls in progress, and whatever step comes next, no assertion of
      the kernel fails. */
  lemma {:induction false} EveryRunIsSafe(ks: seq<Kernel>, acts: seq<Action>, n: nat)
    requires IsRun(ks, acts) && n < |ks|
    ensures Inv(ks[n])
    ensures forall a :: Enabled(ks[n], a) ==> NoPanic(ks[n], a)
  {
    if n == 0 {
      StartInv(ks[0]);
    } else {
      EveryRunIsSafe(ks, acts, n - 1);
      StepKeepsInv(ks[n - 1], acts[n - 1]);
    }
    forall a | Enabled(ks[n], a)
      ensures NoPanic(ks[n], a)
    {
      NeverPanics(ks[n], a);
    }
  }

  /** fdrop destroys a file exactly when neither a slot nor a call refers to it
      any more; no other step destroys a file. */
  lemma DestroyedExactlyWhenUnreferenced(k: Kernel, a: Action, f: FileId)
    requires Inv(k) && Enabled(k, a) && f in k.count
    ensures NoPanic(k, a)
    ensures f !in Next(k, a).count <==>
            InTables(Next(k, a).tables, f) == 0 && InCalls(Next(k, a).calls, f) == 0
    ensures f !in Next(k, a).count ==> a.Release? && k.calls[a.th].f == f
  {
    StepKeepsInv(k, a);
    var k' := Next(k, a);
    assert Balanced(k');
    assert Count(k', f) == InTables(k'.tables, f) + InCalls(k'.calls, f);
    OnlyReleaseDestroys(k, a, f);
  }

  lemma OnlyReleaseDestroys(k: Kernel, a: Action, f: FileId)
    requires Enabled(k, a) && NoPanic(k, a) && f in k.count
    ensures f !in Next(k, a).count ==> a.Release? && k.calls[a.th].f == f
  {}

  lemma AllocatedHint(k: Kernel, tab: nat, want: nat, fd: nat, t': Table)
    requires Inv(k) && tab < |k.tables| && Allocates(k.tables[tab], want, fd, t') && HintOk(k.tables[tab])
    ensures HintOk(t')
  {
    hide Balanced, TableCore, Allocates, HintOk;
    AllocKeepsInv(k.tables[tab], want, fd, t');
  }

  lemma AllocKeepsHints(k: Kernel, a: Action, i: nat)
    requires Inv(k) && Enabled(k, a) && NoPanic(k, a) && (a.DupFinish? || a.DupTooMany? || a.Open? || a.OpenNoFile?)
    requires i < |k.tables| && HintOk(k.tables[i])
    ensures HintOk(Next(k, a).tables[i])
  {
    hide Inv, Allocates, TableCore;
    var tab := if a.Open? || a.OpenNoFile? then a.tab else k.calls[a.th].tab;
    var want := if a.Open? || a.OpenNoFile? then 0 else k.calls[a.th].kind.min;
    if i == tab {
      AllocatedHint(k, tab, want, a.fd, a.t');
    }
  }

  lemma OthersKeepHints(k: Kernel, a: Action, i: nat)
    requires Enabled(k, a) && NoPanic(k, a) && !(a.DupFinish? || a.DupTooMany? || a.Open? || a.OpenNoFile?)
    requires i < |k.tables| && HintOk(k.tables[i])
    ensures i < |Next(k, a).tables| && HintOk(Next(k, a).tables[i])
  {}

  /** Every step keeps the fd_freefile promise of every table it does not create:
      only a fork can hand out a table that breaks it. */
  lemma StepKeepsHints(k: Kernel, a: Action, i: nat)
    requires Inv(k) && Enabled(k, a)
    requires i < |k.tables| && HintOk(k.tables[i])
    ensures NoPanic(k, a)
    ensures i < |Next(k, a).tables| && HintOk(Next(k, a).tables[i])
  {
    NeverPanics(k, a);
    if a.DupFinish? || a.DupTooMany? || a.Open? || a.OpenNoFile? {
      AllocKeepsHints(k, a, i);
    } else {
      OthersKeepHints(k, a, i);
    }
  }

  // ----- a fork while an open is in progress

  lemma OpenStep(k: Kernel, th: nat, fd: nat, t': Table, f: FileId)
    requires |k.tables| == 1 && th < |k.calls| && k.calls[th] == Idle && f !in k.count
    requires Allocates(k.tables[0], 0, fd, t')
    ensures var a := Open(th, 0, fd, t', f);
            Enabled(k, a) && NoPanic(k, a)
            && Next(k, a) == Kernel([t'], k.count[f := 2], k.calls[th := Opening(0, fd, f)], k.inserted - {f})
  {
    assert k.tables[0 := t'] == [t'];
  }

  lemma InsertStep(k: Kernel, th: nat)
    requires |k.tables| == 1 && th < |k.calls| && k.calls[th].Opening? && k.calls[th].tab == 0
    requires Reserved(k.tables[0], k.calls[th].fd)
    ensures var a, c := OpenInsert(th), k.calls[th];
            Enabled(k, a) && NoPanic(k, a)
            && Next(k, a) == Kernel([SetSlot(k.tables[0], c.fd, Some(c.f))], k.count, k.calls[th := Releasing(c.f)],
                                    k.inserted + {c.f})
  {
    var t' := SetSlot(k.tables[0], k.calls[th].fd, Some(k.calls[th].f));
    assert k.tables[0 := t'] == [t'];
  }

  /** The least unused descriptor of a table whose first ones are used. */
  lemma NextFree(t: Table, fd: nat)
    requires fd < |t.slots| && t.freefile <= fd && forall k: nat :: k in t.used <==> k < fd
    ensures Allocates(t, 0, fd, Take(t, 0, fd))
  {}

  /** What fork makes of the process below. */
  lemma ForkedChild(p: Table)
    requires p == Table({0, 1, 2}, [Some(7), None, Some(9), None], 2, 2, 3)
    ensures var child := CopyUpTo(p, {}, 4, 3);
            child.used == {0, 2} && !HintOk(child)
            && forall fd: nat, t': Table :: Allocates(child, 0, fd, t') ==> fd == 3
  {
    hide CopyUpTo;
    var child := CopyUpTo(p, {}, 4, 3);
    CopyHolds(p, {}, 4, 3);
    CopyHint(p, {}, 4, 3);
    assert child.freefile == 2 && |child.slots| == 4;
    assert 1 !in child.used;
  }

  ghost predicate Follows(k: Kernel, a: Action, k': Kernel) {
    Enabled(k, a) && NoPanic(k, a) && k' == Next(k, a)
  }

  /** Three threads of one process open the files 7, 8 and 9; the second stays in the
      middle of it. */
  function Opened(n: nat): Table {
    match n
    case 0 => Table({}, [None, None, None, None], 0, 0, 0)
    case 1 => Table({0}, [None, None, None, None], 0, 0, 1)
    case 2 => Table({0}, [Some(7), None, None, None], 0, 0, 1)
    case 3 => Table({0, 1}, [Some(7), None, None, None], 1, 1, 2)
    case 4 => Table({0, 1, 2}, [Some(7), None, None, None], 2, 2, 3)
    case _ => Table({0, 1, 2}, [Some(7), None, Some(9), None], 2, 2, 3)
  }

  function Stage(n: nat): Kernel {
    match n
    case 0 => Kernel([Opened(0)], map[], [Idle, Idle, Idle], {})
    case 1 => Kernel([Opened(1)], map[7 := 2], [Opening(0, 0, 7), Idle, Idle], {})
    case 2 => Kernel([Opened(2)], map[7 := 2], [Releasing(7), Idle, Idle], {7})
    case 3 => Kernel([Opened(3)], map[7 := 2, 8 := 2], [Releasing(7), Opening(0, 1, 8), Idle], {7})
    case 4 =>
      Kernel([Opened(4)], map[7 := 2, 8 := 2, 9 := 2], [Releasing(7), Opening(0, 1, 8), Opening(0, 2, 9)], {7})
    case _ =>
      Kernel([Opened(5)], map[7 := 2, 8 := 2, 9 := 2], [Releasing(7), Opening(0, 1, 8), Releasing(9)], {7, 9})
  }

  lemma FirstOpen()
    ensures Follows(Stage(0), Open(0, 0, 0, Opened(1), 7), Stage(1))
    ensures Follows(Stage(1), OpenInsert(0), Stage(2))
  {
    hide Enabled, Next, NoPanic, Allocates;
    NextFree(Opened(0), 0);
    assert Take(Opened(0), 0, 0) == Opened(1);
    OpenStep(Stage(0), 0, 0, Opened(1), 7);
    InsertStep(Stage(1), 0);
    assert SetSlot(Opened(1), 0, Some(7)) == Opened(2);
    assert Stage(1).calls[0 := Releasing(7)] == Stage(2).calls;
  }

  lemma SecondOpen()
    ensures Follows(Stage(2), Open(1, 0, 1, Opened(3), 8), Stage(3))
  {
    hide Enabled, Next, NoPanic, Allocates;
    NextFree(Opened(2), 1);
    assert Take(Opened(2), 0, 1) == Opened(3);
    OpenStep(Stage(2), 1, 1, Opened(3), 8);
  }

  lemma ThirdOpen()
    ensures Follows(Stage(3), Open(2, 0, 2, Opened(4), 9), Stage(4))
    ensures Follows(Stage(4), OpenInsert(2), Stage(5))
  {
    hide Enabled, Next, NoPanic, Allocates;
    NextFree(Opened(3), 2);
    assert Take(Opened(3), 0, 2) == Opened(4);
    OpenStep(Stage(3), 2, 2, Opened(4), 9);
    InsertStep(Stage(4), 2);
    assert SetSlot(Opened(4), 2, Some(9)) == Opened(5);
    assert Stage(4).calls[2 := Releasing(9)] == Stage(5).calls;
  }

  lemma StageStarts()
    ensures Start(Stage(0))
  {
    assert Opened(0).slots == seq(4, _ => None);
  }

  /** A child whose hint is wrong is reachable: one thread is in the middle of opening
      descriptor 1 when the process forks. The child has 0 and 2 in use; the next
      descriptor it gets is 3, and never the lower 1. */
  lemma ForkDuringOpenSkipsDescriptor() returns (ks: seq<Kernel>, acts: seq<Action>)
    ensures IsRun(ks, acts) && |acts| == 6 && acts[5].Fork?
    ensures |ks[6].tables| == 2
    ensures var child := ks[6].tables[1];
            child.used == {0, 2} && !HintOk(child)
            && forall fd: nat, t': Table :: Allocates(child, 0, fd, t') ==> fd == 3
  {
    hide Enabled, Next, NoPanic, Allocates, CopyUpTo, Stage, Opened, Start, HintOk;
    StageStarts();
    FirstOpen();
    SecondOpen();
    ThirdOpen();
    LastStage();
    ForkStep(Stage(5));
    ForkedChild(Opened(5));
    ks := [Stage(0), Stage(1), Stage(2), Stage(3), Stage(4), Stage(5), Next(Stage(5), Fork(0, {}, 4))];
    acts := [Open(0, 0, 0, Opened(1), 7), OpenInsert(0), Open(1, 0, 1, Opened(3), 8), Open(2, 0, 2, Opened(4), 9),
             OpenInsert(2), Fork(0, {}, 4)];
  }

  lemma LastStage()
    ensures Stage(5).tables == [Opened(5)]
    ensures Opened(5) == Table({0, 1, 2}, [Some(7), None, Some(9), None], 2, 2, 3)
  {}

  lemma ForkStep(k: Kernel)
    requires |k.tables| == 1 && k.tables[0].lastfile == 2 && |k.tables[0].slots| == 4
    ensures var a := Fork(0, {}, 4);
            Enabled(k, a) && NoPanic(k, a) && Next(k, a).tables == [k.tables[0], CopyUpTo(k.tables[0], {}, 4, 3)]
  {}
}
