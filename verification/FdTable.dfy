/** The descriptor table as a plain set of used descriptors plus the cached
    summaries the kernel keeps beside it. This is the specification that the
    two-level bitmap of module FdDescriptors refines. */
module FdTable {
  import opened Helpers
  import opened Wrappers

  /** A `struct file *`. */
  type FileId = nat

  /** fd_nfiles is |slots|. */
  datatype Table = Table(
    used: set<nat>,
    slots: seq<Option<FileId>>,
    freefile: nat,
    lastfile: nat,
    openfd: int)

  /** The counters and the slots agree with the set. The converse of the last
      clause does not hold: an open in progress reserves a descriptor before it
      has a file. */
  ghost predicate TableCore(t: Table) {
    && (forall fd :: fd in t.used ==> fd < |t.slots|)
    && t.openfd == |t.used|
    && (forall fd :: fd in t.used ==> fd <= t.lastfile)
    && (t.lastfile > 0 ==> t.lastfile in t.used)
    && (forall fd :: 0 <= fd < |t.slots| && t.slots[fd].Some? ==> fd in t.used)
  }

  /** Nothing below fd_freefile is unused. */
  ghost predicate HintOk(t: Table) {
    forall fd: nat :: fd < t.freefile ==> fd in t.used
  }

  /** The greatest member of `used` below `last`, 0 when there is none
      (find_last_set). */
  function LastBelow(used: set<nat>, last: nat): (r: nat)
    ensures r < last || r == 0
    ensures r > 0 ==> r in used
    ensures forall fd :: fd in used && fd < last ==> fd <= r
  {
    if last <= 1 then 0
    else if last - 1 in used then last - 1
    else LastBelow(used, last - 1)
  }

  /** fd_used */
  function Use(t: Table, fd: nat): Table {
    t.(used := t.used + {fd},
       lastfile := Max(t.lastfile, fd),
       openfd := t.openfd + 1)
  }

  /** fd_unused */
  function Unuse(t: Table, fd: nat): Table {
    t.(used := t.used - {fd},
       freefile := Min(t.freefile, fd),
       lastfile := if fd == t.lastfile then LastBelow(t.used - {fd}, fd) else t.lastfile,
       openfd := t.openfd - 1)
  }

  /** The table after fdalloc handed out `fd` for a caller that wanted `want`. */
  function Take(t: Table, want: nat, fd: nat): Table {
    Use(t, fd).(freefile := if want <= t.freefile then fd else t.freefile)
  }

  /** fdexpand to `nfiles` slots. */
  function Grow(t: Table, nfiles: nat): Table
    requires |t.slots| <= nfiles
  {
    t.(slots := t.slots + seq(nfiles - |t.slots|, _ => None))
  }

  /** `fd` is the least unused descriptor in [want, last). */
  ghost predicate IsLeastUnused(used: set<nat>, want: nat, last: nat, fd: nat) {
    && want <= fd < last
    && fd !in used
    && (forall k :: want <= k < fd ==> k in used)
  }

  ghost predicate NoneUnused(used: set<nat>, want: nat, last: nat) {
    forall k :: want <= k < last ==> k in used
  }

  lemma UseKeepsInv(t: Table, fd: nat)
    requires TableCore(t) && fd !in t.used && fd < |t.slots|
    ensures TableCore(Use(t, fd))
    ensures HintOk(t) ==> HintOk(Use(t, fd))
  {}

  /** A used descriptor gets its file (fdinsert, fdcopy). */
  lemma FillKeepsCore(t: Table, fd: nat, f: Option<FileId>)
    requires TableCore(t) && fd !in t.used && fd < |t.slots|
    ensures TableCore(Use(t, fd).(slots := t.slots[fd := f]))
  {
    UseKeepsInv(t, fd);
  }

  lemma UnuseKeepsInv(t: Table, fd: nat)
    requires TableCore(t) && fd in t.used && t.slots[fd].None?
    ensures TableCore(Unuse(t, fd))
    ensures HintOk(t) ==> HintOk(Unuse(t, fd))
  {
    assert t.used == t.used - {fd} + {fd};
  }

  /** What fdalloc does: the least unused descriptor at or above both `want` and the
      hint. A search that starts again with a higher `want` leaves the hint alone, which
      happens only while the hint is wrong. */
  ghost predicate Allocates(t: Table, want: nat, fd: nat, t': Table) {
    && IsLeastUnused(t.used, Max(want, t.freefile), |t.slots|, fd)
    && (t' == Take(t, want, fd) || (!HintOk(t) && t' == Use(t, fd)))
  }

  /** With a right hint that is the least unused descriptor at or above `want`. */
  lemma HintedIsLeast(t: Table, want: nat, last: nat, fd: nat)
    requires HintOk(t)
    ensures IsLeastUnused(t.used, Max(want, t.freefile), last, fd) ==> IsLeastUnused(t.used, want, last, fd)
    ensures NoneUnused(t.used, Max(want, t.freefile), last) ==> NoneUnused(t.used, want, last)
  {}

  lemma AllocKeepsInv(t: Table, want: nat, fd: nat, t': Table)
    requires TableCore(t) && Allocates(t, want, fd, t')
    ensures t'.slots == t.slots && t.slots[fd].None?
    ensures t'.used == t.used + {fd} && TableCore(t')
    ensures HintOk(t) ==> HintOk(t')
  {
    UseKeepsInv(t, fd);
  }

  lemma GrowKeepsInv(t: Table, nfiles: nat)
    requires TableCore(t) && |t.slots| <= nfiles
    ensures TableCore(Grow(t, nfiles))
    ensures HintOk(t) ==> HintOk(Grow(t, nfiles))
  {}

  /** A descriptor handed out and given back at once, as falloc does when there is no
      file for it, leaves all but the hint as it was. */
  lemma UnuseUndoesAlloc(t: Table, want: nat, fd: nat, t': Table)
    requires TableCore(t) && Allocates(t, want, fd, t')
    ensures Unuse(t', fd) == t.(freefile := Unuse(t', fd).freefile)
    ensures TableCore(Unuse(t', fd))
    ensures HintOk(t) ==> HintOk(Unuse(t', fd))
  {
    AllocKeepsInv(t, want, fd, t');
    UnuseKeepsInv(t', fd);
    assert t'.used - {fd} == t.used;
    if fd == t'.lastfile {
      LastBelowIsLast(t, fd);
    }
  }

  lemma LastBelowIsLast(t: Table, fd: nat)
    requires TableCore(t) && t.lastfile <= fd && fd !in t.used
    ensures LastBelow(t.used, fd) == t.lastfile
  {
    if t.lastfile > 0 {
      assert t.lastfile in t.used;
    }
  }

  /** Descriptor i of the parent holds a file that the child inherits. What is at the
      descriptors in `drop` is not inherited: kqueues, and files that have too many
      references by the time the loop comes to them. */
  predicate Inherits(p: Table, drop: set<nat>, i: nat)
    requires i < |p.slots|
  {
    p.slots[i].Some? && i !in drop
  }

  predicate Drops(p: Table, drop: set<nat>, i: nat)
    requires i < |p.slots|
  {
    p.slots[i].Some? && i in drop
  }

  /** The child after fdcopy has gone through the parent's descriptors below k. */
  function CopyUpTo(p: Table, drop: set<nat>, size: nat, k: nat): (t: Table)
    requires k <= |p.slots| && k <= size
    ensures |t.slots| == size
  {
    if k == 0 then
      Table({}, seq(size, _ => None), p.freefile, 0, 0)
    else
      var t := CopyUpTo(p, drop, size, k - 1);
      if Inherits(p, drop, k - 1) then
        Use(t, k - 1).(slots := t.slots[k - 1 := p.slots[k - 1]])
      else if Drops(p, drop, k - 1) then
        t.(freefile := Min(t.freefile, k - 1))
      else
        t
  }

  lemma CopyStart(p: Table, drop: set<nat>, n: nat)
    ensures CopyUpTo(p, drop, n, 0) == Table({}, seq(n, _ => None), p.freefile, 0, 0)
  {}

  lemma CopyStep(p: Table, drop: set<nat>, n: nat, k: nat)
    requires k < |p.slots| && k < n
    ensures CopyUpTo(p, drop, n, k + 1) ==
            if Inherits(p, drop, k) then
              Use(CopyUpTo(p, drop, n, k), k).(slots := CopyUpTo(p, drop, n, k).slots[k := p.slots[k]])
            else if Drops(p, drop, k) then
              CopyUpTo(p, drop, n, k).(freefile := Min(CopyUpTo(p, drop, n, k).freefile, k))
            else
              CopyUpTo(p, drop, n, k)
  {}

  /** The child holds exactly the inherited files, each at its old descriptor. */
  lemma {:induction false} CopyHolds(p: Table, drop: set<nat>, size: nat, k: nat)
    requires k <= |p.slots| && k <= size
    ensures forall i :: 0 <= i < size ==>
              CopyUpTo(p, drop, size, k).slots[i] == if i < k && Inherits(p, drop, i) then p.slots[i] else None
    ensures forall i :: i in CopyUpTo(p, drop, size, k).used <==> 0 <= i < k && Inherits(p, drop, i)
  {
    if k > 0 {
      CopyHolds(p, drop, size, k - 1);
    }
  }

  /** Its counters and summaries agree with what it holds. */
  lemma {:induction false} CopyKeepsCore(p: Table, drop: set<nat>, size: nat, k: nat)
    requires k <= |p.slots| && k <= size
    ensures TableCore(CopyUpTo(p, drop, size, k))
  {
    if k == 0 {
      CopyStart(p, drop, size);
    } else {
      hide CopyUpTo, TableCore;
      CopyKeepsCore(p, drop, size, k - 1);
      CopyHolds(p, drop, size, k - 1);
      CopyStep(p, drop, size, k - 1);
      LowerHint(CopyUpTo(p, drop, size, k - 1), k - 1);
      if Inherits(p, drop, k - 1) {
        FillKeepsCore(CopyUpTo(p, drop, size, k - 1), k - 1, p.slots[k - 1]);
      }
    }
  }

  lemma LowerHint(t: Table, fd: nat)
    requires TableCore(t)
    ensures TableCore(t.(freefile := Min(t.freefile, fd)))
  {}

  /** Its fd_freefile is the parent's, lowered to the first dropped descriptor. */
  lemma {:induction false} CopyHint(p: Table, drop: set<nat>, size: nat, k: nat)
    requires k <= |p.slots| && k <= size
    ensures CopyUpTo(p, drop, size, k).freefile <= p.freefile
    ensures forall i :: 0 <= i < k && Drops(p, drop, i) ==> CopyUpTo(p, drop, size, k).freefile <= i
    ensures CopyUpTo(p, drop, size, k).freefile < p.freefile ==>
              CopyUpTo(p, drop, size, k).freefile < k && Drops(p, drop, CopyUpTo(p, drop, size, k).freefile)
  {
    if k > 0 {
      CopyHint(p, drop, size, k - 1);
    }
  }

  /** Descriptor fd holds a file, or one at or below it is not inherited. */
  ghost predicate HeldOrDropped(p: Table, drop: set<nat>, fd: nat) {
    (fd < |p.slots| && p.slots[fd].Some?) || exists i :: 0 <= i <= fd && i < |p.slots| && Drops(p, drop, i)
  }

  /** The child of fdcopy keeps the promise that nothing below fd_freefile is
      unused exactly when every parent descriptor below fd_freefile holds a file,
      up to the first file that was not inherited. A descriptor reserved by an
      open in progress breaks it. */
  lemma CopyHintIff(p: Table, drop: set<nat>, size: nat)
    requires TableCore(p) && p.lastfile < size && p.lastfile < |p.slots|
    ensures HintOk(CopyUpTo(p, drop, size, p.lastfile + 1)) <==>
            forall fd: nat :: fd < p.freefile ==> HeldOrDropped(p, drop, fd)
  {
    hide CopyUpTo;
    var k := p.lastfile + 1;
    var t := CopyUpTo(p, drop, size, k);
    CopyHolds(p, drop, size, k);
    CopyHint(p, drop, size, k);
    if HintOk(t) {
      forall fd: nat | fd < p.freefile
        ensures HeldOrDropped(p, drop, fd)
      {
        if fd in t.used {
          assert Inherits(p, drop, fd);
        } else {
          assert t.freefile <= fd;
          assert Drops(p, drop, t.freefile);
        }
      }
    }
    if forall fd: nat :: fd < p.freefile ==> HeldOrDropped(p, drop, fd) {
      forall fd: nat | fd < t.freefile
        ensures fd in t.used
      {
        NotDropped(p, drop, t.freefile, k, fd);
      }
    }
  }

  lemma NotDropped(p: Table, drop: set<nat>, hint: nat, k: nat, fd: nat)
    requires TableCore(p) && k == p.lastfile + 1 <= |p.slots| && fd < hint <= p.freefile
    requires forall i :: 0 <= i < k && Drops(p, drop, i) ==> hint <= i
    requires HeldOrDropped(p, drop, fd)
    ensures fd < k && Inherits(p, drop, fd)
  {
    forall i | 0 <= i <= fd && i < |p.slots|
      ensures !Drops(p, drop, i)
    {
      if p.slots[i].Some? {
        assert i in p.used;
      }
    }
    assert fd in p.used && !Drops(p, drop, fd);
  }
}
