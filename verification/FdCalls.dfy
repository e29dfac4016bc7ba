/** What the calls of FdRefs do to the descriptors: which file each one refers to, and
    which are in use. */
module FdCalls {
  import opened Wrappers
  import opened FdTable
  import opened FdRefs

  /** The file that a descriptor of a table refers to. */
  function FileAt(k: Kernel, tab: nat, fd: nat): Option<FileId> {
    if tab < |k.tables| && fd < |k.tables[tab].slots| then k.tables[tab].slots[fd] else None
  }

  function UsedIn(k: Kernel, tab: nat): set<nat> {
    if tab < |k.tables| then k.tables[tab].used else {}
  }

  /** No descriptor refers to another file than before. */
  ghost predicate SameFiles(k: Kernel, k': Kernel) {
    forall i: nat, j: nat :: FileAt(k', i, j) == FileAt(k, i, j)
  }

  /** One descriptor refers to o, and every other one to what it did. */
  ghost predicate OneFile(k: Kernel, k': Kernel, tab: nat, fd: nat, o: Option<FileId>) {
    forall i: nat, j: nat :: FileAt(k', i, j) == if i == tab && j == fd then o else FileAt(k, i, j)
  }

  ghost predicate SameUse(k: Kernel, k': Kernel) {
    forall i: nat :: UsedIn(k', i) == UsedIn(k, i)
  }

  /** The descriptors of one table that are in use are u; the other tables' are as they
      were. */
  ghost predicate OneUse(k: Kernel, k': Kernel, tab: nat, u: set<nat>) {
    forall i: nat :: UsedIn(k', i) == if i == tab then u else UsedIn(k, i)
  }

  /** fd_getfile: the thread has the file of that descriptor. */
  ghost predicate GetSays(k: Kernel, a: Action, k': Kernel)
    requires a.GetFile? && a.th < |k'.calls|
  {
    && SameFiles(k, k') && SameUse(k, k')
    && match FileAt(k, a.tab, a.fd)
       case Some(f) => k'.calls[a.th] == Got(a.tab, a.kind, f)
       case None => k' == k
  }

  /** dup and fcntl(F_DUPFD): a descriptor that was not in use refers to the file too. */
  ghost predicate DupSays(k: Kernel, a: Action, k': Kernel)
    requires a.DupFinish? && a.th < |k.calls| == |k'.calls| && k.calls[a.th].Got? && k.calls[a.th].kind.Dup?
  {
    var c := k.calls[a.th];
    && c.kind.min <= a.fd && a.fd !in UsedIn(k, c.tab) && FileAt(k, c.tab, a.fd) == None
    && OneFile(k, k', c.tab, a.fd, Some(c.f)) && OneUse(k, k', c.tab, UsedIn(k, c.tab) + {a.fd})
    && k'.calls[a.th] == Idle
  }

  /** dup2: the descriptor refers to the caller's file, and the thread goes on to close
      what was there; nothing happens to one that an open has reserved. */
  ghost predicate Dup2Says(k: Kernel, a: Action, k': Kernel)
    requires a.Dup2Finish? && a.th < |k.calls| == |k'.calls| && k.calls[a.th].Got? && k.calls[a.th].kind.Dup2?
  {
    var c := k.calls[a.th];
    var to := c.kind.to;
    match FileAt(k, c.tab, to)
    case Some(g) =>
      OneFile(k, k', c.tab, to, Some(c.f)) && SameUse(k, k') && k'.calls[a.th] == Closing(g)
    case None =>
      if to in UsedIn(k, c.tab) then SameFiles(k, k') && SameUse(k, k') && k'.calls[a.th] == Releasing(c.f)
      else OneFile(k, k', c.tab, to, Some(c.f)) && OneUse(k, k', c.tab, UsedIn(k, c.tab) + {to})
           && k'.calls[a.th] == Idle
  }

  /** close: the descriptor is free, and the thread goes on to close its file. */
  ghost predicate CloseSays(k: Kernel, a: Action, k': Kernel)
    requires a.Close? && a.th < |k'.calls|
  {
    match FileAt(k, a.tab, a.fd)
    case Some(f) =>
      OneFile(k, k', a.tab, a.fd, None) && OneUse(k, k', a.tab, UsedIn(k, a.tab) - {a.fd})
      && k'.calls[a.th] == Closing(f)
    case None => k' == k
  }

  /** open: a descriptor is reserved for a new file, gets it, or is given back. */
  ghost predicate OpenSays(k: Kernel, a: Action, k': Kernel)
    requires a.Open? || a.OpenInsert? || a.OpenFail?
    requires a.th < |k.calls| == |k'.calls| && (a.Open? || k.calls[a.th].Opening?)
  {
    match a
    case Open(th, tab, fd, _, f) =>
      && fd !in UsedIn(k, tab) && FileAt(k, tab, fd) == None
      && SameFiles(k, k') && OneUse(k, k', tab, UsedIn(k, tab) + {fd})
      && k'.calls[th] == Opening(tab, fd, f)
      && forall i: nat, j: nat :: FileAt(k, i, j) != Some(f)
    case OpenInsert(th) =>
      var c := k.calls[th];
      && FileAt(k, c.tab, c.fd) == None && OneFile(k, k', c.tab, c.fd, Some(c.f)) && SameUse(k, k')
      && k'.calls[th] == Releasing(c.f)
    case OpenFail(th) =>
      var c := k.calls[th];
      && SameFiles(k, k') && OneUse(k, k', c.tab, UsedIn(k, c.tab) - {c.fd})
      && k'.calls[th] == Closing(c.f)
  }

  /** fork: the new table has the parent's files but the dropped ones, each at its own
      descriptor. */
  ghost predicate ForkSays(k: Kernel, a: Action, k': Kernel)
    requires a.Fork?
  {
    var n := |k.tables|;
    && |k'.tables| == n + 1 && k'.calls == k.calls
    && (forall i: nat, j: nat :: FileAt(k', i, j) ==
          if i == n then (if j in a.drop then None else FileAt(k, a.tab, j)) else FileAt(k, i, j))
    && (forall j: nat :: j in UsedIn(k', n) <==> FileAt(k', n, j).Some?)
    && forall i: nat :: i != n ==> UsedIn(k', i) == UsedIn(k, i)
  }

  /** exit: the table is empty, and the thread has the files to close. */
  ghost predicate ExitSays(k: Kernel, a: Action, k': Kernel)
    requires a.ExitStart? && a.th < |k'.calls|
  {
    && (forall i: nat, j: nat :: FileAt(k', i, j) == if i == a.tab then None else FileAt(k, i, j))
    && OneUse(k, k', a.tab, {})
    && k'.calls[a.th].Freeing? && k'.calls[a.th].fd == 0
    && forall j: nat :: FileAt(k, a.tab, j) ==
         if j < |k'.calls[a.th].slots| then k'.calls[a.th].slots[j] else None
  }

  lemma GetFiles(k: Kernel, a: Action)
    requires Inv(k) && Enabled(k, a) && NoPanic(k, a) && a.GetFile?
    ensures GetSays(k, a, Next(k, a))
  {
    hide Inv;
  }

  lemma DupFiles(k: Kernel, a: Action)
    requires Inv(k) && Enabled(k, a) && NoPanic(k, a) && a.DupFinish?
    ensures DupSays(k, a, Next(k, a))
  {
    hide Balanced, TableCore, HintOk, Take, AllInserted;
    var c := k.calls[a.th];
    AllocKeepsInv(k.tables[c.tab], c.kind.min, a.fd, a.t');
  }

  lemma Dup2Files(k: Kernel, a: Action)
    requires Inv(k) && Enabled(k, a) && NoPanic(k, a) && a.Dup2Finish?
    ensures Dup2Says(k, a, Next(k, a))
  {
    hide Inv;
  }

  lemma CloseFiles(k: Kernel, a: Action)
    requires Inv(k) && Enabled(k, a) && NoPanic(k, a) && a.Close?
    ensures CloseSays(k, a, Next(k, a))
  {
    hide Inv;
  }

  lemma OpenFiles(k: Kernel, a: Action)
    requires Inv(k) && Enabled(k, a) && NoPanic(k, a) && (a.Open? || a.OpenInsert? || a.OpenFail?)
    ensures OpenSays(k, a, Next(k, a))
  {
    hide Balanced, TableCore, HintOk, Take, AllInserted;
    if a.Open? {
      AllocKeepsInv(k.tables[a.tab], 0, a.fd, a.t');
      NewIsNowhere(k, a.f);
    }
  }

  lemma ForkFiles(k: Kernel, a: Action)
    requires Inv(k) && Enabled(k, a) && NoPanic(k, a) && a.Fork?
    ensures ForkSays(k, a, Next(k, a))
  {
    hide Balanced, CopyUpTo, AllInserted;
    var p := k.tables[a.tab];
    CopyHolds(p, a.drop, a.size, p.lastfile + 1);
  }

  lemma ExitFiles(k: Kernel, a: Action)
    requires Inv(k) && Enabled(k, a) && NoPanic(k, a) && a.ExitStart?
    ensures ExitSays(k, a, Next(k, a))
  {
    hide Inv;
  }

  /** The other steps touch no descriptor, but for a dup of a file with too many
      references, which leaves the descriptor it was given in use. */
  ghost predicate QuietSays(k: Kernel, a: Action, k': Kernel)
    requires a.DupTooMany? ==> a.th < |k.calls| && k.calls[a.th].Got?
  {
    && SameFiles(k, k')
    && if a.DupTooMany? then OneUse(k, k', k.calls[a.th].tab, UsedIn(k, k.calls[a.th].tab) + {a.fd})
       else SameUse(k, k')
  }

  predicate IsQuiet(a: Action) {
    a.GiveUp? || a.Expand? || a.DupTooMany? || a.CloseDrop? || a.Release? || a.OpenNoFile? || a.ExitNext?
  }

  lemma QuietFiles(k: Kernel, a: Action)
    requires Inv(k) && Enabled(k, a) && NoPanic(k, a) && IsQuiet(a)
    ensures QuietSays(k, a, Next(k, a))
  {
    hide Balanced, TableCore, HintOk, Take, AllInserted, Unuse, Allocates;
    if a.DupTooMany? {
      AllocKeepsInv(k.tables[k.calls[a.th].tab], k.calls[a.th].kind.min, a.fd, a.t');
    } else if a.OpenNoFile? {
      UnuseUndoesAlloc(k.tables[a.tab], 0, a.fd, a.t');
    }
  }

  /** What every step does to the map from descriptors to files and to the descriptors in
      use. */
  ghost predicate StepSays(k: Kernel, a: Action, k': Kernel)
    requires Enabled(k, a) && |k'.calls| == |k.calls|
  {
    if a.GetFile? then GetSays(k, a, k')
    else if a.DupFinish? then DupSays(k, a, k')
    else if a.Dup2Finish? then Dup2Says(k, a, k')
    else if a.Close? then CloseSays(k, a, k')
    else if a.Open? || a.OpenInsert? || a.OpenFail? then OpenSays(k, a, k')
    else if a.Fork? then ForkSays(k, a, k')
    else if a.ExitStart? then ExitSays(k, a, k')
    else QuietSays(k, a, k')
  }

  lemma SameThreads(k: Kernel, a: Action)
    requires Enabled(k, a) && NoPanic(k, a)
    ensures |Next(k, a).calls| == |k.calls|
  {}

  /** Each step changes the files of the descriptors as its call promises, and no
      others. */
  lemma StepFiles(k: Kernel, a: Action)
    requires Inv(k) && Enabled(k, a) && NoPanic(k, a)
    ensures |Next(k, a).calls| == |k.calls| && StepSays(k, a, Next(k, a))
  {
    hide Inv, Next, GetSays, DupSays, Dup2Says, CloseSays, OpenSays, ForkSays, ExitSays, QuietSays, NoPanic;
    SameThreads(k, a);
    if a.GetFile? {
      GetFiles(k, a);
    } else if a.DupFinish? {
      DupFiles(k, a);
    } else if a.Dup2Finish? {
      Dup2Files(k, a);
    } else if a.Close? {
      CloseFiles(k, a);
    } else if a.Open? || a.OpenInsert? || a.OpenFail? {
      OpenFiles(k, a);
    } else if a.Fork? {
      ForkFiles(k, a);
    } else if a.ExitStart? {
      ExitFiles(k, a);
    } else {
      QuietFiles(k, a);
    }
  }

  // ----- whole calls, with any steps of other threads in between

  /** The step is one of thread th. */
  predicate IsBy(a: Action, th: nat) {
    !a.Expand? && !a.OpenNoFile? && !a.Fork? && a.th == th
  }

  lemma OthersKeepCall(k: Kernel, a: Action, th: nat)
    requires Enabled(k, a) && NoPanic(k, a) && !IsBy(a, th) && th < |k.calls|
    ensures th < |Next(k, a).calls| && Next(k, a).calls[th] == k.calls[th]
  {}

  lemma {:induction false} CallWaits(ks: seq<Kernel>, acts: seq<Action>, i: nat, j: nat, th: nat)
    requires IsRun(ks, acts) && i <= j < |ks| && th < |ks[i].calls|
    requires forall n :: i <= n < j ==> !IsBy(acts[n], th)
    ensures th < |ks[j].calls| && ks[j].calls[th] == ks[i].calls[th]
    decreases j - i
  {
    hide Next, Enabled, NoPanic, Start, IsBy;
    if i < j {
      CallWaits(ks, acts, i, j - 1, th);
      OthersKeepCall(ks[j - 1], acts[j - 1], th);
    }
  }

  /** A thread's next step after its fd_getfile still has the file that the descriptor
      referred to then, whatever happened to the descriptor since. */
  lemma GotFile(ks: seq<Kernel>, acts: seq<Action>, i: nat, j: nat)
    requires IsRun(ks, acts) && i < j < |ks| && acts[i].GetFile?
    requires FileAt(ks[i], acts[i].tab, acts[i].fd).Some?
    requires forall n :: i < n < j ==> !IsBy(acts[n], acts[i].th)
    ensures acts[i].th < |ks[j].calls|
    ensures ks[j].calls[acts[i].th] ==
            Got(acts[i].tab, acts[i].kind, FileAt(ks[i], acts[i].tab, acts[i].fd).value)
  {
    hide Next, NoPanic, Start, IsBy, SameFiles, SameUse;
    EveryRunIsSafe(ks, acts, i);
    StepFiles(ks[i], acts[i]);
    CallWaits(ks, acts, i + 1, j, acts[i].th);
  }

  /** dup2(old, new), from fd_getfile to the end, whatever other threads do in between:
      unless an open has reserved it, `new` refers to the file `old` referred to, no
      other descriptor changes at that step, and a file that `new` referred to is closed. */
  lemma Dup2Call(ks: seq<Kernel>, acts: seq<Action>, i: nat, j: nat)
    requires IsRun(ks, acts) && i < j < |acts| && acts[i].GetFile? && acts[i].kind.Dup2?
    requires acts[j] == Dup2Finish(acts[i].th) && forall n :: i < n < j ==> !IsBy(acts[n], acts[i].th)
    requires FileAt(ks[i], acts[i].tab, acts[i].fd).Some?
    ensures var tab, to, th := acts[i].tab, acts[i].kind.to, acts[i].th;
            var f := FileAt(ks[i], tab, acts[i].fd);
            && th < |ks[j + 1].calls|
            && match FileAt(ks[j], tab, to)
               case Some(g) => OneFile(ks[j], ks[j + 1], tab, to, f) && ks[j + 1].calls[th] == Closing(g)
               case None =>
                 if to in UsedIn(ks[j], tab) then SameFiles(ks[j], ks[j + 1])
                 else OneFile(ks[j], ks[j + 1], tab, to, f)
  {
    hide Next, NoPanic, Start, IsBy, SameFiles, SameUse, OneFile, OneUse, Inv;
    GotFile(ks, acts, i, j);
    EveryRunIsSafe(ks, acts, j);
    StepFiles(ks[j], acts[j]);
  }

  /** dup(old), likewise: a descriptor that was not in use refers to the same file. */
  lemma DupCall(ks: seq<Kernel>, acts: seq<Action>, i: nat, j: nat)
    requires IsRun(ks, acts) && i < j < |acts| && acts[i].GetFile? && acts[i].kind.Dup?
    requires acts[j].DupFinish? && acts[j].th == acts[i].th
    requires forall n :: i < n < j ==> !IsBy(acts[n], acts[i].th)
    requires FileAt(ks[i], acts[i].tab, acts[i].fd).Some?
    ensures var tab, fd := acts[i].tab, acts[j].fd;
            && acts[i].kind.min <= fd && FileAt(ks[j], tab, fd) == None
            && OneFile(ks[j], ks[j + 1], tab, fd, FileAt(ks[i], tab, acts[i].fd))
  {
    hide Next, NoPanic, Start, IsBy, SameFiles, SameUse, OneFile, OneUse, Inv;
    GotFile(ks, acts, i, j);
    EveryRunIsSafe(ks, acts, j);
    StepFiles(ks[j], acts[j]);
  }

  /** open: the descriptor it was given is still empty when the file arrives, and then
      refers to it. */
  lemma OpenCall(ks: seq<Kernel>, acts: seq<Action>, i: nat, j: nat)
    requires IsRun(ks, acts) && i < j < |acts| && acts[i].Open? && acts[j] == OpenInsert(acts[i].th)
    requires forall n :: i < n < j ==> !IsBy(acts[n], acts[i].th)
    ensures var tab, fd := acts[i].tab, acts[i].fd;
            && fd !in UsedIn(ks[i], tab) && FileAt(ks[j], tab, fd) == None
            && OneFile(ks[j], ks[j + 1], tab, fd, Some(acts[i].f))
  {
    hide Next, NoPanic, Start, IsBy, SameFiles, SameUse, OneFile, OneUse, Inv;
    EveryRunIsSafe(ks, acts, i);
    StepFiles(ks[i], acts[i]);
    CallWaits(ks, acts, i + 1, j, acts[i].th);
    EveryRunIsSafe(ks, acts, j);
    StepFiles(ks[j], acts[j]);
  }

  // ----- descriptors in use without a file

  /** Every descriptor in use refers to a file or is being opened. */
  ghost predicate NoneLeaked(k: Kernel) {
    forall i: nat, j: nat :: j in UsedIn(k, i) && FileAt(k, i, j) == None ==> BeingOpened(k, i, j)
  }

  ghost predicate BeingOpened(k: Kernel, tab: nat, fd: nat) {
    exists th :: 0 <= th < |k.calls| && k.calls[th].Opening? && k.calls[th].tab == tab && k.calls[th].fd == fd
  }

  lemma StillOpening(k: Kernel, a: Action, tab: nat, fd: nat)
    requires Enabled(k, a) && NoPanic(k, a) && BeingOpened(k, tab, fd)
    requires (a.OpenInsert? || a.OpenFail?) ==> k.calls[a.th].tab != tab || k.calls[a.th].fd != fd
    ensures BeingOpened(Next(k, a), tab, fd)
  {
    hide Next;
    var th :| 0 <= th < |k.calls| && k.calls[th].Opening? && k.calls[th].tab == tab && k.calls[th].fd == fd;
    assert !IsBy(a, th);
    OthersKeepCall(k, a, th);
  }

  lemma KeepsNoneLeaked(k: Kernel, a: Action)
    requires Inv(k) && Enabled(k, a) && NoPanic(k, a) && NoneLeaked(k) && !a.DupTooMany?
    ensures NoneLeaked(Next(k, a))
  {
    hide Inv, Next, NoPanic, BeingOpened, Enabled;
    StepFiles(k, a);
    var k' := Next(k, a);
    forall i: nat, j: nat | j in UsedIn(k', i) && FileAt(k', i, j) == None
      ensures BeingOpened(k', i, j)
    {
      if a.Open? && i == a.tab && j == a.fd {
        OpensNow(k, a);
      } else {
        assert j in UsedIn(k, i) && FileAt(k, i, j) == None;
        if a.OpenInsert? || a.OpenFail? {
          HasOpening(k, a);
        }
        StillOpening(k, a, i, j);
      }
    }
  }

  lemma OpensNow(k: Kernel, a: Action)
    requires Enabled(k, a) && NoPanic(k, a) && a.Open?
    ensures BeingOpened(Next(k, a), a.tab, a.fd)
  {
    assert Next(k, a).calls[a.th] == Opening(a.tab, a.fd, a.f);
  }

  lemma HasOpening(k: Kernel, a: Action)
    requires Enabled(k, a) && (a.OpenInsert? || a.OpenFail?)
    ensures a.th < |k.calls| && k.calls[a.th].Opening?
  {}

  lemma TooManyLeaks(k: Kernel, a: Action)
    requires Inv(k) && Enabled(k, a) && NoPanic(k, a) && a.DupTooMany?
    ensures !NoneLeaked(Next(k, a))
  {
    hide Balanced, AllInserted, TableCore, HintOk, Take;
    var c := k.calls[a.th];
    var k' := Next(k, a);
    StepFiles(k, a);
    AllocKeepsInv(k.tables[c.tab], c.kind.min, a.fd, a.t');
    assert a.fd in UsedIn(k', c.tab) && FileAt(k', c.tab, a.fd) == None;
    forall th | 0 <= th < |k'.calls| && k'.calls[th].Opening?
      ensures k'.calls[th].tab != c.tab || k'.calls[th].fd != a.fd
    {
      assert CallOk(k, k.calls[th]);
    }
  }

  /** A step leaves a descriptor in use that neither refers to a file nor is being opened
      if and only if it is a dup of a file with too many references. */
  lemma LeaksExactlyTooMany(k: Kernel, a: Action)
    requires Inv(k) && Enabled(k, a) && NoPanic(k, a) && NoneLeaked(k)
    ensures NoneLeaked(Next(k, a)) <==> !a.DupTooMany?
  {
    hide Inv, Enabled, NoPanic, Next, NoneLeaked;
    if a.DupTooMany? {
      TooManyLeaks(k, a);
    } else {
      KeepsNoneLeaked(k, a);
    }
  }

  /** So in every run without one, all descriptors in use are accounted for. */
  lemma {:induction false} EveryRunLeaksNone(ks: seq<Kernel>, acts: seq<Action>, n: nat)
    requires IsRun(ks, acts) && n < |ks| && forall i :: 0 <= i < n ==> !acts[i].DupTooMany?
    ensures NoneLeaked(ks[n])
  {
    hide Inv, Enabled, NoPanic, Next, BeingOpened;
    if n > 0 {
      EveryRunLeaksNone(ks, acts, n - 1);
      EveryRunIsSafe(ks, acts, n - 1);
      KeepsNoneLeaked(ks[n - 1], acts[n - 1]);
    }
  }
}
