/**
  What the collector watches: which processes have a pidfd open after a scan, and that an exit event
  then comes in time to free their entries.
 */
module Watching {
  import opened Sums
  import opened ProcessTable
  import opened Collector

  /** Slot i is occupied, and its registration is open for the very process it names. */
  ghost predicate IsWatched(c: State, i: nat) {
    && i < |c.regs| == |c.table.slots| && c.table.slots[i].pid != 0
    && c.regs[i].open && c.regs[i].pid == c.table.slots[i].pid && c.regs[i].start == c.table.slots[i].start
  }

  /**
    What one scan makes of a slot. It is freed exactly if the process is not running and either was
    watched or could not be watched; nothing else changes in the table. Afterwards every entry whose
    pidfd could be opened is watched, a running process that was watched still is by the same
    descriptor, an entry that was not watched and could not be is not, and no free slot has a
    descriptor left open.
   */
  lemma ScanMeans(c: State, fds: set<int>, alive: set<int>, j: nat)
    requires Sized(c) && j < |c.regs|
    ensures var c', x := Scan(c, fds, alive), c.table.slots[j];
      && (c'.table.slots[j] == x || c'.table.slots[j] == FREE)
      && (x.pid != 0 ==>
            (c'.table.slots[j].pid == 0 <==>
               x.pid !in alive && (IsWatched(c, j) || (!c.regs[j].open && x.pid !in fds))))
      && (c'.table.slots[j].pid != 0 && x.pid in fds ==> IsWatched(c', j))
      && (c'.table.slots[j].pid != 0 && x.pid !in fds && !IsWatched(c, j) ==> !c'.regs[j].open)
      && (IsWatched(c, j) && x.pid in alive ==> c'.regs[j] == c.regs[j] && IsWatched(c', j))
      && (c'.table.slots[j].pid == 0 ==> !c'.regs[j].open)
  {
    ScanPrefixAt(c, |c.regs|, j, fds, alive);
  }

  /** An exit event frees exactly an entry of the registered process, closes the registration, and
      touches nothing else. */
  lemma ExitMeans(c: State, i: nat, j: nat)
    requires Sized(c) && i < |c.regs| && j < |c.regs|
    ensures var c', x, r := HandleExit(c, i), c.table.slots[i], c.regs[i];
      && !c'.regs[i].open
      && c'.table.slots[i] == (if x.pid != 0 && r.pid == x.pid && r.start == x.start then FREE else x)
      && (j != i ==> c'.table.slots[j] == c.table.slots[j] && c'.regs[j] == c.regs[j])
  {
  }

  /** Nothing takes the entry of p in slot i away or gives it to another process: no exit event, no
      clearing, no initialisation, no scan that finds p not running, no write by a recognised namesake. */
  ghost predicate LeftAlone(e: Event, p: int, start: nat, i: nat) {
    match e
    case Write(pid, _, st) => pid == p ==> !Reused(Slot(p, start, NONE), st)
    case Wipe(k) => k != i
    case Initialise => false
    case Exit(k) => k != i
    case Sweep(_, alive) => p in alive
  }

  ghost predicate WatchedAs(c: State, p: int, start: nat, i: nat) {
    IsWatched(c, i) && c.table.slots[i].pid == p && c.table.slots[i].start == start
  }

  lemma WatchKept(c: State, e: Event, p: int, start: nat, i: nat)
    requires Sound(c) && WatchedAs(c, p, start, i) && p > 0 && LeftAlone(e, p, start, i)
    ensures WatchedAs(Step(c, e), p, start, i)
  {
    match e
    case Write(pid, u, st) =>
      IndexUnique(c.table.slots, i);
      assert pid != p ==> Target(c.table.slots, pid) != i;
    case Wipe(k) =>
    case Initialise =>
    case Exit(k) => if 0 <= k < |c.regs| { ExitMeans(c, k, i); }
    case Sweep(fds, alive) => ScanMeans(c, fds, alive, i);
  }

  lemma {:induction false} WatchedOverRuns(c: State, es: seq<Event>, p: int, start: nat, i: nat)
    requires Sound(c) && WatchedAs(c, p, start, i) && p > 0
    requires forall k :: 0 <= k < |es| ==> CountsOk(es[k]) && LeftAlone(es[k], p, start, i)
    ensures Sound(Run(c, es)) && WatchedAs(Run(c, es), p, start, i)
  {
    if es != [] {
      WatchedOverRuns(c, es[..|es| - 1], p, start, i);
      StepSound(Run(c, es[..|es| - 1]), es[|es| - 1]);
      WatchKept(Run(c, es[..|es| - 1]), es[|es| - 1], p, start, i);
    }
  }

  /**
    Prompt reclamation: once a scan has found p running and opened its pidfd, p's entry stays watched
    through any updates, scans, clearings and exit events of others, so that p's own exit event frees
    it, whatever p's usage has become by then.
   */
  lemma WatchedUntilExit(c: State, fds: set<int>, alive: set<int>, es: seq<Event>, p: int, i: nat)
    requires Sound(c) && i < |c.regs| && c.table.slots[i].pid == p && p > 0 && p in fds && p in alive
    requires forall k :: 0 <= k < |es| ==> CountsOk(es[k]) && LeftAlone(es[k], p, c.table.slots[i].start, i)
    ensures var c' := Run(Scan(c, fds, alive), es);
      && IsWatched(c', i) && c'.table.slots[i].pid == p
      && Lookup(HandleExit(c', i).table, p) == NONE && !HandleExit(c', i).regs[i].open
  {
    var scanned := Scan(c, fds, alive);
    ScanWatches(c, scanned, fds, alive, p, i);
    WatchedOverRuns(scanned, es, p, c.table.slots[i].start, i);
    FreedByExit(Run(scanned, es), p, i);
  }

  lemma ScanWatches(c: State, c': State, fds: set<int>, alive: set<int>, p: int, i: nat)
    requires Sound(c) && i < |c.regs| && c.table.slots[i].pid == p && p > 0 && p in fds && p in alive
    requires c' == Scan(c, fds, alive)
    ensures Sound(c') && WatchedAs(c', p, c.table.slots[i].start, i)
  {
    ScanPrefixSound(c, c', |c.regs|, fds, alive);
    ScanMeans(c, fds, alive, i);
  }

  lemma FreedByExit(c: State, p: int, i: nat)
    requires Sound(c) && IsWatched(c, i) && c.table.slots[i].pid == p && p > 0
    ensures Lookup(HandleExit(c, i).table, p) == NONE && !HandleExit(c, i).regs[i].open
  {
    OnlyAt(c, p);
    IndexUnique(c.table.slots, i);
    assert forall j :: 0 <= j < |c.regs| ==> HandleExit(c, i).table.slots[j].pid != p;
  }
}
