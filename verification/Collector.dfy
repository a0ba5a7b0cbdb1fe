/**
  The garbage collector of the accounting table: one registration per slot (a pidfd with the pid
  and start time it was opened for), an exit-event handler and a periodic scan. Whether pidfd_open
  succeeds and whether /proc shows a pid as running are answers from outside, given per scan as
  the sets of pids for which they were positive.
 */
module Collector {
  import opened Common
  import opened Sums
  import opened ProcessTable

  datatype Reg = Reg(open: bool, pid: int, start: nat)
  const CLOSED := Reg(false, 0, 0)

  /** What the zeroed start-up table reads as: descriptor 0, for pid 0. */
  const ZEROED := Reg(true, 0, 0)

  datatype State = State(table: Table, regs: seq<Reg>)

  ghost predicate Sized(c: State) { |c.regs| == |c.table.slots| }

  /** gc_register_pidfd: what slot's registration becomes. */
  function Registered(s: Slot, fd: bool): Reg {
    if fd then Reg(true, s.pid, s.start) else CLOSED
  }

  predicate Matches(r: Reg, s: Slot) { r.pid == s.pid && r.start == s.start }

  /** gc_handle_process_exit. */
  function HandleExit(c: State, i: nat): State
    requires Sized(c) && i < |c.regs|
  {
    var s := c.table.slots[i];
    var t := if Matches(c.regs[i], s) && s.pid != 0 then Reap(c.table, i) else c.table;
    State(t, c.regs[i := CLOSED])
  }

  /** The body of the loop of gc_scan_and_register. */
  function ScanSlot(c: State, i: nat, fd: bool, alive: bool): (c': State)
    requires Sized(c) && i < |c.regs|
    ensures Sized(c') && |c'.regs| == |c.regs|
    ensures forall j :: 0 <= j < |c.regs| && j != i ==>
      c'.regs[j] == c.regs[j] && c'.table.slots[j] == c.table.slots[j]
  {
    var s, r := c.table.slots[i], c.regs[i];
    if s.pid == 0 then
      if r.open then c.(regs := c.regs[i := CLOSED]) else c
    else if !r.open then
      var c' := c.(regs := c.regs[i := Registered(s, fd)]);
      if !fd && !alive then c'.(table := Reap(c.table, i)) else c'
    else if !Matches(r, s) then c.(regs := c.regs[i := Registered(s, fd)])
    else if !alive then State(Reap(c.table, i), c.regs[i := CLOSED])
    else c
  }

  /** One more iteration of a scan. */
  lemma ScanPrefixNext(c: State, d: State, k: nat, fds: set<int>, alive: set<int>)
    requires Sized(c) && k < |c.regs| && d == ScanPrefix(c, k, fds, alive)
    ensures Sized(d) && |d.regs| == |c.regs| && d.table.slots[k] == c.table.slots[k]
    ensures ScanPrefix(c, k + 1, fds, alive)
            == ScanSlot(d, k, d.table.slots[k].pid in fds, d.table.slots[k].pid in alive)
  {
  }

  /** The first k iterations of a scan. */
  function ScanPrefix(c: State, k: nat, fds: set<int>, alive: set<int>): (c': State)
    requires Sized(c) && k <= |c.regs|
    ensures Sized(c') && |c'.regs| == |c.regs|
    ensures forall j :: k <= j < |c.regs| ==> c'.regs[j] == c.regs[j] && c'.table.slots[j] == c.table.slots[j]
  {
    if k == 0 then c
    else
      var d := ScanPrefix(c, k - 1, fds, alive);
      var pid := d.table.slots[k - 1].pid;
      ScanSlot(d, k - 1, pid in fds, pid in alive)
  }

  function Scan(c: State, fds: set<int>, alive: set<int>): State
    requires Sized(c)
  {
    ScanPrefix(c, |c.regs|, fds, alive)
  }

  // ----- Runs -----

  datatype Event =
    | Write(pid: int, usage: Usage, start: nat)
    | Wipe(slot: int)
    | Initialise
    | Exit(slot: int)
    | Sweep(fds: set<int>, alive: set<int>)

  function Step(c: State, e: Event): (c': State)
    requires Sized(c)
    ensures Sized(c') && |c'.regs| == |c.regs|
  {
    match e
    case Write(pid, u, start) => c.(table := Update(c.table, pid, u, start).1)
    case Wipe(i) => c.(table := Clear(c.table, i).1)
    case Initialise => c.(table := Cleared(c.table))
    case Exit(i) => if 0 <= i < |c.regs| then HandleExit(c, i) else c
    case Sweep(fds, alive) => Scan(c, fds, alive)
  }

  function Run(c: State, es: seq<Event>): (c': State)
    requires Sized(c)
    ensures Sized(c') && |c'.regs| == |c.regs|
  {
    if es == [] then c else Step(Run(c, es[..|es| - 1]), es[|es| - 1])
  }

  // ----- Conservation -----

  ghost predicate Sound(c: State) { Sized(c) && Inv(c.table) && NonNegative(c.table) }

  ghost predicate CountsOk(e: Event) { e.Write? ==> e.usage.qp >= 0 && e.usage.mr >= 0 }

  lemma ScanSlotSound(c: State, c': State, i: nat, fd: bool, alive: bool)
    requires Sound(c) && i < |c.regs| && c' == ScanSlot(c, i, fd, alive)
    ensures Sound(c')
  {
    ReapKeepsInv(c.table, i);
  }

  /** Which answers the k-th iteration of a scan went by. */
  lemma ScanPrefixStep(c: State, d: State, c': State, k: nat, fds: set<int>, alive: set<int>)
    returns (fd: bool, up: bool)
    requires Sized(c) && 0 < k <= |c.regs|
    requires d == ScanPrefix(c, k - 1, fds, alive) && c' == ScanPrefix(c, k, fds, alive)
    ensures c' == ScanSlot(d, k - 1, fd, up)
  {
    var pid := d.table.slots[k - 1].pid;
    fd, up := pid in fds, pid in alive;
  }

  lemma {:induction false} ScanPrefixSound(c: State, c': State, k: nat, fds: set<int>, alive: set<int>)
    requires Sound(c) && k <= |c.regs| && c' == ScanPrefix(c, k, fds, alive)
    ensures Sound(c')
    decreases k
  {
    if k > 0 {
      var d := ScanPrefix(c, k - 1, fds, alive);
      ScanPrefixSound(c, d, k - 1, fds, alive);
      var fd, up := ScanPrefixStep(c, d, c', k, fds, alive);
      ScanSlotSound(d, c', k - 1, fd, up);
    }
  }

  lemma WriteSound(c: State, pid: int, u: Usage, start: nat)
    requires Sound(c) && u.qp >= 0 && u.mr >= 0
    ensures Sound(c.(table := Update(c.table, pid, u, start).1))
  {
    UpdateKeepsInv(c.table, pid, u, start);
  }

  lemma StepSound(c: State, e: Event)
    requires Sound(c) && CountsOk(e)
    ensures Sound(Step(c, e))
  {
    match e
    case Write(pid, u, start) => WriteSound(c, pid, u, start);
    case Wipe(i) => if 0 <= i < |c.regs| { ReapKeepsInv(c.table, i); }
    case Initialise => ClearedInv(c.table);
    case Exit(i) => if 0 <= i < |c.regs| { ReapKeepsInv(c.table, i); }
    case Sweep(fds, alive) => ScanPrefixSound(c, Scan(c, fds, alive), |c.regs|, fds, alive);
  }

  /**
    Conservation: after any run of updates, clears, initialisations by starting processes (each taken
    as one step), exit events and scans, the three global totals
    are the sums over the slots (memory modulo 2^64), pids are unique, free slots are blank, and
    every slot's share is within the totals, so that no subtraction underflows.
   */
  lemma {:induction false} Conservation(c: State, es: seq<Event>)
    requires Sound(c) && forall i :: 0 <= i < |es| ==> CountsOk(es[i])
    ensures var t := Run(c, es).table;
      && Sound(Run(c, es))
      && t.global.qp == Sum(t.slots, Qp) && t.global.mr == Sum(t.slots, Mr)
      && t.global.mem == Sum(t.slots, Mem) % TWO64
      && forall i :: 0 <= i < |t.slots| ==>
           0 <= t.slots[i].usage.qp <= t.global.qp && 0 <= t.slots[i].usage.mr <= t.global.mr
  {
    if es != [] {
      Conservation(c, es[..|es| - 1]);
      StepSound(Run(c, es[..|es| - 1]), es[|es| - 1]);
    }
    var t := Run(c, es).table;
    forall i | 0 <= i < |t.slots|
      ensures 0 <= t.slots[i].usage.qp <= t.global.qp && 0 <= t.slots[i].usage.mr <= t.global.mr
    {
      NoUnderflow(t, i);
    }
  }

  // ----- Bounded reclamation -----

  /** How many more scans the entry of p can survive once p is dead. */
  function Rank(c: State, p: int): nat
    requires Sized(c)
  {
    var i := IndexOf(c.table.slots, p);
    if i < 0 then 0
    else if !c.regs[i].open then 2
    else if Matches(c.regs[i], c.table.slots[i]) then 1
    else 3
  }

  /** p is dead and stays so: nothing writes its entry, and no scan finds it running. */
  ghost predicate Quiet(e: Event, p: int) {
    && (e.Write? ==> e.pid != p)
    && (e.Sweep? ==> p !in e.alive)
  }

  function Scans(es: seq<Event>): nat {
    if es == [] then 0 else Scans(es[..|es| - 1]) + if es[|es| - 1].Sweep? then 1 else 0
  }

  /** Nothing is said of p by a step that leaves the slot of p and its registration alone. */
  lemma RankFrame(c: State, c': State, p: int, i: nat)
    requires Sized(c) && Sized(c') && |c.regs| == |c'.regs|
    requires Layout(c.table.slots) && Layout(c'.table.slots)
    requires p > 0 && i < |c.regs| && c.table.slots[i].pid == p
    requires c'.table.slots[i] == c.table.slots[i] && c'.regs[i] == c.regs[i]
    ensures Rank(c', p) == Rank(c, p)
  {
    IndexUnique(c.table.slots, i);
    IndexUnique(c'.table.slots, i);
  }

  /** Where slot i still holds p after a step, p's rank is read off there; elsewhere it is gone. */
  lemma RankAt(c: State, p: int, i: nat)
    requires Sized(c) && Layout(c.table.slots) && p > 0 && i < |c.regs|
    requires forall j :: 0 <= j < |c.regs| && c.table.slots[j].pid == p ==> j == i
    ensures c.table.slots[i].pid != p ==> Rank(c, p) == 0
    ensures c.table.slots[i].pid == p && !c.regs[i].open ==> Rank(c, p) == 2
    ensures c.table.slots[i].pid == p && c.regs[i].open && Matches(c.regs[i], c.table.slots[i]) ==> Rank(c, p) == 1
    ensures c.table.slots[i].pid == p && c.regs[i].open && !Matches(c.regs[i], c.table.slots[i]) ==> Rank(c, p) == 3
  {
    if c.table.slots[i].pid == p {
      IndexUnique(c.table.slots, i);
    }
  }

  /** The scan of p's own slot lowers its rank. */
  lemma ScanSlotLowersRank(c: State, p: int, i: nat, fd: bool)
    requires Sound(c) && p > 0 && i < |c.regs| && c.table.slots[i].pid == p
    ensures Rank(ScanSlot(c, i, fd, false), p) < Rank(c, p)
  {
    var c' := ScanSlot(c, i, fd, false);
    ScanSlotSound(c, ScanSlot(c, i, fd, false), i, fd, false);
    assert forall j :: 0 <= j < |c.regs| && j != i ==> c'.table.slots[j] == c.table.slots[j];
    RankAt(c, p, i);
    RankAt(c', p, i);
  }

  /** A scan treats every slot by itself: slot j comes out as if it alone had been scanned. */
  lemma {:induction false} ScanPrefixAt(c: State, k: nat, j: nat, fds: set<int>, alive: set<int>)
    requires Sized(c) && j < k <= |c.regs|
    ensures var c', one := ScanPrefix(c, k, fds, alive),
                           ScanSlot(c, j, c.table.slots[j].pid in fds, c.table.slots[j].pid in alive);
      c'.table.slots[j] == one.table.slots[j] && c'.regs[j] == one.regs[j]
  {
    if j < k - 1 {
      ScanPrefixAt(c, k - 1, j, fds, alive);
    }
  }

  lemma ScanRank(c: State, p: int, fds: set<int>, alive: set<int>)
    requires Sound(c) && p > 0 && p !in alive
    ensures Rank(Scan(c, fds, alive), p) <= Rank(c, p)
    ensures Rank(c, p) > 0 ==> Rank(Scan(c, fds, alive), p) < Rank(c, p)
  {
    var c' := Scan(c, fds, alive);
    ScanPrefixSound(c, Scan(c, fds, alive), |c.regs|, fds, alive);
    forall j | 0 <= j < |c.regs| && c'.table.slots[j].pid == p
      ensures c.table.slots[j].pid == p
    {
      ScanPrefixAt(c, |c.regs|, j, fds, alive);
    }
    var i := IndexOf(c.table.slots, p);
    OnlyAt(c, p);
    if i >= 0 {
      ScanPrefixAt(c, |c.regs|, i, fds, alive);
      ScanSlotLowersRank(c, p, i, p in fds);
      var one := ScanSlot(c, i, p in fds, false);
      ScanSlotSound(c, ScanSlot(c, i, p in fds, false), i, p in fds, false);
      RankAt(one, p, i);
      RankAt(c', p, i);
    }
  }

  lemma WriteRank(c: State, q: int, u: Usage, start: nat, p: int)
    requires Sound(c) && u.qp >= 0 && u.mr >= 0 && p > 0 && q != p
    ensures Rank(Step(c, Write(q, u, start)), p) <= Rank(c, p)
  {
    var c' := Step(c, Write(q, u, start));
    StepSound(c, Write(q, u, start));
    var i, k := IndexOf(c.table.slots, p), Target(c.table.slots, q);
    if i >= 0 {
      assert c'.table.slots[i] == c.table.slots[i];
      RankFrame(c, c', p, i);
    } else {
      assert forall j :: 0 <= j < |c.regs| ==> c'.table.slots[j].pid != p;
    }
  }

  lemma WipeRank(c: State, k: int, p: int)
    requires Sound(c) && p > 0
    ensures Rank(Step(c, Wipe(k)), p) <= Rank(c, p)
  {
    var c' := Step(c, Wipe(k));
    StepSound(c, Wipe(k));
    var i := IndexOf(c.table.slots, p);
    if i < 0 || k == i {
      OnlyAt(c, p);
      assert forall j :: 0 <= j < |c.regs| ==> c'.table.slots[j].pid != p;
    } else {
      RankFrame(c, c', p, i);
    }
  }

  /** An exit event on p's own slot: matched is freed, mismatched becomes unregistered. */
  lemma ExitRank(c: State, k: int, p: int)
    requires Sound(c) && p > 0
    ensures Rank(Step(c, Exit(k)), p) <= Rank(c, p)
  {
    var c' := Step(c, Exit(k));
    StepSound(c, Exit(k));
    var i := IndexOf(c.table.slots, p);
    if i < 0 {
      assert forall j :: 0 <= j < |c.regs| ==> c'.table.slots[j].pid != p;
    } else if k == i {
      OnlyAt(c, p);
      RankAt(c, p, i);
      RankAt(c', p, i);
    } else {
      RankFrame(c, c', p, i);
    }
  }

  /** A scan lowers a positive rank; nothing else raises it. */
  lemma RankStep(c: State, e: Event, p: int)
    requires Sound(c) && CountsOk(e) && Quiet(e, p) && p > 0
    ensures Rank(Step(c, e), p) <= Rank(c, p)
    ensures e.Sweep? && Rank(c, p) > 0 ==> Rank(Step(c, e), p) < Rank(c, p)
  {
    match e
    case Write(q, u, start) => WriteRank(c, q, u, start, p);
    case Wipe(k) => WipeRank(c, k, p);
    case Initialise => assert forall j :: 0 <= j < |c.regs| ==> Step(c, e).table.slots[j].pid != p;
    case Exit(k) => ExitRank(c, k, p);
    case Sweep(fds, alive) => ScanRank(c, p, fds, alive);
  }

  lemma OnlyAt(c: State, p: int)
    requires Sized(c) && Layout(c.table.slots) && p > 0
    ensures forall j :: 0 <= j < |c.regs| && c.table.slots[j].pid == p ==> j == IndexOf(c.table.slots, p)
  {
    forall j | 0 <= j < |c.regs| && c.table.slots[j].pid == p
      ensures j == IndexOf(c.table.slots, p)
    {
      IndexUnique(c.table.slots, j);
    }
  }

  /**
    Bounded reclamation: once p is dead and its entry is left alone, every scan brings the entry
    one rank closer to being freed, whatever pidfd_open answers and whatever exit events, other
    processes' updates and clears come between. From any registration state, the zeroed start-up
    table included, three scans are enough for p's entry to be gone.
   */
  lemma {:induction false} BoundedReclamation(c: State, es: seq<Event>, p: int)
    requires Sound(c) && p > 0
    requires forall i :: 0 <= i < |es| ==> CountsOk(es[i]) && Quiet(es[i], p)
    ensures Rank(Run(c, es), p) + Scans(es) <= Rank(c, p) || Rank(Run(c, es), p) == 0
    ensures Scans(es) >= 3 ==> IndexOf(Run(c, es).table.slots, p) < 0 && Lookup(Run(c, es).table, p) == NONE
  {
    if es != [] {
      BoundedReclamation(c, es[..|es| - 1], p);
      Conservation(c, es[..|es| - 1]);
      RankStep(Run(c, es[..|es| - 1]), es[|es| - 1], p);
    }
  }

  /** Three scans can be needed: the zeroed table mismatches, pidfd_open fails on the first scan,
      succeeds on a zombie in the second, and the health check frees the entry in the third. */
  lemma ThreeScansCanBeNeeded(u: Usage)
    ensures var c := State(Table([Slot(7, 5, u)], Shift(NONE, u, NONE)), [ZEROED]);
      var es := [Sweep({}, {}), Sweep({7}, {})];
      && Inv(c.table) && Rank(c, 7) == 3
      && Lookup(Run(c, es).table, 7) == u
      && Lookup(Run(c, es + [Sweep({}, {})]).table, 7) == NONE
  {
    var c := State(Table([Slot(7, 5, u)], Shift(NONE, u, NONE)), [ZEROED]);
    var e1, e2, e3 := Sweep({}, {}), Sweep({7}, {}), Sweep({}, {});
    TotalOfOne(c.table.slots[0]);
    var c1, c2 := c.(regs := [CLOSED]), c.(regs := [Reg(true, 7, 5)]);
    OneSlotScan(c, {}, {});
    OneSlotScan(c1, {7}, {});
    OneSlotScan(c2, {}, {});
    assert [e1, e2][..1] == [e1] && [e1][..0] == [];
    assert Run(c, []) == c;
    assert Run(c, [e1]) == c1;
    assert Run(c, [e1, e2]) == c2;
    assert ([e1, e2] + [e3])[..2] == [e1, e2];
    assert Run(c, [e1, e2] + [e3]) == Step(c2, e3);
  }

  lemma OneSlotScan(c: State, fds: set<int>, alive: set<int>)
    requires Sized(c) && |c.regs| == 1
    ensures Scan(c, fds, alive) ==
      ScanSlot(c, 0, c.table.slots[0].pid in fds, c.table.slots[0].pid in alive)
  {
    assert ScanPrefix(c, 0, fds, alive) == c;
  }

  lemma TotalOfOne(s: Slot)
    ensures Total([s]) == Shift(NONE, s.usage, NONE)
  {
    assert [s][..0] == [];
    assert Sum([s], Qp) == Sum([s][..0], Qp) + Qp(s);
    assert Sum([s], Mr) == Sum([s][..0], Mr) + Mr(s);
    assert Sum([s], Mem) == Sum([s][..0], Mem) + Mem(s);
  }

  // ----- Pid reuse -----

  /**
    A new process with the pid of the slot's dead owner writes the slot while the owner's exit is
    still to be handled. Its accounting survives the exit event if and only if the write recognised
    the reuse: its start time was read, one was stored, and they differ. Otherwise the event reaps
    the living process.
   */
  lemma TakeoverSurvivesExit(c: State, i: nat, u: Usage, start: nat)
    requires Sound(c) && i < |c.regs| && c.table.slots[i].pid != 0 && Matches(c.regs[i], c.table.slots[i])
    ensures var pid := c.table.slots[i].pid;
      var t := HandleExit(Step(c, Write(pid, u, start)), i).table;
      var stored := c.table.slots[i].start;
      Lookup(t, pid) == if start != 0 && stored != 0 && start != stored then u else NONE
  {
    var pid := c.table.slots[i].pid;
    IndexUnique(c.table.slots, i);
    var d := Step(c, Write(pid, u, start));
    UpdateKeepsInv(c.table, pid, u, start);
    IndexUnique(d.table.slots, i);
    if !Reused(c.table.slots[i], start) {
      OnlyAt(d, pid);
      assert forall j :: 0 <= j < |c.regs| ==> HandleExit(d, i).table.slots[j].pid != pid;
    }
  }

  // ----- The collector in memory -----

  class GarbageCollector {
    const shm: SharedTable
    const table: array<Reg>

    ghost predicate Valid() {
      shm.Valid() && table.Length == shm.pids.Length
    }

    ghost function View(): State
      requires Valid()
      reads shm, shm.pids, shm.starts, shm.stats, table
    {
      State(shm.View(), table[..])
    }

    /** The table as gc_thread_func zeroes it. */
    constructor (shm: SharedTable)
      requires shm.Valid()
      ensures Valid() && this.shm == shm && fresh(table)
      ensures View() == State(shm.View(), seq(shm.pids.Length, _ => ZEROED))
    {
      this.shm := shm;
      table := new Reg[shm.pids.Length](_ => ZEROED);
    }

    /** gc_handle_process_exit up to the tenant adjustment: what the dead process held. */
    method OnExit(slot: nat) returns (target: int, dead: Usage)
      requires Valid() && slot < table.Length
      modifies shm`global, shm.pids, shm.starts, shm.stats, table
      ensures View() == HandleExit(old(View()), slot)
      ensures target != 0 ==> target == old(shm.pids[slot]) && dead == old(shm.stats[slot])
      ensures target == 0 <==> old(shm.pids[slot]) == 0 || !Matches(old(table[slot]), old(View()).table.slots[slot])
    {
      ghost var c := View();
      assert c.table.slots[slot] == Slot(shm.pids[slot], shm.starts[slot], shm.stats[slot]);
      target, dead := 0, NONE;
      var changed := shm.pids[slot] != table[slot].pid || shm.starts[slot] != table[slot].start;
      if !changed && shm.pids[slot] != 0 {
        target := shm.pids[slot];
        var ok;
        ok, dead := shm.ClearEntry(slot);
      }
      table[slot] := CLOSED;
      assert table[..] == c.regs[slot := CLOSED];
    }

    method Register(slot: nat, pid: int, start: nat, fd: bool)
      requires Valid() && slot < table.Length
      modifies table
      ensures table[..] == old(table[..])[slot := if fd then Reg(true, pid, start) else CLOSED]
    {
      table[slot] := if fd then Reg(true, pid, start) else CLOSED;
    }

    method ScanOne(slot: nat, fds: set<int>, alive: set<int>)
      requires Valid() && slot < table.Length
      modifies shm`global, shm.pids, shm.starts, shm.stats, table
      ensures View() == ScanSlot(old(View()), slot, old(shm.pids[slot]) in fds, old(shm.pids[slot]) in alive)
    {
      ghost var c := View();
      assert c.table.slots[slot] == Slot(shm.pids[slot], shm.starts[slot], shm.stats[slot]);
      var pid, start := shm.pids[slot], shm.starts[slot];
      if pid == 0 {
        if table[slot].open {
          table[slot] := CLOSED;
          assert table[..] == c.regs[slot := CLOSED];
        }
        return;
      }
      if !table[slot].open {
        Register(slot, pid, start, pid in fds);
        if !table[slot].open && pid !in alive {
          var _, _ := shm.ClearEntry(slot);
        }
        return;
      }
      if table[slot].pid != pid || table[slot].start != start {
        Register(slot, pid, start, pid in fds);
        return;
      }
      if pid !in alive {
        var _, _ := shm.ClearEntry(slot);
        table[slot] := CLOSED;
        assert table[..] == c.regs[slot := CLOSED];
      }
    }

    /** gc_scan_and_register. */
    method ScanAndRegister(fds: set<int>, alive: set<int>)
      requires Valid()
      modifies shm`global, shm.pids, shm.starts, shm.stats, table
      ensures View() == Scan(old(View()), fds, alive)
    {
      ghost var c := View();
      for slot := 0 to table.Length
        invariant View() == ScanPrefix(c, slot, fds, alive)
      {
        ghost var d := View();
        assert d.table.slots[slot].pid == shm.pids[slot];
        ScanPrefixNext(c, d, slot, fds, alive);
        ScanOne(slot, fds, alive);
      }
    }
  }
}
