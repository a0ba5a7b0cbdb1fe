/**
  The process accounting table kept in shared memory: a fixed array of slots (pid, start time,
  usage) and running global totals. Values first (what each critical section does to the table),
  then the class whose methods do it on arrays.
 */
module ProcessTable {
  import opened Common
  import opened Sums

  datatype Usage = Usage(qp: int, mr: int, mem: nat)
  const NONE := Usage(0, 0, 0)

  datatype Slot = Slot(pid: int, start: nat, usage: Usage)
  const FREE := Slot(0, 0, NONE)

  datatype Table = Table(slots: seq<Slot>, global: Usage)

  /** The global totals after replacing the share `was` by `now`; memory wraps at 2^64. */
  function Shift(g: Usage, now: Usage, was: Usage): Usage {
    Usage(g.qp + (now.qp - was.qp), g.mr + (now.mr - was.mr), U64(g.mem + now.mem - was.mem))
  }

  /** The first slot holding `pid` (0 asks for a free slot), or -1. */
  function IndexOf(slots: seq<Slot>, pid: int): (r: int)
    ensures -1 <= r < |slots|
    ensures r >= 0 ==> slots[r].pid == pid && forall j :: 0 <= j < r ==> slots[j].pid != pid
    ensures r < 0 ==> forall j :: 0 <= j < |slots| ==> slots[j].pid != pid
  {
    First(slots, (s: Slot) => s.pid, pid)
  }

  /** What shm_get_process_resources reports for a positive pid. */
  function Lookup(t: Table, pid: int): Usage {
    var i := IndexOf(t.slots, pid);
    if i < 0 then NONE else t.slots[i].usage
  }

  /** A start time was read, one is stored, and they differ: the pid names another process now. */
  predicate Reused(s: Slot, start: nat) {
    start != 0 && s.start != 0 && start != s.start
  }

  /** shm_update_process_resources; `start` is what reading the start time of `pid` returned. */
  function Update(t: Table, pid: int, u: Usage, start: nat): (bool, Table) {
    if pid <= 0 then (false, t) else
    var i := IndexOf(t.slots, pid);
    var e := IndexOf(t.slots, 0);
    if i >= 0 then
      var s := t.slots[i];
      if Reused(s, start) then
        (true, Table(t.slots[i := Slot(pid, start, u)], Shift(Shift(t.global, NONE, s.usage), u, NONE)))
      else
        (true, Table(t.slots[i := Slot(pid, s.start, u)], Shift(t.global, u, s.usage)))
    else if e >= 0 then
      (true, Table(t.slots[e := Slot(pid, start, u)], Shift(t.global, u, t.slots[e].usage)))
    else (false, t)
  }

  /** Empties slot i and takes its share out of the totals. */
  function Reap(t: Table, i: nat): Table
    requires i < |t.slots|
  {
    Table(t.slots[i := FREE], Shift(t.global, NONE, t.slots[i].usage))
  }

  /** shm_clear_process_entry. */
  function Clear(t: Table, i: int): (bool, Table) {
    if 0 <= i < |t.slots| && t.slots[i].pid != 0 then (true, Reap(t, i)) else (false, t)
  }

  /** The table as shm_init initialises it. */
  function Cleared(t: Table): Table { Table(seq(|t.slots|, _ => FREE), NONE) }

  /** shm_init reads the totals, without the lock, in table `t0`; if they are all zero it initialises
      the table, which is `t` by then. */
  function AttachOver(t0: Table, t: Table): Table {
    if t0.global == NONE then Cleared(t) else t
  }

  /** shm_init with nothing in between. */
  function Attach(t: Table): Table { AttachOver(t, t) }

  // ----- The invariant -----

  function Qp(s: Slot): int { s.usage.qp }
  function Mr(s: Slot): int { s.usage.mr }
  function Mem(s: Slot): int { s.usage.mem }

  function Total(slots: seq<Slot>): Usage {
    Usage(Sum(slots, Qp), Sum(slots, Mr), U64(Sum(slots, Mem)))
  }

  ghost predicate Layout(slots: seq<Slot>) {
    && (forall i, j :: 0 <= i < j < |slots| && slots[i].pid == slots[j].pid ==> slots[i].pid == 0)
    && (forall i :: 0 <= i < |slots| ==> slots[i].pid >= 0)
    && (forall i :: 0 <= i < |slots| && slots[i].pid == 0 ==> slots[i] == FREE)
  }

  /** Pids are unique, free slots are blank, and the totals are the sums over the slots. */
  ghost predicate Inv(t: Table) {
    Layout(t.slots) && t.global == Total(t.slots)
  }

  ghost predicate NonNegative(t: Table) {
    forall i :: 0 <= i < |t.slots| ==> t.slots[i].usage.qp >= 0 && t.slots[i].usage.mr >= 0
  }

  /** Replacing slot i by s shifts the totals from the old share to the new one. */
  lemma TotalUpdate(slots: seq<Slot>, i: nat, s: Slot)
    requires i < |slots|
    ensures Total(slots[i := s]) == Shift(Total(slots), s.usage, slots[i].usage)
  {
    SumUpdate(slots, Qp, i, s);
    SumUpdate(slots, Mr, i, s);
    SumUpdate(slots, Mem, i, s);
  }

  /** Handing a share back and then taking a new one is the same as exchanging them. */
  lemma ShiftTwice(g: Usage, now: Usage, was: Usage)
    ensures Shift(Shift(g, NONE, was), now, NONE) == Shift(g, now, was)
  {
  }

  /** In a table with unique pids, any slot holding a pid is the slot found for it. */
  lemma IndexUnique(slots: seq<Slot>, i: nat)
    requires Layout(slots) && i < |slots| && slots[i].pid != 0
    ensures IndexOf(slots, slots[i].pid) == i
  {
    var r := IndexOf(slots, slots[i].pid);
    assert r >= 0 && slots[r].pid == slots[i].pid;
  }

  /** The slot an update of `pid` writes. */
  function Target(slots: seq<Slot>, pid: int): int {
    var i := IndexOf(slots, pid);
    if i >= 0 then i else IndexOf(slots, 0)
  }

  lemma UpdateKeepsInv(t: Table, pid: int, u: Usage, start: nat)
    requires Inv(t)
    ensures Inv(Update(t, pid, u, start).1)
  {
    var k := Target(t.slots, pid);
    if pid > 0 && k >= 0 {
      var s' := Update(t, pid, u, start).1.slots[k];
      TotalUpdate(t.slots, k, s');
      ShiftTwice(t.global, u, t.slots[k].usage);
    }
  }

  lemma ReapKeepsInv(t: Table, i: nat)
    requires Inv(t) && i < |t.slots|
    ensures Inv(Reap(t, i))
  {
    TotalUpdate(t.slots, i, FREE);
  }

  // ----- Update refines map put -----

  /**
    An update is a put on the map from pids to usages: the pid's own entry becomes u, no other
    entry changes, and it is refused exactly when the pid is not positive, or has no slot while
    no slot is free. A refused update changes nothing.
   */
  lemma UpdateRefinesPut(t: Table, pid: int, u: Usage, start: nat)
    requires Inv(t)
    ensures var (ok, t') := Update(t, pid, u, start);
      && Inv(t')
      && (ok <==> pid > 0 && exists i :: 0 <= i < |t.slots| && t.slots[i].pid in {pid, 0})
      && (!ok ==> t' == t)
      && (ok ==> Lookup(t', pid) == u)
      && forall q :: q > 0 && q != pid ==> Lookup(t', q) == Lookup(t, q)
  {
    UpdateKeepsInv(t, pid, u, start);
    var (ok, t') := Update(t, pid, u, start);
    var k := Target(t.slots, pid);
    if ok {
      assert t.slots[k].pid in {pid, 0};
      IndexUnique(t'.slots, k);
      forall q | q > 0 && q != pid
        ensures Lookup(t', q) == Lookup(t, q)
      {
        LookupFrame(t, t', k, q);
      }
    }
  }

  /** A change confined to slot k does not touch the lookup of a pid that slot never held. */
  lemma LookupFrame(t: Table, t': Table, k: nat, q: int)
    requires Layout(t.slots) && Layout(t'.slots)
    requires k < |t.slots| == |t'.slots| && t'.slots == t.slots[k := t'.slots[k]]
    requires q > 0 && t.slots[k].pid != q && t'.slots[k].pid != q
    ensures Lookup(t', q) == Lookup(t, q)
  {
    var i := IndexOf(t.slots, q);
    if i >= 0 {
      assert t'.slots[i] == t.slots[i];
      IndexUnique(t'.slots, i);
    } else {
      assert IndexOf(t'.slots, q) < 0;
    }
  }

  /** Two tables that differ only in stored start times. */
  ghost predicate SameAccounting(t: Table, t': Table) {
    && t.global == t'.global
    && |t.slots| == |t'.slots|
    && forall i :: 0 <= i < |t.slots| ==>
         t.slots[i].pid == t'.slots[i].pid && t.slots[i].usage == t'.slots[i].usage
  }

  /** The start time read decides nothing but the stored start time: the pid-reuse branch and the
      ordinary one account alike. */
  lemma UpdateIgnoresStartTime(t: Table, pid: int, u: Usage, start: nat, start': nat)
    ensures Update(t, pid, u, start).0 == Update(t, pid, u, start').0
    ensures SameAccounting(Update(t, pid, u, start).1, Update(t, pid, u, start').1)
  {
    var i := IndexOf(t.slots, pid);
    if i >= 0 {
      ShiftTwice(t.global, u, t.slots[i].usage);
    }
  }

  /** Which start time an update leaves: a known one is replaced only by another that was read, never by a
      failed reading (0); an unknown one stays unknown; a new entry takes what was read. */
  lemma StoredStartTime(t: Table, pid: int, u: Usage, start: nat)
    requires Inv(t) && Update(t, pid, u, start).0
    ensures var i, k := IndexOf(t.slots, pid), Target(t.slots, pid);
      var stored := Update(t, pid, u, start).1.slots[k].start;
      && (i < 0 ==> stored == start)
      && (i >= 0 && (start == 0 || t.slots[i].start == 0) ==> stored == t.slots[i].start)
      && (i >= 0 && start != 0 && t.slots[i].start != 0 ==> stored == start)
  {
  }

  /** With non-negative counts, no subtraction from the totals goes below zero: not the one that
      reaps a slot, nor the one that forgets a reused pid, and every share is within the totals. */
  lemma NoUnderflow(t: Table, i: nat)
    requires Inv(t) && NonNegative(t) && i < |t.slots|
    ensures 0 <= t.slots[i].usage.qp <= t.global.qp
    ensures 0 <= t.slots[i].usage.mr <= t.global.mr
    ensures Sum(t.slots, Mem) < TWO64 ==> t.slots[i].usage.mem <= t.global.mem
  {
    SumBoundsTerms(t.slots, Qp);
    SumBoundsTerms(t.slots, Mr);
    SumBoundsTerms(t.slots, Mem);
    assert Qp(t.slots[i]) <= Sum(t.slots, Qp);
    assert Mr(t.slots[i]) <= Sum(t.slots, Mr);
    assert Mem(t.slots[i]) <= Sum(t.slots, Mem);
  }

  /**
    Clearing an entry removes its pid from the map from pids to usages and touches no other pid. It is
    refused, changing nothing, exactly for positions outside the table and for free slots.
   */
  lemma ClearRefinesRemove(t: Table, i: int, pid: int)
    requires Inv(t) && pid > 0
    ensures var (ok, t') := Clear(t, i);
      && Inv(t') && (ok <==> 0 <= i < |t.slots| && t.slots[i].pid != 0) && (!ok ==> t' == t)
      && Lookup(t', pid) == if ok && t.slots[i].pid == pid then NONE else Lookup(t, pid)
  {
    var (ok, t') := Clear(t, i);
    if ok {
      ReapKeepsInv(t, i);
      if t.slots[i].pid == pid {
        assert forall j :: 0 <= j < |t.slots| ==> t'.slots[j].pid != pid;
      } else {
        LookupFrame(t, t', i, pid);
      }
    }
  }

  /** Clearing the entry that an update has just made for a new pid restores the whole table. */
  lemma ClearUndoesUpdate(t: Table, pid: int, u: Usage, start: nat)
    requires Inv(t) && Update(t, pid, u, start).0 && IndexOf(t.slots, pid) < 0
    ensures Clear(Update(t, pid, u, start).1, IndexOf(t.slots, 0)) == (true, t)
  {
    var t' := Update(t, pid, u, start).1;
    var k := IndexOf(t.slots, 0);
    UpdateKeepsInv(t, pid, u, start);
    ReapKeepsInv(t', k);
    assert Reap(t', k).slots == t.slots;
  }

  // ----- Attaching -----

  /** No process is charged with anything else in t' than in t. */
  ghost predicate SameLookups(t: Table, t': Table) {
    forall pid :: Lookup(t', pid) == Lookup(t, pid)
  }

  /** Nothing is charged to anyone: the true sums are zero. */
  ghost predicate Uncharged(t: Table) {
    Sum(t.slots, Qp) == Sum(t.slots, Mr) == Sum(t.slots, Mem) == 0
  }

  lemma ClearedInv(t: Table)
    ensures Inv(Cleared(t)) && NonNegative(Cleared(t)) && Uncharged(Cleared(t))
  {
    SumConstant(Cleared(t).slots, Qp, 0);
    SumConstant(Cleared(t).slots, Mr, 0);
    SumConstant(Cleared(t).slots, Mem, 0);
  }

  /** Attaching keeps the invariant; it keeps the totals if and only if it initialises nothing, or the
      totals are still zero when it does. */
  lemma AttachKeepsTotals(t0: Table, t: Table)
    requires Inv(t)
    ensures Inv(AttachOver(t0, t))
    ensures AttachOver(t0, t).global == t.global <==> (t0.global == NONE ==> t.global == NONE)
  {
    ClearedInv(t);
  }

  lemma UnchargedMeans(t: Table)
    requires Inv(t) && NonNegative(t)
    ensures Uncharged(t) <==> forall i :: 0 <= i < |t.slots| ==> t.slots[i].usage == NONE
  {
    SumBoundsTerms(t.slots, Qp);
    SumBoundsTerms(t.slots, Mr);
    SumBoundsTerms(t.slots, Mem);
    if Uncharged(t) {
      forall i | 0 <= i < |t.slots|
        ensures t.slots[i].usage == NONE
      {
        assert Qp(t.slots[i]) <= 0 && Mr(t.slots[i]) <= 0 && Mem(t.slots[i]) <= 0;
      }
    }
    if forall i :: 0 <= i < |t.slots| ==> t.slots[i].usage == NONE {
      SumConstant(t.slots, Qp, 0);
      SumConstant(t.slots, Mr, 0);
      SumConstant(t.slots, Mem, 0);
    }
  }

  lemma ClearKeepsLookups(t: Table)
    requires Inv(t) && NonNegative(t)
    ensures SameLookups(t, Cleared(t)) <==> Uncharged(t)
  {
    UnchargedMeans(t);
    assert forall pid :: Lookup(Cleared(t), pid) == NONE;
    if SameLookups(t, Cleared(t)) {
      forall i | 0 <= i < |t.slots|
        ensures t.slots[i].usage == NONE
      {
        if t.slots[i].pid != 0 {
          IndexUnique(t.slots, i);
          assert Lookup(Cleared(t), t.slots[i].pid) == Lookup(t, t.slots[i].pid);
        }
      }
    }
  }

  /**
    Attaching changes what no process is charged with if and only if it read a total that was not
    zero, or nothing is charged to anyone at the moment it initialises.
   */
  lemma AttachHarmless(t0: Table, t: Table)
    requires Inv(t) && NonNegative(t)
    ensures SameLookups(t, AttachOver(t0, t)) <==> (t0.global == NONE ==> Uncharged(t))
  {
    ClearKeepsLookups(t);
  }

  /** With nothing between read and initialisation, that can fail only by a wrapped memory total. */
  lemma UndisturbedAttachHarmless(t: Table)
    requires Inv(t) && NonNegative(t)
    ensures SameLookups(t, Attach(t)) <==> (t.global == NONE ==> Sum(t.slots, Mem) < TWO64)
  {
    AttachHarmless(t, t);
    SumBoundsTerms(t.slots, Mem);
  }

  /** In every table whose memory total has wrapped to zero with nothing else charged, attaching
      forgets a process that holds memory. */
  lemma AttachForgetsWrappedMemory(t: Table)
    requires Inv(t) && t.global == NONE && Sum(t.slots, Mem) >= TWO64
    ensures exists pid :: pid > 0 && Lookup(t, pid).mem > 0 && Lookup(Attach(t), pid) == NONE
  {
    if forall i :: 0 <= i < |t.slots| ==> Mem(t.slots[i]) == 0 {
      SumConstant(t.slots, Mem, 0);
    }
    var i :| 0 <= i < |t.slots| && Mem(t.slots[i]) != 0;
    IndexUnique(t.slots, i);
    assert Lookup(t, t.slots[i].pid).mem > 0;
  }

  /** An update between the read and the initialisation is forgotten, whatever it says, although
      attaching at the moment of the read would have been harmless. */
  lemma UpdateLostToAttach(t: Table, pid: int, u: Usage, start: nat)
    requires Inv(t) && NonNegative(t) && t.global == NONE && Sum(t.slots, Mem) < TWO64
    requires Update(t, pid, u, start).0
    ensures var t' := Update(t, pid, u, start).1;
      && SameLookups(t, Attach(t)) && Lookup(t', pid) == u
      && Lookup(AttachOver(t, t'), pid) == NONE && AttachOver(t, t') == Cleared(t)
  {
    UndisturbedAttachHarmless(t);
    UpdateRefinesPut(t, pid, u, start);
  }

  /** The initialisation writes the totals first and the slots afterwards. */
  function TotalsZeroed(t: Table): Table { t.(global := NONE) }
  function SlotsBlanked(t: Table): Table { t.(slots := Cleared(t).slots) }

  /**
    An update that falls inside the initialisation, after the totals and before its own slot, leaves
    totals that charge nobody: the invariant survives if and only if the update changed no share.
   */
  lemma UpdateInsideAttach(t: Table, pid: int, u: Usage, start: nat)
    requires Inv(t) && Update(t, pid, u, start).0
    ensures var was := t.slots[Target(t.slots, pid)].usage;
      var t' := SlotsBlanked(Update(TotalsZeroed(t), pid, u, start).1);
      && (forall q :: Lookup(t', q) == NONE)
      && t'.global == Shift(NONE, u, was)
      && (Inv(t') <==> Shift(NONE, u, was) == NONE)
  {
    ClearedInv(t);
    var was := t.slots[Target(t.slots, pid)].usage;
    ShiftTwice(NONE, u, was);
    var t' := SlotsBlanked(Update(TotalsZeroed(t), pid, u, start).1);
    assert t'.slots == Cleared(t).slots;
  }

  /** There are such tables: two processes holding 2^63 bytes each and nothing else. */
  lemma MemoryCanWrap()
    ensures var u := Usage(0, 0, TWO64 / 2);
      var t := Table([Slot(1, 1, u), Slot(2, 1, u)], NONE);
      Inv(t) && NonNegative(t) && Sum(t.slots, Mem) == TWO64
  {
    var u := Usage(0, 0, TWO64 / 2);
    var s := [Slot(1, 1, u), Slot(2, 1, u)];
    SumConstant(s, Mem, TWO64 / 2);
    SumConstant(s, Qp, 0);
    SumConstant(s, Mr, 0);
  }

  // ----- The table in memory -----

  class SharedTable {
    const pids: array<int>
    const starts: array<nat>
    const stats: array<Usage>
    var global: Usage

    ghost predicate Valid() {
      && pids.Length == starts.Length == stats.Length
      && pids as object != starts
    }

    ghost function Slots(): (s: seq<Slot>)
      requires Valid()
      reads pids, starts, stats
      ensures |s| == pids.Length
      ensures forall i :: 0 <= i < |s| ==> s[i] == Slot(pids[i], starts[i], stats[i])
    {
      seq(pids.Length, i requires 0 <= i < pids.Length && Valid() reads pids, starts, stats =>
        Slot(pids[i], starts[i], stats[i]))
    }

    ghost function View(): Table
      requires Valid()
      reads this, pids, starts, stats
    {
      Table(Slots(), global)
    }

    constructor (n: nat)
      ensures Valid() && fresh(pids) && fresh(starts) && fresh(stats)
      ensures View() == Table(seq(n, _ => FREE), NONE)
    {
      pids := new int[n](_ => 0);
      starts := new nat[n](_ => 0);
      stats := new Usage[n](_ => NONE);
      global := NONE;
    }

    /** shm_init on an existing segment, with nothing in between. */
    method Reattach()
      requires Valid()
      modifies this`global, pids, starts, stats
      ensures View() == Attach(old(View()))
    {
      if global.qp == 0 && global.mr == 0 && global.mem == 0 {
        Initialise();
      }
    }

    /** What shm_init does once it has read zero totals, whatever the table holds by then. */
    method Initialise()
      requires Valid()
      modifies this`global, pids, starts, stats
      ensures View() == Cleared(old(View()))
    {
      global := NONE;
      for i := 0 to pids.Length
        invariant forall j :: 0 <= j < i ==> Slot(pids[j], starts[j], stats[j]) == FREE
        invariant global == NONE
      {
        stats[i] := NONE;
        pids[i] := 0;
        starts[i] := 0;
      }
      assert Slots() == Cleared(old(View())).slots;
    }

    /** shm_get_process_resources. */
    method GetProcess(pid: int) returns (ok: bool, usage: Usage)
      requires Valid()
      ensures ok <==> pid > 0
      ensures ok ==> usage == Lookup(View(), pid)
    {
      usage := NONE;
      if pid <= 0 {
        return false, usage;
      }
      for i := 0 to pids.Length
        invariant forall j :: 0 <= j < i ==> Slots()[j].pid != pid
      {
        if pids[i] == pid {
          assert Slots()[i].pid == pid;
          return true, stats[i];
        }
      }
      return true, NONE;
    }

    /** shm_update_process_resources; `start` is the start time read for `pid`. */
    method UpdateProcess(pid: int, usage: Usage, start: nat) returns (ok: bool)
      requires Valid()
      modifies this`global, pids, starts, stats
      ensures (ok, View()) == Update(old(View()), pid, usage, start)
    {
      if pid <= 0 {
        return false;
      }
      ghost var t := View();
      var slot, empty := FindSlot(pid);
      var k := slot;
      if slot >= 0 {
        if start != 0 && starts[slot] != 0 && start != starts[slot] {
          global := Shift(global, NONE, stats[slot]);
          stats[slot] := NONE;
          starts[slot] := start;
        }
      } else if empty >= 0 {
        k := empty;
        pids[k] := pid;
        starts[k] := start;
      } else {
        return false;
      }
      var was := stats[k];
      stats[k] := usage;
      global := Shift(global, usage, was);
      assert Slots() == Update(t, pid, usage, start).1.slots;
      return true;
    }

    /** The search loop of an update: the pid's slot, or else the first free one. */
    method FindSlot(pid: int) returns (slot: int, empty: int)
      requires Valid() && pid != 0
      ensures slot == IndexOf(View().slots, pid)
      ensures slot < 0 ==> empty == IndexOf(View().slots, 0)
    {
      slot, empty := -1, -1;
      for i := 0 to pids.Length
        invariant slot == -1 && -1 <= empty < i
        invariant forall j :: 0 <= j < i ==> Slots()[j].pid != pid
        invariant empty < 0 ==> forall j :: 0 <= j < i ==> Slots()[j].pid != 0
        invariant empty >= 0 ==> Slots()[empty].pid == 0 && forall j :: 0 <= j < empty ==> Slots()[j].pid != 0
      {
        assert Slots()[i].pid == pids[i];
        if pids[i] == pid {
          slot := i;
          break;
        } else if pids[i] == 0 && empty == -1 {
          empty := i;
        }
      }
    }

    /** shm_clear_process_entry, and the same statements inlined in the collector. */
    method ClearEntry(slot: int) returns (ok: bool, freed: Usage)
      requires Valid()
      modifies this`global, pids, starts, stats
      ensures (ok, View()) == Clear(old(View()), slot)
      ensures ok ==> freed == old(View()).slots[slot].usage
    {
      freed := NONE;
      if slot < 0 || slot >= pids.Length || pids[slot] == 0 {
        assert Slots() == old(View()).slots;
        return false, freed;
      }
      freed := stats[slot];
      global := Shift(global, NONE, stats[slot]);
      stats[slot] := NONE;
      pids[slot] := 0;
      starts[slot] := 0;
      assert Slots() == old(View()).slots[slot := FREE];
      return true, freed;
    }
  }
}
