/**
  The write-back buffer in front of the accounting table: updates are collected per pid, later ones
  replacing earlier ones, and written out on a flush, which also happens when the buffer is full.
  `starts` is the start time every process has, unchanging while its updates are buffered.
 */
module Batch {
  import opened Common
  import opened ProcessTable

  datatype Entry = Entry(pid: int, usage: Usage)

  datatype State = State(buffer: seq<Entry>, table: Table)

  function FindEntry(buffer: seq<Entry>, pid: int): (r: int)
    ensures -1 <= r < |buffer|
    ensures r >= 0 ==> buffer[r].pid == pid && forall j :: 0 <= j < r ==> buffer[j].pid != pid
    ensures r < 0 ==> forall j :: 0 <= j < |buffer| ==> buffer[j].pid != pid
  {
    First(buffer, (e: Entry) => e.pid, pid)
  }

  function Write(t: Table, e: Entry, starts: int -> nat): Table {
    Update(t, e.pid, e.usage, starts(e.pid)).1
  }

  /** The table after the entries are written out, first to last. */
  function WriteAll(t: Table, es: seq<Entry>, starts: int -> nat): Table {
    if es == [] then t else Write(WriteAll(t, es[..|es| - 1], starts), es[|es| - 1], starts)
  }

  /** perf_optimizer_flush_batch_buffer. */
  function Flush(s: State, starts: int -> nat): State {
    State([], WriteAll(s.table, s.buffer, starts))
  }

  /** perf_optimizer_batch_update_resource, with batching on and room for `cap` entries. */
  function Put(s: State, cap: nat, e: Entry, starts: int -> nat): State {
    var i := FindEntry(s.buffer, e.pid);
    if i >= 0 then s.(buffer := s.buffer[i := e])
    else if |s.buffer| < cap then s.(buffer := s.buffer + [e])
    else State([e], Flush(s, starts).table)
  }

  /** perf_optimizer_batch_update_resource: with batching off the update is written at once, and its
      answer is the table's; with batching on the answer is always success. */
  function Submit(s: State, cap: nat, batching: bool, e: Entry, starts: int -> nat): (bool, State) {
    if batching then (true, Put(s, cap, e, starts))
    else (Update(s.table, e.pid, e.usage, starts(e.pid)).0, s.(table := Write(s.table, e, starts)))
  }

  datatype Op = Batched(entry: Entry) | FlushNow

  function Run(s: State, cap: nat, ops: seq<Op>, starts: int -> nat): State {
    if ops == [] then s
    else
      var mid := Run(s, cap, ops[..|ops| - 1], starts);
      match ops[|ops| - 1]
      case Batched(e) => Put(mid, cap, e, starts)
      case FlushNow => Flush(mid, starts)
  }

  /** The same updates written through at once. */
  function Immediate(t: Table, ops: seq<Op>, starts: int -> nat): Table {
    if ops == [] then t
    else
      var mid := Immediate(t, ops[..|ops| - 1], starts);
      match ops[|ops| - 1]
      case Batched(e) => Write(mid, e, starts)
      case FlushNow => mid
  }

  // ----- Updates of different pids -----

  /** Whether pid p has a slot, or can never get one, is decided. */
  ghost predicate Settled(slots: seq<Slot>, p: int) {
    p <= 0 || IndexOf(slots, p) >= 0 || IndexOf(slots, 0) < 0
  }

  /** Searching sees only the pids. */
  lemma IndexByPids(a: seq<Slot>, b: seq<Slot>, p: int)
    requires |a| == |b| && forall i :: 0 <= i < |a| ==> a[i].pid == b[i].pid
    ensures IndexOf(a, p) == IndexOf(b, p)
  {
    var i, j := IndexOf(a, p), IndexOf(b, p);
    assert i >= 0 ==> b[i].pid == p;
    assert j >= 0 ==> a[j].pid == p;
  }

  /** The totals of a table in order are determined by its slots. */
  lemma SlotsDetermine(t: Table, t': Table)
    requires Inv(t) && Inv(t') && t.slots == t'.slots
    ensures t == t'
  {
  }

  lemma WriteInv(t: Table, e: Entry, starts: int -> nat)
    requires Inv(t)
    ensures Inv(Write(t, e, starts))
  {
    UpdateKeepsInv(t, e.pid, e.usage, starts(e.pid));
  }

  lemma WriteSettles(t: Table, e: Entry, starts: int -> nat, p: int)
    requires Inv(t) && (e.pid == p || Settled(t.slots, p))
    ensures Settled(Write(t, e, starts).slots, p) && Inv(Write(t, e, starts))
  {
    UpdateKeepsInv(t, e.pid, e.usage, starts(e.pid));
    var t' := Write(t, e, starts);
    var k := Target(t.slots, e.pid);
    if e.pid > 0 && k >= 0 {
      IndexUnique(t'.slots, k);
      var i := IndexOf(t.slots, p);
      if p > 0 && e.pid != p {
        if i >= 0 {
          assert t'.slots[i] == t.slots[i];
          IndexUnique(t'.slots, i);
        } else {
          assert forall j :: 0 <= j < |t.slots| ==> t'.slots[j].pid != 0;
        }
      }
    }
  }

  /** What a write of e puts in a slot. */
  function Rewritten(s: Slot, e: Entry, starts: int -> nat): Slot {
    if s.pid == e.pid && !Reused(s, starts(e.pid)) then Slot(e.pid, s.start, e.usage)
    else Slot(e.pid, starts(e.pid), e.usage)
  }

  predicate Lands(slots: seq<Slot>, e: Entry) { e.pid > 0 && Target(slots, e.pid) >= 0 }

  /** The slots after a write of e: one changed, or none. */
  function Written(slots: seq<Slot>, e: Entry, starts: int -> nat): seq<Slot> {
    var k := Target(slots, e.pid);
    if Lands(slots, e) then slots[k := Rewritten(slots[k], e, starts)] else slots
  }

  lemma WriteSlots(t: Table, e: Entry, starts: int -> nat)
    ensures Write(t, e, starts).slots == Written(t.slots, e, starts)
    ensures !Lands(t.slots, e) ==> Write(t, e, starts) == t
  {
  }

  /** A second update of a pid makes the first one as if it had not been. */
  lemma OverwriteSlots(slots: seq<Slot>, e: Entry, e': Entry, starts: int -> nat)
    requires Layout(Written(slots, e, starts)) && e.pid == e'.pid
    ensures Written(Written(slots, e, starts), e', starts) == Written(slots, e', starts)
  {
    if Lands(slots, e) {
      var k := Target(slots, e.pid);
      IndexUnique(Written(slots, e, starts), k);
      assert Rewritten(Rewritten(slots[k], e, starts), e', starts) == Rewritten(slots[k], e', starts);
    }
  }

  lemma Overwrite(t: Table, e: Entry, e': Entry, starts: int -> nat)
    requires Inv(t) && e.pid == e'.pid
    ensures Write(Write(t, e, starts), e', starts) == Write(t, e', starts)
  {
    WriteInv(t, e, starts);
    WriteInv(t, e', starts);
    WriteInv(Write(t, e, starts), e', starts);
    WriteSlots(t, e, starts);
    WriteSlots(t, e', starts);
    WriteSlots(Write(t, e, starts), e', starts);
    OverwriteSlots(t.slots, e, e', starts);
    SlotsDetermine(Write(Write(t, e, starts), e', starts), Write(t, e', starts));
  }

  /** p has slot i, q lands in another slot k, and neither write disturbs the other. */
  lemma CommuteLanding(slots: seq<Slot>, p: Entry, q: Entry, i: nat, starts: int -> nat)
    requires Layout(slots) && Layout(Written(slots, q, starts))
    requires p.pid > 0 && p.pid != q.pid && i == IndexOf(slots, p.pid) && Lands(slots, q)
    ensures var k := Target(slots, q.pid);
      && k != i && i == IndexOf(Written(slots, q, starts), p.pid)
      && Written(Written(slots, q, starts), p, starts)
         == slots[k := Rewritten(slots[k], q, starts)][i := Rewritten(slots[i], p, starts)]
  {
    var sq := Written(slots, q, starts);
    assert sq[i] == slots[i];
    IndexUnique(sq, i);
  }

  /** A write of p in its own slot changes no pid, so the search for q finds what it found. */
  lemma AfterPresent(slots: seq<Slot>, p: Entry, q: Entry, i: nat, starts: int -> nat)
    requires p.pid > 0 && p.pid != q.pid && i == IndexOf(slots, p.pid)
    ensures var sp := slots[i := Rewritten(slots[i], p, starts)];
      && Written(slots, p, starts) == sp && (Lands(sp, q) <==> Lands(slots, q))
      && (Lands(slots, q) ==> Target(sp, q.pid) == Target(slots, q.pid) != i)
  {
    var sp := slots[i := Rewritten(slots[i], p, starts)];
    IndexByPids(slots, sp, q.pid);
    IndexByPids(slots, sp, 0);
  }

  /** p has slot i; wherever q lands, it is another slot, and the order does not matter. */
  lemma CommutePresent(slots: seq<Slot>, p: Entry, q: Entry, i: nat, starts: int -> nat)
    requires Layout(slots) && Layout(Written(slots, q, starts))
    requires p.pid > 0 && p.pid != q.pid && i == IndexOf(slots, p.pid)
    ensures Written(Written(slots, q, starts), p, starts) == Written(Written(slots, p, starts), q, starts)
  {
    AfterPresent(slots, p, q, i, starts);
    if Lands(slots, q) {
      CommuteLanding(slots, p, q, i, starts);
    }
  }

  /** Once p is settled, its updates commute with those of any other pid. */
  lemma Commute(t: Table, p: Entry, q: Entry, starts: int -> nat)
    requires Inv(t) && Settled(t.slots, p.pid) && p.pid != q.pid
    ensures Write(Write(t, q, starts), p, starts) == Write(Write(t, p, starts), q, starts)
  {
    var tp, tq := Write(t, p, starts), Write(t, q, starts);
    var i := IndexOf(t.slots, p.pid);
    if p.pid > 0 && i >= 0 {
      WriteInv(t, p, starts);
      WriteInv(t, q, starts);
      WriteInv(tq, p, starts);
      WriteInv(tp, q, starts);
      WriteSlots(t, p, starts);
      WriteSlots(t, q, starts);
      WriteSlots(tq, p, starts);
      WriteSlots(tp, q, starts);
      CommutePresent(t.slots, p, q, i, starts);
      SlotsDetermine(Write(tq, p, starts), Write(tp, q, starts));
    } else if p.pid > 0 {
      WriteSlots(t, q, starts);
      IndexByPids(t.slots, tq.slots, p.pid);
      IndexByPids(t.slots, tq.slots, 0);
    }
  }

  lemma {:induction false} WriteAllInv(t: Table, es: seq<Entry>, starts: int -> nat)
    requires Inv(t)
    ensures Inv(WriteAll(t, es, starts))
  {
    if es != [] {
      WriteAllInv(t, es[..|es| - 1], starts);
      var mid, e := WriteAll(t, es[..|es| - 1], starts), es[|es| - 1];
      UpdateKeepsInv(mid, e.pid, e.usage, starts(e.pid));
    }
  }

  /** An update of a settled pid can be moved before a flush of other pids. */
  lemma {:induction false} MoveBefore(t: Table, p: Entry, es: seq<Entry>, starts: int -> nat)
    requires Inv(t) && Settled(t.slots, p.pid) && forall i :: 0 <= i < |es| ==> es[i].pid != p.pid
    ensures Settled(WriteAll(t, es, starts).slots, p.pid)
    ensures Write(WriteAll(t, es, starts), p, starts) == WriteAll(Write(t, p, starts), es, starts)
  {
    if es != [] {
      var front, q := es[..|es| - 1], es[|es| - 1];
      MoveBefore(t, p, front, starts);
      WriteAllInv(t, front, starts);
      var mid := WriteAll(t, front, starts);
      Commute(mid, p, q, starts);
      WriteSettles(mid, q, starts, p.pid);
    }
  }

  lemma OneMore(t: Table, es: seq<Entry>, e: Entry, starts: int -> nat)
    ensures WriteAll(t, es + [e], starts) == Write(WriteAll(t, es, starts), e, starts)
  {
    assert (es + [e])[..|es|] == es;
  }

  lemma ConcatOneMore(t: Table, a: seq<Entry>, b: seq<Entry>, e: Entry, starts: int -> nat)
    requires WriteAll(t, a + b, starts) == WriteAll(WriteAll(t, a, starts), b, starts)
    ensures WriteAll(t, a + (b + [e]), starts) == WriteAll(WriteAll(t, a, starts), b + [e], starts)
  {
    assert a + (b + [e]) == (a + b) + [e];
    OneMore(t, a + b, e, starts);
    OneMore(WriteAll(t, a, starts), b, e, starts);
  }

  lemma {:induction false} WriteAllConcat(t: Table, a: seq<Entry>, b: seq<Entry>, starts: int -> nat)
    ensures WriteAll(t, a + b, starts) == WriteAll(WriteAll(t, a, starts), b, starts)
  {
    if b == [] {
      assert a + b == a;
    } else {
      var front, e := b[..|b| - 1], b[|b| - 1];
      assert b == front + [e];
      WriteAllConcat(t, a, front, starts);
      ConcatOneMore(t, a, front, e, starts);
    }
  }

  ghost predicate Distinct(es: seq<Entry>) {
    forall i, j :: 0 <= i < j < |es| ==> es[i].pid != es[j].pid
  }

  /** A flush, cut at one of its entries. */
  lemma SplitAt(t: Table, pre: seq<Entry>, e: Entry, post: seq<Entry>, starts: int -> nat)
    ensures WriteAll(t, pre + [e] + post, starts) == WriteAll(Write(WriteAll(t, pre, starts), e, starts), post, starts)
  {
    WriteAllConcat(t, pre + [e], post, starts);
    OneMore(t, pre, e, starts);
  }

  /** Replacing an entry in the buffer is as good as a later update of the same pid. */
  lemma Coalesce(t: Table, es: seq<Entry>, i: nat, e: Entry, starts: int -> nat)
    requires Inv(t) && Distinct(es) && i < |es| && es[i].pid == e.pid
    ensures WriteAll(t, es[i := e], starts) == Write(WriteAll(t, es, starts), e, starts)
  {
    var pre, post := es[..i], es[i + 1..];
    assert es == pre + [es[i]] + post && es[i := e] == pre + [e] + post;
    SplitAt(t, pre, es[i], post, starts);
    SplitAt(t, pre, e, post, starts);
    WriteAllInv(t, pre, starts);
    UpdateThenFlush(WriteAll(t, pre, starts), es[i], e, post, starts);
  }

  lemma UpdateThenFlush(t: Table, e: Entry, e': Entry, post: seq<Entry>, starts: int -> nat)
    requires Inv(t) && e.pid == e'.pid && forall i :: 0 <= i < |post| ==> post[i].pid != e.pid
    ensures WriteAll(Write(t, e', starts), post, starts)
            == Write(WriteAll(Write(t, e, starts), post, starts), e', starts)
  {
    WriteSettles(t, e, starts, e.pid);
    MoveBefore(Write(t, e, starts), e', post, starts);
    Overwrite(t, e, e', starts);
  }

  /** One batched update, seen through a flush, is one update. The table is written only when the buffer
      is full of other pids, and the buffer never outgrows its capacity. */
  lemma PutRefines(s: State, cap: nat, e: Entry, starts: int -> nat)
    requires Inv(s.table) && Distinct(s.buffer) && cap > 0
    ensures var s' := Put(s, cap, e, starts);
      && Inv(s'.table) && Distinct(s'.buffer)
      && (|s.buffer| <= cap ==> |s'.buffer| <= cap)
      && (|s.buffer| < cap || (exists i :: 0 <= i < |s.buffer| && s.buffer[i].pid == e.pid) ==> s'.table == s.table)
      && Flush(s', starts).table == Write(Flush(s, starts).table, e, starts)
  {
    var i := FindEntry(s.buffer, e.pid);
    WriteAllInv(s.table, s.buffer, starts);
    if i >= 0 {
      Coalesce(s.table, s.buffer, i, e, starts);
    } else if |s.buffer| < cap {
      OneMore(s.table, s.buffer, e, starts);
    } else {
      OneMore(Flush(s, starts).table, [], e, starts);
      assert [] + [e] == [e];
    }
  }

  /**
    Batch refinement: for every sequence of batched updates and flushes, with replacement of pending
    entries, flushes forced by a full buffer, pids that are not positive and updates refused by a
    full table, a final flush leaves exactly the slots, usages, start times and totals that writing
    every update through at once would have left.
   */
  lemma {:induction false} BatchRefinement(t: Table, cap: nat, ops: seq<Op>, starts: int -> nat)
    requires Inv(t) && cap > 0
    ensures var s := Run(State([], t), cap, ops, starts);
      && Inv(s.table) && Distinct(s.buffer)
      && Flush(s, starts).table == Immediate(t, ops, starts)
  {
    if ops != [] {
      var before := ops[..|ops| - 1];
      BatchRefinement(t, cap, before, starts);
      var mid := Run(State([], t), cap, before, starts);
      match ops[|ops| - 1]
      case Batched(e) => PutRefines(mid, cap, e, starts);
      case FlushNow => WriteAllInv(mid.table, mid.buffer, starts);
    }
  }

  /**
    After a flush nothing is pending: flushing again changes nothing, and an update written directly is
    not undone by a later flush.
   */
  lemma FlushSettles(s: State, p: Entry, starts: int -> nat)
    requires Inv(s.table) && p.pid > 0
    ensures var s' := Flush(s, starts);
      && s'.buffer == [] && Flush(s', starts) == s'
      && (Target(s'.table.slots, p.pid) >= 0 ==>
            Lookup(Flush(s'.(table := Write(s'.table, p, starts)), starts).table, p.pid) == p.usage)
  {
    WriteAllInv(s.table, s.buffer, starts);
    UpdateRefinesPut(Flush(s, starts).table, p.pid, p.usage, starts(p.pid));
  }

  /**
    With batching off an update is written at once, answers as the table does, and leaves the buffer
    alone; with batching on it is taken, and a flush makes of both the same table if nothing is pending.
   */
  lemma SubmitMeans(s: State, cap: nat, e: Entry, starts: int -> nat)
    requires Inv(s.table) && Distinct(s.buffer) && cap > 0
    ensures var (ok, s') := Submit(s, cap, false, e, starts);
      && s'.buffer == s.buffer && s'.table == Immediate(s.table, [Batched(e)], starts)
      && (ok <==> e.pid > 0 && Target(s.table.slots, e.pid) >= 0)
      && (ok ==> Lookup(s'.table, e.pid) == e.usage)
    ensures var (ok, s') := Submit(s, cap, true, e, starts);
      && ok && Flush(s', starts).table == Write(Flush(s, starts).table, e, starts)
      && (s.buffer == [] ==> Flush(s', starts).table == Submit(s, cap, false, e, starts).1.table && s'.table == s.table)
  {
    PutRefines(s, cap, e, starts);
    UpdateRefinesPut(s.table, e.pid, e.usage, starts(e.pid));
    var ops := [Batched(e)];
    assert ops[..0] == [] && Immediate(s.table, ops[..0], starts) == s.table;
  }

  /**
    Turning batching off while entries are pending breaks this: an update written directly, in the
    pid's slot or in a free one, is undone by the flush exactly when the pid still has an entry in the
    buffer; the flush then leaves what the older entry says. It is kept exactly otherwise.
   */
  lemma DirectUpdateUnderPending(s: State, p: Entry, starts: int -> nat)
    requires Inv(s.table) && Distinct(s.buffer) && p.pid > 0 && Target(s.table.slots, p.pid) >= 0
    ensures var i := FindEntry(s.buffer, p.pid);
      var t := WriteAll(Write(s.table, p, starts), s.buffer, starts);
      Lookup(t, p.pid) == if i >= 0 then s.buffer[i].usage else p.usage
  {
    var t1 := Write(s.table, p, starts);
    UpdateRefinesPut(s.table, p.pid, p.usage, starts(p.pid));
    WriteSlots(s.table, p, starts);
    assert t1.slots[Target(s.table.slots, p.pid)].pid == p.pid;
    FlushLookup(t1, s.buffer, p.pid, starts);
  }

  lemma {:induction false} FlushLookup(t: Table, es: seq<Entry>, pid: int, starts: int -> nat)
    requires Inv(t) && Distinct(es) && pid > 0 && IndexOf(t.slots, pid) >= 0
    ensures var t' := WriteAll(t, es, starts);
      && Inv(t') && IndexOf(t'.slots, pid) >= 0
      && Lookup(t', pid) == if FindEntry(es, pid) >= 0 then es[FindEntry(es, pid)].usage else Lookup(t, pid)
  {
    if es != [] {
      var n := |es| - 1;
      FlushLookup(t, es[..n], pid, starts);
      var mid := WriteAll(t, es[..n], starts);
      UpdateRefinesPut(mid, es[n].pid, es[n].usage, starts(es[n].pid));
      KeepsSlot(mid, es[n], pid, starts);
      FindInPrefix(es, pid);
    }
  }

  lemma KeepsSlot(t: Table, e: Entry, pid: int, starts: int -> nat)
    requires Inv(t) && pid > 0 && IndexOf(t.slots, pid) >= 0
    ensures IndexOf(Write(t, e, starts).slots, pid) >= 0
  {
    var i := IndexOf(t.slots, pid);
    WriteSlots(t, e, starts);
    assert Write(t, e, starts).slots[i].pid == pid;
  }

  lemma FindInPrefix(es: seq<Entry>, pid: int)
    requires Distinct(es) && es != []
    ensures FindEntry(es, pid) == if es[|es| - 1].pid == pid then |es| - 1 else FindEntry(es[..|es| - 1], pid)
  {
    var n := |es| - 1;
    var i, j := FindEntry(es, pid), FindEntry(es[..n], pid);
    assert i >= 0 ==> es[i].pid == pid;
    assert j >= 0 ==> es[j].pid == pid;
    assert 0 <= i < n ==> es[..n][i].pid == pid;
  }

  // ----- The buffer in memory -----

  class BatchBuffer {
    const shm: SharedTable
    const pids: array<int>
    const pending: array<Usage>
    var count: nat

    ghost predicate Valid()
      reads this
    {
      && shm.Valid()
      && count <= pids.Length == pending.Length && pids.Length > 0
      && {pids as object, pending} !! {shm.pids as object, shm.starts, shm.stats}
    }

    ghost function Entries(): (es: seq<Entry>)
      requires Valid()
      reads this, pids, pending
      ensures |es| == count
      ensures forall i :: 0 <= i < count ==> es[i] == Entry(pids[i], pending[i])
    {
      seq(count, i requires 0 <= i < count && Valid() reads this, pids, pending => Entry(pids[i], pending[i]))
    }

    ghost function View(): State
      requires Valid()
      reads this, pids, pending, shm, shm.pids, shm.starts, shm.stats
    {
      State(Entries(), shm.View())
    }

    constructor (shm: SharedTable, cap: nat)
      requires shm.Valid() && cap > 0
      ensures Valid() && this.shm == shm && pids.Length == cap && fresh(pids) && fresh(pending)
      ensures View() == State([], shm.View())
    {
      this.shm := shm;
      pids := new int[cap](_ => 0);
      pending := new Usage[cap](_ => NONE);
      count := 0;
    }

    /** perf_optimizer_flush_batch_buffer. */
    method FlushBuffer(starts: int -> nat)
      requires Valid()
      modifies this`count, shm`global, shm.pids, shm.starts, shm.stats
      ensures Valid() && View() == Flush(old(View()), starts)
    {
      ghost var es, t := Entries(), shm.View();
      for i := 0 to count
        invariant Valid() && count == old(count) && Entries() == es
        invariant shm.View() == WriteAll(t, es[..i], starts)
        modifies shm`global, shm.pids, shm.starts, shm.stats
      {
        assert es[..i + 1] == es[..i] + [es[i]];
        OneMore(t, es[..i], es[i], starts);
        var _ := shm.UpdateProcess(pids[i], pending[i], starts(pids[i]));
      }
      assert es[..count] == es;
      count := 0;
    }

    /** perf_optimizer_batch_update_resource. */
    method BatchUpdate(batching: bool, pid: int, usage: Usage, starts: int -> nat) returns (ok: bool)
      requires Valid()
      modifies this`count, pids, pending, shm`global, shm.pids, shm.starts, shm.stats
      ensures Valid() && (ok, View()) == Submit(old(View()), pids.Length, batching, Entry(pid, usage), starts)
    {
      if batching {
        Enqueue(pid, usage, starts);
        ok := true;
      } else {
        ghost var es := Entries();
        ok := shm.UpdateProcess(pid, usage, starts(pid));
        assert Entries() == es;
      }
    }

    /** The search for a pending entry of the pid. */
    method FindPending(pid: int) returns (found: int)
      requires Valid()
      ensures found == FindEntry(Entries(), pid)
    {
      for i := 0 to count
        invariant forall j :: 0 <= j < i ==> pids[j] != pid
      {
        if pids[i] == pid {
          assert Entries()[i].pid == pid;
          return i;
        }
      }
      return -1;
    }

    /** Writes entry i, or the one after the last. */
    method StoreEntry(i: nat, pid: int, usage: Usage)
      requires Valid() && i <= count && i < pids.Length
      modifies this`count, pids, pending
      ensures Valid() && shm.View() == old(shm.View())
      ensures Entries() == if i < old(count) then old(Entries())[i := Entry(pid, usage)]
                           else old(Entries()) + [Entry(pid, usage)]
    {
      ghost var es := Entries();
      pids[i], pending[i] := pid, usage;
      if i == count {
        count := count + 1;
        assert Entries() == es + [Entry(pid, usage)];
      } else {
        assert Entries() == es[i := Entry(pid, usage)];
      }
    }

    /** With batching on: replace, append, or flush and start again. */
    method Enqueue(pid: int, usage: Usage, starts: int -> nat)
      requires Valid()
      modifies this`count, pids, pending, shm`global, shm.pids, shm.starts, shm.stats
      ensures Valid() && View() == Put(old(View()), pids.Length, Entry(pid, usage), starts)
    {
      var found := FindPending(pid);
      if found >= 0 {
        StoreEntry(found, pid, usage);
      } else {
        if count == pids.Length {
          FlushBuffer(starts);
        }
        StoreEntry(count, pid, usage);
      }
    }
  }
}
