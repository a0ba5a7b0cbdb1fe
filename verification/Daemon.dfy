/**
  What the daemon does when a process has exited: the collector frees the process's entry, and the
  tenant the process is bound to is given back what the entry recorded.
 */
module Daemon {
  import opened Common
  import opened Sums
  import opened ProcessTable
  import Gc = Collector
  import T = Tenants
  import Q = TenantQuota
  import H = Hooks

  datatype State = State(gc: Gc.State, reg: T.Registry)

  /** The adjustment of the tenant of a dead process whose entry recorded `dead`. */
  function Adjusted(reg: T.Registry, pid: int, dead: Usage): T.Registry {
    var id := T.TenantOf(reg, pid);
    if pid > 0 && dead.qp > 0 && id.Some?
    then Q.EditUsage(reg, id.value, Q.Collected(dead.qp, dead.mr, dead.mem))
    else reg
  }

  /** gc_handle_process_exit. */
  function ProcessExit(d: State, i: nat): State
    requires Gc.Sized(d.gc) && i < |d.gc.regs|
  {
    var s := d.gc.table.slots[i];
    State(Gc.HandleExit(d.gc, i),
          if Gc.Matches(d.gc.regs[i], s) && s.pid != 0 then Adjusted(d.reg, s.pid, s.usage) else d.reg)
  }

  /** Slot i is still the registered process's, and that process belongs to tenant id. */
  ghost predicate Dying(d: State, i: nat, id: nat) {
    && Gc.Sound(d.gc) && i < |d.gc.regs| && d.gc.table.slots[i].pid != 0
    && Gc.Matches(d.gc.regs[i], d.gc.table.slots[i])
    && T.TenantOf(d.reg, d.gc.table.slots[i].pid) == Some(id)
    && 0 < id < |d.reg.tenants| && d.reg.tenants[id].status == T.Active
  }

  /**
    One exit settles both accounts: the entry is gone, the totals fall by exactly what it recorded,
    and if it recorded a QP so do the tenant's QPs, MRs and memory as far as they go. Nothing else of
    the tenant and no other tenant is touched; an entry without QPs changes no tenant at all.
   */
  lemma ExitSettlesBoth(d: State, i: nat, id: nat, other: nat)
    requires Dying(d, i, id) && d.reg.tenants[id].usage.qp >= 0
    ensures var s, d' := d.gc.table.slots[i], ProcessExit(d, i);
      && Lookup(d'.gc.table, s.pid) == NONE
      && d'.gc.table.global == Shift(d.gc.table.global, NONE, s.usage)
      && |d'.reg.tenants| == |d.reg.tenants| && d'.reg.maps == d.reg.maps
      && d'.reg.tenants[id].usage.qp == Max(0, d.reg.tenants[id].usage.qp - s.usage.qp)
      && (s.usage.qp == 0 ==> d'.reg == d.reg)
      && (s.usage.qp > 0 ==>
            var t := d.reg.tenants[id];
            d'.reg.tenants[id] == t.(usage := t.usage.(qp := Max(0, t.usage.qp - s.usage.qp),
                                                       mr := Max(0, t.usage.mr - s.usage.mr),
                                                       mem := Max(0, t.usage.mem - s.usage.mem))))
      && (other != id && other < |d.reg.tenants| ==> d'.reg.tenants[other] == d.reg.tenants[other])
  {
    var s, d' := d.gc.table.slots[i], ProcessExit(d, i);
    assert s.usage.qp >= 0;
    forall j | 0 <= j < |d.gc.regs|
      ensures d'.gc.table.slots[j].pid != s.pid
    {
      if j != i {
        assert d.gc.table.slots[j].pid != s.pid;
      }
    }
    assert IndexOf(d'.gc.table.slots, s.pid) < 0;
  }

  /** No tenant is touched by an exit event that frees nothing, or by the exit of a process that is
      bound to no tenant or to one that is not active. */
  lemma ExitSparesTenants(d: State, i: nat)
    requires Gc.Sized(d.gc) && i < |d.gc.regs|
    requires var pid := d.gc.table.slots[i].pid;
      || ProcessExit(d, i).gc.table == d.gc.table
      || T.TenantOf(d.reg, pid).None?
      || T.GetUsage(d.reg, T.TenantOf(d.reg, pid).value).None?
    ensures ProcessExit(d, i).reg == d.reg
  {
    assert Reap(d.gc.table, i).slots[i] == FREE;
  }

  /**
    Whether the tenant's count is still that of its processes after the exit. It was: `all` QPs of
    all its processes, `own` of them the dying one's, of which the entry records at least that many,
    since destroying a QP does not write the table. It still is if and only if the entry records no
    more than the process had, or no other process of the tenant had any.
   */
  lemma ExitKeepsTenantExact(d: State, i: nat, id: nat, all: nat, own: nat)
    requires Dying(d, i, id) && d.reg.tenants[id].usage.qp == all
    requires own <= all && own <= d.gc.table.slots[i].usage.qp
    ensures ProcessExit(d, i).reg.tenants[id].usage.qp == all - own <==>
            d.gc.table.slots[i].usage.qp == own || all == own
  {
    ExitSettlesBoth(d, i, id, id);
  }

  /**
    The family that breaks it: a process whose entry is up to date destroys a QP and exits while
    another process of the tenant has QPs. The destroyed QP is given back twice, and of the
    all - own QPs the others have, one is not counted any more.
   */
  lemma DestroyedThenExited(d: State, h: H.State, i: nat, id: nat, all: nat, own: nat)
    requires Dying(d, i, id) && h.reg == d.reg && h.table == d.gc.table
    requires h.qp == own == d.gc.table.slots[i].usage.qp && d.reg.tenants[id].usage.qp == all && 0 < own < all
    ensures var h' := H.Destroy(h, id, true);
      var d' := ProcessExit(d.(reg := h'.reg), i);
      h'.qp == own - 1 && d'.reg.tenants[id].usage.qp == all - own - 1
  {
    var h' := H.Destroy(h, id, true);
    assert T.TenantOf(h'.reg, d.gc.table.slots[i].pid) == T.TenantOf(d.reg, d.gc.table.slots[i].pid);
    ExitSettlesBoth(d.(reg := h'.reg), i, id, id);
  }

  // ----- A tenant's count over runs with exits -----

  /** One process of the tenant: the QPs it has, and what its entry in the table records. */
  datatype Member = Member(live: nat, recorded: nat)

  /** A tenant and its processes, whose calls do not overlap. */
  datatype Crew = Crew(tenant: T.Tenant, members: seq<Member>)

  datatype Call =
    | Open(k: nat, works: bool)
    | Close(k: nat)
    | Exit(k: nat)

  /** A create commits the new count to the entry, a destroy leaves the entry alone, and an exit takes
      what the entry recorded off the tenant's count. */
  function After(c: Crew, e: Call): Crew {
    if e.k >= |c.members| then c else
    var m := c.members[e.k];
    match e
    case Open(k, works) =>
      var (ok, t) := T.Allocated(c.tenant);
      if !ok then c.(tenant := t)
      else if works then Crew(t, c.members[k := Member(m.live + 1, m.live + 1)])
      else c.(tenant := t.(usage := Q.Edited(t.usage, Q.Rollback)))
    case Close(k) =>
      if m.live == 0 then c
      else Crew(c.tenant.(usage := Q.Edited(c.tenant.usage, Q.Destroyed)), c.members[k := m.(live := m.live - 1)])
    case Exit(k) =>
      var t := if m.recorded > 0 then c.tenant.(usage := Q.Edited(c.tenant.usage, Q.Collected(m.recorded, 0, 0)))
               else c.tenant;
      Crew(t, c.members[k := Member(0, 0)])
  }

  function CrewRun(c: Crew, es: seq<Call>): Crew {
    if es == [] then c else After(CrewRun(c, es[..|es| - 1]), es[|es| - 1])
  }

  function LiveOf(m: Member): int { m.live }

  /** Entries record at least what their processes have, and the tenant is charged with at most that. */
  ghost predicate InOrder(c: Crew) {
    && c.tenant.status == T.Active
    && (forall k :: 0 <= k < |c.members| ==> c.members[k].live <= c.members[k].recorded)
    && 0 <= c.tenant.usage.qp <= Sum(c.members, LiveOf)
  }

  ghost predicate CountExact(c: Crew) { c.tenant.usage.qp == Sum(c.members, LiveOf) }

  /** The exit of a process that destroyed QPs since its last create, while others of the tenant have some. */
  ghost predicate Lossy(c: Crew, e: Call) {
    && e.Exit? && e.k < |c.members| && c.members[e.k].recorded != c.members[e.k].live
    && Sum(c.members, LiveOf) != c.members[e.k].live
  }

  lemma AfterInOrder(c: Crew, e: Call)
    requires InOrder(c)
    ensures InOrder(After(c, e))
    ensures CountExact(c) ==> (CountExact(After(c, e)) <==> !Lossy(c, e))
  {
    if e.k < |c.members| {
      SumUpdate(c.members, LiveOf, e.k, After(c, e).members[e.k]);
      SumBoundsTerms(c.members, LiveOf);
      assert LiveOf(c.members[e.k]) <= Sum(c.members, LiveOf);
      assert c.members[e.k].live <= c.members[e.k].recorded;
    }
  }

  /** The count is exact after the run and was after every part of it. */
  ghost predicate ExactThroughout(c: Crew, es: seq<Call>) {
    CountExact(CrewRun(c, es)) && (es != [] ==> ExactThroughout(c, es[..|es| - 1]))
  }

  ghost predicate NoLossyExit(c: Crew, es: seq<Call>) {
    es != [] ==> NoLossyExit(c, es[..|es| - 1]) && !Lossy(CrewRun(c, es[..|es| - 1]), es[|es| - 1])
  }

  /**
    Over every run of creates, failed creates, destroys and exits of a tenant's processes the tenant is
    never charged with more QPs than they have; and it is charged with exactly those throughout if and
    only if no process exits after destroying QPs since its last create while others have QPs.
   */
  lemma {:induction false} CountsOverExits(c: Crew, es: seq<Call>)
    requires InOrder(c) && CountExact(c)
    ensures InOrder(CrewRun(c, es))
    ensures ExactThroughout(c, es) <==> NoLossyExit(c, es)
  {
    if es != [] {
      CountsOverExits(c, es[..|es| - 1]);
      AfterInOrder(CrewRun(c, es[..|es| - 1]), es[|es| - 1]);
    }
  }

  // ----- The daemon's structures in memory -----

  class CollectorServer {
    const gc: Gc.GarbageCollector
    const tenants: T.TenantRegistry

    ghost predicate Valid()
      reads tenants.tenants
    {
      gc.Valid() && tenants.Valid()
    }

    ghost function View(): State
      requires gc.Valid()
      reads gc.shm, gc.shm.pids, gc.shm.starts, gc.shm.stats, gc.table, tenants, tenants.tenants, tenants.maps
    {
      State(gc.View(), tenants.View())
    }

    constructor (gc: Gc.GarbageCollector, tenants: T.TenantRegistry)
      requires gc.Valid() && tenants.Valid()
      ensures this.gc == gc && this.tenants == tenants && Valid()
    {
      this.gc := gc;
      this.tenants := tenants;
    }

    /** gc_handle_process_exit. Closing the registration, which no one else reads, comes first here. */
    method HandleProcessExit(slot: nat)
      requires Valid() && slot < gc.table.Length
      modifies gc.shm`global, gc.shm.pids, gc.shm.starts, gc.shm.stats, gc.table, tenants.tenants
      ensures Valid() && View() == ProcessExit(old(View()), slot)
    {
      ghost var d := View();
      assert d.gc.table.slots[slot] == Slot(gc.shm.pids[slot], gc.shm.starts[slot], gc.shm.stats[slot]);
      var target, dead := gc.OnExit(slot);
      if target > 0 && dead.qp > 0 {
        AdjustTenant(target, dead);
      }
    }

    /** Reads the tenant's usage, takes off what the dead process held, and writes it back. */
    method AdjustTenant(pid: int, dead: Usage)
      requires Valid() && pid > 0 && dead.qp > 0
      modifies tenants.tenants
      ensures Valid() && tenants.View() == Adjusted(old(tenants.View()), pid, dead)
    {
      var found, id := tenants.GetProcessTenant(pid);
      if found && id > 0 {
        var u := tenants.GetResourceUsage(id);
        if u.Some? {
          var _ := tenants.UpdateResourceUsage(id, Q.Edited(u.value, Q.Collected(dead.qp, dead.mr, dead.mem)));
        }
      }
    }
  }
}
