/**
  Tenant quotas as the hooks use them. Allocation is one critical section, but every other change of
  a tenant's usage (rollback of a failed create, destroy, MR, CQ and PD bookkeeping, the collector's
  adjustment) reads the whole usage record in one critical section, edits the copy, and writes it
  back in another. Any number of clients do so at once, while the registry is being managed.
 */
module TenantQuota {
  import opened Common
  import opened Sums
  import opened Tenants

  /** What a client does to its copy between the read and the write. */
  datatype Edit =
    | Rollback
    | Destroyed
    | MrRegistered
    | MrDeregistered
    | CqChanged(delta: int)
    | PdChanged(delta: int)
    | Collected(qp: nat, mr: int, mem: nat)

  function Edited(u: Usage, e: Edit): Usage {
    match e
    case Rollback =>
      u.(qp := if u.qp > 0 then u.qp - 1 else u.qp, creates := if u.creates > 0 then u.creates - 1 else 0)
    case Destroyed => u.(qp := if u.qp - 1 < 0 then 0 else u.qp - 1, destroys := u.destroys + 1)
    case MrRegistered => u.(mr := u.mr + 1, regs := u.regs + 1)
    case MrDeregistered => u.(mr := u.mr - 1, deregs := u.deregs + 1)
    case CqChanged(delta) => u.(cq := u.cq + delta)
    case PdChanged(delta) => u.(pd := u.pd + delta)
    case Collected(qp, mr, mem) =>
      u.(qp := if u.qp > qp then u.qp - qp else 0,
         mr := if u.mr > mr then u.mr - mr else 0,
         mem := if u.mem > mem then u.mem - mem else 0)
  }

  /** Read, edit and write back with nothing in between; tenant 0 is no tenant. */
  function EditUsage(reg: Registry, tenant: nat, e: Edit): Registry {
    var u := GetUsage(reg, tenant);
    if tenant == 0 || u.None? then reg else PutUsage(reg, tenant, Edited(u.value, e)).1
  }

  datatype Copy = Copy(id: nat, usage: Usage)

  /** copies: the usage records clients hold, by client. peak[id]: the largest QP quota ever
      installed for that tenant id. */
  datatype State = State(reg: Registry, copies: map<int, Copy>, peak: seq<nat>)

  datatype Step =
    | Manage(op: Op)
    | Requota(id: nat, quota: Quota)
    | Allocate(id: nat)
    | Take(client: int, id: nat)
    | Put(client: int, edit: Edit)

  /** The QP quota a step installs, if it succeeds. */
  function Raised(s: State, id: nat, qp: nat): seq<nat> {
    if id < |s.peak| then s.peak[id := Max(s.peak[id], qp)] else s.peak
  }

  function Next(s: State, e: Step): State {
    match e
    case Manage(op) =>
      var (ok, reg) := Apply(s.reg, op);
      var peak :=
        if ok && op.CreateOp? then Raised(s, op.id, if op.quota.Some? then op.quota.value.qp else DEFAULT_QUOTA.qp)
        else s.peak;
      s.(reg := reg, peak := peak)
    case Requota(id, quota) =>
      var (ok, reg) := SetQuota(s.reg, id, quota);
      s.(reg := reg, peak := if ok then Raised(s, id, quota.qp) else s.peak)
    case Allocate(id) => s.(reg := TryAllocate(s.reg, id).1)
    case Take(c, id) =>
      var u := GetUsage(s.reg, id);
      if u.Some? then s.(copies := s.copies[c := Copy(id, u.value)]) else s
    case Put(c, edit) =>
      if c !in s.copies then s else
      var copy := s.copies[c];
      s.(reg := PutUsage(s.reg, copy.id, Edited(copy.usage, edit)).1, copies := s.copies - {c})
  }

  function Run(s: State, es: seq<Step>): State {
    if es == [] then s else Next(Run(s, es[..|es| - 1]), es[|es| - 1])
  }

  // ----- Quota safety -----

  ghost predicate Within(u: Usage, peak: nat) { 0 <= u.qp <= peak }

  /** Every recorded count and every outstanding copy is within what was ever allowed. */
  ghost predicate Safe(s: State) {
    && |s.peak| == |s.reg.tenants|
    && (forall id :: 0 <= id < |s.peak| ==>
          Within(s.reg.tenants[id].usage, s.peak[id]) && s.reg.tenants[id].quota.qp <= s.peak[id])
    && (forall c :: c in s.copies ==>
          s.copies[c].id < |s.peak| && Within(s.copies[c].usage, s.peak[s.copies[c].id]))
  }

  /** No edit of a copy takes its count out of the bounds it was read in. */
  lemma EditWithin(u: Usage, e: Edit, peak: nat)
    requires Within(u, peak)
    ensures Within(Edited(u, e), peak)
  {
  }

  /** What tenant records may become in a step, tenant by tenant. */
  ghost predicate Grows(peak: seq<nat>, peak': seq<nat>) {
    |peak'| == |peak| && forall id :: 0 <= id < |peak| ==> peak[id] <= peak'[id]
  }

  lemma ManageSafe(s: State, op: Op)
    requires Safe(s)
    ensures Safe(Next(s, Manage(op))) && Grows(s.peak, Next(s, Manage(op)).peak)
  {
    match op
    case CreateOp(id, quota) =>
    case DeleteOp(id) =>
    case StatusOp(id, status) =>
    case BindOp(pid, id) =>
    case UnbindOp(pid) =>
  }

  lemma PutSafe(s: State, c: int, edit: Edit)
    requires Safe(s)
    ensures Safe(Next(s, Put(c, edit)))
  {
    if c in s.copies {
      EditWithin(s.copies[c].usage, edit, s.peak[s.copies[c].id]);
    }
  }

  lemma NextSafe(s: State, e: Step)
    requires Safe(s)
    ensures Safe(Next(s, e)) && Grows(s.peak, Next(s, e).peak)
  {
    match e
    case Manage(op) => ManageSafe(s, op);
    case Put(c, edit) => PutSafe(s, c, edit);
    case Requota(id, quota) =>
    case Allocate(id) =>
    case Take(c, id) =>
  }

  /**
    Tenant quota safety: for every interleaving of allocations, rollbacks, destroys, MR, CQ and PD
    updates, collector adjustments, quota changes and registry management, by any number of clients
    whose reads and writes overlap, the recorded QP count of a tenant, every copy of it that a
    client holds, and the same copy edited in any way, stay between 0 and the largest QP quota ever
    installed for the tenant id.
   */
  lemma {:induction false} QuotaSafety(s: State, es: seq<Step>, id: nat, client: int, e: Edit)
    requires Safe(s) && id < |s.peak|
    ensures var s' := Run(s, es);
      && Safe(s') && |s'.peak| == |s.peak|
      && 0 <= s'.reg.tenants[id].usage.qp <= s'.peak[id]
      && (client in s'.copies ==>
            var copy := s'.copies[client];
            && 0 <= copy.usage.qp <= s'.peak[copy.id]
            && 0 <= Edited(copy.usage, e).qp <= s'.peak[copy.id])
  {
    if es != [] {
      QuotaSafety(s, es[..|es| - 1], id, client, e);
      NextSafe(Run(s, es[..|es| - 1]), es[|es| - 1]);
    }
    var s' := Run(s, es);
    if client in s'.copies {
      EditWithin(s'.copies[client].usage, e, s'.peak[s'.copies[client].id]);
    }
  }

  /** The zeroed registry, with no quota installed and no copy held, is where runs start. */
  lemma BlankSafe(tenants: nat, processes: nat)
    ensures var s := State(Blank(tenants, processes), map[], seq(tenants, _ => 0));
      Safe(s) && NoMemory(s) && Inv(s.reg) && Agreement(s.reg)
  {
    BlankOk(tenants, processes);
  }

  // ----- Memory is never counted -----

  /** No tenant's record and no held copy has any memory in it. */
  ghost predicate NoMemory(s: State) {
    && (forall id :: 0 <= id < |s.reg.tenants| ==> s.reg.tenants[id].usage.mem == 0)
    && (forall c :: c in s.copies ==> s.copies[c].usage.mem == 0)
  }

  lemma NextNoMemory(s: State, e: Step)
    requires NoMemory(s)
    ensures NoMemory(Next(s, e)) && |Next(s, e).reg.tenants| == |s.reg.tenants|
  {
    if e.Manage? {
      match e.op
      case CreateOp(id, quota) =>
      case DeleteOp(id) =>
      case StatusOp(id, status) =>
      case BindOp(pid, id) =>
      case UnbindOp(pid) =>
    }
  }

  /** Over every interleaving of everything that touches tenants, memory_used stays 0. */
  lemma {:induction false} MemoryNeverCounted(s: State, es: seq<Step>)
    requires NoMemory(s)
    ensures NoMemory(Run(s, es)) && |Run(s, es).reg.tenants| == |s.reg.tenants|
  {
    if es != [] {
      MemoryNeverCounted(s, es[..|es| - 1]);
      NextNoMemory(Run(s, es[..|es| - 1]), es[|es| - 1]);
    }
  }

  // ----- Exact enforcement of allocation -----

  /** Attempts on tenants, in the order the lock serves them; which ones are granted. */
  function Attempts(r: Registry, ids: seq<nat>): (seq<bool>, Registry) {
    if ids == [] then ([], r)
    else
      var (oks, mid) := Attempts(r, ids[..|ids| - 1]);
      var (ok, last) := TryAllocate(mid, ids[|ids| - 1]);
      (oks + [ok], last)
  }

  /** How many of the attempts were on this tenant, and how many of those were granted. */
  function Asked(ids: seq<nat>, id: nat): nat {
    if ids == [] then 0 else Asked(ids[..|ids| - 1], id) + if ids[|ids| - 1] == id then 1 else 0
  }

  function Granted(ids: seq<nat>, oks: seq<bool>, id: nat): nat
    requires |ids| == |oks|
  {
    if ids == [] then 0
    else
      var n := |ids| - 1;
      Granted(ids[..n], oks[..n], id) + if ids[n] == id && oks[n] then 1 else 0
  }

  /** The tenant's record after some of its attempts were granted; an attempt also clears a negative count. */
  function Charged(t: Tenant, asked: nat, granted: nat): Tenant {
    if asked == 0 then t
    else t.(usage := t.usage.(qp := Max(0, t.usage.qp) + granted, creates := t.usage.creates + granted))
  }

  /** What is left of the quota for the next attempts; nothing for a tenant that is not active. */
  function Left(t: Tenant): nat {
    if t.status == Active then Max(0, t.quota.qp - Max(0, t.usage.qp)) else 0
  }

  /**
    Over every interleaving of allocation attempts, on any tenants, a tenant grants exactly as many of
    its own as are asked and left of its quota: never one too many, never one too few. A tenant that is
    not active grants none and is not changed.
   */
  lemma {:induction false} GrantsAreExact(r: Registry, ids: seq<nat>, id: nat)
    requires id < |r.tenants|
    ensures var (oks, r') := Attempts(r, ids);
      var t, asked := r.tenants[id], Asked(ids, id);
      && |oks| == |ids| && |r'.tenants| == |r.tenants| && r' == r.(tenants := r'.tenants)
      && Granted(ids, oks, id) == Min(asked, Left(t))
      && r'.tenants[id] == if t.status == Active then Charged(t, asked, Min(asked, Left(t))) else t
  {
    if ids != [] {
      var n := |ids| - 1;
      GrantsAreExact(r, ids[..n], id);
      assert Attempts(r, ids).0[..n] == Attempts(r, ids[..n]).0;
    }
  }

  // ----- Reading and writing usage -----

  /**
    Usage is read and written for active tenants only: what was written is read back, writing back what
    was read changes nothing, and a write leaves quota, status, lists, mappings, counters and every
    other tenant alone.
   */
  lemma UsageRoundTrip(r: Registry, id: nat, u: Usage, other: nat)
    ensures var (ok, r') := PutUsage(r, id, u);
      && (ok <==> id < |r.tenants| && r.tenants[id].status == Active)
      && (GetUsage(r, id).Some? <==> ok) && (!ok ==> r' == r)
      && (ok ==> GetUsage(r', id) == Some(u) && PutUsage(r, id, GetUsage(r, id).value).1 == r)
      && |r'.tenants| == |r.tenants| && r' == r.(tenants := r'.tenants)
      && (other < |r.tenants| ==> r'.tenants[other] == r.tenants[other].(usage := r'.tenants[other].usage))
      && (other < |r.tenants| && other != id ==> r'.tenants[other] == r.tenants[other])
  {
    if id < |r.tenants| && r.tenants[id].status == Active {
      assert r.tenants[id := r.tenants[id].(usage := r.tenants[id].usage)] == r.tenants;
    }
  }

  // ----- Exact counts when hook calls do not overlap -----

  /** A whole hook call of one of the tenant's processes; Open says whether the real create works. */
  datatype Hook =
    | Open(works: bool)
    | Close
    | Other(edit: Edit)

  predicate NotQp(h: Hook) { h.Other? ==> !h.edit.Rollback? && !h.edit.Destroyed? && !h.edit.Collected? }

  /** The tenant's record and the QPs its processes really have, after a call that nothing overlaps. */
  function Call(t: Tenant, live: nat, h: Hook): (Tenant, nat) {
    match h
    case Open(works) =>
      var (ok, t') := Allocated(t);
      if !ok then (t', live)
      else if works then (t', live + 1)
      else (t'.(usage := Edited(t'.usage, Rollback)), live)
    case Close => if live == 0 then (t, live) else (t.(usage := Edited(t.usage, Destroyed)), live - 1)
    case Other(edit) => (t.(usage := Edited(t.usage, edit)), live)
  }

  function Calls(t: Tenant, hs: seq<Hook>): (Tenant, nat) {
    if hs == [] then (t, 0)
    else
      var (mid, live) := Calls(t, hs[..|hs| - 1]);
      Call(mid, live, hs[|hs| - 1])
  }

  /** The tenant's count is the QPs its processes have, and the creates not yet destroyed. */
  ghost predicate Exact(t: Tenant, live: nat, quota: Quota) {
    && t.status == Active && t.quota == quota
    && t.usage.qp == live == t.usage.creates - t.usage.destroys
    && live <= quota.qp
  }

  lemma CallExact(t: Tenant, live: nat, h: Hook, quota: Quota)
    requires Exact(t, live, quota) && NotQp(h)
    ensures Exact(Call(t, live, h).0, Call(t, live, h).1, quota)
  {
  }

  /**
    When hook calls do not overlap, the tenant's QP count is exactly the number of QPs its processes
    have, and exactly total_qp_creates - total_qp_destroys, through successes, failed creates and
    destroys; it never passes the quota, and the next create is let through exactly while there is
    quota left.
   */
  lemma {:induction false} SerialCountsAreExact(t: Tenant, hs: seq<Hook>)
    requires t.status == Active && t.usage == NO_USAGE && forall i :: 0 <= i < |hs| ==> NotQp(hs[i])
    ensures var (t', live) := Calls(t, hs);
      && t'.usage.qp == live == t'.usage.creates - t'.usage.destroys
      && live <= t.quota.qp
      && (Allocated(t').0 <==> live < t.quota.qp)
      && Exact(t', live, t.quota)
  {
    if hs != [] {
      SerialCountsAreExact(t, hs[..|hs| - 1]);
      var (mid, live) := Calls(t, hs[..|hs| - 1]);
      CallExact(mid, live, hs[|hs| - 1], t.quota);
    }
  }

  /** What a call should add to the counts of CQs, PDs and MRs. */
  function CqDelta(h: Hook): int { if h.Other? && h.edit.CqChanged? then h.edit.delta else 0 }
  function PdDelta(h: Hook): int { if h.Other? && h.edit.PdChanged? then h.edit.delta else 0 }
  function Registrations(h: Hook): int { if h.Other? && h.edit.MrRegistered? then 1 else 0 }
  function Deregistrations(h: Hook): int { if h.Other? && h.edit.MrDeregistered? then 1 else 0 }

  /**
    Over the same runs the other counts are tallies too: CQs and PDs of the changes reported for them,
    MRs of registrations less deregistrations, and both MR totals of their own calls. Memory, quota and
    the process list are never touched.
   */
  lemma {:induction false} SerialTalliesAreExact(t: Tenant, hs: seq<Hook>)
    requires forall i :: 0 <= i < |hs| ==> NotQp(hs[i])
    ensures var t' := Calls(t, hs).0;
      var u, u' := t.usage, t'.usage;
      && u'.cq == u.cq + Sum(hs, CqDelta) && u'.pd == u.pd + Sum(hs, PdDelta)
      && u'.regs == u.regs + Sum(hs, Registrations) && u'.deregs == u.deregs + Sum(hs, Deregistrations)
      && u'.mr == u.mr + Sum(hs, Registrations) - Sum(hs, Deregistrations)
      && u'.mem == u.mem && t' == t.(usage := u')
  {
    if hs != [] {
      SerialTalliesAreExact(t, hs[..|hs| - 1]);
      assert NotQp(hs[|hs| - 1]);
      CallTally(Calls(t, hs[..|hs| - 1]).0, Calls(t, hs[..|hs| - 1]).1, hs[|hs| - 1]);
    }
  }

  lemma CallTally(t: Tenant, live: nat, h: Hook)
    requires NotQp(h)
    ensures var t' := Call(t, live, h).0;
      var u, u' := t.usage, t'.usage;
      && u'.cq == u.cq + CqDelta(h) && u'.pd == u.pd + PdDelta(h)
      && u'.regs == u.regs + Registrations(h) && u'.deregs == u.deregs + Deregistrations(h)
      && u'.mr == u.mr + Registrations(h) - Deregistrations(h)
      && u'.mem == u.mem && t' == t.(usage := u')
  {
  }

  // ----- Overlapping calls lose counts -----

  /** Edits that stop at zero give the same count for both. */
  predicate BothStop(edit: Edit, a: int, b: int) {
    match edit
    case Rollback => a <= 1 && b <= 1
    case Destroyed => a <= 1 && b <= 1
    case Collected(qp, _, _) => a <= qp && b <= qp
    case _ => false
  }

  /**
    What one read-edit-write loses: the count after the write is what editing the record as it is now
    would give if and only if the count has not changed since the read, or the edit takes both counts
    to zero. Otherwise, away from zero, it is off by exactly what the count has changed.
   */
  lemma WriteBackIsExact(s: State, client: int, edit: Edit)
    requires client in s.copies && GetUsage(s.reg, s.copies[client].id).Some?
    requires s.copies[client].usage.qp >= 0 && s.reg.tenants[s.copies[client].id].usage.qp >= 0
    ensures var copy := s.copies[client];
      var current := s.reg.tenants[copy.id].usage;
      var after := Next(s, Put(client, edit)).reg.tenants[copy.id].usage;
      && (after.qp == Edited(current, edit).qp <==>
            copy.usage.qp == current.qp || BothStop(edit, copy.usage.qp, current.qp))
      && (current.qp > 0 && copy.usage.qp > 0 && !edit.Collected? ==>
            after.qp - Edited(current, edit).qp == copy.usage.qp - current.qp)
  {
  }

  /** An MR registration whose read and write enclose somebody's allocation. */
  function Overlap(id: nat): seq<Step> { [Take(0, id), Allocate(id), Put(0, MrRegistered)] }

  function Overlaps(id: nat, n: nat): seq<Step> {
    if n == 0 then [] else Overlaps(id, n - 1) + Overlap(id)
  }

  /** How many allocations of a run were granted. */
  function Grants(s: State, es: seq<Step>): nat {
    if es == [] then 0
    else
      var e := es[|es| - 1];
      Grants(s, es[..|es| - 1]) +
      if e.Allocate? && TryAllocate(Run(s, es[..|es| - 1]).reg, e.id).0 then 1 else 0
  }

  lemma RunOneMore(s: State, es: seq<Step>, e: Step)
    ensures Run(s, es + [e]) == Next(Run(s, es), e)
    ensures Grants(s, es + [e]) == Grants(s, es) +
      if e.Allocate? && TryAllocate(Run(s, es).reg, e.id).0 then 1 else 0
  {
    assert (es + [e])[..|es|] == es;
  }

  lemma RunOverlap(s: State, es: seq<Step>, id: nat)
    ensures var mid := Run(s, es);
      && Run(s, es + Overlap(id)) == Next(Next(Next(mid, Take(0, id)), Allocate(id)), Put(0, MrRegistered))
      && Grants(s, es + Overlap(id)) == Grants(s, es) + if TryAllocate(Next(mid, Take(0, id)).reg, id).0 then 1 else 0
  {
    RunOneMore(s, es, Take(0, id));
    RunOneMore(s, es + [Take(0, id)], Allocate(id));
    RunOneMore(s, es + [Take(0, id)] + [Allocate(id)], Put(0, MrRegistered));
    assert es + Overlap(id) == es + [Take(0, id)] + [Allocate(id)] + [Put(0, MrRegistered)];
  }

  /** The tenant is active with this quota and a recorded count of zero. */
  ghost predicate Zeroed(s: State, id: nat, quota: Quota) {
    && id < |s.reg.tenants| && s.reg.tenants[id].status == Active
    && s.reg.tenants[id].usage.qp == 0 && s.reg.tenants[id].quota == quota
  }

  lemma OneOverlap(s: State, id: nat, quota: Quota)
    requires Zeroed(s, id, quota) && quota.qp > 0
    ensures TryAllocate(Next(s, Take(0, id)).reg, id).0
    ensures Zeroed(Next(Next(Next(s, Take(0, id)), Allocate(id)), Put(0, MrRegistered)), id, quota)
  {
  }

  /**
    With overlapping calls the quota bounds the recorded count only, not the QPs granted: for every
    positive quota and every n there is a run of n allocations, all granted and none released, that
    leaves the recorded count at zero. Each grant is overwritten by a stale copy.
   */
  lemma {:induction false} OverlappingCallsLoseGrants(s: State, id: nat, n: nat)
    requires id < |s.reg.tenants| && Zeroed(s, id, s.reg.tenants[id].quota) && s.reg.tenants[id].quota.qp > 0
    ensures Grants(s, Overlaps(id, n)) == n
    ensures Zeroed(Run(s, Overlaps(id, n)), id, s.reg.tenants[id].quota)
  {
    if n > 0 {
      OverlappingCallsLoseGrants(s, id, n - 1);
      var es := Overlaps(id, n - 1);
      OneOverlap(Run(s, es), id, s.reg.tenants[id].quota);
      RunOverlap(s, es, id);
    }
  }
}
