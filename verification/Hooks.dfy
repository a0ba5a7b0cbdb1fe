/**
  The intercepted verbs of one process, as whole calls: the restriction checks, the tenant
  reservation, the real verb (whether it works is an answer from outside), and then the commit to
  the accounting table or the rollback of the reservation.
 */
module Hooks {
  import opened Common
  import opened ProcessTable
  import T = Tenants
  import Q = TenantQuota
  import A = Admission

  datatype QpType = Rc | Uc | Ud | OtherType

  /** The fields of the configuration and of the request that the checks look at. */
  datatype Config = Config(control: bool, limits: A.Config, sendWr: nat, recvWr: nat,
                           allowRc: bool, allowUc: bool, allowUd: bool)
  datatype Request = Request(kind: QpType, sendWr: nat, recvWr: nat)

  /** The process's own counters, and the two shared structures it works on. */
  datatype State = State(qp: nat, mr: nat, mem: nat, table: Table, reg: T.Registry)

  predicate TypeAllowed(cfg: Config, kind: QpType) {
    match kind
    case Rc => cfg.allowRc
    case Uc => cfg.allowUc
    case Ud => cfg.allowUd
    case OtherType => true
  }

  /** check_qp_creation_restrictions; the extended entry point does not look at queue depths. */
  predicate Permitted(cfg: Config, t: Table, pid: int, req: Request, extended: bool) {
    !cfg.control ||
    (&& TypeAllowed(cfg, req.kind)
     && A.WithinProcessLimit(cfg.limits, t, pid)
     && (extended || (req.sendWr <= cfg.sendWr && req.recvWr <= cfg.recvWr))
     && A.WithinGlobalLimit(cfg.limits, t))
  }

  function Capped(limit: nat, depth: nat): nat {
    if limit > 0 && depth > limit then limit else depth
  }

  /** What the real verb is asked for: queue depths cut to the configured limits. */
  function Clipped(cfg: Config, req: Request): Request {
    if cfg.control
    then req.(sendWr := Capped(cfg.sendWr, req.sendWr), recvWr := Capped(cfg.recvWr, req.recvWr))
    else req
  }

  /** ibv_create_qp, or the create_qp_ex wrapper; tenant 0 is no tenant. */
  function Create(h: State, cfg: Config, pid: int, start: nat, tenant: nat, req: Request, extended: bool, works: bool)
    : (bool, State)
  {
    if !Permitted(cfg, h.table, pid, req, extended) then (false, h) else
    var (granted, reg) := if tenant != 0 then T.TryAllocate(h.reg, tenant) else (true, h.reg);
    if !granted then (false, h.(reg := reg)) else (works, Finished(h.(reg := reg), pid, start, tenant, works))
  }

  /** What follows the real verb: the commit, or the rollback of the tenant's reservation. */
  function Finished(h: State, pid: int, start: nat, tenant: nat, works: bool): State {
    if works then h.(qp := h.qp + 1, table := Update(h.table, pid, Usage(h.qp + 1, h.mr, h.mem), start).1)
    else h.(reg := Q.EditUsage(h.reg, tenant, Q.Rollback))
  }

  /** ibv_destroy_qp. */
  function Destroy(h: State, tenant: nat, works: bool): State {
    if works then h.(qp := if h.qp > 0 then h.qp - 1 else 0, reg := Q.EditUsage(h.reg, tenant, Q.Destroyed)) else h
  }

  /** The tenant can be charged: there is none, or it exists, is active and counts from zero up. */
  ghost predicate Chargeable(reg: T.Registry, tenant: nat) {
    tenant == 0 ||
    (tenant < |reg.tenants| && reg.tenants[tenant].status == T.Active && reg.tenants[tenant].usage.qp >= 0)
  }

  /** A create goes through exactly when the checks, the tenant's quota and the real verb all allow
      it; if it does not, everything is exactly as before, the tenant's reservation included. */
  lemma CreateAllOrNothing(h: State, cfg: Config, pid: int, start: nat, tenant: nat, req: Request, extended: bool,
                           works: bool)
    requires Chargeable(h.reg, tenant)
    ensures var (ok, h') := Create(h, cfg, pid, start, tenant, req, extended, works);
      && (ok <==> works && Permitted(cfg, h.table, pid, req, extended)
                  && (tenant == 0 || h.reg.tenants[tenant].usage.qp < h.reg.tenants[tenant].quota.qp))
      && (!ok ==> h' == h)
  {
    var (ok, h') := Create(h, cfg, pid, start, tenant, req, extended, works);
    if !ok && tenant != 0 {
      assert h'.reg.tenants == h.reg.tenants;
    }
  }

  /**
    When a create goes through, in terms of the configuration, the request, the table and the tenant: the
    real verb works; unless QP control is off, the QP's type is not forbidden, the process's next QP and
    the total are within their limits (compared as unsigned 32-bit numbers), and in the plain entry
    point both queue depths are within theirs; and the tenant, if there is one, is active with quota left.
   */
  lemma CreateExactly(h: State, cfg: Config, pid: int, start: nat, tenant: nat, req: Request, extended: bool,
                      works: bool)
    ensures Create(h, cfg, pid, start, tenant, req, extended, works).0 <==>
      && works
      && (cfg.control ==>
            && (req.kind == Rc ==> cfg.allowRc) && (req.kind == Uc ==> cfg.allowUc) && (req.kind == Ud ==> cfg.allowUd)
            && (Lookup(h.table, pid).qp + 1) % TWO32 <= cfg.limits.perProcess
            && h.table.global.qp % TWO32 < cfg.limits.global
            && (!extended ==> req.sendWr <= cfg.sendWr && req.recvWr <= cfg.recvWr))
      && (tenant != 0 ==>
            && tenant < |h.reg.tenants| && h.reg.tenants[tenant].status == T.Active
            && Max(0, h.reg.tenants[tenant].usage.qp) < h.reg.tenants[tenant].quota.qp)
  {
  }

  /** What a refused create leaves for an active tenant: nothing has changed, except that a count below
      zero has become zero if the checks were passed. */
  lemma RefusedCreateLeaves(h: State, cfg: Config, pid: int, start: nat, tenant: nat, req: Request, extended: bool,
                            works: bool)
    requires 0 < tenant < |h.reg.tenants| && h.reg.tenants[tenant].status == T.Active
    requires !Create(h, cfg, pid, start, tenant, req, extended, works).0
    ensures var h', t := Create(h, cfg, pid, start, tenant, req, extended, works).1, h.reg.tenants[tenant];
      h' == if Permitted(cfg, h.table, pid, req, extended)
            then h.(reg := h.reg.(tenants := h.reg.tenants[tenant := t.(usage := t.usage.(qp := Max(0, t.usage.qp)))]))
            else h
  {
    var h' := Create(h, cfg, pid, start, tenant, req, extended, works).1;
    var t := h.reg.tenants[tenant];
    if Permitted(cfg, h.table, pid, req, extended) {
      assert h'.reg.tenants == h.reg.tenants[tenant := t.(usage := t.usage.(qp := Max(0, t.usage.qp)))];
    }
  }

  /** A create with a tenant that does not exist or is not active changes nothing; neither does a destroy
      that the real verb refuses. */
  lemma RefusedChangesNothing(h: State, cfg: Config, pid: int, start: nat, tenant: nat, req: Request, extended: bool,
                              works: bool)
    ensures tenant != 0 && T.GetUsage(h.reg, tenant).None? ==>
      Create(h, cfg, pid, start, tenant, req, extended, works) == (false, h)
    ensures Destroy(h, tenant, false) == h
  {
    if tenant < |h.reg.tenants| {
      assert h.reg.tenants[tenant := h.reg.tenants[tenant]] == h.reg.tenants;
    }
  }

  /** Destroying a QP just created gives the process and the tenant their counts back; the table goes
      on charging the process for it, and only a later create corrects that, if one is let through. */
  lemma DestroyUndoesCreate(h: State, cfg: Config, pid: int, start: nat, tenant: nat, req: Request, extended: bool)
    requires Chargeable(h.reg, tenant) && Inv(h.table) && Update(h.table, pid, Usage(h.qp + 1, h.mr, h.mem), start).0
    requires Create(h, cfg, pid, start, tenant, req, extended, true).0
    ensures var h1 := Create(h, cfg, pid, start, tenant, req, extended, true).1;
      var h2 := Destroy(h1, tenant, true);
      && h2.qp == h.qp && h2.table == h1.table && Lookup(h2.table, pid).qp == h.qp + 1
      && (tenant != 0 ==>
            var u, u2 := h.reg.tenants[tenant].usage, h2.reg.tenants[tenant].usage;
            u2.qp == u.qp && u2.creates - u2.destroys == u.creates - u.destroys)
  {
    UpdateRefinesPut(h.table, pid, Usage(h.qp + 1, h.mr, h.mem), start);
  }

  /** In the plain entry point the clipping never cuts anything, because the checks before it have
      already refused what it would cut; a limit of 0, documented as no limit, refuses any depth. In
      the extended one it is what keeps depths within positive limits. */
  lemma ClippingMatters(cfg: Config, t: Table, pid: int, req: Request, extended: bool)
    requires cfg.control && Permitted(cfg, t, pid, req, extended)
    ensures !extended ==> Clipped(cfg, req) == req
    ensures cfg.sendWr > 0 ==> Clipped(cfg, req).sendWr == Min(req.sendWr, cfg.sendWr)
    ensures cfg.recvWr > 0 ==> Clipped(cfg, req).recvWr == Min(req.recvWr, cfg.recvWr)
    ensures Clipped(cfg, req).kind == req.kind
    ensures cfg.sendWr == 0 ==> Clipped(cfg, req).sendWr == req.sendWr
    ensures cfg.recvWr == 0 ==> Clipped(cfg, req).recvWr == req.recvWr
    ensures Clipped(cfg.(control := false), req) == req
    ensures !extended && cfg.sendWr == 0 ==> req.sendWr == 0
    ensures !extended && cfg.recvWr == 0 ==> req.recvWr == 0
  {
    assert req == Request(req.kind, req.sendWr, req.recvWr);
  }

  lemma CreateMeans(h: State, cfg: Config, pid: int, start: nat, tenant: nat, req: Request, extended: bool)
    requires cfg.control && Create(h, cfg, pid, start, tenant, req, extended, true).0
    ensures A.WithinProcessLimit(cfg.limits, h.table, pid) && A.WithinGlobalLimit(cfg.limits, h.table)
    ensures var h' := Create(h, cfg, pid, start, tenant, req, extended, true).1;
      h'.qp == h.qp + 1 && h'.table == Update(h.table, pid, Usage(h.qp + 1, h.mr, h.mem), start).1
  {
  }

  lemma CommitMeans(s: A.System, k: nat, mr: nat, mem: nat)
    requires A.Shape(s) && A.At(s, k, A.Idle)
    ensures var p, s' := s.seats[k], A.Committed(A.WithCounted(s, k), k, mr, mem);
      && s'.gc.table == Update(s.gc.table, p.id.pid, Usage(p.local + 1, mr, mem), p.id.start).1
      && A.At(s', k, A.Idle) && s'.seats[k].local == p.local + 1
  {
  }

  /**
    A whole call with nothing in between is one of the interleavings of the admission protocol: the
    machine that takes the same steps ends with the same table and the same local count.
   */
  lemma CreateIsAnInterleaving(h: State, cfg: Config, s: A.System, k: nat, tenant: nat, req: Request, extended: bool)
    requires A.Shape(s) && A.At(s, k, A.Idle) && cfg.control
    requires s.gc.table == h.table && s.seats[k].local == h.qp
    requires Create(h, cfg, s.seats[k].id.pid, s.seats[k].id.start, tenant, req, extended, true).0
    ensures var h' := Create(h, cfg, s.seats[k].id.pid, s.seats[k].id.start, tenant, req, extended, true).1;
      var s' := A.Run(cfg.limits, s, A.CreateCall(k, h.mr, h.mem));
      s'.gc.table == h'.table && A.At(s', k, A.Idle) && s'.seats[k].local == h'.qp
  {
    CreateMeans(h, cfg, s.seats[k].id.pid, s.seats[k].id.start, tenant, req, extended);
    A.CreateCallRuns(cfg.limits, s, k, h.mr, h.mem);
    CommitMeans(s, k, h.mr, h.mem);
  }

  // ----- Memory regions -----

  /** check_tenant_mr_limit_inline. */
  predicate MrAllowed(reg: T.Registry, tenant: nat, length: nat) {
    tenant == 0 ||
    (&& tenant < |reg.tenants| && reg.tenants[tenant].status != T.Inactive
     && U32(reg.tenants[tenant].usage.mr) < reg.tenants[tenant].quota.mr
     && (reg.tenants[tenant].quota.mem == 0 ||
         U64(reg.tenants[tenant].usage.mem + length) <= reg.tenants[tenant].quota.mem))
  }

  /** ibv_reg_mr; `inRate` is the rate limiter's answer. */
  function RegisterMr(h: State, tenant: nat, length: nat, inRate: bool, works: bool): (bool, State) {
    if MrAllowed(h.reg, tenant, length) && inRate && works
    then (true, h.(mr := h.mr + 1, mem := U64(h.mem + length), reg := Q.EditUsage(h.reg, tenant, Q.MrRegistered)))
    else (false, h)
  }

  /** ibv_dereg_mr of a region of this length. */
  function DeregisterMr(h: State, tenant: nat, length: nat, inRate: bool, works: bool): (bool, State) {
    if inRate && works
    then (true, h.(mr := if h.mr > 0 then h.mr - 1 else 0, mem := if h.mem >= length then h.mem - length else h.mem,
                   reg := Q.EditUsage(h.reg, tenant, Q.MrDeregistered)))
    else (false, h)
  }

  /** A registration or deregistration that the rate limiter or the real verb refuses, and a registration
      that the tenant's quota refuses, answers so and changes nothing. */
  lemma RefusedMrChangesNothing(h: State, tenant: nat, length: nat, inRate: bool, works: bool)
    ensures RegisterMr(h, tenant, length, inRate, works).0 <==> MrAllowed(h.reg, tenant, length) && inRate && works
    ensures DeregisterMr(h, tenant, length, inRate, works).0 <==> inRate && works
    ensures !RegisterMr(h, tenant, length, inRate, works).0 ==> RegisterMr(h, tenant, length, inRate, works).1 == h
    ensures !DeregisterMr(h, tenant, length, inRate, works).0 ==> DeregisterMr(h, tenant, length, inRate, works).1 == h
  {
  }

  /** A registration adds its length modulo 2^64. After a deregistration the bytes are right modulo 2^64
      exactly if the counter holds at least the region's length; otherwise they stay as they are. */
  lemma BytesGivenBack(h: State, tenant: nat, length: nat)
    requires 0 < length < TWO64 && h.mem < TWO64
    ensures var (ok, h') := RegisterMr(h, tenant, length, true, true);
      ok ==> h'.mem == if h.mem + length < TWO64 then h.mem + length else h.mem + length - TWO64
    ensures var h' := DeregisterMr(h, tenant, length, true, true).1;
      && (h'.mem == U64(h.mem - length) <==> h.mem >= length)
      && (h.mem < length ==> h'.mem == h.mem)
  {
    if h.mem < length {
      assert U64(h.mem - length) == h.mem - length + TWO64;
    }
  }

  /** Deregistering a region gives back the process's counts and the tenant's, if the process's bytes
      fit in 64 bits. */
  lemma DeregisterUndoesRegister(h: State, tenant: nat, length: nat)
    requires Chargeable(h.reg, tenant) && MrAllowed(h.reg, tenant, length) && h.mem + length < TWO64
    ensures var h2 := DeregisterMr(RegisterMr(h, tenant, length, true, true).1, tenant, length, true, true).1;
      && h2.mr == h.mr && h2.mem == h.mem && h2.qp == h.qp && h2.table == h.table
      && (tenant != 0 ==>
            var u, u2 := h.reg.tenants[tenant].usage, h2.reg.tenants[tenant].usage;
            u2 == u.(regs := u.regs + 1, deregs := u.deregs + 1))
  {
  }

  /** n registrations of the same length. */
  function Registers(h: State, tenant: nat, length: nat, n: nat): (bool, State) {
    if n == 0 then (true, h)
    else
      var (all, mid) := Registers(h, tenant, length, n - 1);
      var (ok, last) := RegisterMr(mid, tenant, length, true, true);
      (all && ok, last)
  }

  /** One registration as large as the memory quota, by a tenant with k regions and MR quota left. */
  lemma RegistersOnce(h: State, tenant: nat, k: nat)
    requires tenant != 0 && tenant < |h.reg.tenants| && h.reg.tenants[tenant].status == T.Active
    requires h.reg.tenants[tenant].usage == T.NO_USAGE.(mr := k, regs := k)
    requires k < h.reg.tenants[tenant].quota.mr < TWO32 && h.mem + h.reg.tenants[tenant].quota.mem < TWO64
    ensures var info := h.reg.tenants[tenant];
      var (ok, h') := RegisterMr(h, tenant, info.quota.mem, true, true);
      && ok && h'.mem == h.mem + info.quota.mem && tenant < |h'.reg.tenants|
      && h'.reg.tenants[tenant] == info.(usage := T.NO_USAGE.(mr := k + 1, regs := k + 1))
  {
    assert U32(k) == k;
    assert MrAllowed(h.reg, tenant, h.reg.tenants[tenant].quota.mem);
  }

  /**
    A tenant's memory quota does not limit what the tenant holds, because nothing adds to its
    memory_used: it limits each registration by itself. As long as the MR quota lasts, any number of
    regions as large as the whole memory quota is let through.
   */
  lemma {:induction false} MemoryQuotaNeverFills(h: State, tenant: nat, n: nat)
    requires tenant != 0 && tenant < |h.reg.tenants| && h.reg.tenants[tenant].status == T.Active
    requires h.reg.tenants[tenant].usage == T.NO_USAGE && h.mem == 0
    requires n <= h.reg.tenants[tenant].quota.mr < TWO32 && n * h.reg.tenants[tenant].quota.mem < TWO64
    ensures var quota := h.reg.tenants[tenant].quota;
      var (all, h') := Registers(h, tenant, quota.mem, n);
      && all && h'.mem == n * quota.mem && tenant < |h'.reg.tenants|
      && h'.reg.tenants[tenant] == h.reg.tenants[tenant].(usage := T.NO_USAGE.(mr := n, regs := n))
  {
    var m := h.reg.tenants[tenant].quota.mem;
    if n > 0 {
      assert n * m == (n - 1) * m + m;
      MemoryQuotaNeverFills(h, tenant, n - 1);
      RegistersOnce(Registers(h, tenant, m, n - 1).1, tenant, n - 1);
    }
  }

  /**
    What the memory quota does limit: after any interleaving of everything that touches tenants (any
    number of clients with overlapping reads and writes, quota changes, registry management, the
    collector), a region is let through if and only if the tenant exists, MR quota is left and that one
    region is no larger than the memory quota (0 is no limit). What is held already plays no part.
   */
  lemma MemoryQuotaIsPerRegion(s: Q.State, es: seq<Q.Step>, tenant: nat, length: nat)
    requires Q.NoMemory(s) && tenant != 0 && length < TWO64
    ensures var reg := Q.Run(s, es).reg;
      MrAllowed(reg, tenant, length) <==>
        && tenant < |reg.tenants| && reg.tenants[tenant].status != T.Inactive
        && U32(reg.tenants[tenant].usage.mr) < reg.tenants[tenant].quota.mr
        && (reg.tenants[tenant].quota.mem == 0 || length <= reg.tenants[tenant].quota.mem)
  {
    Q.MemoryNeverCounted(s, es);
  }

  /** Where memory is charged, the comparison is with the sum modulo 2^64: a region so long that the sum
      wraps is let through. */
  lemma WrappedSumPasses(reg: T.Registry, tenant: nat, length: nat)
    requires 0 < tenant < |reg.tenants| && reg.tenants[tenant].status != T.Inactive
    requires U32(reg.tenants[tenant].usage.mr) < reg.tenants[tenant].quota.mr
    requires TWO64 <= reg.tenants[tenant].usage.mem + length <= TWO64 + reg.tenants[tenant].quota.mem
    requires reg.tenants[tenant].quota.mem < TWO64
    ensures MrAllowed(reg, tenant, length)
  {
  }

  // ----- Which quota governs -----

  /** An active tenant goes by quota q: attempts to allocate are granted as far as q.qp goes, and regions
      as far as q.mr and q.mem go (0 bytes is no limit). */
  ghost predicate GoesBy(reg: T.Registry, id: nat, q: T.Quota, ids: seq<nat>, length: nat)
    requires id < |reg.tenants|
  {
    var u := reg.tenants[id].usage;
    && |Q.Attempts(reg, ids).0| == |ids|
    && Q.Granted(ids, Q.Attempts(reg, ids).0, id) == Min(Q.Asked(ids, id), Max(0, q.qp - Max(0, u.qp)))
    && (MrAllowed(reg, id, length) <==> U32(u.mr) < q.mr && (q.mem == 0 || U64(u.mem + length) <= q.mem))
  }

  /**
    A new quota is in force at once: after a successful update an active tenant goes by it, and nothing
    else has changed, of this tenant or any other. It is refused exactly for tenants that do not exist.
   */
  lemma NewQuotaGoverns(reg: T.Registry, id: nat, q: T.Quota, ids: seq<nat>, length: nat, other: nat)
    ensures var (ok, reg') := T.SetQuota(reg, id, q);
      && (ok <==> id < |reg.tenants| && reg.tenants[id].status != T.Inactive) && (!ok ==> reg' == reg)
      && |reg'.tenants| == |reg.tenants| && reg' == reg.(tenants := reg'.tenants)
      && (ok && id != 0 && reg.tenants[id].status == T.Active ==> GoesBy(reg', id, q, ids, length))
      && (ok ==> reg'.tenants[id].(quota := reg.tenants[id].quota) == reg.tenants[id])
      && (other != id && other < |reg.tenants| ==> reg'.tenants[other] == reg.tenants[other])
  {
    var (ok, reg') := T.SetQuota(reg, id, q);
    if ok {
      Q.GrantsAreExact(reg', ids, id);
    }
  }

  /**
    A tenant just created goes by the quota it was created with, or by 100 QPs, 1000 MRs and 1 GiB, and
    starts from nothing, whatever a tenant of the same id left behind; no other tenant is touched.
   */
  lemma NewTenantGoverned(reg: T.Registry, id: nat, quota: Option<T.Quota>, ids: seq<nat>, length: nat, other: nat)
    requires T.Create(reg, id, quota).0
    ensures var reg' := T.Create(reg, id, quota).1;
      var q := if quota.Some? then quota.value else T.Quota(100, 1000, 1073741824, 100, 100);
      && |reg'.tenants| == |reg.tenants| && reg'.maps == reg.maps
      && GoesBy(reg', id, q, ids, length) && reg'.tenants[id].quota == q
      && Q.Granted(ids, Q.Attempts(reg', ids).0, id) == Min(Q.Asked(ids, id), q.qp)
      && reg'.tenants[id].usage == T.Usage(0, 0, 0, 0, 0, 0, 0, 0, 0)
      && (other != id && other < |reg.tenants| ==> reg'.tenants[other] == reg.tenants[other])
  {
    Q.GrantsAreExact(T.Create(reg, id, quota).1, ids, id);
  }

  // ----- The library's state in memory -----

  class InterceptState {
    const shm: SharedTable
    const tenants: T.TenantRegistry
    var qpCount: nat
    var mrCount: nat
    var memoryUsed: nat

    ghost predicate Valid()
      reads tenants.tenants
    {
      shm.Valid() && tenants.Valid()
    }

    ghost function View(): State
      requires shm.Valid()
      reads this, shm, shm.pids, shm.starts, shm.stats, tenants, tenants.tenants, tenants.maps
    {
      State(qpCount, mrCount, memoryUsed, shm.View(), tenants.View())
    }

    constructor (shm: SharedTable, tenants: T.TenantRegistry)
      requires shm.Valid() && tenants.Valid()
      ensures this.shm == shm && this.tenants == tenants
      ensures View() == State(0, 0, 0, shm.View(), tenants.View())
    {
      this.shm := shm;
      this.tenants := tenants;
      qpCount, mrCount, memoryUsed := 0, 0, 0;
    }

    /** check_qp_creation_restrictions: reads, and changes nothing. */
    method CheckRestrictions(cfg: Config, pid: int, req: Request, extended: bool) returns (ok: bool)
      requires Valid() && pid > 0
      ensures ok == Permitted(cfg, shm.View(), pid, req, extended)
    {
      if !cfg.control {
        return true;
      }
      if !TypeAllowed(cfg, req.kind) {
        return false;
      }
      var _, usage := shm.GetProcess(pid);
      if (U32(usage.qp) + 1) % TWO32 > cfg.limits.perProcess {
        return false;
      }
      if !extended && (req.sendWr > cfg.sendWr || req.recvWr > cfg.recvWr) {
        return false;
      }
      return U32(shm.global.qp) < cfg.limits.global;
    }

    /** Reads the tenant's usage, edits the copy and writes it back. */
    method EditTenantUsage(tenant: nat, e: Q.Edit)
      requires Valid()
      modifies tenants.tenants
      ensures Valid() && tenants.View() == Q.EditUsage(old(tenants.View()), tenant, e)
    {
      if tenant == 0 {
        return;
      }
      var u := tenants.GetResourceUsage(tenant);
      if u.Some? {
        var _ := tenants.UpdateResourceUsage(tenant, Q.Edited(u.value, e));
      }
    }

    /** ibv_create_qp and the create_qp_ex wrapper; `passed` is the request the real verb gets. */
    method CreateQp(cfg: Config, pid: int, start: nat, tenant: nat, req: Request, extended: bool, works: bool)
      returns (ok: bool, passed: Request)
      requires Valid() && pid > 0
      modifies this`qpCount, shm`global, shm.pids, shm.starts, shm.stats, tenants.tenants
      ensures Valid() && (ok, View()) == Create(old(View()), cfg, pid, start, tenant, req, extended, works)
      ensures ok ==> passed == Clipped(cfg, req)
    {
      passed := req;
      ok := CheckRestrictions(cfg, pid, req, extended);
      if !ok {
        return;
      }
      if tenant != 0 {
        ok := tenants.TryAllocateQp(tenant);
        if !ok {
          return;
        }
      }
      passed := Clipped(cfg, req);
      Finish(pid, start, tenant, works);
      ok := works;
    }

    /** After the real verb: counts the QP and writes the process's usage to the table, or gives the
        tenant's reservation back. */
    method Finish(pid: int, start: nat, tenant: nat, works: bool)
      requires Valid()
      modifies this`qpCount, shm`global, shm.pids, shm.starts, shm.stats, tenants.tenants
      ensures Valid() && View() == Finished(old(View()), pid, start, tenant, works)
    {
      if works {
        qpCount := qpCount + 1;
        var _ := shm.UpdateProcess(pid, Usage(qpCount, mrCount, memoryUsed), start);
      } else {
        EditTenantUsage(tenant, Q.Rollback);
      }
    }

    /** ibv_destroy_qp. */
    method DestroyQp(tenant: nat, works: bool)
      requires Valid()
      modifies this`qpCount, tenants.tenants
      ensures Valid() && View() == Destroy(old(View()), tenant, works)
    {
      if works {
        if qpCount > 0 {
          qpCount := qpCount - 1;
        }
        EditTenantUsage(tenant, Q.Destroyed);
      }
    }

    /** check_tenant_mr_limit_inline. */
    method CheckMrLimit(tenant: nat, length: nat) returns (ok: bool)
      ensures ok == MrAllowed(tenants.View(), tenant, length)
    {
      if tenant == 0 {
        return true;
      }
      if tenant >= tenants.tenants.Length || tenants.tenants[tenant].status == T.Inactive {
        return false;
      }
      var info := tenants.tenants[tenant];
      if U32(info.usage.mr) >= info.quota.mr {
        return false;
      }
      return !(info.quota.mem > 0 && U64(info.usage.mem + length) > info.quota.mem);
    }

    /** ibv_reg_mr. */
    method RegMr(tenant: nat, length: nat, inRate: bool, works: bool) returns (ok: bool)
      requires Valid()
      modifies this`mrCount, this`memoryUsed, tenants.tenants
      ensures Valid() && (ok, View()) == RegisterMr(old(View()), tenant, length, inRate, works)
    {
      ok := CheckMrLimit(tenant, length);
      if !ok || !inRate || !works {
        return false;
      }
      mrCount := mrCount + 1;
      memoryUsed := U64(memoryUsed + length);
      EditTenantUsage(tenant, Q.MrRegistered);
    }

    /** ibv_dereg_mr. */
    method DeregMr(tenant: nat, length: nat, inRate: bool, works: bool) returns (ok: bool)
      requires Valid()
      modifies this`mrCount, this`memoryUsed, tenants.tenants
      ensures Valid() && (ok, View()) == DeregisterMr(old(View()), tenant, length, inRate, works)
    {
      if !inRate || !works {
        return false;
      }
      if mrCount > 0 {
        mrCount := mrCount - 1;
      }
      if memoryUsed >= length {
        memoryUsed := memoryUsed - length;
      }
      EditTenantUsage(tenant, Q.MrDeregistered);
      return true;
    }
  }
}
