/**
  QP admission across processes. Every process runs the intercepted create and destroy calls as a
  sequence of steps; each lock-protected section of the shared table is one step and each unlocked
  read is one step of its own, so that any interleaving of processes, deaths, pid reuse and
  collector work is a sequence of these steps. `seats` holds the processes alive at one time.
 */
module Admission {
  import opened Common
  import opened Sums
  import opened ProcessTable
  import Gc = Collector

  /** max_qp_per_process and max_global_qp, with QP control on. */
  datatype Config = Config(perProcess: nat, global: nat)

  /** A process as the kernel knows it: no two processes ever share both pid and start time. */
  datatype Inc = Inc(pid: int, start: nat)

  datatype Pc =
    | Starting      // not attached to the table yet
    | Initialising  // found all totals zero, and is about to initialise the table
    | Idle          // outside the hooks
    | ProcessOk     // passed the per-process limit
    | Admitted      // passed the global limit
    | Created       // the real create succeeded
    | Counted       // the local counter is incremented, the table not yet written
    | Destroying    // the real destroy succeeded, the local counter not yet decremented

  /** `local` is the library's own qp_count; `live` is how many QPs the process really has. */
  datatype Seat = Vacant | Proc(id: Inc, pc: Pc, local: nat, live: nat)

  /**
    targets[i]: the process the pidfd of slot i refers to. owners[i]: the process that last wrote
    slot i. born: every process so far. refused: some commit found no slot. forgot: some process
    initialised a table that had entries.
   */
  datatype System = System(gc: Gc.State, targets: seq<Inc>, owners: seq<Inc>,
                           seats: seq<Seat>, born: set<Inc>, refused: bool, forgot: bool)

  datatype Step =
    | Spawn(k: nat, id: Inc)
    | Die(k: nat)
    | AttachRead(k: nat)
    | AttachClear(k: nat)
    | CheckProcess(k: nat)
    | CheckGlobal(k: nat)
    | GiveUp(k: nat)  // QP type, queue depth or tenant quota denied it, or the real create failed
    | CreateQp(k: nat)
    | Count(k: nat)
    | Commit(k: nat, mr: nat, mem: nat)
    | DestroyQp(k: nat)
    | Uncount(k: nat)
    | ExitEvent(i: nat)
    | ScanSlot(i: nat, fd: bool, alive: bool, target: Inc)

  ghost predicate Live(s: System, id: Inc) {
    exists k :: 0 <= k < |s.seats| && s.seats[k].Proc? && s.seats[k].id == id
  }

  ghost predicate LivePid(s: System, pid: int) {
    exists k :: 0 <= k < |s.seats| && s.seats[k].Proc? && s.seats[k].id.pid == pid
  }

  predicate At(s: System, k: nat, pc: Pc) {
    k < |s.seats| && s.seats[k].Proc? && s.seats[k].pc == pc
  }

  /** The checks of check_qp_creation_restrictions, in 32-bit unsigned arithmetic. */
  predicate WithinProcessLimit(cfg: Config, t: Table, pid: int) {
    (U32(Lookup(t, pid).qp) + 1) % TWO32 <= cfg.perProcess
  }

  predicate WithinGlobalLimit(cfg: Config, t: Table) {
    U32(t.global.qp) < cfg.global
  }

  /** When a step can happen: the process is there, and the outside world answers truthfully. */
  ghost predicate Enabled(s: System, e: Step) {
    match e
    case Spawn(k, id) =>
      k < |s.seats| && s.seats[k].Vacant? && id.pid > 0 && id.start > 0 && id !in s.born && !LivePid(s, id.pid)
    case Die(k) => k < |s.seats| && s.seats[k].Proc?
    case AttachRead(k) => At(s, k, Starting)
    case AttachClear(k) => At(s, k, Initialising)
    case CheckProcess(k) => At(s, k, Idle)
    case CheckGlobal(k) => At(s, k, ProcessOk)
    case GiveUp(k) => At(s, k, ProcessOk) || At(s, k, Admitted)
    case CreateQp(k) => At(s, k, Admitted)
    case Count(k) => At(s, k, Created)
    case Commit(k, _, _) => At(s, k, Counted)
    case DestroyQp(k) => At(s, k, Idle) && s.seats[k].live > 0
    case Uncount(k) => At(s, k, Destroying)
    case ExitEvent(i) =>  // the descriptor is watched, and its process has exited
      i < |s.gc.regs| == |s.targets| && s.gc.regs[i].open && s.gc.regs[i].pid != 0 && !Live(s, s.targets[i])
    case ScanSlot(i, fd, alive, target) =>
      && i < |s.gc.regs| == |s.gc.table.slots|
      && var pid := s.gc.table.slots[i].pid;
      && (!alive ==> !LivePid(s, pid))
      && (fd ==> target.pid == pid && (LivePid(s, pid) ==> Live(s, target)))
  }

  function SetSeat(s: System, k: nat, p: Seat): System
    requires k < |s.seats|
  {
    s.(seats := s.seats[k := p])
  }

  /** Scanning slot i would open a new pidfd for it. */
  predicate Registers(c: Gc.State, i: nat)
    requires i < |c.regs| == |c.table.slots|
  {
    c.table.slots[i].pid != 0 && (!c.regs[i].open || !Gc.Matches(c.regs[i], c.table.slots[i]))
  }

  function Committed(s: System, k: nat, mr: nat, mem: nat): System
    requires k < |s.seats| && s.seats[k].Proc? && |s.owners| == |s.gc.table.slots|
  {
    var p := s.seats[k];
    var t := s.gc.table;
    var (ok, t') := Update(t, p.id.pid, Usage(p.local, mr, mem), p.id.start);
    var s' := SetSeat(s, k, p.(pc := Idle));
    if ok then s'.(gc := s.gc.(table := t'), owners := s.owners[Target(t.slots, p.id.pid) := p.id])
    else s'.(refused := true)
  }

  function Initialised(s: System, k: nat): System
    requires k < |s.seats| && s.seats[k].Proc?
  {
    var t := s.gc.table;
    SetSeat(s, k, s.seats[k].(pc := Idle)).(gc := s.gc.(table := Cleared(t)), forgot := s.forgot || t != Cleared(t))
  }

  function Scanned(s: System, i: nat, fd: bool, alive: bool, target: Inc): System
    requires i < |s.gc.regs| == |s.gc.table.slots| == |s.targets|
  {
    s.(gc := Gc.ScanSlot(s.gc, i, fd, alive),
       targets := if fd && Registers(s.gc, i) then s.targets[i := target] else s.targets)
  }

  ghost predicate Shape(s: System) {
    Gc.Sized(s.gc) && |s.gc.regs| == |s.targets| == |s.owners|
  }

  ghost function Effect(cfg: Config, s: System, e: Step): System
    requires Shape(s) && Enabled(s, e)
  {
    match e
    case Spawn(k, id) => SetSeat(s, k, Proc(id, Starting, 0, 0)).(born := s.born + {id})
    case Die(k) => SetSeat(s, k, Vacant)
    case AttachRead(k) =>
      SetSeat(s, k, s.seats[k].(pc := if s.gc.table.global == NONE then Initialising else Idle))
    case AttachClear(k) => Initialised(s, k)
    case CheckProcess(k) =>
      if WithinProcessLimit(cfg, s.gc.table, s.seats[k].id.pid)
      then SetSeat(s, k, s.seats[k].(pc := ProcessOk)) else s
    case CheckGlobal(k) =>
      SetSeat(s, k, s.seats[k].(pc := if WithinGlobalLimit(cfg, s.gc.table) then Admitted else Idle))
    case GiveUp(k) => SetSeat(s, k, s.seats[k].(pc := Idle))
    case CreateQp(k) => SetSeat(s, k, s.seats[k].(pc := Created, live := s.seats[k].live + 1))
    case Count(k) => SetSeat(s, k, s.seats[k].(pc := Counted, local := s.seats[k].local + 1))
    case Commit(k, mr, mem) => Committed(s, k, mr, mem)
    case DestroyQp(k) => SetSeat(s, k, s.seats[k].(pc := Destroying, live := s.seats[k].live - 1))
    case Uncount(k) =>
      var p := s.seats[k];
      SetSeat(s, k, p.(pc := Idle, local := if p.local > 0 then p.local - 1 else 0))
    case ExitEvent(i) => s.(gc := Gc.HandleExit(s.gc, i))
    case ScanSlot(i, fd, alive, target) => Scanned(s, i, fd, alive, target)
  }

  /** A step that cannot happen now does not. */
  ghost function Next(cfg: Config, s: System, e: Step): (s': System)
    requires Shape(s)
    ensures Shape(s') && |s'.seats| == |s.seats| && |s'.gc.regs| == |s.gc.regs|
  {
    if Enabled(s, e) then Effect(cfg, s, e) else s
  }

  ghost function Run(cfg: Config, s: System, es: seq<Step>): (s': System)
    requires Shape(s)
    ensures Shape(s') && |s'.seats| == |s.seats| && |s'.gc.regs| == |s.gc.regs|
  {
    if es == [] then s else Next(cfg, Run(cfg, s, es[..|es| - 1]), es[|es| - 1])
  }

  /** A fresh table, no process yet, the collector just started. */
  ghost predicate Init(s: System) {
    && Shape(s)
    && s.gc.table == Table(seq(|s.gc.regs|, _ => FREE), NONE)
    && (forall i :: 0 <= i < |s.gc.regs| ==> s.gc.regs[i] == Gc.ZEROED)
    && (forall k :: 0 <= k < |s.seats| ==> s.seats[k] == Vacant)
    && s.born == {} && !s.refused && !s.forgot
  }

  // ----- Identity: who is alive, who wrote a slot, whom a pidfd watches -----

  ghost predicate People(s: System) {
    && (forall k :: 0 <= k < |s.seats| && s.seats[k].Proc? ==>
          s.seats[k].id.pid > 0 && s.seats[k].id.start > 0 && s.seats[k].id in s.born)
    && (forall j, k :: 0 <= j < k < |s.seats| && s.seats[j].Proc? && s.seats[k].Proc? ==>
          s.seats[j].id.pid != s.seats[k].id.pid)
  }

  function Label(x: Slot): Inc { Inc(x.pid, x.start) }

  /** The pid and start time stored in an occupied slot are those of the process that wrote it. */
  ghost predicate Owned(s: System)
    requires Shape(s)
  {
    forall i :: 0 <= i < |s.owners| && s.gc.table.slots[i].pid != 0 ==>
      s.gc.table.slots[i].start > 0 && s.owners[i] == Label(s.gc.table.slots[i]) && s.owners[i] in s.born
  }

  /** If the process a registration names is alive, then it is the one the pidfd refers to. */
  ghost predicate Watched(s: System)
    requires Shape(s)
  {
    forall i :: 0 <= i < |s.targets| && s.gc.regs[i].open && s.gc.regs[i].pid != 0 ==>
      var id := Inc(s.gc.regs[i].pid, s.gc.regs[i].start);
      id in s.born && (Live(s, id) ==> s.targets[i] == id)
  }

  ghost predicate Identity(s: System) {
    Shape(s) && Gc.Sound(s.gc) && People(s) && Owned(s) && Watched(s)
  }

  lemma InitIdentity(s: System)
    requires Init(s)
    ensures Identity(s)
  {
    var slots := s.gc.table.slots;
    SumConstant(slots, Qp, 0);
    SumConstant(slots, Mr, 0);
    SumConstant(slots, Mem, 0);
  }

  /** A process that moves on without changing who it is changes nobody's identity. */
  lemma MoveIdentity(s: System, k: nat, p: Seat)
    requires Identity(s) && k < |s.seats| && s.seats[k].Proc? && p.Proc? && p.id == s.seats[k].id
    ensures Identity(SetSeat(s, k, p))
    ensures forall id :: Live(SetSeat(s, k, p), id) <==> Live(s, id)
  {
    var s' := SetSeat(s, k, p);
    assert forall j :: 0 <= j < |s.seats| ==>
      s'.seats[j].Proc? == s.seats[j].Proc? && (s.seats[j].Proc? ==> s'.seats[j].id == s.seats[j].id);
  }

  lemma SpawnIdentity(s: System, k: nat, id: Inc, pc: Pc)
    requires Identity(s) && Enabled(s, Spawn(k, id))
    ensures Identity(SetSeat(s, k, Proc(id, pc, 0, 0)).(born := s.born + {id}))
  {
    var s' := SetSeat(s, k, Proc(id, pc, 0, 0)).(born := s.born + {id});
    forall other | Live(s', other) && other != id
      ensures Live(s, other)
    {
      var j :| 0 <= j < |s'.seats| && s'.seats[j].Proc? && s'.seats[j].id == other;
      assert j != k && s.seats[j] == s'.seats[j];
    }
  }

  lemma DieIdentity(s: System, k: nat)
    requires Identity(s) && k < |s.seats|
    ensures Identity(SetSeat(s, k, Vacant))
  {
    var s' := SetSeat(s, k, Vacant);
    forall other | Live(s', other)
      ensures Live(s, other)
    {
      var j :| 0 <= j < |s'.seats| && s'.seats[j].Proc? && s'.seats[j].id == other;
      assert s.seats[j] == s'.seats[j];
    }
  }

  /** The table written by the process `id` itself: the slot it wrote carries its own start time. */
  lemma WriteOwned(slots: seq<Slot>, global: Usage, owners: seq<Inc>, born: set<Inc>, id: Inc, u: Usage)
    requires |owners| == |slots| && id.pid > 0 && id.start > 0 && id in born
    requires forall i :: 0 <= i < |slots| && slots[i].pid != 0 ==>
      slots[i].start > 0 && owners[i] == Label(slots[i]) && owners[i] in born
    requires Target(slots, id.pid) >= 0
    ensures var slots' := Update(Table(slots, global), id.pid, u, id.start).1.slots;
      var k := Target(slots, id.pid);
      && slots' == slots[k := Slot(id.pid, id.start, u)]
      && forall i :: 0 <= i < |slots| && slots'[i].pid != 0 ==>
           slots'[i].start > 0 && owners[k := id][i] == Label(slots'[i]) && owners[k := id][i] in born
  {
  }

  lemma CommitIdentity(s: System, k: nat, mr: nat, mem: nat)
    requires Identity(s) && At(s, k, Counted)
    ensures Identity(Committed(s, k, mr, mem))
  {
    var p := s.seats[k];
    var u := Usage(p.local, mr, mem);
    var s1 := SetSeat(s, k, p.(pc := Idle));
    MoveIdentity(s, k, p.(pc := Idle));
    if Target(s.gc.table.slots, p.id.pid) >= 0 {
      WriteOwned(s.gc.table.slots, s.gc.table.global, s.owners, s.born, p.id, u);
      WriteIdentity(s1, p.id, u);
    }
  }

  lemma WriteIdentity(s: System, id: Inc, u: Usage)
    requires Identity(s) && id.pid > 0 && u.qp >= 0 && u.mr >= 0
    requires Target(s.gc.table.slots, id.pid) >= 0
    requires var s' := s.(gc := s.gc.(table := Update(s.gc.table, id.pid, u, id.start).1),
                          owners := s.owners[Target(s.gc.table.slots, id.pid) := id]);
      Owned(s')
    ensures Identity(s.(gc := s.gc.(table := Update(s.gc.table, id.pid, u, id.start).1),
                        owners := s.owners[Target(s.gc.table.slots, id.pid) := id]))
  {
    Gc.StepSound(s.gc, Gc.Write(id.pid, u, id.start));
  }

  /** What a slot's owner being dead means for the step that empties it. */
  lemma ExitIsDeath(s: System, i: nat)
    requires Identity(s) && Enabled(s, ExitEvent(i))
    requires s.gc.table.slots[i].pid != 0 && Gc.Matches(s.gc.regs[i], s.gc.table.slots[i])
    ensures !Live(s, s.owners[i])
  {
    assert s.owners[i] == Inc(s.gc.regs[i].pid, s.gc.regs[i].start);
  }

  lemma ExitIdentity(s: System, i: nat)
    requires Identity(s) && Enabled(s, ExitEvent(i))
    ensures Identity(s.(gc := Gc.HandleExit(s.gc, i)))
  {
    var s' := s.(gc := Gc.HandleExit(s.gc, i));
    Gc.StepSound(s.gc, Gc.Exit(i));
    assert forall id :: Live(s', id) <==> Live(s, id);
    assert Owned(s') && Watched(s');
  }

  lemma ScanIdentity(s: System, i: nat, fd: bool, alive: bool, target: Inc)
    requires Identity(s) && Enabled(s, ScanSlot(i, fd, alive, target))
    ensures Identity(Scanned(s, i, fd, alive, target))
  {
    var s' := Scanned(s, i, fd, alive, target);
    Gc.ScanSlotSound(s.gc, s'.gc, i, fd, alive);
    assert forall id :: Live(s', id) <==> Live(s, id);
    var x := s.gc.table.slots[i];
    if fd && Registers(s.gc, i) && Live(s, Label(x)) {
      assert LivePid(s, x.pid);
      SamePidSameProcess(s, target, Label(x));
    }
  }

  lemma SamePidSameProcess(s: System, a: Inc, b: Inc)
    requires People(s) && Live(s, a) && Live(s, b) && a.pid == b.pid
    ensures a == b
  {
    var j :| 0 <= j < |s.seats| && s.seats[j].Proc? && s.seats[j].id == a;
    var k :| 0 <= k < |s.seats| && s.seats[k].Proc? && s.seats[k].id == b;
  }

  lemma InitialisedIdentity(s: System, k: nat)
    requires Identity(s) && At(s, k, Initialising)
    ensures Identity(Initialised(s, k))
  {
    MoveIdentity(s, k, s.seats[k].(pc := Idle));
    ClearedInv(s.gc.table);
    var mid, s' := SetSeat(s, k, s.seats[k].(pc := Idle)), Initialised(s, k);
    assert forall id :: Live(s', id) <==> Live(mid, id);
  }

  lemma NextIdentity(cfg: Config, s: System, e: Step)
    requires Identity(s)
    ensures Identity(Next(cfg, s, e))
  {
    if Enabled(s, e) {
      match e
      case Spawn(k, id) => SpawnIdentity(s, k, id, Starting);
      case Die(k) => DieIdentity(s, k);
      case AttachClear(k) => InitialisedIdentity(s, k);
      case Commit(k, mr, mem) => CommitIdentity(s, k, mr, mem);
      case ExitEvent(i) => ExitIdentity(s, i);
      case ScanSlot(i, fd, alive, target) => ScanIdentity(s, i, fd, alive, target);
      case _ =>
        MovesOn(cfg, s, e);
        MoveIdentity(s, e.k, Effect(cfg, s, e).seats[e.k]);
    }
  }

  /** The steps in which a process only moves on. */
  lemma MovesOn(cfg: Config, s: System, e: Step)
    requires Shape(s) && Enabled(s, e) && !e.Spawn? && !e.Die? && !e.AttachClear? && !e.Commit?
    requires !e.ExitEvent? && !e.ScanSlot?
    ensures var s' := Effect(cfg, s, e);
      && e.k < |s.seats| == |s'.seats| && s.seats[e.k].Proc? && s'.seats[e.k].Proc?
      && s'.seats[e.k].id == s.seats[e.k].id && s' == SetSeat(s, e.k, s'.seats[e.k])
  {
    if e.CheckProcess? {
      assert SetSeat(s, e.k, s.seats[e.k]) == s;
    }
  }

  lemma {:induction false} IdentityKept(cfg: Config, s: System, es: seq<Step>)
    requires Identity(s)
    ensures Identity(Run(cfg, s, es))
  {
    if es != [] {
      IdentityKept(cfg, s, es[..|es| - 1]);
      NextIdentity(cfg, Run(cfg, s, es[..|es| - 1]), es[|es| - 1]);
    }
  }

  lemma RunIdentity(cfg: Config, s: System, es: seq<Step>)
    requires Init(s)
    ensures Identity(Run(cfg, s, es))
  {
    InitIdentity(s);
    IdentityKept(cfg, s, es);
  }

  /**
    Collector safety: whatever happened before, with any amount of pid reuse, an exit event or a
    scan only ever touches a slot whose owner is dead, and then it frees it.
   */
  lemma CollectorSafety(cfg: Config, s0: System, es: seq<Step>, e: Step, i: nat)
    requires Init(s0) && (e.ExitEvent? || e.ScanSlot?) && i < |s0.gc.regs|
    ensures var s := Run(cfg, s0, es);
      var before, after := s.gc.table.slots[i], Next(cfg, s, e).gc.table.slots[i];
      before != after ==> after == FREE && !Live(s, s.owners[i])
  {
    RunIdentity(cfg, s0, es);
    var s := Run(cfg, s0, es);
    if Enabled(s, e) && s.gc.table.slots[i] != Effect(cfg, s, e).gc.table.slots[i] {
      assert e.i == i;
      OnlyTheDeadAreReaped(cfg, s, e);
    }
  }

  lemma OnlyTheDeadAreReaped(cfg: Config, s: System, e: Step)
    requires Identity(s) && (e.ExitEvent? || e.ScanSlot?) && Enabled(s, e)
    ensures var s' := Effect(cfg, s, e);
      s'.gc.table == s.gc.table
      || (s.gc.table.slots[e.i].pid != 0 && s'.gc.table == Reap(s.gc.table, e.i) && !Live(s, s.owners[e.i]))
  {
    var i := e.i;
    if e.ExitEvent? {
      if s.gc.table.slots[i].pid != 0 && Gc.Matches(s.gc.regs[i], s.gc.table.slots[i]) {
        ExitIsDeath(s, i);
      }
    } else if s.gc.table.slots[i].pid != 0 && Live(s, s.owners[i]) {
      assert LivePid(s, s.gc.table.slots[i].pid);
    }
  }

  /**
    What can happen to the entry of a living process: from the commit that wrote a slot until its next
    commit or its death, a step changes that slot if and only if it is the initialisation by a process
    that read zero totals earlier. In particular a process that took over the slot of a dead namesake
    is not reaped by the namesake's exit.
   */
  lemma LivingKeepTheirSlot(cfg: Config, s0: System, es: seq<Step>, e: Step, k: nat, i: nat)
    requires Init(s0) && k < |s0.seats| && i < |s0.gc.regs|
    requires var s := Run(cfg, s0, es);
      && s.seats[k].Proc? && s.gc.table.slots[i].pid != 0 && s.owners[i] == s.seats[k].id
      && !(e.Commit? && e.k == k)
    ensures var s := Run(cfg, s0, es);
      && (Next(cfg, s, e).gc.table.slots[i] == s.gc.table.slots[i] <==> !(e.AttachClear? && Enabled(s, e)))
      && Next(cfg, s, e).owners[i] == s.owners[i]
  {
    RunIdentity(cfg, s0, es);
    SlotKept(cfg, Run(cfg, s0, es), e, k, i);
  }

  lemma SlotKept(cfg: Config, s: System, e: Step, k: nat, i: nat)
    requires Identity(s) && k < |s.seats| && i < |s.gc.regs|
    requires s.seats[k].Proc? && s.gc.table.slots[i].pid != 0 && s.owners[i] == s.seats[k].id
    requires !(e.Commit? && e.k == k)
    ensures Next(cfg, s, e).gc.table.slots[i] == s.gc.table.slots[i] <==> !(e.AttachClear? && Enabled(s, e))
    ensures Next(cfg, s, e).owners[i] == s.owners[i]
  {
    if Enabled(s, e) {
      assert Live(s, s.owners[i]);
      if e.ExitEvent? || e.ScanSlot? {
        OnlyTheDeadAreReaped(cfg, s, e);
      } else if e.Commit? {
        assert s.seats[e.k].id.pid != s.seats[k].id.pid;
        assert Target(s.gc.table.slots, s.seats[e.k].id.pid) != i;
      }
    }
  }

  // ----- Counting -----

  /** What the process has put in the table, or has yet to: its local count less a pending one. */
  function Base(p: Seat): int
    requires p.Proc?
  {
    if p.pc == Counted then p.local - 1 else p.local
  }

  /** The table charges the process itself, not a namesake, with at least q QPs. */
  ghost predicate Charges(slots: seq<Slot>, id: Inc, q: int) {
    var j := IndexOf(slots, id.pid);
    j >= 0 && slots[j].start == id.start && q <= slots[j].usage.qp
  }

  ghost predicate SeatOk(cfg: Config, slots: seq<Slot>, p: Seat) {
    p.Proc? ==>
      && 0 <= Base(p)
      && (Base(p) > 0 ==> Charges(slots, p.id, Base(p)))
      && p.live + (if p.pc == Destroying then 1 else 0) == p.local + (if p.pc == Created then 1 else 0)
      && p.local <= cfg.perProcess
      && (p.pc in {ProcessOk, Admitted, Created} ==> p.local + 1 <= cfg.perProcess)
  }

  /** Between passing the global check and committing or giving up. */
  function InFlight(p: Seat): int {
    if p.Proc? && p.pc in {Admitted, Created, Counted} then 1 else 0
  }

  function LiveQps(p: Seat): int { if p.Proc? then p.live else 0 }

  /** Limits for which no count leaves the range of a C int. */
  ghost predicate Sane(cfg: Config, n: nat) {
    n >= 1 && cfg.perProcess < TWO32 / 2 && cfg.global + n <= TWO32 / 2
  }

  /** What recorded and in-flight QPs add up to at most; nothing is ever admitted under a limit of 0. */
  function Ceiling(cfg: Config, n: nat): int {
    if cfg.global == 0 then 0 else cfg.global + n - 1
  }

  ghost predicate Counting(cfg: Config, s: System) {
    && (forall k :: 0 <= k < |s.seats| ==> SeatOk(cfg, s.gc.table.slots, s.seats[k]))
    && (forall i :: 0 <= i < |s.gc.table.slots| ==> s.gc.table.slots[i].usage.qp <= cfg.perProcess)
    && s.gc.table.global.qp + Sum(s.seats, InFlight) <= Ceiling(cfg, |s.seats|)
  }

  lemma InFlightBound(seats: seq<Seat>)
    ensures 0 <= Sum(seats, InFlight) <= |seats|
  {
    SumBoundsTerms(seats, InFlight);
    SumAtMost(seats, InFlight, 1);
  }

  lemma InitCounting(cfg: Config, s: System)
    requires Init(s) && |s.seats| >= 1
    ensures Counting(cfg, s)
  {
    SumConstant(s.seats, InFlight, 0);
  }

  /** A seat changes and the table does not. */
  lemma MoveCounting(cfg: Config, s: System, k: nat, p: Seat)
    requires Counting(cfg, s) && k < |s.seats| && SeatOk(cfg, s.gc.table.slots, p)
    requires InFlight(p) <= InFlight(s.seats[k]) || (s.gc.table.global.qp < cfg.global && cfg.global > 0)
    ensures Counting(cfg, SetSeat(s, k, p))
  {
    SumUpdate(s.seats, InFlight, k, p);
    InFlightBound(SetSeat(s, k, p).seats);
  }

  /** Passing the per-process check leaves room for one more QP of this process. */
  lemma ProcessCheckMeans(cfg: Config, s: System, k: nat)
    requires Identity(s) && Counting(cfg, s) && Sane(cfg, |s.seats|) && At(s, k, Idle)
    requires WithinProcessLimit(cfg, s.gc.table, s.seats[k].id.pid)
    ensures s.seats[k].local + 1 <= cfg.perProcess
  {
    var i := IndexOf(s.gc.table.slots, s.seats[k].id.pid);
    assert SeatOk(cfg, s.gc.table.slots, s.seats[k]);
    if i >= 0 {
      assert 0 <= s.gc.table.slots[i].usage.qp <= cfg.perProcess;
    }
  }

  lemma GlobalCheckMeans(cfg: Config, s: System)
    requires Identity(s) && Counting(cfg, s) && Sane(cfg, |s.seats|)
    ensures WithinGlobalLimit(cfg, s.gc.table) <==> s.gc.table.global.qp < cfg.global
  {
    SumBoundsTerms(s.gc.table.slots, Qp);
    InFlightBound(s.seats);
  }

  /** A change of slot i that is no business of the process p. */
  lemma SeatFrame(cfg: Config, slots: seq<Slot>, slots': seq<Slot>, i: nat, p: Seat)
    requires Layout(slots) && Layout(slots') && i < |slots| == |slots'| && slots' == slots[i := slots'[i]]
    requires p.Proc? ==> p.id.pid > 0 && slots'[i].pid != p.id.pid && Label(slots[i]) != p.id
    requires SeatOk(cfg, slots, p)
    ensures SeatOk(cfg, slots', p)
  {
    if p.Proc? && Base(p) > 0 {
      var j := IndexOf(slots, p.id.pid);
      assert j != i;
      IndexUnique(slots', j);
    }
  }

  /** What a commit leaves: one seat idle again, and slot i written, or none if i is negative. */
  ghost predicate CommitLeaves(s: System, s': System, k: nat, i: int, x: Slot)
    requires k < |s.seats| && s.seats[k].Proc? && i < |s.gc.table.slots|
  {
    && s'.seats == s.seats[k := s.seats[k].(pc := Idle)] && s'.forgot == s.forgot && s'.born == s.born
    && s'.gc.table.slots == (if i < 0 then s.gc.table.slots else s.gc.table.slots[i := x])
    && (i < 0 ==> s'.gc.table == s.gc.table)
    && Inv(s'.gc.table)
  }

  lemma CommitResult(s: System, k: nat, mr: nat, mem: nat)
    requires Identity(s) && At(s, k, Counted)
    ensures var p := s.seats[k];
      CommitLeaves(s, Committed(s, k, mr, mem), k, Target(s.gc.table.slots, p.id.pid),
                   Slot(p.id.pid, p.id.start, Usage(p.local, mr, mem)))
  {
    var p, t := s.seats[k], s.gc.table;
    var u := Usage(p.local, mr, mem);
    UpdateKeepsInv(t, p.id.pid, u, p.id.start);
    if Target(t.slots, p.id.pid) >= 0 {
      WriteOwned(t.slots, t.global, s.owners, s.born, p.id, u);
    }
  }

  /** Process k writes its local count to slot i: the total rises by one at most, and one less is in flight. */
  lemma CommitSums(slots: seq<Slot>, i: nat, x: Slot, seats: seq<Seat>, k: nat)
    requires i < |slots| && k < |seats| && seats[k].Proc? && seats[k].pc == Counted
    requires x.usage.qp <= slots[i].usage.qp + 1
    ensures Sum(slots[i := x], Qp) + Sum(seats[k := seats[k].(pc := Idle)], InFlight)
            <= Sum(slots, Qp) + Sum(seats, InFlight)
  {
    SumUpdate(seats, InFlight, k, seats[k].(pc := Idle));
    SumUpdate(slots, Qp, i, x);
  }

  lemma CountingAfterCommit(cfg: Config, s: System, s': System, k: nat, i: nat, x: Slot)
    requires Identity(s) && Counting(cfg, s) && At(s, k, Counted) && i < |s.gc.table.slots|
    requires i == Target(s.gc.table.slots, s.seats[k].id.pid) && Label(x) == s.seats[k].id
    requires x.usage.qp == s.seats[k].local && CommitLeaves(s, s', k, i, x)
    ensures Counting(cfg, s')
  {
    assert SeatOk(cfg, s.gc.table.slots, s.seats[k]);
    CommitSums(s.gc.table.slots, i, x, s.seats, k);
    CommitSeats(cfg, s.gc.table.slots, s'.gc.table.slots, i, s.seats, k);
  }

  lemma CommitCounting(cfg: Config, s: System, k: nat, mr: nat, mem: nat)
    requires Identity(s) && Counting(cfg, s) && At(s, k, Counted)
    requires Target(s.gc.table.slots, s.seats[k].id.pid) >= 0
    ensures Counting(cfg, Committed(s, k, mr, mem))
  {
    var p := s.seats[k];
    CommitResult(s, k, mr, mem);
    CountingAfterCommit(cfg, s, Committed(s, k, mr, mem), k, Target(s.gc.table.slots, p.id.pid),
                        Slot(p.id.pid, p.id.start, Usage(p.local, mr, mem)));
  }

  /** Process k writes slot i: it is charged with what it wrote, and nobody else is concerned. */
  lemma CommitSeats(cfg: Config, slots: seq<Slot>, slots': seq<Slot>, i: nat, seats: seq<Seat>, k: nat)
    requires Layout(slots) && Layout(slots') && i < |slots| == |slots'| && slots' == slots[i := slots'[i]]
    requires k < |seats| && seats[k].Proc? && seats[k].pc == Counted && seats[k].id.pid > 0
    requires Label(slots'[i]) == seats[k].id && slots'[i].usage.qp == seats[k].local
    requires slots[i].pid in {0, seats[k].id.pid}
    requires forall j :: 0 <= j < |seats| ==> SeatOk(cfg, slots, seats[j])
    requires forall j :: 0 <= j < |seats| && j != k && seats[j].Proc? ==>
      seats[j].id.pid > 0 && seats[j].id.pid != seats[k].id.pid
    ensures forall j :: 0 <= j < |seats| ==> SeatOk(cfg, slots', if j == k then seats[k].(pc := Idle) else seats[j])
  {
    IndexUnique(slots', i);
    forall j | 0 <= j < |seats|
      ensures SeatOk(cfg, slots', if j == k then seats[k].(pc := Idle) else seats[j])
    {
      assert SeatOk(cfg, slots, seats[j]);
      if j != k {
        SeatFrame(cfg, slots, slots', i, seats[j]);
      }
    }
  }

  /** Freeing the slot of a dead process concerns no living one. */
  lemma ReapCounting(cfg: Config, s: System, i: nat, s': System)
    requires Identity(s) && Counting(cfg, s) && i < |s.owners| && s.gc.table.slots[i].pid != 0 && !Live(s, s.owners[i])
    requires s'.gc.table == Reap(s.gc.table, i) && s'.seats == s.seats
    ensures Counting(cfg, s')
  {
    var t, t' := s.gc.table, s'.gc.table;
    ReapKeepsInv(t, i);
    SumUpdate(t.slots, Qp, i, FREE);
    assert Qp(t.slots[i]) >= 0;
    forall j | 0 <= j < |s.seats|
      ensures SeatOk(cfg, t'.slots, s.seats[j])
    {
      assert SeatOk(cfg, t.slots, s.seats[j]);
      SeatFrame(cfg, t.slots, t'.slots, i, s.seats[j]);
    }
  }

  lemma CheckCounting(cfg: Config, s: System, e: Step)
    requires Identity(s) && Sane(cfg, |s.seats|) && Counting(cfg, s) && Enabled(s, e)
    requires e.CheckProcess? || e.CheckGlobal?
    ensures Counting(cfg, Effect(cfg, s, e))
  {
    var p, p' := s.seats[e.k], Effect(cfg, s, e).seats[e.k];
    assert SeatOk(cfg, s.gc.table.slots, p);
    if e.CheckProcess? {
      if WithinProcessLimit(cfg, s.gc.table, p.id.pid) {
        ProcessCheckMeans(cfg, s, e.k);
        MoveCounting(cfg, s, e.k, p');
      }
    } else {
      GlobalCheckMeans(cfg, s);
      MoveCounting(cfg, s, e.k, p');
    }
  }

  lemma LocalSeat(cfg: Config, s: System, e: Step)
    requires Shape(s) && Enabled(s, e)
    requires !e.CheckProcess? && !e.CheckGlobal? && !e.Commit? && !e.AttachClear? && !e.ExitEvent? && !e.ScanSlot?
    requires SeatOk(cfg, s.gc.table.slots, s.seats[e.k])
    ensures var s' := Effect(cfg, s, e);
      && SeatOk(cfg, s.gc.table.slots, s'.seats[e.k]) && InFlight(s'.seats[e.k]) <= InFlight(s.seats[e.k])
      && s'.gc == s.gc && s'.seats == s.seats[e.k := s'.seats[e.k]]
  {
  }

  /** The steps of a process that neither check nor write the table. */
  lemma LocalCounting(cfg: Config, s: System, e: Step)
    requires Identity(s) && Counting(cfg, s) && Enabled(s, e)
    requires !e.CheckProcess? && !e.CheckGlobal? && !e.Commit? && !e.AttachClear? && !e.ExitEvent? && !e.ScanSlot?
    ensures Counting(cfg, Effect(cfg, s, e))
  {
    var p' := Effect(cfg, s, e).seats[e.k];
    LocalSeat(cfg, s, e);
    MoveCounting(cfg, s, e.k, p');
  }

  lemma NextCounting(cfg: Config, s: System, e: Step)
    requires Identity(s) && Sane(cfg, |s.seats|) && Counting(cfg, s)
    requires !Next(cfg, s, e).refused && !Next(cfg, s, e).forgot
    ensures Counting(cfg, Next(cfg, s, e))
  {
    if Enabled(s, e) {
      if e.AttachClear? {
        assert SeatOk(cfg, s.gc.table.slots, s.seats[e.k]);
        MoveCounting(cfg, s, e.k, s.seats[e.k].(pc := Idle));
      } else if e.Commit? {
        CommitCounting(cfg, s, e.k, e.mr, e.mem);
      } else if e.ExitEvent? || e.ScanSlot? {
        var s' := Effect(cfg, s, e);
        OnlyTheDeadAreReaped(cfg, s, e);
        if s'.gc.table != s.gc.table {
          ReapCounting(cfg, s, e.i, s');
        }
      } else if e.CheckProcess? || e.CheckGlobal? {
        CheckCounting(cfg, s, e);
      } else {
        LocalCounting(cfg, s, e);
      }
    }
  }

  lemma {:induction false} RunCounting(cfg: Config, s: System, es: seq<Step>)
    requires Init(s) && Sane(cfg, |s.seats|) && !Run(cfg, s, es).refused && !Run(cfg, s, es).forgot
    ensures Counting(cfg, Run(cfg, s, es))
  {
    if es == [] {
      InitCounting(cfg, s);
    } else {
      var before := Run(cfg, s, es[..|es| - 1]);
      FlagsStay(cfg, before, es[|es| - 1]);
      RunCounting(cfg, s, es[..|es| - 1]);
      RunIdentity(cfg, s, es[..|es| - 1]);
      NextCounting(cfg, before, es[|es| - 1]);
    }
  }

  lemma FlagsStay(cfg: Config, s: System, e: Step)
    requires Shape(s)
    ensures s.refused ==> Next(cfg, s, e).refused
    ensures s.forgot ==> Next(cfg, s, e).forgot
  {
  }

  ghost predicate Crowd(cfg: Config, slots: seq<Slot>, seats: seq<Seat>) {
    && Layout(slots) && (forall i :: 0 <= i < |slots| ==> slots[i].usage.qp >= 0)
    && (forall k :: 0 <= k < |seats| ==> SeatOk(cfg, slots, seats[k]) && (seats[k].Proc? ==> seats[k].id.pid > 0))
    && (forall j, k :: 0 <= j < k < |seats| && seats[j].Proc? && seats[k].Proc? ==>
          seats[j].id.pid != seats[k].id.pid)
  }

  /** Set the last process and its slot aside; the others are charged as before. */
  lemma SetAside(cfg: Config, slots: seq<Slot>, seats: seq<Seat>, i: nat)
    requires Crowd(cfg, slots, seats) && seats != [] && seats[|seats| - 1].Proc?
    requires i == IndexOf(slots, seats[|seats| - 1].id.pid)
    ensures Crowd(cfg, slots[i := FREE], seats[..|seats| - 1])
  {
    var n := |seats| - 1;
    var rest := slots[i := FREE];
    forall k | 0 <= k < n
      ensures SeatOk(cfg, rest, seats[..n][k])
    {
      assert SeatOk(cfg, slots, seats[k]);
      SeatFrame(cfg, slots, rest, i, seats[k]);
    }
  }

  /** The QPs really alive are covered by what the slots record and what is in flight. */
  lemma {:induction false} LiveCovered(cfg: Config, slots: seq<Slot>, seats: seq<Seat>)
    requires Crowd(cfg, slots, seats)
    ensures Sum(seats, LiveQps) <= Sum(slots, Qp) + Sum(seats, InFlight)
    decreases |seats|
  {
    if seats == [] {
      SumBoundsTerms(slots, Qp);
    } else {
      var n := |seats| - 1;
      var p := seats[n];
      assert SeatOk(cfg, slots, p);
      if p.Proc? && Base(p) > 0 {
        var i := IndexOf(slots, p.id.pid);
        SumUpdate(slots, Qp, i, FREE);
        SetAside(cfg, slots, seats, i);
        LiveCovered(cfg, slots[i := FREE], seats[..n]);
      } else {
        LiveCovered(cfg, slots, seats[..n]);
      }
    }
  }

  // ----- When every commit finds a slot -----

  /**
    What an operator can check beforehand: the table has a slot for every QP that can be recorded or
    in flight. (Under a limit of 0 there are none.)
   */
  predicate Roomy(cfg: Config, slots: nat, n: nat) {
    cfg.perProcess == 0 || cfg.global == 0 || slots >= cfg.global + n - 1
  }

  function Taken(x: Slot): int { if x.pid != 0 then 1 else 0 }

  /** Every entry records a QP, and so will the next commit. */
  ghost predicate Entries(s: System) {
    && (forall i :: 0 <= i < |s.gc.table.slots| && s.gc.table.slots[i].pid != 0 ==> 1 <= s.gc.table.slots[i].usage.qp)
    && (forall k :: 0 <= k < |s.seats| && s.seats[k].Proc? && s.seats[k].pc == Counted ==> 1 <= s.seats[k].local)
  }

  /** A process's step other than a commit, in the respects that matter to the table. */
  ghost predicate SeatMoves(cfg: Config, s: System, s': System, e: Step)
    requires Shape(s) && !e.ExitEvent? && !e.ScanSlot?
  {
    && Shape(s') && e.k < |s.seats| == |s'.seats| && s'.seats == s.seats[e.k := s'.seats[e.k]]
    && s'.owners == s.owners && s'.gc.regs == s.gc.regs && s'.refused == s.refused
    && s'.gc.table == (if e.AttachClear? then Cleared(s.gc.table) else s.gc.table)
    && s'.forgot == (s.forgot || (e.AttachClear? && s.gc.table != Cleared(s.gc.table)))
    && (e.AttachClear? ==> s.seats[e.k].Proc? && s.seats[e.k].pc == Initialising)
    && (s'.seats[e.k].Proc? ==>
          && (s'.seats[e.k].pc == Counted ==> s'.seats[e.k].local >= 1)
          && (s'.seats[e.k].pc == Initialising ==> s.gc.table.global == NONE))
    && (InFlight(s'.seats[e.k]) <= InFlight(s.seats[e.k]) || (e.CheckGlobal? && WithinGlobalLimit(cfg, s.gc.table)))
    && (s.seats[e.k].Proc? && !e.Die? ==> s'.seats[e.k].Proc? && s'.seats[e.k].id == s.seats[e.k].id)
  }

  lemma ArrivalStep(cfg: Config, s: System, e: Step)
    requires Shape(s) && Enabled(s, e) && (e.Spawn? || e.Die? || e.AttachRead? || e.AttachClear?)
    ensures SeatMoves(cfg, s, Effect(cfg, s, e), e)
  {
  }

  lemma CreateStep(cfg: Config, s: System, e: Step)
    requires Shape(s) && Enabled(s, e) && (e.CheckProcess? || e.CheckGlobal? || e.GiveUp? || e.CreateQp? || e.Count?)
    ensures SeatMoves(cfg, s, Effect(cfg, s, e), e)
  {
  }

  lemma DestroyStep(cfg: Config, s: System, e: Step)
    requires Shape(s) && Enabled(s, e) && (e.DestroyQp? || e.Uncount?)
    ensures SeatMoves(cfg, s, Effect(cfg, s, e), e)
  {
  }

  lemma SeatStep(cfg: Config, s: System, e: Step)
    requires Shape(s) && Enabled(s, e) && !e.Commit? && !e.ExitEvent? && !e.ScanSlot?
    ensures SeatMoves(cfg, s, Effect(cfg, s, e), e)
  {
    if e.Spawn? || e.Die? || e.AttachRead? || e.AttachClear? {
      ArrivalStep(cfg, s, e);
    } else if e.DestroyQp? || e.Uncount? {
      DestroyStep(cfg, s, e);
    } else {
      CreateStep(cfg, s, e);
    }
  }

  lemma EntriesAfterCommit(s: System, s': System, k: nat, i: int, x: Slot)
    requires Entries(s) && k < |s.seats| && s.seats[k].Proc? && i < |s.gc.table.slots|
    requires x.usage.qp >= 1 && CommitLeaves(s, s', k, i, x)
    ensures Entries(s')
  {
  }

  lemma CommitEntries(s: System, k: nat, mr: nat, mem: nat)
    requires Identity(s) && Entries(s) && At(s, k, Counted)
    ensures Entries(Committed(s, k, mr, mem))
  {
    var p := s.seats[k];
    CommitResult(s, k, mr, mem);
    EntriesAfterCommit(s, Committed(s, k, mr, mem), k, Target(s.gc.table.slots, p.id.pid),
                       Slot(p.id.pid, p.id.start, Usage(p.local, mr, mem)));
  }

  lemma SeatEntries(cfg: Config, s: System, s': System, e: Step)
    requires Shape(s) && Entries(s) && !e.ExitEvent? && !e.ScanSlot? && SeatMoves(cfg, s, s', e)
    ensures Entries(s')
  {
  }

  lemma ReapEntries(s: System, s': System, i: nat)
    requires Entries(s) && i < |s.gc.table.slots| && s'.seats == s.seats
    requires s'.gc.table == s.gc.table || s'.gc.table == Reap(s.gc.table, i)
    ensures Entries(s')
  {
  }

  lemma NextEntries(cfg: Config, s: System, e: Step)
    requires Identity(s) && Entries(s)
    ensures Entries(Next(cfg, s, e))
  {
    if Enabled(s, e) {
      if e.ExitEvent? || e.ScanSlot? {
        OnlyTheDeadAreReaped(cfg, s, e);
        ReapEntries(s, Effect(cfg, s, e), e.i);
      } else if e.Commit? {
        CommitEntries(s, e.k, e.mr, e.mem);
      } else {
        SeatStep(cfg, s, e);
        SeatEntries(cfg, s, Effect(cfg, s, e), e);
      }
    }
  }

  lemma {:induction false} RunEntries(cfg: Config, s: System, es: seq<Step>)
    requires Init(s)
    ensures Entries(Run(cfg, s, es)) && Identity(Run(cfg, s, es))
  {
    RunIdentity(cfg, s, es);
    if es != [] {
      RunEntries(cfg, s, es[..|es| - 1]);
      NextEntries(cfg, Run(cfg, s, es[..|es| - 1]), es[|es| - 1]);
    }
  }

  /** Entries and creates in flight together are bounded, whatever has been forgotten. */
  ghost predicate Crowding(cfg: Config, s: System) {
    && Sum(s.gc.table.slots, Taken) + Sum(s.seats, InFlight) <= Ceiling(cfg, |s.seats|)
    && (cfg.perProcess == 0 ==> forall k :: 0 <= k < |s.seats| && s.seats[k].Proc? ==>
          s.seats[k].pc in {Starting, Initialising, Idle, Destroying})
  }

  /** The total of recorded QPs is one that a C int can hold. */
  predicate TotalFits(s: System) { s.gc.table.global.qp < TWO32 / 2 }

  ghost predicate InRange(cfg: Config, s0: System, es: seq<Step>)
    requires Shape(s0)
  {
    TotalFits(Run(cfg, s0, es)) && (es != [] ==> InRange(cfg, s0, es[..|es| - 1]))
  }

  lemma MoveCrowding(cfg: Config, s: System, k: nat, p: Seat)
    requires Identity(s) && Entries(s) && Crowding(cfg, s) && k < |s.seats|
    requires InFlight(p) <= InFlight(s.seats[k]) || (s.gc.table.global.qp < cfg.global && cfg.global > 0)
    requires cfg.perProcess == 0 && p.Proc? ==> p.pc in {Starting, Initialising, Idle, Destroying}
    ensures Crowding(cfg, SetSeat(s, k, p))
  {
    SumUpdate(s.seats, InFlight, k, p);
    InFlightBound(SetSeat(s, k, p).seats);
    SumMonotone(s.gc.table.slots, Taken, Qp);
  }

  lemma CheckCrowding(cfg: Config, s: System, e: Step)
    requires Identity(s) && Entries(s) && Crowding(cfg, s) && TotalFits(s) && Enabled(s, e)
    requires e.CheckProcess? || e.CheckGlobal?
    ensures Crowding(cfg, Effect(cfg, s, e))
  {
    SumBoundsTerms(s.gc.table.slots, Qp);
    var t, p := s.gc.table, s.seats[e.k];
    if e.CheckGlobal? {
      MoveCrowding(cfg, s, e.k, p.(pc := if WithinGlobalLimit(cfg, t) then Admitted else Idle));
    } else if WithinProcessLimit(cfg, t, p.id.pid) {
      var i := IndexOf(t.slots, p.id.pid);
      assert i >= 0 ==> 0 <= Qp(t.slots[i]) <= t.global.qp;
      MoveCrowding(cfg, s, e.k, p.(pc := ProcessOk));
    }
  }

  lemma CrowdingAfterCommit(cfg: Config, s: System, s': System, k: nat, i: int, x: Slot)
    requires Crowding(cfg, s) && At(s, k, Counted) && i < |s.gc.table.slots| && CommitLeaves(s, s', k, i, x)
    ensures Crowding(cfg, s')
  {
    CommitCrowd(s.gc.table.slots, i, x, s.seats, k);
  }

  lemma CommitCrowding(cfg: Config, s: System, k: nat, mr: nat, mem: nat)
    requires Identity(s) && Crowding(cfg, s) && At(s, k, Counted)
    ensures Crowding(cfg, Committed(s, k, mr, mem))
  {
    var p := s.seats[k];
    CommitResult(s, k, mr, mem);
    CrowdingAfterCommit(cfg, s, Committed(s, k, mr, mem), k, Target(s.gc.table.slots, p.id.pid),
                        Slot(p.id.pid, p.id.start, Usage(p.local, mr, mem)));
  }

  lemma CommitCrowd(slots: seq<Slot>, i: int, x: Slot, seats: seq<Seat>, k: nat)
    requires i < |slots| && k < |seats| && seats[k].Proc? && seats[k].pc == Counted
    ensures Sum(if i < 0 then slots else slots[i := x], Taken) + Sum(seats[k := seats[k].(pc := Idle)], InFlight)
            <= Sum(slots, Taken) + Sum(seats, InFlight)
  {
    SumUpdate(seats, InFlight, k, seats[k].(pc := Idle));
    if i >= 0 {
      SumUpdate(slots, Taken, i, x);
    }
  }

  lemma ClearCrowding(cfg: Config, s: System, k: nat)
    requires Crowding(cfg, s) && At(s, k, Initialising)
    ensures Crowding(cfg, Initialised(s, k))
  {
    SumBoundsTerms(s.gc.table.slots, Taken);
    SumConstant(Cleared(s.gc.table).slots, Taken, 0);
    SumUpdate(s.seats, InFlight, k, s.seats[k].(pc := Idle));
  }

  lemma ReapCrowding(cfg: Config, s: System, s': System, i: nat)
    requires Crowding(cfg, s) && i < |s.gc.table.slots| && s'.seats == s.seats
    requires s'.gc.table == s.gc.table || s'.gc.table == Reap(s.gc.table, i)
    ensures Crowding(cfg, s')
  {
    SumUpdate(s.gc.table.slots, Taken, i, FREE);
  }

  /** The steps that neither check nor write the table. */
  lemma LocalCrowding(cfg: Config, s: System, e: Step)
    requires Identity(s) && Entries(s) && Crowding(cfg, s) && Enabled(s, e)
    requires !e.CheckProcess? && !e.CheckGlobal? && !e.Commit? && !e.AttachClear? && !e.ExitEvent? && !e.ScanSlot?
    ensures Crowding(cfg, Effect(cfg, s, e))
  {
    var s' := Effect(cfg, s, e);
    SeatStep(cfg, s, e);
    MoveCrowding(cfg, s, e.k, s'.seats[e.k]);
  }

  lemma NextCrowding(cfg: Config, s: System, e: Step)
    requires Identity(s) && Entries(s) && Crowding(cfg, s) && TotalFits(s)
    ensures Crowding(cfg, Next(cfg, s, e))
  {
    if Enabled(s, e) {
      if e.ExitEvent? || e.ScanSlot? {
        OnlyTheDeadAreReaped(cfg, s, e);
        ReapCrowding(cfg, s, Effect(cfg, s, e), e.i);
      } else if e.CheckProcess? || e.CheckGlobal? {
        CheckCrowding(cfg, s, e);
      } else if e.Commit? {
        CommitCrowding(cfg, s, e.k, e.mr, e.mem);
      } else if e.AttachClear? {
        ClearCrowding(cfg, s, e.k);
      } else {
        LocalCrowding(cfg, s, e);
      }
    }
  }

  lemma {:induction false} RunCrowding(cfg: Config, s: System, es: seq<Step>)
    requires Init(s) && |s.seats| >= 1 && InRange(cfg, s, es)
    ensures Crowding(cfg, Run(cfg, s, es))
  {
    if es == [] {
      SumConstant(s.gc.table.slots, Taken, 0);
      SumConstant(s.seats, InFlight, 0);
    } else {
      RunCrowding(cfg, s, es[..|es| - 1]);
      RunEntries(cfg, s, es[..|es| - 1]);
      NextCrowding(cfg, Run(cfg, s, es[..|es| - 1]), es[|es| - 1]);
    }
  }

  /** A full table has an entry in every slot, and the QP to be committed is in flight besides. */
  lemma CommitFindsSlot(cfg: Config, s: System, k: nat)
    requires Shape(s) && Crowding(cfg, s) && At(s, k, Counted) && Roomy(cfg, |s.gc.regs|, |s.seats|)
    ensures Target(s.gc.table.slots, s.seats[k].id.pid) >= 0
  {
    var slots := s.gc.table.slots;
    SumBoundsTerms(s.seats, InFlight);
    assert InFlight(s.seats[k]) == 1;
    if Target(slots, s.seats[k].id.pid) < 0 {
      SumConstant(slots, Taken, 1);
    }
  }

  /** In a roomy table no commit is ever refused, however many processes come and go and whatever an
      initialisation forgets, as long as the recorded total is one that its C int can hold. */
  lemma {:induction false} NeverRefused(cfg: Config, s0: System, es: seq<Step>)
    requires Init(s0) && |s0.seats| >= 1 && Roomy(cfg, |s0.gc.regs|, |s0.seats|) && InRange(cfg, s0, es)
    ensures !Run(cfg, s0, es).refused
  {
    if es != [] {
      var before, s, e := es[..|es| - 1], Run(cfg, s0, es[..|es| - 1]), es[|es| - 1];
      NeverRefused(cfg, s0, before);
      RunCrowding(cfg, s0, before);
      RunIdentity(cfg, s0, before);
      if Enabled(s, e) && e.Commit? {
        CommitFindsSlot(cfg, s, e.k);
      }
    }
  }

  lemma CountingFits(cfg: Config, s: System)
    requires Sane(cfg, |s.seats|) && Counting(cfg, s)
    ensures TotalFits(s)
  {
    InFlightBound(s.seats);
  }

  lemma {:induction false} UnrefusedInRange(cfg: Config, s0: System, es: seq<Step>)
    requires Init(s0) && Sane(cfg, |s0.seats|) && !Run(cfg, s0, es).refused && !Run(cfg, s0, es).forgot
    ensures InRange(cfg, s0, es)
  {
    if es != [] {
      FlagsStay(cfg, Run(cfg, s0, es[..|es| - 1]), es[|es| - 1]);
      UnrefusedInRange(cfg, s0, es[..|es| - 1]);
    }
    RunCounting(cfg, s0, es);
    CountingFits(cfg, Run(cfg, s0, es));
  }

  /** If nothing is forgotten, the total does fit. */
  lemma {:induction false} RoomyRuns(cfg: Config, s0: System, es: seq<Step>)
    requires Init(s0) && Sane(cfg, |s0.seats|) && Roomy(cfg, |s0.gc.regs|, |s0.seats|) && !Run(cfg, s0, es).forgot
    ensures InRange(cfg, s0, es) && !Run(cfg, s0, es).refused && Counting(cfg, Run(cfg, s0, es))
  {
    if es != [] {
      var before, s, e := es[..|es| - 1], Run(cfg, s0, es[..|es| - 1]), es[|es| - 1];
      FlagsStay(cfg, s, e);
      RoomyRuns(cfg, s0, before);
      RunCrowding(cfg, s0, before);
      RunIdentity(cfg, s0, before);
      if Enabled(s, e) && e.Commit? {
        CommitFindsSlot(cfg, s, e.k);
      }
    }
    RunCounting(cfg, s0, es);
    CountingFits(cfg, Run(cfg, s0, es));
  }

  /** No initialisation of the run forgot an entry; and the table is roomy, or no commit was refused. */
  ghost predicate Recorded(cfg: Config, s0: System, es: seq<Step>)
    requires Shape(s0)
  {
    !Run(cfg, s0, es).forgot && (Roomy(cfg, |s0.gc.regs|, |s0.seats|) || !Run(cfg, s0, es).refused)
  }

  lemma RecordedCounting(cfg: Config, s0: System, es: seq<Step>)
    requires Init(s0) && Sane(cfg, |s0.seats|) && Recorded(cfg, s0, es)
    ensures Counting(cfg, Run(cfg, s0, es)) && Identity(Run(cfg, s0, es))
  {
    if Roomy(cfg, |s0.gc.regs|, |s0.seats|) {
      RoomyRuns(cfg, s0, es);
    }
    RunCounting(cfg, s0, es);
    RunIdentity(cfg, s0, es);
  }

  // ----- When no initialisation forgets anything -----

  /** Nobody is about to initialise the table. */
  ghost predicate Calm(s: System) {
    forall k :: 0 <= k < |s.seats| && s.seats[k].Proc? ==> s.seats[k].pc != Initialising
  }

  predicate Blank(t: Table) { t == Cleared(t) }

  /** No commit falls between a reading of zero totals and the initialisation that follows it. */
  ghost predicate Undisturbed(cfg: Config, s0: System, es: seq<Step>)
    requires Shape(s0)
  {
    es == [] ||
    (&& Undisturbed(cfg, s0, es[..|es| - 1])
     && (es[|es| - 1].Commit? && Enabled(Run(cfg, s0, es[..|es| - 1]), es[|es| - 1]) ==>
           Calm(Run(cfg, s0, es[..|es| - 1]))))
  }

  /** As every entry records a QP, zero totals mean that there is none. */
  lemma ZeroMeansBlank(s: System)
    requires Identity(s) && Entries(s) && s.gc.table.global == NONE
    ensures Blank(s.gc.table)
  {
    var slots := s.gc.table.slots;
    SumBoundsTerms(slots, Qp);
    forall i | 0 <= i < |slots|
      ensures slots[i] == FREE
    {
      assert Qp(slots[i]) <= 0;
    }
  }

  lemma SeatBlank(cfg: Config, s: System, s': System, e: Step)
    requires Identity(s) && Entries(s) && (Calm(s) || Blank(s.gc.table))
    requires !e.ExitEvent? && !e.ScanSlot? && SeatMoves(cfg, s, s', e)
    ensures s'.forgot == s.forgot && (Calm(s') || Blank(s'.gc.table))
  {
    if s.gc.table.global == NONE {
      ZeroMeansBlank(s);
    }
  }

  lemma CollectorLeavesBlank(cfg: Config, s: System, e: Step)
    requires Identity(s) && (e.ExitEvent? || e.ScanSlot?) && Enabled(s, e)
    ensures var s' := Effect(cfg, s, e);
      s'.seats == s.seats && s'.forgot == s.forgot && (Blank(s.gc.table) ==> s'.gc.table == s.gc.table)
  {
    OnlyTheDeadAreReaped(cfg, s, e);
    assert Blank(s.gc.table) ==> s.gc.table.slots[e.i] == FREE;
  }

  lemma BlankStays(cfg: Config, s: System, e: Step)
    requires Identity(s) && Entries(s) && (Calm(s) || Blank(s.gc.table))
    requires e.Commit? && Enabled(s, e) ==> Calm(s)
    ensures var s' := Next(cfg, s, e);
      s'.forgot == s.forgot && (Calm(s') || Blank(s'.gc.table))
  {
    if Enabled(s, e) {
      if e.ExitEvent? || e.ScanSlot? {
        CollectorLeavesBlank(cfg, s, e);
      } else if e.Commit? {
        CommitResult(s, e.k, e.mr, e.mem);
      } else {
        SeatStep(cfg, s, e);
        SeatBlank(cfg, s, Effect(cfg, s, e), e);
      }
    }
  }

  /** In such a run no initialisation forgets anything. */
  lemma {:induction false} UndisturbedNeverForgets(cfg: Config, s0: System, es: seq<Step>)
    requires Init(s0) && Undisturbed(cfg, s0, es)
    ensures var s := Run(cfg, s0, es);
      !s.forgot && (Calm(s) || Blank(s.gc.table))
  {
    if es != [] {
      UndisturbedNeverForgets(cfg, s0, es[..|es| - 1]);
      RunEntries(cfg, s0, es[..|es| - 1]);
      BlankStays(cfg, Run(cfg, s0, es[..|es| - 1]), es[|es| - 1]);
    }
  }

  /** A process that is alone is never disturbed. */
  lemma {:induction false} AloneUndisturbed(cfg: Config, s0: System, es: seq<Step>)
    requires Shape(s0) && |s0.seats| == 1
    ensures Undisturbed(cfg, s0, es)
  {
    if es != [] {
      AloneUndisturbed(cfg, s0, es[..|es| - 1]);
    }
  }

  // ----- The bounds -----

  /** The most QPs that n processes ever have. */
  function Peak(cfg: Config, n: nat): int { Min(Ceiling(cfg, n), cfg.perProcess * n) }

  /**
    The global overshoot bound: with at most n processes alive at a time and a roomy table, over
    every interleaving of checks, creates, commits, destroys, deaths, pid reuse and collector work in
    which no starting process initialises away an entry, the QPs really alive are at most what the
    table records plus the creates in flight, that is at most max_global_qp + n - 1 (the limit itself
    for one process), and the QPs alive are also at most n times max_qp_per_process. In a smaller
    table this holds for the runs without a refused commit.
   */
  lemma GlobalOvershootBound(cfg: Config, s0: System, es: seq<Step>)
    requires Init(s0) && Sane(cfg, |s0.seats|) && Recorded(cfg, s0, es)
    ensures var s := Run(cfg, s0, es);
      && Sum(s.seats, LiveQps) <= s.gc.table.global.qp + Sum(s.seats, InFlight)
      && s.gc.table.global.qp + Sum(s.seats, InFlight) <= Ceiling(cfg, |s0.seats|)
      && Sum(s.seats, LiveQps) <= Peak(cfg, |s0.seats|)
  {
    RecordedCounting(cfg, s0, es);
    var s := Run(cfg, s0, es);
    LiveCovered(cfg, s.gc.table.slots, s.seats);
    forall k | 0 <= k < |s.seats|
      ensures LiveQps(s.seats[k]) <= cfg.perProcess
    {
      assert SeatOk(cfg, s.gc.table.slots, s.seats[k]);
    }
    SumAtMost(s.seats, LiveQps, cfg.perProcess);
  }

  /**
    Per-process exactness, over the same runs: a process never has more QPs than
    max_qp_per_process, its library counts exactly the QPs it has whenever no hook is half done,
    and outside the window between create and commit the table charges it with at least that many,
    although destroying a QP does not write the table.
   */
  lemma PerProcessExactness(cfg: Config, s0: System, es: seq<Step>, k: nat)
    requires Init(s0) && Sane(cfg, |s0.seats|) && Recorded(cfg, s0, es)
    requires k < |s0.seats| && Run(cfg, s0, es).seats[k].Proc?
    ensures var s := Run(cfg, s0, es);
      var p := s.seats[k];
      && p.live <= cfg.perProcess
      && (p.pc in {Idle, ProcessOk, Admitted, Counted} ==> p.local == p.live)
      && (p.pc in {Idle, ProcessOk, Admitted, Destroying} ==> p.local <= Lookup(s.gc.table, p.id.pid).qp)
      && (p.pc == Counted ==> p.local <= Lookup(s.gc.table, p.id.pid).qp + 1)
  {
    RecordedCounting(cfg, s0, es);
    var s := Run(cfg, s0, es);
    assert SeatOk(cfg, s.gc.table.slots, s.seats[k]);
    var i := IndexOf(s.gc.table.slots, s.seats[k].id.pid);
    assert i >= 0 ==> s.gc.table.slots[i].usage.qp >= 0;
  }

  // ----- When there are few pids -----

  ghost function Pids(born: set<Inc>): set<int> { set id | id in born :: id.pid }

  ghost function SlotPids(slots: seq<Slot>): set<int> { set i | 0 <= i < |slots| :: slots[i].pid }

  lemma {:induction false} DistinctPids(slots: seq<Slot>)
    requires forall i, j :: 0 <= i < j < |slots| ==> slots[i].pid != slots[j].pid
    ensures |SlotPids(slots)| == |slots|
  {
    if slots != [] {
      var n := |slots| - 1;
      DistinctPids(slots[..n]);
      assert SlotPids(slots) == SlotPids(slots[..n]) + {slots[n].pid};
    }
  }

  /** A full table holds as many pids as it has slots, all of them of processes that once ran. */
  lemma RoomForAll(s: System, k: nat)
    requires Identity(s) && k < |s.seats| && s.seats[k].Proc? && |Pids(s.born)| <= |s.gc.regs|
    ensures Target(s.gc.table.slots, s.seats[k].id.pid) >= 0
  {
    var slots, pid := s.gc.table.slots, s.seats[k].id.pid;
    assert s.seats[k].id in s.born;
    assert pid in Pids(s.born);
    if Target(slots, pid) < 0 {
      DistinctPids(slots);
      forall q | q in SlotPids(slots)
        ensures q in Pids(s.born) - {pid}
      {
        var i :| 0 <= i < |slots| && slots[i].pid == q;
        assert s.owners[i] in s.born;
      }
      SubsetSize(SlotPids(slots), Pids(s.born) - {pid});
    }
  }

  /** If a run uses no more pids than the table has slots, no commit in it is refused. */
  lemma {:induction false} EnoughSlotsNoRefusal(cfg: Config, s0: System, es: seq<Step>)
    requires Init(s0) && |Pids(Run(cfg, s0, es).born)| <= |s0.gc.regs|
    ensures !Run(cfg, s0, es).refused
  {
    if es != [] {
      var s, e := Run(cfg, s0, es[..|es| - 1]), es[|es| - 1];
      assert s.born <= Next(cfg, s, e).born;
      SubsetSize(Pids(s.born), Pids(Next(cfg, s, e).born));
      EnoughSlotsNoRefusal(cfg, s0, es[..|es| - 1]);
      RunIdentity(cfg, s0, es[..|es| - 1]);
      if Enabled(s, e) && e.Commit? {
        RoomForAll(s, e.k);
      }
    }
  }

  // ----- Reaching states -----

  /** One scan: every slot in turn, with nothing in between. */
  ghost predicate WholeScan(es: seq<Step>) {
    forall i :: 0 <= i < |es| ==> es[i].ScanSlot? && es[i].i == i
  }

  /** Scans come whole: the collector holds the lock from the first slot to the last. */
  ghost predicate Swept(es: seq<Step>, slots: nat) {
    es == []
    || (!es[|es| - 1].ScanSlot? && Swept(es[..|es| - 1], slots))
    || (0 < slots <= |es| && WholeScan(es[|es| - slots..]) && Swept(es[..|es| - slots], slots))
  }

  /** Some run with whole scans leads to s. */
  ghost predicate Reachable(cfg: Config, s0: System, s: System)
    requires Shape(s0)
  {
    exists es: seq<Step> :: Swept(es, |s0.gc.regs|) && Run(cfg, s0, es) == s
  }

  lemma ReachStart(cfg: Config, s0: System)
    requires Shape(s0)
    ensures Reachable(cfg, s0, s0)
  {
    assert Swept([], |s0.gc.regs|) && Run(cfg, s0, []) == s0;
  }

  lemma ReachNext(cfg: Config, s0: System, s: System, e: Step)
    requires Shape(s0) && Reachable(cfg, s0, s) && !e.ScanSlot?
    ensures Shape(s) && Reachable(cfg, s0, Next(cfg, s, e))
  {
    var es :| Swept(es, |s0.gc.regs|) && Run(cfg, s0, es) == s;
    assert (es + [e])[..|es|] == es;
    assert Swept(es + [e], |s0.gc.regs|) && Run(cfg, s0, es + [e]) == Next(cfg, s, e);
  }

  lemma RunOneMore(cfg: Config, s: System, es: seq<Step>, e: Step)
    requires Shape(s)
    ensures Run(cfg, s, es + [e]) == Next(cfg, Run(cfg, s, es), e)
  {
    assert (es + [e])[..|es|] == es;
  }

  lemma {:induction false} RunConcat(cfg: Config, s: System, es: seq<Step>, more: seq<Step>)
    requires Shape(s)
    ensures Run(cfg, s, es + more) == Run(cfg, Run(cfg, s, es), more)
  {
    if more == [] {
      assert es + more == es;
    } else {
      var front, e := more[..|more| - 1], more[|more| - 1];
      RunConcat(cfg, s, es, front);
      RunOneMore(cfg, s, es + front, e);
      RunOneMore(cfg, Run(cfg, s, es), front, e);
      assert es + more == (es + front) + [e] && more == front + [e];
    }
  }

  lemma ReachScan(cfg: Config, s0: System, s: System, scan: seq<Step>)
    requires Shape(s0) && Reachable(cfg, s0, s) && WholeScan(scan) && |scan| == |s0.gc.regs| > 0
    ensures Shape(s) && Reachable(cfg, s0, Run(cfg, s, scan))
  {
    var es :| Swept(es, |s0.gc.regs|) && Run(cfg, s0, es) == s;
    var all := es + scan;
    assert all[..|es|] == es && all[|es|..] == scan;
    assert Swept(all, |s0.gc.regs|);
    RunConcat(cfg, s0, es, scan);
  }

  function WithPc(s: System, k: nat, pc: Pc): System
    requires k < |s.seats| && s.seats[k].Proc?
  {
    SetSeat(s, k, s.seats[k].(pc := pc))
  }

  lemma PassesProcessCheck(cfg: Config, s: System, k: nat)
    requires Shape(s) && At(s, k, Idle) && WithinProcessLimit(cfg, s.gc.table, s.seats[k].id.pid)
    ensures Next(cfg, s, CheckProcess(k)) == WithPc(s, k, ProcessOk)
  {
  }

  lemma PassesGlobalCheck(cfg: Config, s: System, k: nat)
    requires Shape(s) && k < |s.seats| && s.seats[k].Proc? && WithinGlobalLimit(cfg, s.gc.table)
    ensures Next(cfg, WithPc(s, k, ProcessOk), CheckGlobal(k)) == WithPc(s, k, Admitted)
  {
  }

  lemma CreateSucceeds(cfg: Config, s: System, k: nat)
    requires Shape(s) && k < |s.seats| && s.seats[k].Proc?
    ensures Next(cfg, WithPc(s, k, Admitted), CreateQp(k)) == WithCreated(s, k)
  {
  }

  /** The state in which process k has just created a QP. */
  function WithCreated(s: System, k: nat): System
    requires k < |s.seats| && s.seats[k].Proc?
  {
    SetSeat(s, k, s.seats[k].(pc := Created, live := s.seats[k].live + 1))
  }

  function WithCounted(s: System, k: nat): System
    requires k < |s.seats| && s.seats[k].Proc?
  {
    var p := s.seats[k];
    SetSeat(s, k, p.(pc := Counted, live := p.live + 1, local := p.local + 1))
  }

  function WithSpawned(s: System, k: nat, id: Inc): System
    requires k < |s.seats|
  {
    SetSeat(s, k, Proc(id, Idle, 0, 0)).(born := s.born + {id})
  }

  lemma ReachCreated(cfg: Config, s0: System, s: System, k: nat)
    requires Shape(s0) && Reachable(cfg, s0, s) && Shape(s) && At(s, k, Idle)
    requires WithinProcessLimit(cfg, s.gc.table, s.seats[k].id.pid) && WithinGlobalLimit(cfg, s.gc.table)
    ensures Reachable(cfg, s0, WithCreated(s, k))
  {
    PassesProcessCheck(cfg, s, k);
    PassesGlobalCheck(cfg, s, k);
    CreateSucceeds(cfg, s, k);
    ReachNext(cfg, s0, s, CheckProcess(k));
    ReachNext(cfg, s0, WithPc(s, k, ProcessOk), CheckGlobal(k));
    ReachNext(cfg, s0, WithPc(s, k, Admitted), CreateQp(k));
  }

  /** The steps of a create, from the checks to the commit. */
  function CreateCall(k: nat, mr: nat, mem: nat): seq<Step> {
    [CheckProcess(k)] + [CheckGlobal(k)] + [CreateQp(k)] + [Count(k)] + [Commit(k, mr, mem)]
  }

  lemma CreateCallRuns(cfg: Config, s: System, k: nat, mr: nat, mem: nat)
    requires Shape(s) && At(s, k, Idle)
    requires WithinProcessLimit(cfg, s.gc.table, s.seats[k].id.pid) && WithinGlobalLimit(cfg, s.gc.table)
    ensures Run(cfg, s, CreateCall(k, mr, mem)) == Committed(WithCounted(s, k), k, mr, mem)
  {
    ChecksRun(cfg, s, k);
    CreateSucceeds(cfg, s, k);
    CountMeans(cfg, s, k);
    var es := [CheckProcess(k)] + [CheckGlobal(k)];
    Follows(cfg, s, es, WithPc(s, k, Admitted), CreateQp(k), WithCreated(s, k));
    Follows(cfg, s, es + [CreateQp(k)], WithCreated(s, k), Count(k), WithCounted(s, k));
    RunOneMore(cfg, s, es + [CreateQp(k)] + [Count(k)], Commit(k, mr, mem));
  }

  lemma Follows(cfg: Config, s: System, es: seq<Step>, mid: System, e: Step, s': System)
    requires Shape(s) && Shape(mid) && Run(cfg, s, es) == mid && Next(cfg, mid, e) == s'
    ensures Run(cfg, s, es + [e]) == s'
  {
    RunOneMore(cfg, s, es, e);
  }

  lemma ChecksRun(cfg: Config, s: System, k: nat)
    requires Shape(s) && At(s, k, Idle)
    requires WithinProcessLimit(cfg, s.gc.table, s.seats[k].id.pid) && WithinGlobalLimit(cfg, s.gc.table)
    ensures Run(cfg, s, [CheckProcess(k)] + [CheckGlobal(k)]) == WithPc(s, k, Admitted)
  {
    PassesProcessCheck(cfg, s, k);
    PassesGlobalCheck(cfg, s, k);
    assert [] + [CheckProcess(k)] == [CheckProcess(k)];
    Follows(cfg, s, [], s, CheckProcess(k), WithPc(s, k, ProcessOk));
    Follows(cfg, s, [CheckProcess(k)], WithPc(s, k, ProcessOk), CheckGlobal(k), WithPc(s, k, Admitted));
  }

  lemma CountMeans(cfg: Config, s: System, k: nat)
    requires Shape(s) && At(s, k, Idle)
    ensures Next(cfg, WithCreated(s, k), Count(k)) == WithCounted(s, k)
  {
  }

  lemma ReachCounted(cfg: Config, s0: System, s: System, k: nat)
    requires Shape(s0) && Shape(s) && At(s, k, Idle) && Reachable(cfg, s0, WithCreated(s, k))
    ensures Reachable(cfg, s0, WithCounted(s, k))
  {
    ReachNext(cfg, s0, WithCreated(s, k), Count(k));
    CountMeans(cfg, s, k);
  }

  lemma ReachCommit(cfg: Config, s0: System, s: System, k: nat)
    requires Shape(s0) && Reachable(cfg, s0, s) && Shape(s) && At(s, k, Counted)
    ensures Reachable(cfg, s0, Committed(s, k, 0, 0))
  {
    ReachNext(cfg, s0, s, Commit(k, 0, 0));
  }

  lemma ReachCommitted(cfg: Config, s0: System, s: System, k: nat)
    requires Shape(s0) && Reachable(cfg, s0, s) && Shape(s) && At(s, k, Idle)
    requires WithinProcessLimit(cfg, s.gc.table, s.seats[k].id.pid) && WithinGlobalLimit(cfg, s.gc.table)
    ensures Reachable(cfg, s0, Committed(WithCounted(s, k), k, 0, 0))
  {
    ReachCreated(cfg, s0, s, k);
    ReachCounted(cfg, s0, s, k);
    ReachCommit(cfg, s0, WithCounted(s, k), k);
  }

  /** A process arrives and attaches, and the table stays as it is. */
  lemma ReachSpawned(cfg: Config, s0: System, s: System, k: nat, id: Inc)
    requires Shape(s0) && Reachable(cfg, s0, s) && Shape(s) && Enabled(s, Spawn(k, id))
    requires s.gc.table.global == NONE ==> Blank(s.gc.table)
    ensures Reachable(cfg, s0, WithSpawned(s, k, id))
  {
    var s1 := Next(cfg, s, Spawn(k, id));
    ReachNext(cfg, s0, s, Spawn(k, id));
    ReachNext(cfg, s0, s1, AttachRead(k));
    var s2 := Next(cfg, s1, AttachRead(k));
    if s.gc.table.global == NONE {
      ReachNext(cfg, s0, s2, AttachClear(k));
      assert Next(cfg, s2, AttachClear(k)) == WithSpawned(s, k, id);
    } else {
      assert s2 == WithSpawned(s, k, id);
    }
  }
}
