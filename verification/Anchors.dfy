/**
  What a living process with an entry does for the others, and what its entry does to it. As long as
  it lives the totals are not zero, so that no starting process initialises the table. But destroying
  QPs does not write the table: an entry at the limit locks its process out for good, and entries that
  reach the global limit lock out everybody.
 */
module Anchors {
  import opened Common
  import opened Sums
  import opened ProcessTable
  import opened Admission
  import opened Overshoot

  /** Slot i is the entry of the living process in seat k. */
  ghost predicate Holds(s: System, k: nat, i: nat) {
    && k < |s.seats| && s.seats[k].Proc?
    && i < |s.gc.table.slots| == |s.owners| && s.gc.table.slots[i].pid != 0 && s.owners[i] == s.seats[k].id
  }

  /** In order, with nobody about to initialise the table. */
  ghost predicate Steady(s: System) { Identity(s) && Entries(s) && Calm(s) }

  ghost predicate Lives(es: seq<Step>, k: nat) { forall j :: 0 <= j < |es| ==> es[j] != Die(k) }

  lemma OwnSlot(s: System, k: nat, i: nat)
    requires Identity(s) && Holds(s, k, i)
    ensures s.gc.table.slots[i].pid == s.seats[k].id.pid
    ensures IndexOf(s.gc.table.slots, s.seats[k].id.pid) == Target(s.gc.table.slots, s.seats[k].id.pid) == i
  {
    IndexUnique(s.gc.table.slots, i);
  }

  lemma NotZero(s: System, i: nat)
    requires Identity(s) && Entries(s) && i < |s.gc.table.slots| && s.gc.table.slots[i].pid != 0
    ensures s.gc.table.global.qp >= 1
  {
    SumBoundsTerms(s.gc.table.slots, Qp);
    assert Qp(s.gc.table.slots[i]) >= 1;
  }

  lemma StaysSteady(cfg: Config, s: System, e: Step, i: nat)
    requires Steady(s) && i < |s.gc.table.slots| && s.gc.table.slots[i].pid != 0
    ensures Steady(Next(cfg, s, e)) && Next(cfg, s, e).forgot == s.forgot
  {
    NextIdentity(cfg, s, e);
    NextEntries(cfg, s, e);
    NotZero(s, i);
    StaysCalm(cfg, s, e);
  }

  lemma SeatCalm(cfg: Config, s: System, s': System, e: Step)
    requires Shape(s) && Calm(s) && s.gc.table.global.qp >= 1
    requires !e.ExitEvent? && !e.ScanSlot? && SeatMoves(cfg, s, s', e)
    ensures Calm(s') && s'.forgot == s.forgot
  {
  }

  lemma StaysCalm(cfg: Config, s: System, e: Step)
    requires Shape(s) && Calm(s) && s.gc.table.global.qp >= 1
    ensures Calm(Next(cfg, s, e)) && Next(cfg, s, e).forgot == s.forgot
  {
    if Enabled(s, e) && !e.Commit? && !e.ExitEvent? && !e.ScanSlot? {
      SeatStep(cfg, s, e);
      SeatCalm(cfg, s, Effect(cfg, s, e), e);
    }
  }

  /** What a step leaves of the process in seat k, short of its death. */
  lemma SameProcess(cfg: Config, s: System, e: Step, k: nat)
    requires Shape(s) && k < |s.seats| && s.seats[k].Proc? && e != Die(k)
    ensures var s' := Next(cfg, s, e);
      && s'.seats[k].Proc? && s'.seats[k].id == s.seats[k].id
      && (s.seats[k].pc in {Idle, Destroying} && !(e == CheckProcess(k)) ==>
            s'.seats[k].pc in {Idle, Destroying} && s'.seats[k].live <= s.seats[k].live)
      && (s'.seats[k] != s.seats[k] ==> Enabled(s, e) && !e.Spawn?)
  {
  }

  lemma StillHolds(cfg: Config, s: System, e: Step, k: nat, i: nat)
    requires Steady(s) && Holds(s, k, i) && e != Die(k)
    ensures Holds(Next(cfg, s, e), k, i) && Next(cfg, s, e).seats[k].id == s.seats[k].id
  {
    OwnSlot(s, k, i);
    SameProcess(cfg, s, e, k);
    if !(e.Commit? && e.k == k) {
      SlotKept(cfg, s, e, k, i);
    }
  }

  lemma {:induction false} AnchoredRun(cfg: Config, s: System, es: seq<Step>, k: nat, i: nat)
    requires Steady(s) && Holds(s, k, i) && Lives(es, k)
    ensures Steady(Run(cfg, s, es)) && Holds(Run(cfg, s, es), k, i) && Run(cfg, s, es).forgot == s.forgot
  {
    if es != [] {
      var mid, e := Run(cfg, s, es[..|es| - 1]), es[|es| - 1];
      AnchoredRun(cfg, s, es[..|es| - 1], k, i);
      StaysSteady(cfg, mid, e, i);
      StillHolds(cfg, mid, e, k, i);
    }
  }

  /**
    One process that holds a recorded QP keeps everybody's: if a run has forgotten nothing by a moment
    at which nobody is about to initialise and some process has an entry, it forgets nothing as long
    as that process lives. So in a roomy table both bounds hold.
   */
  lemma AnchoredBounds(cfg: Config, s0: System, before: seq<Step>, es: seq<Step>, k: nat, i: nat)
    requires Init(s0) && Sane(cfg, |s0.seats|) && Roomy(cfg, |s0.gc.regs|, |s0.seats|) && Lives(es, k)
    requires var s := Run(cfg, s0, before);
      !s.forgot && Calm(s) && Holds(s, k, i)
    ensures var s := Run(cfg, s0, before + es);
      && !s.forgot && !s.refused && Sum(s.seats, LiveQps) <= Peak(cfg, |s0.seats|)
      && forall j :: 0 <= j < |s.seats| ==> LiveQps(s.seats[j]) <= cfg.perProcess
  {
    var s := Run(cfg, s0, before + es);
    RunEntries(cfg, s0, before);
    RunConcat(cfg, s0, before, es);
    AnchoredRun(cfg, Run(cfg, s0, before), es, k, i);
    RoomyRuns(cfg, s0, before + es);
    GlobalOvershootBound(cfg, s0, before + es);
    forall j | 0 <= j < |s.seats|
      ensures LiveQps(s.seats[j]) <= cfg.perProcess
    {
      assert SeatOk(cfg, s.gc.table.slots, s.seats[j]);
    }
  }

  // ----- An entry at the process's own limit -----

  /** The entry of the process in seat k, which is not in the middle of a create, is at the limit. */
  ghost predicate AtLimit(cfg: Config, s: System, k: nat, i: nat) {
    && Holds(s, k, i) && s.gc.table.slots[i].usage.qp == cfg.perProcess
    && s.seats[k].pc in {Idle, Destroying}
  }

  lemma StaysAtLimit(cfg: Config, s: System, e: Step, k: nat, i: nat)
    requires Steady(s) && AtLimit(cfg, s, k, i) && cfg.perProcess + 1 < TWO32 && e != Die(k)
    ensures var s' := Next(cfg, s, e);
      AtLimit(cfg, s', k, i) && s'.seats[k].live <= s.seats[k].live
  {
    OwnSlot(s, k, i);
    SameProcess(cfg, s, e, k);
    if !(e.Commit? && e.k == k) {
      SlotKept(cfg, s, e, k, i);
    }
  }

  /**
    Locked out: a living process whose entry is at max_qp_per_process never creates a QP again, over
    every continuation and however many it destroys. Destroying does not write the table, only a
    create would correct the entry, and no create passes the check.
   */
  lemma {:induction false} LockedOut(cfg: Config, s: System, es: seq<Step>, k: nat, i: nat)
    requires Steady(s) && AtLimit(cfg, s, k, i) && cfg.perProcess + 1 < TWO32 && Lives(es, k)
    ensures var s' := Run(cfg, s, es);
      && Steady(s') && AtLimit(cfg, s', k, i) && s'.seats[k].id == s.seats[k].id
      && s'.seats[k].live <= s.seats[k].live
  {
    if es != [] {
      var mid, e := Run(cfg, s, es[..|es| - 1]), es[|es| - 1];
      LockedOut(cfg, s, es[..|es| - 1], k, i);
      StaysSteady(cfg, mid, e, i);
      StillHolds(cfg, mid, e, k, i);
      StaysAtLimit(cfg, mid, e, k, i);
    }
  }

  /** The process destroys its QPs one after the other; its entry stays. */
  lemma {:induction false} Drains(cfg: Config, s0: System, s: System, i: nat) returns (s': System)
    requires Shape(s0) && Reachable(cfg, s0, s) && Steady(s) && AtLimit(cfg, s, 0, i) && cfg.perProcess + 1 < TWO32
    requires s.seats[0].pc == Idle && s.seats[0].local == s.seats[0].live
    ensures Reachable(cfg, s0, s') && Steady(s') && AtLimit(cfg, s', 0, i)
    ensures s'.seats[0].pc == Idle && s'.seats[0].live == 0
    decreases s.seats[0].live
  {
    if s.seats[0].live == 0 {
      s' := s;
    } else {
      var mid := DestroysOne(cfg, s0, s);
      LockedOut(cfg, s, [DestroyQp(0), Uncount(0)], 0, i);
      s' := Drains(cfg, s0, mid, i);
    }
  }

  lemma DestroysOne(cfg: Config, s0: System, s: System) returns (s': System)
    requires Shape(s0) && Reachable(cfg, s0, s) && Shape(s) && At(s, 0, Idle)
    requires s.seats[0].live > 0 && s.seats[0].local > 0
    ensures s' == Run(cfg, s, [DestroyQp(0), Uncount(0)]) && Reachable(cfg, s0, s')
    ensures s'.seats[0] == s.seats[0].(local := s.seats[0].local - 1, live := s.seats[0].live - 1)
  {
    var es := [DestroyQp(0), Uncount(0)];
    var mid := Next(cfg, s, DestroyQp(0));
    s' := Next(cfg, mid, Uncount(0));
    ReachNext(cfg, s0, s, DestroyQp(0));
    ReachNext(cfg, s0, mid, Uncount(0));
    assert es[..1] == [DestroyQp(0)] && es[..1][..0] == [];
    assert Run(cfg, s, es[..1]) == mid;
  }

  /** A process alone creates all the QPs it may but one. */
  lemma AlmostFills(cfg: Config, s0: System) returns (s: System)
    requires Init(s0) && |s0.seats| == 1 <= |s0.gc.regs| && 0 < cfg.perProcess <= cfg.global && cfg.perProcess < TWO32
    ensures Reachable(cfg, s0, s) && Team(cfg, s, cfg.perProcess - 1, 0) && |s.seats| == 1
    ensures At(s, 0, Idle) && s.seats[0].local == s.seats[0].live == cfg.perProcess - 1
  {
    s := TeamCommits(cfg, s0, cfg.perProcess - 1);
    SumUpdate(s.seats, LiveQps, 0, Vacant);
    SumConstant(s.seats[0 := Vacant], LiveQps, 0);
    assert Member(cfg, s.gc.table, s.seats[0], 1, false);
  }

  /** The commit of a process writes its own slot. */
  lemma CommitHolds(s: System, k: nat)
    requires Identity(s) && At(s, k, Idle) && Target(s.gc.table.slots, s.seats[k].id.pid) >= 0
    ensures var s', i := Committed(WithCounted(s, k), k, 0, 0), Target(s.gc.table.slots, s.seats[k].id.pid);
      Shape(s') && Holds(s', k, i) && s'.gc.table.slots[i].usage.qp == s.seats[k].local + 1
  {
    CommittedIdentity(s, k);
  }

  /** And then the last one. */
  lemma Fills(cfg: Config, s0: System) returns (s: System, i: nat)
    requires Init(s0) && |s0.seats| == 1 <= |s0.gc.regs| && 0 < cfg.perProcess <= cfg.global && cfg.perProcess < TWO32
    ensures Reachable(cfg, s0, s) && Steady(s) && AtLimit(cfg, s, 0, i)
    ensures s.seats[0].pc == Idle && s.seats[0].local == s.seats[0].live
  {
    var before := AlmostFills(cfg, s0);
    MemberMayCreate(cfg, before, cfg.perProcess - 1, 0, 0);
    TeamHasRoom(cfg, before, cfg.perProcess - 1, 0, 0);
    ReachCommitted(cfg, s0, before, 0);
    CommitHolds(before, 0);
    CommittedParts(before, 0);
    s, i := Committed(WithCounted(before, 0), 0, 0, 0), Target(before.gc.table.slots, 1);
    ReachedSteady(cfg, s0, s);
  }

  lemma ReachedSteady(cfg: Config, s0: System, s: System)
    requires Init(s0) && Reachable(cfg, s0, s) && Calm(s)
    ensures Steady(s)
  {
    var es :| Swept(es, |s0.gc.regs|) && Run(cfg, s0, es) == s;
    RunEntries(cfg, s0, es);
  }

  /** It does happen, and to a process that has no QP left at all. */
  lemma LockedOutWithNothing(cfg: Config, s0: System)
    requires Init(s0) && |s0.seats| == 1 <= |s0.gc.regs|
    requires 0 < cfg.perProcess <= cfg.global && cfg.perProcess + 1 < TWO32
    ensures exists es: seq<Step>, i: nat ::
              && Steady(Run(cfg, s0, es)) && AtLimit(cfg, Run(cfg, s0, es), 0, i)
              && Run(cfg, s0, es).seats[0].live == 0
  {
    var full, i := Fills(cfg, s0);
    var s := Drains(cfg, s0, full, i);
    var es :| Swept(es, |s0.gc.regs|) && Run(cfg, s0, es) == s;
    assert AtLimit(cfg, Run(cfg, s0, es), 0, i);
  }

  // ----- Entries at the global limit -----

  function Held(pids: set<int>): Slot -> int { (x: Slot) => if x.pid in pids then x.usage.qp else 0 }

  /** The entries of these living processes reach the global limit, and nothing is in flight. */
  ghost predicate Exhausted(cfg: Config, s: System, pids: set<int>) {
    && Steady(s) && 0 !in pids && 1 <= cfg.global <= Sum(s.gc.table.slots, Held(pids)) && s.gc.table.global.qp < TWO32
    && (forall i :: 0 <= i < |s.gc.table.slots| && s.gc.table.slots[i].pid in pids ==> Live(s, s.owners[i]))
    && (forall k :: 0 <= k < |s.seats| ==> InFlight(s.seats[k]) == 0)
  }

  /** None of these processes dies in the run. */
  ghost predicate Spared(cfg: Config, s: System, es: seq<Step>, pids: set<int>)
    requires Shape(s)
  {
    es == [] ||
    (&& Spared(cfg, s, es[..|es| - 1], pids)
     && var mid, e := Run(cfg, s, es[..|es| - 1]), es[|es| - 1];
        e.Die? && Enabled(mid, e) ==> mid.seats[e.k].id.pid !in pids)
  }

  lemma HeldWithinTotal(s: System, pids: set<int>)
    requires Identity(s)
    ensures Sum(s.gc.table.slots, Held(pids)) <= s.gc.table.global.qp
  {
    SumMonotone(s.gc.table.slots, Held(pids), Qp);
  }

  lemma ReapExhausted(cfg: Config, s: System, s': System, pids: set<int>, i: nat)
    requires Exhausted(cfg, s, pids) && Steady(s') && i < |s.gc.table.slots|
    requires s'.gc.table == s.gc.table || (s'.gc.table == Reap(s.gc.table, i) && !Live(s, s.owners[i]))
    requires s'.seats == s.seats && s'.owners == s.owners
    ensures Exhausted(cfg, s', pids)
  {
    SumUpdate(s.gc.table.slots, Held(pids), i, FREE);
    assert forall id :: Live(s', id) <==> Live(s, id);
  }

  lemma SeatExhausted(cfg: Config, s: System, s': System, pids: set<int>, e: Step)
    requires Exhausted(cfg, s, pids) && Steady(s') && !e.ExitEvent? && !e.ScanSlot? && SeatMoves(cfg, s, s', e)
    requires e.Die? && s.seats[e.k].Proc? ==> s.seats[e.k].id.pid !in pids
    ensures Exhausted(cfg, s', pids)
  {
    HeldWithinTotal(s, pids);
    assert InFlight(s.seats[e.k]) == 0;
    forall i | 0 <= i < |s.gc.table.slots| && s.gc.table.slots[i].pid in pids
      ensures Live(s', s.owners[i])
    {
      assert Live(s, s.owners[i]) && s.owners[i].pid in pids;
      StillLive(s, s', e.k, s.owners[i]);
    }
  }

  lemma StillLive(s: System, s': System, k: nat, id: Inc)
    requires k < |s.seats| == |s'.seats| && s'.seats == s.seats[k := s'.seats[k]] && Live(s, id)
    requires s.seats[k].Proc? && s.seats[k].id == id ==> s'.seats[k].Proc? && s'.seats[k].id == id
    ensures Live(s', id)
  {
    var j :| 0 <= j < |s.seats| && s.seats[j].Proc? && s.seats[j].id == id;
    assert s'.seats[j].Proc? && s'.seats[j].id == id;
  }

  lemma NextExhausted(cfg: Config, s: System, e: Step, pids: set<int>)
    requires Exhausted(cfg, s, pids) && (e.Die? && Enabled(s, e) ==> s.seats[e.k].id.pid !in pids)
    requires Steady(Next(cfg, s, e))
    ensures Exhausted(cfg, Next(cfg, s, e), pids)
  {
    if Enabled(s, e) {
      var s' := Effect(cfg, s, e);
      if e.ExitEvent? || e.ScanSlot? {
        OnlyTheDeadAreReaped(cfg, s, e);
        ReapExhausted(cfg, s, s', pids, e.i);
      } else {
        assert e.Commit? ==> InFlight(s.seats[e.k]) == 0;
        SeatStep(cfg, s, e);
        SeatExhausted(cfg, s, s', pids, e);
      }
    }
  }

  /**
    Everybody locked out: once the entries of some living processes add up to max_global_qp and
    nothing is in flight, nobody creates a QP again as long as those processes live, over every
    continuation and however many QPs they destroy.
   */
  lemma {:induction false} AllLockedOut(cfg: Config, s: System, es: seq<Step>, pids: set<int>)
    requires Exhausted(cfg, s, pids) && Spared(cfg, s, es, pids)
    ensures Exhausted(cfg, Run(cfg, s, es), pids)
  {
    if es != [] {
      var mid, e := Run(cfg, s, es[..|es| - 1]), es[|es| - 1];
      AllLockedOut(cfg, s, es[..|es| - 1], pids);
      HeldWithinTotal(mid, pids);
      SomeEntry(mid);
      var i :| 0 <= i < |mid.gc.table.slots| && mid.gc.table.slots[i].pid != 0;
      StaysSteady(cfg, mid, e, i);
      NextExhausted(cfg, mid, e, pids);
    }
  }

  lemma SomeEntry(s: System)
    requires Identity(s) && s.gc.table.global.qp > 0
    ensures exists i :: 0 <= i < |s.gc.table.slots| && s.gc.table.slots[i].pid != 0
  {
    if forall i :: 0 <= i < |s.gc.table.slots| ==> s.gc.table.slots[i].pid == 0 {
      SumConstant(s.gc.table.slots, Qp, 0);
    }
  }
}
