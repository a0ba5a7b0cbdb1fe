/**
  Commits that find no slot. A table that is not roomy can be filled with the entries of dead
  processes, one QP each, while one process's commit is pending. That commit is refused, the QP stays
  unrecorded, and it can be done again without end.
 */
module Refusals {
  import opened Common
  import opened Sums
  import opened ProcessTable
  import opened Admission
  import Gc = Collector

  /** Every entry is a dead process's single QP, nothing is forgotten; the pids used so far are 1 to b. */
  ghost predicate Graveyard(s: System, b: nat) {
    && Identity(s) && !s.forgot
    && (forall i :: 0 <= i < |s.gc.table.slots| && s.gc.table.slots[i].pid != 0 ==>
          s.gc.table.slots[i].usage.qp == 1 && !LivePid(s, s.gc.table.slots[i].pid))
    && (forall id :: id in s.born ==> 1 <= id.pid <= b)
  }

  ghost predicate Absent(t: Table, pid: int) { IndexOf(t.slots, pid) < 0 }

  /** The process in seat k has a first QP to commit, and no entry. */
  ghost predicate Pending(s: System, k: nat) {
    k < |s.seats| && s.seats[k].Proc? && s.seats[k].pc == Counted
    && s.seats[k].local == s.seats[k].live == 1 && Absent(s.gc.table, s.seats[k].id.pid)
  }

  /** Slots that are free or record one QP: the sum counts the occupied ones. */
  lemma OnesTotal(slots: seq<Slot>)
    requires forall i :: 0 <= i < |slots| ==> slots[i].usage.qp == if slots[i].pid != 0 then 1 else 0
    ensures 0 <= Sum(slots, Qp) <= |slots|
    ensures IndexOf(slots, 0) >= 0 <==> Sum(slots, Qp) < |slots|
  {
    SumAtMost(slots, Qp, 1);
    SumAtLeast(slots, Qp, 0);
    var i := IndexOf(slots, 0);
    if i >= 0 {
      var u := Slot(0, 0, Usage(1, 0, 0));
      SumUpdate(slots, Qp, i, u);
      SumAtMost(slots[i := u], Qp, 1);
    } else {
      SumConstant(slots, Qp, 1);
    }
  }

  /** The total counts the entries: there is a free slot exactly when it is below their number. */
  lemma GraveyardTotal(s: System, b: nat)
    requires Graveyard(s, b)
    ensures 0 <= s.gc.table.global.qp <= |s.gc.table.slots|
    ensures IndexOf(s.gc.table.slots, 0) >= 0 <==> s.gc.table.global.qp < |s.gc.table.slots|
  {
    OnesTotal(s.gc.table.slots);
  }

  lemma GraveyardBlank(s: System, b: nat)
    requires Graveyard(s, b) && s.gc.table.global.qp == 0
    ensures Blank(s.gc.table)
  {
    var slots := s.gc.table.slots;
    SumBoundsTerms(slots, Qp);
    forall i | 0 <= i < |slots|
      ensures slots[i] == FREE
    {
      assert Qp(slots[i]) <= 0;
    }
    ClearedInv(s.gc.table);
    assert slots == Cleared(s.gc.table).slots;
  }

  /** A process without an entry passes both checks as long as the total is below the limit. */
  lemma AbsentMayCreate(cfg: Config, s: System, b: nat, k: nat)
    requires Graveyard(s, b) && At(s, k, Idle) && Absent(s.gc.table, s.seats[k].id.pid)
    requires cfg.perProcess > 0 && s.gc.table.global.qp < cfg.global
    ensures WithinProcessLimit(cfg, s.gc.table, s.seats[k].id.pid) && WithinGlobalLimit(cfg, s.gc.table)
  {
    GraveyardTotal(s, b);
  }

  // ----- A process arrives -----

  lemma Arrives(s: System, b: nat, k: nat)
    requires Graveyard(s, b) && k < |s.seats| && s.seats[k].Vacant?
    ensures var s' := WithSpawned(s, k, Inc(b + 1, 1));
      && Enabled(s, Spawn(k, Inc(b + 1, 1))) && Graveyard(s', b + 1)
      && At(s', k, Idle) && Absent(s'.gc.table, b + 1)
      && (s.gc.table.global == NONE ==> Blank(s.gc.table))
  {
    var s' := WithSpawned(s, k, Inc(b + 1, 1));
    assert !LivePid(s, b + 1);
    SpawnIdentity(s, k, Inc(b + 1, 1), Idle);
    if s.gc.table.global == NONE {
      GraveyardBlank(s, b);
    }
    forall i | 0 <= i < |s.gc.table.slots| && s.gc.table.slots[i].pid != 0
      ensures s.gc.table.slots[i].pid <= b && !LivePid(s', s.gc.table.slots[i].pid)
    {
      assert s.owners[i] in s.born;
    }
  }

  /** A process that moves on without changing who it is leaves the graveyard as it was. */
  lemma MoveGraveyard(s: System, b: nat, k: nat, p: Seat)
    requires Graveyard(s, b) && k < |s.seats| && s.seats[k].Proc? && p.Proc? && p.id == s.seats[k].id
    ensures Graveyard(SetSeat(s, k, p), b)
  {
    MoveIdentity(s, k, p);
    var s' := SetSeat(s, k, p);
    forall pid | LivePid(s', pid)
      ensures LivePid(s, pid)
    {
      var j :| 0 <= j < |s'.seats| && s'.seats[j].Proc? && s'.seats[j].id.pid == pid;
      assert s.seats[j].Proc? && s.seats[j].id.pid == pid;
    }
  }

  /** A new process in seat k gets as far as its first commit. */
  lemma Pend(cfg: Config, s0: System, s: System, b: nat, k: nat) returns (s': System)
    requires Shape(s0) && Reachable(cfg, s0, s) && Graveyard(s, b) && k < |s.seats| && s.seats[k].Vacant?
    requires cfg.perProcess > 0 && s.gc.table.global.qp < cfg.global
    ensures Reachable(cfg, s0, s') && Graveyard(s', b + 1) && Pending(s', k) && s'.gc == s.gc
    ensures s'.seats == s.seats[k := s'.seats[k]] && s'.refused == s.refused
  {
    var id := Inc(b + 1, 1);
    var s1 := WithSpawned(s, k, id);
    Arrives(s, b, k);
    ReachSpawned(cfg, s0, s, k, id);
    AbsentMayCreate(cfg, s1, b + 1, k);
    ReachCreated(cfg, s0, s1, k);
    ReachCounted(cfg, s0, s1, k);
    s' := WithCounted(s1, k);
    MoveGraveyard(s1, b + 1, k, s'.seats[k]);
  }

  // ----- It commits and dies -----

  /** What the commit of a first QP by a process without an entry does to the table. */
  lemma FirstWrite(t: Table, id: Inc)
    requires Inv(t) && id.pid > 0 && Absent(t, id.pid) && IndexOf(t.slots, 0) >= 0
    ensures var (ok, t') := Update(t, id.pid, Usage(1, 0, 0), id.start);
      var i := IndexOf(t.slots, 0);
      && ok && Target(t.slots, id.pid) == i && t'.slots == t.slots[i := Slot(id.pid, id.start, Usage(1, 0, 0))]
      && t'.global.qp == t.global.qp + 1
      && forall pid :: pid > 0 && pid != id.pid && Absent(t, pid) ==> Absent(t', pid)
  {
    assert t.slots[IndexOf(t.slots, 0)] == FREE;
  }

  lemma DiesInGraveyard(s: System, b: nat, k: nat)
    requires Identity(s) && !s.forgot && k < |s.seats| && s.seats[k].Proc?
    requires forall id :: id in s.born ==> 1 <= id.pid <= b
    requires forall i :: 0 <= i < |s.gc.table.slots| && s.gc.table.slots[i].pid != 0 ==>
      s.gc.table.slots[i].usage.qp == 1 &&
      (LivePid(s, s.gc.table.slots[i].pid) ==> s.gc.table.slots[i].pid == s.seats[k].id.pid)
    ensures Graveyard(SetSeat(s, k, Vacant), b)
  {
    var s' := SetSeat(s, k, Vacant);
    DieIdentity(s, k);
    forall pid | LivePid(s', pid)
      ensures LivePid(s, pid) && pid != s.seats[k].id.pid
    {
      var j :| 0 <= j < |s'.seats| && s'.seats[j].Proc? && s'.seats[j].id.pid == pid;
      assert j != k && s.seats[j].Proc? && s.seats[j].id.pid == pid;
    }
  }

  lemma CommitsAndDies(s: System, b: nat, k: nat)
    requires Graveyard(s, b) && Pending(s, k) && IndexOf(s.gc.table.slots, 0) >= 0
    ensures var s1 := Committed(s, k, 0, 0);
      var s' := SetSeat(s1, k, Vacant);
      && Graveyard(s', b) && s1.seats[k].Proc? && s'.seats == s.seats[k := Vacant] && s1.refused == s.refused
      && s1.gc.table.global.qp == s.gc.table.global.qp + 1
      && forall pid :: pid > 0 && pid != s.seats[k].id.pid && Absent(s.gc.table, pid) ==> Absent(s1.gc.table, pid)
  {
    var s1 := Committed(s, k, 0, 0);
    var id := s.seats[k].id;
    FirstWrite(s.gc.table, id);
    CommitIdentity(s, k, 0, 0);
    forall i | 0 <= i < |s1.gc.table.slots| && s1.gc.table.slots[i].pid != 0
      ensures s1.gc.table.slots[i].usage.qp == 1
      ensures LivePid(s1, s1.gc.table.slots[i].pid) ==> s1.gc.table.slots[i].pid == id.pid
    {
    }
    DiesInGraveyard(s1, b, k);
    assert SetSeat(s1, k, Vacant).seats == s.seats[k := Vacant];
  }

  /** A pending process commits, if there is a slot, and dies: one more entry, one more vacant seat. */
  lemma Bury(cfg: Config, s0: System, s: System, b: nat, k: nat) returns (s': System)
    requires Shape(s0) && Reachable(cfg, s0, s) && Graveyard(s, b) && Pending(s, k)
    requires s.gc.table.global.qp < |s.gc.table.slots|
    ensures Reachable(cfg, s0, s') && Graveyard(s', b) && s'.seats == s.seats[k := Vacant] && s'.refused == s.refused
    ensures s'.gc.table.global.qp == s.gc.table.global.qp + 1 && |s'.gc.table.slots| == |s.gc.table.slots|
    ensures forall pid :: pid > 0 && pid != s.seats[k].id.pid && Absent(s.gc.table, pid) ==> Absent(s'.gc.table, pid)
  {
    GraveyardTotal(s, b);
    CommitsAndDies(s, b, k);
    var s1 := Committed(s, k, 0, 0);
    ReachCommit(cfg, s0, s, k);
    ReachNext(cfg, s0, s1, Die(k));
    s' := SetSeat(s1, k, Vacant);
  }

  // ----- The collector frees the entries -----

  /** A scan in which no pidfd can be opened and no process is seen running. */
  function BlindScan(k: nat): (es: seq<Step>)
    ensures |es| == k && forall i :: 0 <= i < k ==> es[i] == ScanSlot(i, false, false, Inc(0, 0))
  {
    if k == 0 then [] else BlindScan(k - 1) + [ScanSlot(k - 1, false, false, Inc(0, 0))]
  }

  /** Among the dead, a blind scan of a slot is truthful. */
  lemma OneBlindScan(cfg: Config, s: System, b: nat, c: Gc.State, k: nat)
    requires Graveyard(s, b) && Gc.Sized(c) && |c.regs| == |s.gc.regs| && k < |c.regs|
    requires c.table.slots[k] == s.gc.table.slots[k]
    ensures Next(cfg, s.(gc := c), ScanSlot(k, false, false, Inc(0, 0))) == s.(gc := Gc.ScanSlot(c, k, false, false))
  {
    var pid := s.gc.table.slots[k].pid;
    assert !LivePid(s, pid);
    assert !LivePid(s.(gc := c), pid);
  }

  lemma BlindNext(cfg: Config, s: System, b: nat, c: Gc.State, k: nat)
    requires Graveyard(s, b) && k < |s.gc.regs| && c == Gc.ScanPrefix(s.gc, k, {}, {})
    requires Run(cfg, s, BlindScan(k)) == s.(gc := c)
    ensures Run(cfg, s, BlindScan(k + 1)) == s.(gc := Gc.ScanPrefix(s.gc, k + 1, {}, {}))
  {
    Gc.ScanPrefixNext(s.gc, c, k, {}, {});
    OneBlindScan(cfg, s, b, c, k);
    RunOneMore(cfg, s, BlindScan(k), ScanSlot(k, false, false, Inc(0, 0)));
  }

  /** Such a scan does what the collector's scan does. */
  lemma {:induction false} BlindScanRuns(cfg: Config, s: System, b: nat, k: nat)
    requires Graveyard(s, b) && k <= |s.gc.regs|
    ensures Run(cfg, s, BlindScan(k)) == s.(gc := Gc.ScanPrefix(s.gc, k, {}, {}))
  {
    if k > 0 {
      BlindScanRuns(cfg, s, b, k - 1);
      BlindNext(cfg, s, b, Gc.ScanPrefix(s.gc, k - 1, {}, {}), k - 1);
    }
  }

  /** One slot in a blind scan is freed or kept, and what is kept is freed by the next. */
  lemma BlindScanSlot(c: Gc.State, j: nat)
    requires Gc.Sized(c) && j < |c.regs|
    ensures var c1 := Gc.Scan(c, {}, {});
      && (c1.table.slots[j] == c.table.slots[j] || c1.table.slots[j] == FREE)
      && (c1.table.slots[j].pid != 0 ==> !c1.regs[j].open)
  {
    Gc.ScanPrefixAt(c, |c.regs|, j, {}, {});
  }

  lemma BlindScanFrees(c: Gc.State, j: nat)
    requires Gc.Sized(c) && j < |c.regs| && (c.table.slots[j].pid != 0 ==> !c.regs[j].open)
    ensures Gc.Scan(c, {}, {}).table.slots[j].pid == 0
  {
    Gc.ScanPrefixAt(c, |c.regs|, j, {}, {});
  }

  /** Entries that are as they were or free leave a graveyard. */
  lemma GraveyardThinned(s: System, s': System, b: nat)
    requires Graveyard(s, b) && Identity(s') && s'.seats == s.seats && s'.born == s.born && !s'.forgot
    requires |s'.gc.table.slots| == |s.gc.table.slots|
    requires forall j :: 0 <= j < |s.gc.table.slots| ==>
      s'.gc.table.slots[j] == s.gc.table.slots[j] || s'.gc.table.slots[j] == FREE
    ensures Graveyard(s', b)
    ensures forall pid :: pid > 0 && Absent(s.gc.table, pid) ==> Absent(s'.gc.table, pid)
  {
    assert forall pid :: LivePid(s', pid) ==> LivePid(s, pid);
  }

  lemma ReachBlindScan(cfg: Config, s0: System, s: System, b: nat)
    requires Shape(s0) && Reachable(cfg, s0, s) && Graveyard(s, b) && |s.gc.regs| == |s0.gc.regs| > 0
    ensures var s' := s.(gc := Gc.Scan(s.gc, {}, {}));
      Reachable(cfg, s0, s') && Identity(s')
  {
    var scan := BlindScan(|s.gc.regs|);
    BlindScanRuns(cfg, s, b, |s.gc.regs|);
    ReachScan(cfg, s0, s, scan);
    IdentityKept(cfg, s, scan);
  }

  lemma ScanGraveyard(cfg: Config, s0: System, s: System, b: nat) returns (s': System)
    requires Shape(s0) && Reachable(cfg, s0, s) && Graveyard(s, b) && |s.gc.regs| == |s0.gc.regs| > 0
    ensures Reachable(cfg, s0, s') && Graveyard(s', b) && s' == s.(gc := Gc.Scan(s.gc, {}, {}))
    ensures forall pid :: pid > 0 && Absent(s.gc.table, pid) ==> Absent(s'.gc.table, pid)
  {
    ReachBlindScan(cfg, s0, s, b);
    s' := s.(gc := Gc.Scan(s.gc, {}, {}));
    forall j | 0 <= j < |s.gc.table.slots|
      ensures s'.gc.table.slots[j] == s.gc.table.slots[j] || s'.gc.table.slots[j] == FREE
    {
      BlindScanSlot(s.gc, j);
    }
    GraveyardThinned(s, s', b);
  }

  /** Two whole scans leave nothing of the dead. */
  lemma Unearth(cfg: Config, s0: System, s: System, b: nat) returns (s': System)
    requires Shape(s0) && Reachable(cfg, s0, s) && Graveyard(s, b) && |s.gc.regs| == |s0.gc.regs| > 0
    ensures Reachable(cfg, s0, s') && Graveyard(s', b) && s'.seats == s.seats
    ensures s'.gc.table.global.qp == 0 && |s'.gc.table.slots| == |s.gc.table.slots|
    ensures forall pid :: pid > 0 && Absent(s.gc.table, pid) ==> Absent(s'.gc.table, pid)
  {
    var mid := ScanGraveyard(cfg, s0, s, b);
    s' := ScanGraveyard(cfg, s0, mid, b);
    forall j | 0 <= j < |s'.gc.table.slots|
      ensures Qp(s'.gc.table.slots[j]) == 0
    {
      BlindScanSlot(s.gc, j);
      BlindScanFrees(mid.gc, j);
    }
    SumConstant(s'.gc.table.slots, Qp, 0);
  }

  /** A change that leaves the people and the table alone leaves the graveyard as it was. */
  lemma GraveyardKept(s: System, s': System, b: nat)
    requires Graveyard(s, b) && Identity(s') && s'.gc.table == s.gc.table
    requires s'.seats == s.seats && s'.born == s.born && !s'.forgot
    ensures Graveyard(s', b)
  {
    assert forall pid :: LivePid(s', pid) ==> LivePid(s, pid);
  }

  // ----- A round -----

  /** The process `a` in seat 0 has no entry; w others are pending; the other seats are vacant. */
  ghost predicate Stage(s: System, b: nat, a: Seat, w: nat) {
    && Graveyard(s, b) && w < |s.seats|
    && s.seats[0] == a && a.Proc? && a.id.pid > 0 && Absent(s.gc.table, a.id.pid)
    && (forall k :: 1 <= k <= w ==> Pending(s, k))
    && (forall k :: w < k < |s.seats| ==> s.seats[k].Vacant?)
  }

  lemma {:induction false} PendMany(cfg: Config, s0: System, s: System, b: nat, a: Seat, w: nat) returns (s': System)
    requires Shape(s0) && Reachable(cfg, s0, s) && Stage(s, b, a, 0) && w < |s.seats|
    requires cfg.perProcess > 0 && s.gc.table.global.qp < cfg.global
    ensures Reachable(cfg, s0, s') && Stage(s', b + w, a, w)
    ensures s'.gc == s.gc && |s'.seats| == |s.seats| && s'.refused == s.refused
  {
    if w == 0 {
      s' := s;
    } else {
      var mid := PendMany(cfg, s0, s, b, a, w - 1);
      s' := Pend(cfg, s0, mid, b + w - 1, w);
      forall k | 1 <= k <= w
        ensures Pending(s', k)
      {
        assert k < w ==> Pending(mid, k) && s'.seats[k] == mid.seats[k];
      }
    }
  }

  lemma BuriedStage(s: System, s': System, b: nat, a: Seat, w: nat)
    requires Stage(s, b, a, w) && w > 0 && Pending(s, w) && Graveyard(s', b) && s'.seats == s.seats[w := Vacant]
    requires forall pid :: pid > 0 && pid != s.seats[w].id.pid && Absent(s.gc.table, pid) ==> Absent(s'.gc.table, pid)
    ensures Stage(s', b, a, w - 1)
  {
    forall k | 1 <= k <= w - 1
      ensures Pending(s', k)
    {
      assert Pending(s, k) && s.seats[k].id.pid != s.seats[w].id.pid;
    }
  }

  lemma {:induction false} BuryMany(cfg: Config, s0: System, s: System, b: nat, a: Seat, w: nat) returns (s': System)
    requires Shape(s0) && Reachable(cfg, s0, s) && Stage(s, b, a, w)
    requires s.gc.table.global.qp + w <= |s.gc.table.slots|
    ensures Reachable(cfg, s0, s') && Stage(s', b, a, 0) && |s'.seats| == |s.seats| && s'.refused == s.refused
    ensures s'.gc.table.global.qp == s.gc.table.global.qp + w && |s'.gc.table.slots| == |s.gc.table.slots|
    decreases w
  {
    if w == 0 {
      s' := s;
    } else {
      assert Pending(s, w);
      var mid := Bury(cfg, s0, s, b, w);
      BuriedStage(s, mid, b, a, w);
      s' := BuryMany(cfg, s0, mid, b, a, w - 1);
    }
  }

  /** After two scans of a full table, seat 1 fills m slots again, one short-lived process at a time. */
  lemma {:induction false} Refill(cfg: Config, s0: System, s: System, b: nat, a: Seat, m: nat) returns (s': System)
    requires Shape(s0) && Reachable(cfg, s0, s) && Stage(s, b, a, 0) && |s.seats| > 1 && |s.gc.regs| == |s0.gc.regs| > 0
    requires cfg.perProcess > 0 && m < cfg.global && m <= |s.gc.table.slots|
    ensures Reachable(cfg, s0, s') && Stage(s', b + m, a, 0) && |s'.seats| == |s.seats|
    ensures s'.gc.table.global.qp == m && |s'.gc.table.slots| == |s.gc.table.slots|
  {
    if m == 0 {
      s' := Unearth(cfg, s0, s, b);
    } else {
      var before := Refill(cfg, s0, s, b, a, m - 1);
      var mid := PendMany(cfg, s0, before, b + m - 1, a, 1);
      s' := BuryMany(cfg, s0, mid, b + m, a, 1);
    }
  }

  /** Seat 0 creates a QP and counts it, on the strength of a total below the limit. */
  lemma FirstCounts(cfg: Config, s0: System, s: System, b: nat, a: Seat)
    requires Shape(s0) && Reachable(cfg, s0, s) && Stage(s, b, a, 0) && a.pc == Idle
    requires cfg.perProcess > 0 && s.gc.table.global.qp < cfg.global
    ensures var s' := WithCounted(s, 0);
      Reachable(cfg, s0, s') && Stage(s', b, a.(pc := Counted, local := a.local + 1, live := a.live + 1), 0)
  {
    AbsentMayCreate(cfg, s, b, 0);
    ReachCreated(cfg, s0, s, 0);
    ReachCounted(cfg, s0, s, 0);
    MoveGraveyard(s, b, 0, WithCounted(s, 0).seats[0]);
  }

  /** In a full table the commit of seat 0 is refused. */
  lemma FirstIsRefused(cfg: Config, s0: System, s: System, b: nat, a: Seat)
    requires Shape(s0) && Reachable(cfg, s0, s) && Stage(s, b, a, 0) && a.pc == Counted
    requires s.gc.table.global.qp == |s.gc.table.slots|
    ensures var s' := Committed(s, 0, 0, 0);
      Reachable(cfg, s0, s') && Stage(s', b, a.(pc := Idle), 0) && s'.refused && s'.gc == s.gc
  {
    var s' := Committed(s, 0, 0, 0);
    GraveyardTotal(s, b);
    ReachCommit(cfg, s0, s, 0);
    MoveGraveyard(s, b, 0, a.(pc := Idle));
    GraveyardKept(SetSeat(s, 0, a.(pc := Idle)), s', b);
  }

  /** With seat 0's commit pending, j others fill the table and die. */
  lemma Crowded(cfg: Config, s0: System, s: System, b: nat, a: Seat, j: nat) returns (s': System)
    requires Shape(s0) && Reachable(cfg, s0, s) && Stage(s, b, a, 0) && j < |s.seats|
    requires cfg.perProcess > 0 && s.gc.table.global.qp < cfg.global
    requires s.gc.table.global.qp + j == |s.gc.table.slots|
    ensures Reachable(cfg, s0, s') && Stage(s', b + j, a, 0) && |s'.seats| == |s.seats| && s'.refused == s.refused
    ensures s'.gc.table.global.qp == |s'.gc.table.slots| == |s.gc.table.slots|
  {
    var mid := PendMany(cfg, s0, s, b, a, j);
    s' := BuryMany(cfg, s0, mid, b + j, a, j);
  }

  function OneUp(a: Seat): Seat
    requires a.Proc?
  {
    a.(local := a.local + 1, live := a.live + 1)
  }

  /** Seat 0 gets one more QP that the table knows nothing of. */
  lemma Evade(cfg: Config, s0: System, s: System, b: nat, a: Seat, j: nat) returns (s': System)
    requires Shape(s0) && Reachable(cfg, s0, s) && Stage(s, b, a, 0) && a.pc == Idle && j < |s.seats|
    requires cfg.perProcess > 0 && s.gc.table.global.qp < cfg.global
    requires s.gc.table.global.qp + j == |s.gc.table.slots|
    ensures Reachable(cfg, s0, s') && Stage(s', b + j, OneUp(a), 0) && s'.refused
    ensures s'.gc.table.global.qp == |s'.gc.table.slots| == |s.gc.table.slots| && |s'.seats| == |s.seats|
  {
    var full := CountAndCrowd(cfg, s0, s, b, a, j);
    s' := Refuse(cfg, s0, full, b + j, a.(pc := Counted, local := a.local + 1, live := a.live + 1));
  }

  lemma CountAndCrowd(cfg: Config, s0: System, s: System, b: nat, a: Seat, j: nat) returns (s': System)
    requires Shape(s0) && Reachable(cfg, s0, s) && Stage(s, b, a, 0) && a.pc == Idle && j < |s.seats|
    requires cfg.perProcess > 0 && s.gc.table.global.qp < cfg.global
    requires s.gc.table.global.qp + j == |s.gc.table.slots|
    ensures Reachable(cfg, s0, s')
    ensures Stage(s', b + j, a.(pc := Counted, local := a.local + 1, live := a.live + 1), 0)
    ensures s'.gc.table.global.qp == |s'.gc.table.slots| == |s.gc.table.slots| && |s'.seats| == |s.seats|
  {
    var pending := CountOne(cfg, s0, s, b, a);
    s' := Crowded(cfg, s0, pending, b, a.(pc := Counted, local := a.local + 1, live := a.live + 1), j);
  }

  lemma CountOne(cfg: Config, s0: System, s: System, b: nat, a: Seat) returns (s': System)
    requires Shape(s0) && Reachable(cfg, s0, s) && Stage(s, b, a, 0) && a.pc == Idle
    requires cfg.perProcess > 0 && s.gc.table.global.qp < cfg.global
    ensures Reachable(cfg, s0, s') && Stage(s', b, a.(pc := Counted, local := a.local + 1, live := a.live + 1), 0)
    ensures s'.gc == s.gc && |s'.seats| == |s.seats|
  {
    FirstCounts(cfg, s0, s, b, a);
    s' := WithCounted(s, 0);
  }

  lemma Refuse(cfg: Config, s0: System, s: System, b: nat, a: Seat) returns (s': System)
    requires Shape(s0) && Reachable(cfg, s0, s) && Stage(s, b, a, 0) && a.pc == Counted
    requires s.gc.table.global.qp == |s.gc.table.slots|
    ensures Reachable(cfg, s0, s') && Stage(s', b, a.(pc := Idle), 0) && s'.refused
    ensures s'.gc == s.gc && |s'.seats| == |s.seats|
  {
    FirstIsRefused(cfg, s0, s, b, a);
    s' := Committed(s, 0, 0, 0);
  }

  // ----- Getting there -----

  /** Nobody is there, and m dead processes have left an entry each. */
  ghost predicate Deserted(s: System, m: nat) {
    && Graveyard(s, m) && s.gc.table.global.qp == m && !s.refused
    && forall k :: 0 <= k < |s.seats| ==> s.seats[k].Vacant?
  }

  lemma {:induction false} Desert(cfg: Config, s0: System, m: nat) returns (s: System)
    requires Init(s0) && |s0.seats| > 0 && cfg.perProcess > 0 && m < cfg.global && m <= |s0.gc.regs|
    ensures Reachable(cfg, s0, s) && Deserted(s, m) && |s.seats| == |s0.seats| && |s.gc.regs| == |s0.gc.regs|
  {
    if m == 0 {
      InitIdentity(s0);
      ReachStart(cfg, s0);
      s := s0;
    } else {
      var before := Desert(cfg, s0, m - 1);
      var mid := Pend(cfg, s0, before, m - 1, 0);
      s := Bury(cfg, s0, mid, m, 0);
    }
  }

  /** The process that will go unrecorded. */
  function Evader(m: nat, q: nat): Seat { Proc(Inc(m + 1, 1), Idle, q, q) }

  lemma EvaderArrives(cfg: Config, s0: System, s: System, m: nat)
    requires Shape(s0) && Reachable(cfg, s0, s) && Deserted(s, m) && |s.seats| > 0
    ensures var s' := WithSpawned(s, 0, Inc(m + 1, 1));
      Reachable(cfg, s0, s') && Stage(s', m + 1, Evader(m, 0), 0) && s'.gc == s.gc
  {
    Arrives(s, m, 0);
    ReachSpawned(cfg, s0, s, 0, Inc(m + 1, 1));
  }

  /** How many entries can be made one at a time, and how many more must be made at once. */
  function Slowly(cfg: Config, slots: nat): int { Min(slots, cfg.global - 1) }

  /** The evader has q unrecorded QPs, and everything is ready for one more. */
  ghost predicate Ready(cfg: Config, s0: System, s: System, b: nat, q: nat)
    requires Shape(s0) && !Roomy(cfg, |s0.gc.regs|, |s0.seats|)
  {
    var m := Slowly(cfg, |s0.gc.regs|);
    && Reachable(cfg, s0, s) && Stage(s, b, Evader(m, q), 0) && |s.seats| == |s0.seats|
    && s.gc.table.global.qp == m && |s.gc.table.slots| == |s0.gc.regs|
  }

  lemma EvaderFirst(cfg: Config, s0: System) returns (s: System)
    requires Init(s0) && |s0.seats| > 0 && !Roomy(cfg, |s0.gc.regs|, |s0.seats|)
    ensures Ready(cfg, s0, s, Slowly(cfg, |s0.gc.regs|) + 1, 0) && !s.refused
  {
    var m := Slowly(cfg, |s0.gc.regs|);
    var before := Desert(cfg, s0, m);
    EvaderArrives(cfg, s0, before, m);
    s := WithSpawned(before, 0, Inc(m + 1, 1));
  }

  lemma EvaderNext(cfg: Config, s0: System, s: System, b: nat, q: nat) returns (s': System, b': nat)
    requires Init(s0) && |s0.seats| > 0 && !Roomy(cfg, |s0.gc.regs|, |s0.seats|) && Ready(cfg, s0, s, b, q)
    ensures Ready(cfg, s0, s', b', q + 1)
  {
    var slots, m := |s0.gc.regs|, Slowly(cfg, |s0.gc.regs|);
    s' := Evade(cfg, s0, s, b, Evader(m, q), slots - m);
    b' := b + slots - m;
    if slots > m {
      s' := Refill(cfg, s0, s', b', Evader(m, q + 1), m);
      b' := b' + m;
    }
  }

  lemma {:induction false} EvaderHas(cfg: Config, s0: System, q: nat) returns (s: System, b: nat)
    requires Init(s0) && |s0.seats| > 0 && !Roomy(cfg, |s0.gc.regs|, |s0.seats|)
    ensures Ready(cfg, s0, s, b, q)
  {
    if q == 0 {
      s := EvaderFirst(cfg, s0);
      b := Slowly(cfg, |s0.gc.regs|) + 1;
    } else {
      var before, b0 := EvaderHas(cfg, s0, q - 1);
      s, b := EvaderNext(cfg, s0, before, b0, q - 1);
    }
  }

  /**
    In every table that is not roomy the limits limit nothing: any single process can come to have
    any number of QPs. Its commits are refused, so both checks keep reading counts that never grow.
   */
  lemma RefusedCommitsEvadeTheLimits(cfg: Config, s0: System, q: nat)
    requires Init(s0) && |s0.seats| > 0 && !Roomy(cfg, |s0.gc.regs|, |s0.seats|)
    ensures exists es: seq<Step> ::
              var seats := Run(cfg, s0, es).seats;
              && Swept(es, |s0.gc.regs|) && !Run(cfg, s0, es).forgot
              && seats[0].Proc? && seats[0].live == q && Sum(seats, LiveQps) == q
  {
    var s, b := EvaderHas(cfg, s0, q);
    SumUpdate(s.seats, LiveQps, 0, Vacant);
    SumConstant(s.seats[0 := Vacant], LiveQps, 0);
    var es :| Swept(es, |s0.gc.regs|) && Run(cfg, s0, es) == s;
  }

  /**
    When a commit can be refused, exactly: if and only if the run may use more pids than there are
    slots and the table is not roomy. Both can be checked beforehand; the pids a system uses are
    bounded by its pid limit. (The recorded total is one that its C int can hold.)
   */
  lemma RefusalExactly(cfg: Config, s0: System, pids: nat)
    requires Init(s0) && Sane(cfg, |s0.seats|)
    ensures (exists es: seq<Step> :: RefusesWithin(cfg, s0, es, pids)) <==>
            pids > |s0.gc.regs| && !Roomy(cfg, |s0.gc.regs|, |s0.seats|)
  {
    if pids > |s0.gc.regs| && !Roomy(cfg, |s0.gc.regs|, |s0.seats|) {
      RefusedRun(cfg, s0, pids);
    }
    forall es: seq<Step> | RefusesWithin(cfg, s0, es, pids)
      ensures pids > |s0.gc.regs| && !Roomy(cfg, |s0.gc.regs|, |s0.seats|)
    {
      if pids <= |s0.gc.regs| {
        EnoughSlotsNoRefusal(cfg, s0, es);
      } else if Roomy(cfg, |s0.gc.regs|, |s0.seats|) {
        NeverRefused(cfg, s0, es);
      }
    }
  }

  ghost predicate RefusesWithin(cfg: Config, s0: System, es: seq<Step>, pids: nat)
    requires Shape(s0)
  {
    Run(cfg, s0, es).refused && InRange(cfg, s0, es) && |Pids(Run(cfg, s0, es).born)| <= pids
  }

  /** The table is full, one more commit is pending, and nothing has been refused so far. */
  lemma FullAndPending(cfg: Config, s0: System) returns (full: System, a: Seat)
    requires Init(s0) && |s0.seats| > 0 && !Roomy(cfg, |s0.gc.regs|, |s0.seats|)
    ensures Reachable(cfg, s0, full) && !full.refused && a.Proc? && a.pc == Counted
    ensures Stage(full, |s0.gc.regs| + 1, a, 0) && full.gc.table.global.qp == |full.gc.table.slots|
  {
    var slots, m := |s0.gc.regs|, Slowly(cfg, |s0.gc.regs|);
    var s := EvaderFirst(cfg, s0);
    a := Proc(Inc(m + 1, 1), Counted, 1, 1);
    FirstCounts(cfg, s0, s, m + 1, Evader(m, 0));
    full := Crowded(cfg, s0, WithCounted(s, 0), m + 1, a, slots - m);
  }

  /** A table that is not roomy refuses a commit with one pid more than it has slots. */
  lemma RefusedRun(cfg: Config, s0: System, pids: nat)
    requires Init(s0) && Sane(cfg, |s0.seats|) && !Roomy(cfg, |s0.gc.regs|, |s0.seats|) && pids > |s0.gc.regs|
    ensures exists es: seq<Step> :: RefusesWithin(cfg, s0, es, pids)
  {
    var full, a := FullAndPending(cfg, s0);
    FirstIsRefused(cfg, s0, full, |s0.gc.regs| + 1, a);
    var es :| Swept(es, |s0.gc.regs|) && Run(cfg, s0, es) == full;
    UnrefusedInRange(cfg, s0, es);
    RefusedNext(cfg, s0, es, pids);
  }

  lemma RefusedNext(cfg: Config, s0: System, es: seq<Step>, pids: nat)
    requires Shape(s0) && InRange(cfg, s0, es) && At(Run(cfg, s0, es), 0, Counted)
    requires var s := Run(cfg, s0, es);
      && Committed(s, 0, 0, 0).refused && Committed(s, 0, 0, 0).gc == s.gc
      && forall id :: id in s.born ==> 1 <= id.pid <= pids
    ensures RefusesWithin(cfg, s0, es + [Commit(0, 0, 0)], pids)
  {
    var all := es + [Commit(0, 0, 0)];
    assert all[..|es|] == es;
    assert Run(cfg, s0, all) == Committed(Run(cfg, s0, es), 0, 0, 0);
    SubsetSize(Pids(Run(cfg, s0, all).born), UpTo(pids));
  }
}
