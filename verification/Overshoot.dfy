/**
  The overshoot bound is reached: n processes commit QPs until the total is just below the limit, no
  one of them at its own limit yet, and then all create one more on the strength of that total.
 */
module Overshoot {
  import opened Common
  import opened Sums
  import opened ProcessTable
  import opened Admission

  // ----- Everybody arrives -----

  /** The first j seats are taken by processes 1 to j that have done nothing yet. */
  ghost predicate Arrived(s0: System, s: System, j: nat) {
    && Identity(s) && !s.refused && !s.forgot && j <= |s.seats| == |s0.seats| && s.gc == s0.gc
    && (forall k :: 0 <= k < j ==> s.seats[k] == Proc(Inc(k + 1, 1), Idle, 0, 0))
    && (forall k :: j <= k < |s.seats| ==> s.seats[k] == Vacant)
    && (forall id :: id in s.born ==> 1 <= id.pid <= j)
  }

  lemma OneArrives(s0: System, s: System, j: nat)
    requires Arrived(s0, s, j) && j < |s.seats|
    ensures Enabled(s, Spawn(j, Inc(j + 1, 1))) && Arrived(s0, WithSpawned(s, j, Inc(j + 1, 1)), j + 1)
  {
    assert !LivePid(s, j + 1);
    SpawnIdentity(s, j, Inc(j + 1, 1), Idle);
  }

  lemma {:induction false} AllArrive(cfg: Config, s0: System, j: nat) returns (s: System)
    requires Init(s0) && j <= |s0.seats|
    ensures Reachable(cfg, s0, s) && Arrived(s0, s, j)
  {
    if j == 0 {
      InitIdentity(s0);
      ReachStart(cfg, s0);
      s := s0;
    } else {
      var before := AllArrive(cfg, s0, j - 1);
      OneArrives(s0, before, j - 1);
      ReachSpawned(cfg, s0, before, j - 1, Inc(j, 1));
      s := WithSpawned(before, j - 1, Inc(j, 1));
    }
  }

  // ----- They commit, and then all create -----

  /** Seat k: below its own limit, the table up to date, and with one more QP if it has created. */
  ghost predicate Member(cfg: Config, t: Table, p: Seat, pid: int, created: bool) {
    && p.Proc? && p.id.pid == pid && p.id.start > 0
    && p.local < cfg.perProcess && Lookup(t, pid).qp == p.local
    && (if created then p.pc == Created && p.live == p.local + 1 else p.pc == Idle && p.live == p.local)
  }

  /** All seats are taken, the total is m, and the first j processes have created one more QP. */
  ghost predicate Team(cfg: Config, s: System, m: nat, j: nat) {
    && Identity(s) && !s.refused && !s.forgot && j <= |s.seats| <= |s.gc.regs|
    && (forall k :: 0 <= k < |s.seats| ==> Member(cfg, s.gc.table, s.seats[k], k + 1, k < j))
    && (forall id :: id in s.born ==> 1 <= id.pid <= |s.seats|)
    && s.gc.table.global.qp == m
    && Sum(s.seats, LiveQps) == m + j
  }

  lemma TeamStarts(cfg: Config, s0: System, s: System)
    requires Init(s0) && Arrived(s0, s, |s0.seats|) && |s0.seats| <= |s0.gc.regs| && cfg.perProcess > 0
    ensures Team(cfg, s, 0, 0)
  {
    SumConstant(s.seats, LiveQps, 0);
  }

  /** With no more pids than slots, every process has a slot or can get one. */
  lemma TeamHasRoom(cfg: Config, s: System, m: nat, j: nat, k: nat)
    requires Team(cfg, s, m, j) && k < |s.seats|
    ensures Target(s.gc.table.slots, k + 1) >= 0
  {
    SubsetSize(Pids(s.born), UpTo(|s.seats|));
    assert Member(cfg, s.gc.table, s.seats[k], k + 1, k < j);
    RoomForAll(s, k);
  }

  /** What the commit of process k's next QP does to the table. */
  lemma MemberWrites(t: Table, pid: int, start: nat, q: nat)
    requires Inv(t) && pid > 0 && Target(t.slots, pid) >= 0 && Lookup(t, pid).qp == q
    ensures var (ok, t') := Update(t, pid, Usage(q + 1, 0, 0), start);
      && ok && t'.global.qp == t.global.qp + 1 && Lookup(t', pid).qp == q + 1
      && forall other :: other > 0 && other != pid ==> Lookup(t', other) == Lookup(t, other)
  {
    UpdateRefinesPut(t, pid, Usage(q + 1, 0, 0), start);
    assert t.slots[Target(t.slots, pid)].usage.qp == q;
  }

  lemma MemberMayCreate(cfg: Config, s: System, m: nat, j: nat, k: nat)
    requires Team(cfg, s, m, j) && j <= k < |s.seats| && m < cfg.global && cfg.perProcess < TWO32
    ensures At(s, k, Idle) && s.seats[k].id.pid == k + 1
    ensures WithinProcessLimit(cfg, s.gc.table, s.seats[k].id.pid) && WithinGlobalLimit(cfg, s.gc.table)
  {
    assert Member(cfg, s.gc.table, s.seats[k], k + 1, false);
  }

  lemma OthersKeep(cfg: Config, t: Table, t': Table, seats: seq<Seat>, seats': seq<Seat>, k: nat)
    requires k < |seats| == |seats'| && seats' == seats[k := seats'[k]]
    requires forall i :: 0 <= i < |seats| ==> Member(cfg, t, seats[i], i + 1, false)
    requires forall other :: other > 0 && other != k + 1 ==> Lookup(t', other) == Lookup(t, other)
    requires Member(cfg, t', seats'[k], k + 1, false)
    ensures forall i :: 0 <= i < |seats'| ==> Member(cfg, t', seats'[i], i + 1, false)
  {
  }

  /** Process k has one more QP, and the table says so and says nothing else new. */
  ghost predicate OneMore(s: System, s': System, k: nat)
    requires k < |s.seats| && s.seats[k].Proc?
  {
    var p := s.seats[k];
    && Identity(s') && s'.born == s.born && s'.refused == s.refused && s'.forgot == s.forgot
    && |s'.gc.regs| == |s.gc.regs|
    && s'.seats == s.seats[k := p.(local := p.local + 1, live := p.live + 1)]
    && s'.gc.table.global.qp == s.gc.table.global.qp + 1 && Lookup(s'.gc.table, p.id.pid).qp == p.local + 1
    && forall pid :: pid > 0 && pid != p.id.pid ==> Lookup(s'.gc.table, pid) == Lookup(s.gc.table, pid)
  }

  lemma CommittedIdentity(s: System, k: nat)
    requires Identity(s) && At(s, k, Idle)
    ensures Identity(Committed(WithCounted(s, k), k, 0, 0))
  {
    MoveIdentity(s, k, WithCounted(s, k).seats[k]);
    CommitIdentity(WithCounted(s, k), k, 0, 0);
  }

  lemma CommittedParts(s: System, k: nat)
    requires Shape(s) && At(s, k, Idle)
    ensures var p, s' := s.seats[k], Committed(WithCounted(s, k), k, 0, 0);
      var (ok, t') := Update(s.gc.table, p.id.pid, Usage(p.local + 1, 0, 0), p.id.start);
      && s'.seats == s.seats[k := p.(local := p.local + 1, live := p.live + 1)]
      && s'.born == s.born && s'.forgot == s.forgot && |s'.gc.regs| == |s.gc.regs|
      && (ok ==> s'.gc.table == t' && s'.refused == s.refused)
  {
  }

  /** A create from check to commit, when the table is up to date and has room. */
  lemma CommitEffect(s: System, k: nat)
    requires Identity(s) && At(s, k, Idle) && Target(s.gc.table.slots, s.seats[k].id.pid) >= 0
    requires Lookup(s.gc.table, s.seats[k].id.pid).qp == s.seats[k].local
    ensures OneMore(s, Committed(WithCounted(s, k), k, 0, 0), k)
  {
    var p := s.seats[k];
    CommittedIdentity(s, k);
    MemberWrites(s.gc.table, p.id.pid, p.id.start, p.local);
    CommittedParts(s, k);
  }

  lemma TeamGains(cfg: Config, s: System, s': System, m: nat, k: nat)
    requires Team(cfg, s, m, 0) && At(s, k, Idle) && s.seats[k].local + 1 < cfg.perProcess && OneMore(s, s', k)
    ensures Team(cfg, s', m + 1, 0)
  {
    assert Member(cfg, s.gc.table, s.seats[k], k + 1, false);
    SumUpdate(s.seats, LiveQps, k, s'.seats[k]);
    OthersKeep(cfg, s.gc.table, s'.gc.table, s.seats, s'.seats, k);
  }

  lemma MemberCommits(cfg: Config, s: System, m: nat, k: nat)
    requires Team(cfg, s, m, 0) && At(s, k, Idle) && s.seats[k].local + 1 < cfg.perProcess
    ensures Team(cfg, Committed(WithCounted(s, k), k, 0, 0), m + 1, 0)
  {
    assert Member(cfg, s.gc.table, s.seats[k], k + 1, false);
    TeamHasRoom(cfg, s, m, 0, k);
    CommitEffect(s, k);
    TeamGains(cfg, s, Committed(WithCounted(s, k), k, 0, 0), m, k);
  }

  /** While the total is below what the processes may commit, one of them may commit more. */
  lemma SomebodyHasRoom(cfg: Config, s: System, m: nat) returns (k: nat)
    requires Team(cfg, s, m, 0) && m < (cfg.perProcess - 1) * |s.seats|
    ensures k < |s.seats| && s.seats[k].local + 1 < cfg.perProcess
  {
    k := SumBelow(s.seats, LiveQps, cfg.perProcess - 1);
    assert Member(cfg, s.gc.table, s.seats[k], k + 1, false);
  }

  lemma {:induction false} TeamCommits(cfg: Config, s0: System, m: nat) returns (s: System)
    requires Init(s0) && |s0.seats| <= |s0.gc.regs| && 0 < cfg.perProcess < TWO32
    requires m < cfg.global && m <= (cfg.perProcess - 1) * |s0.seats|
    ensures Reachable(cfg, s0, s) && Team(cfg, s, m, 0) && |s.seats| == |s0.seats|
  {
    if m == 0 {
      s := AllArrive(cfg, s0, |s0.seats|);
      TeamStarts(cfg, s0, s);
    } else {
      var before := TeamCommits(cfg, s0, m - 1);
      var k := SomebodyHasRoom(cfg, before, m - 1);
      MemberMayCreate(cfg, before, m - 1, 0, k);
      MemberCommits(cfg, before, m - 1, k);
      ReachCommitted(cfg, s0, before, k);
      s := Committed(WithCounted(before, k), k, 0, 0);
    }
  }

  lemma MemberCreates(cfg: Config, s: System, m: nat, j: nat)
    requires Team(cfg, s, m, j) && j < |s.seats| && At(s, j, Idle)
    ensures Team(cfg, WithCreated(s, j), m, j + 1)
  {
    var s' := WithCreated(s, j);
    assert Member(cfg, s.gc.table, s.seats[j], j + 1, false);
    MoveIdentity(s, j, s'.seats[j]);
    SumUpdate(s.seats, LiveQps, j, s'.seats[j]);
    forall k | 0 <= k < |s.seats|
      ensures Member(cfg, s.gc.table, s'.seats[k], k + 1, k < j + 1)
    {
      assert Member(cfg, s.gc.table, s.seats[k], k + 1, k < j);
    }
  }

  lemma {:induction false} TeamCreates(cfg: Config, s0: System, m: nat, j: nat) returns (s: System)
    requires Init(s0) && |s0.seats| <= |s0.gc.regs| && 0 < cfg.perProcess < TWO32 && j <= |s0.seats|
    requires m < cfg.global && m <= (cfg.perProcess - 1) * |s0.seats|
    ensures Reachable(cfg, s0, s) && Team(cfg, s, m, j) && |s.seats| == |s0.seats|
  {
    if j == 0 {
      s := TeamCommits(cfg, s0, m);
    } else {
      var before := TeamCreates(cfg, s0, m, j - 1);
      MemberMayCreate(cfg, before, m, j - 1, j - 1);
      MemberCreates(cfg, before, m, j - 1);
      ReachCreated(cfg, s0, before, j - 1);
      s := WithCreated(before, j - 1);
    }
  }

  lemma PeakIsWithinReach(cfg: Config, n: nat)
    requires cfg.global > 0 && cfg.perProcess > 0 && n > 0
    ensures n <= Peak(cfg, n) < cfg.global + n && Peak(cfg, n) - n <= (cfg.perProcess - 1) * n
  {
    assert cfg.perProcess * n == (cfg.perProcess - 1) * n + n && (cfg.perProcess - 1) * n >= 0;
  }

  /**
    The bound of `GlobalOvershootBound` cannot be improved: for all limits and any number n of
    processes, in any table with a slot for each, some interleaving with every commit recorded and
    nothing forgotten ends with min(max_global_qp + n - 1, n * max_qp_per_process) QPs alive.
   */
  lemma PeakIsReached(cfg: Config, s0: System)
    requires Init(s0) && 1 <= |s0.seats| && cfg.perProcess < TWO32
    requires cfg.global == 0 || cfg.perProcess == 0 || |s0.seats| <= |s0.gc.regs|
    ensures exists es: seq<Step> ::
              && Swept(es, |s0.gc.regs|) && !Run(cfg, s0, es).refused && !Run(cfg, s0, es).forgot
              && Sum(Run(cfg, s0, es).seats, LiveQps) == Peak(cfg, |s0.seats|)
  {
    var n := |s0.seats|;
    if cfg.global == 0 || cfg.perProcess == 0 {
      SumConstant(s0.seats, LiveQps, 0);
      assert Swept([], |s0.gc.regs|) && Run(cfg, s0, []) == s0;
      PeakIsZero(cfg, n);
    } else {
      var s := TeamPeaks(cfg, s0);
      var es :| Swept(es, |s0.gc.regs|) && Run(cfg, s0, es) == s;
    }
  }

  lemma PeakIsZero(cfg: Config, n: nat)
    requires cfg.global == 0 || cfg.perProcess == 0
    ensures Peak(cfg, n) == 0
  {
    assert cfg.perProcess == 0 ==> cfg.perProcess * n == 0;
    assert cfg.perProcess * n >= 0;
  }

  lemma TeamPeaks(cfg: Config, s0: System) returns (s: System)
    requires Init(s0) && 1 <= |s0.seats| <= |s0.gc.regs| && 0 < cfg.perProcess < TWO32 && cfg.global > 0
    ensures Reachable(cfg, s0, s) && !s.refused && !s.forgot
    ensures Sum(s.seats, LiveQps) == Peak(cfg, |s0.seats|)
  {
    var n := |s0.seats|;
    PeakIsWithinReach(cfg, n);
    s := TeamCreates(cfg, s0, Peak(cfg, n) - n, n);
  }
}
