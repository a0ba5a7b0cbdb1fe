/**
  Commits that a starting process initialises away. While one process's commit is pending and the
  table is blank, another starts, reads zero totals, and initialises the table after the commit. The
  committed QPs stay unrecorded, and it can be done again without end.
 */
module Forgetting {
  import opened Common
  import opened Sums
  import opened ProcessTable
  import opened Admission

  /** The process in seat 0 has q QPs and is alone, the table knows nothing of it, and b pids are used. */
  ghost predicate Unknown(s: System, b: nat, q: nat) {
    && Identity(s) && Blank(s.gc.table) && |s.gc.table.slots| > 0 && |s.seats| > 1
    && s.seats[0] == Proc(Inc(1, 1), Idle, q, q)
    && (forall k :: 1 <= k < |s.seats| ==> s.seats[k].Vacant?)
    && (forall id :: id in s.born ==> 1 <= id.pid <= b)
  }

  lemma UnknownStarts(cfg: Config, s0: System)
    requires Init(s0) && |s0.seats| > 1 && |s0.gc.regs| > 0
    ensures var s := WithSpawned(s0, 0, Inc(1, 1));
      Reachable(cfg, s0, s) && Unknown(s, 1, 0)
  {
    InitIdentity(s0);
    ReachStart(cfg, s0);
    SpawnIdentity(s0, 0, Inc(1, 1), Idle);
    ReachSpawned(cfg, s0, s0, 0, Inc(1, 1));
  }

  lemma UnknownMayCreate(cfg: Config, s: System, b: nat, q: nat)
    requires Unknown(s, b, q) && cfg.perProcess > 0 && cfg.global > 0
    ensures At(s, 0, Idle) && WithinProcessLimit(cfg, s.gc.table, 1) && WithinGlobalLimit(cfg, s.gc.table)
  {
    assert IndexOf(s.gc.table.slots, 1) < 0;
  }

  /** The second process has started and read zero totals, with the first one's commit pending. */
  function Overlapped(s: System, b: nat): System
    requires |s.seats| > 1 && s.seats[0].Proc?
  {
    SetSeat(WithCounted(s, 0), 1, Proc(Inc(b + 1, 1), Initialising, 0, 0)).(born := s.born + {Inc(b + 1, 1)})
  }

  lemma Overlaps(cfg: Config, s0: System, s: System, b: nat, q: nat)
    requires Shape(s0) && Reachable(cfg, s0, s) && Unknown(s, b, q) && cfg.perProcess > 0 && cfg.global > 0
    ensures Reachable(cfg, s0, Overlapped(s, b)) && Identity(Overlapped(s, b))
  {
    var id := Inc(b + 1, 1);
    UnknownMayCreate(cfg, s, b, q);
    ReachCreated(cfg, s0, s, 0);
    ReachCounted(cfg, s0, s, 0);
    var s1 := WithCounted(s, 0);
    MoveIdentity(s, 0, s1.seats[0]);
    assert !LivePid(s1, b + 1);
    var s2 := Next(cfg, s1, Spawn(1, id));
    ReachNext(cfg, s0, s1, Spawn(1, id));
    ReachNext(cfg, s0, s2, AttachRead(1));
    SpawnIdentity(s1, 1, id, Initialising);
    assert Next(cfg, s2, AttachRead(1)) == Overlapped(s, b);
  }

  /** The commit goes through. */
  lemma Commits(cfg: Config, s0: System, s: System, q: nat) returns (s': System)
    requires Shape(s0) && Reachable(cfg, s0, s) && Identity(s) && At(s, 1, Initialising)
    requires s.seats[0] == Proc(Inc(1, 1), Counted, q + 1, q + 1)
    ensures Reachable(cfg, s0, s') && Identity(s') && At(s', 1, Initialising)
    ensures s'.seats == s.seats[0 := Proc(Inc(1, 1), Idle, q + 1, q + 1)]
    ensures s'.born == s.born && |s'.gc.table.slots| == |s.gc.table.slots|
  {
    s' := Committed(s, 0, 0, 0);
    ReachCommit(cfg, s0, s, 0);
    CommitIdentity(s, 0, 0, 0);
    CommitResult(s, 0, 0, 0);
  }

  /** The initialisation undoes it, and the process that initialised dies. */
  lemma ClearsAndDies(cfg: Config, s0: System, s: System) returns (s': System)
    requires Shape(s0) && Reachable(cfg, s0, s) && Identity(s) && At(s, 1, Initialising)
    ensures Reachable(cfg, s0, s') && Identity(s') && s'.seats == s.seats[1 := Vacant] && s'.born == s.born
    ensures Blank(s'.gc.table) && |s'.gc.table.slots| == |s.gc.table.slots|
  {
    var mid := Initialised(s, 1);
    ReachNext(cfg, s0, s, AttachClear(1));
    InitialisedIdentity(s, 1);
    ReachNext(cfg, s0, mid, Die(1));
    DieIdentity(mid, 1);
    s' := SetSeat(mid, 1, Vacant);
  }

  lemma Forgets(cfg: Config, s0: System, s: System, b: nat, q: nat) returns (s': System)
    requires Shape(s0) && Unknown(s, b, q) && Reachable(cfg, s0, Overlapped(s, b)) && Identity(Overlapped(s, b))
    ensures Reachable(cfg, s0, s') && Unknown(s', b + 1, q + 1) && |s'.seats| == |s.seats|
  {
    var mid := Commits(cfg, s0, Overlapped(s, b), q);
    s' := ClearsAndDies(cfg, s0, mid);
    assert s'.seats == s.seats[0 := Proc(Inc(1, 1), Idle, q + 1, q + 1)];
  }

  lemma {:induction false} UnknownHas(cfg: Config, s0: System, q: nat) returns (s: System, b: nat)
    requires Init(s0) && |s0.seats| > 1 && |s0.gc.regs| > 0 && cfg.perProcess > 0 && cfg.global > 0
    ensures Reachable(cfg, s0, s) && Unknown(s, b, q) && |s.seats| == |s0.seats|
  {
    if q == 0 {
      UnknownStarts(cfg, s0);
      s, b := WithSpawned(s0, 0, Inc(1, 1)), 1;
    } else {
      var before, b0 := UnknownHas(cfg, s0, q - 1);
      Overlaps(cfg, s0, before, b0, q - 1);
      s := Forgets(cfg, s0, before, b0, q - 1);
      b := b0 + 1;
    }
  }

  /**
    With two programs that attach, the limits limit nothing, however large the table: under any
    positive limits a process can come to have any number of QPs. Starting processes initialise its
    entries away, so both checks keep reading zero.
   */
  lemma ForgottenCommitsEvadeTheLimits(cfg: Config, s0: System, q: nat)
    requires Init(s0) && |s0.seats| > 1 && |s0.gc.regs| > 0 && cfg.perProcess > 0 && cfg.global > 0
    ensures exists es: seq<Step> ::
              var seats := Run(cfg, s0, es).seats;
              && Swept(es, |s0.gc.regs|)
              && seats[0].Proc? && seats[0].live == q && Sum(seats, LiveQps) == q
  {
    var s, b := UnknownHas(cfg, s0, q);
    SumUpdate(s.seats, LiveQps, 0, Vacant);
    SumConstant(s.seats[0 := Vacant], LiveQps, 0);
    var es :| Swept(es, |s0.gc.regs|) && Run(cfg, s0, es) == s;
  }
}
