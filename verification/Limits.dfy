/** When the two QP limits are kept: exactly, and by conditions that can be checked beforehand. */
module Limits {
  import opened Common
  import opened Sums
  import opened ProcessTable
  import opened Admission
  import opened Overshoot
  import opened Refusals
  import opened Forgetting

  // ----- Runs in which nothing is forgotten -----

  /** No process has more QPs than max_qp_per_process in a run that forgets nothing. */
  ghost predicate ProcessLimitKeptIfRemembered(cfg: Config, s0: System)
    requires Shape(s0)
  {
    forall es: seq<Step>, k: nat :: k < |s0.seats| && !Run(cfg, s0, es).forgot ==>
      LiveQps(Run(cfg, s0, es).seats[k]) <= cfg.perProcess
  }

  ghost predicate GlobalLimitKeptIfRemembered(cfg: Config, s0: System)
    requires Shape(s0)
  {
    forall es: seq<Step> :: !Run(cfg, s0, es).forgot ==> Sum(Run(cfg, s0, es).seats, LiveQps) <= cfg.global
  }

  /** With a roomy table, the most QPs ever alive in runs that forget nothing are exactly `Peak`. */
  lemma PeakIsExact(cfg: Config, s0: System)
    requires Init(s0) && Sane(cfg, |s0.seats|) && Roomy(cfg, |s0.gc.regs|, |s0.seats|)
    ensures forall es: seq<Step> ::
              !Run(cfg, s0, es).forgot ==> Sum(Run(cfg, s0, es).seats, LiveQps) <= Peak(cfg, |s0.seats|)
    ensures exists es: seq<Step> ::
              !Run(cfg, s0, es).forgot && Sum(Run(cfg, s0, es).seats, LiveQps) == Peak(cfg, |s0.seats|)
  {
    forall es: seq<Step> | !Run(cfg, s0, es).forgot
      ensures Sum(Run(cfg, s0, es).seats, LiveQps) <= Peak(cfg, |s0.seats|)
    {
      GlobalOvershootBound(cfg, s0, es);
    }
    PeakIsReached(cfg, s0);
  }

  /** If nothing is forgotten, the per-process limit is kept if and only if the table is roomy. */
  lemma ProcessLimitIfRemembered(cfg: Config, s0: System)
    requires Init(s0) && Sane(cfg, |s0.seats|)
    ensures ProcessLimitKeptIfRemembered(cfg, s0) <==> Roomy(cfg, |s0.gc.regs|, |s0.seats|)
  {
    if Roomy(cfg, |s0.gc.regs|, |s0.seats|) {
      forall es: seq<Step>, k: nat | k < |s0.seats| && !Run(cfg, s0, es).forgot
        ensures LiveQps(Run(cfg, s0, es).seats[k]) <= cfg.perProcess
      {
        if Run(cfg, s0, es).seats[k].Proc? {
          PerProcessExactness(cfg, s0, es, k);
        }
      }
    } else {
      RefusedCommitsEvadeTheLimits(cfg, s0, cfg.perProcess + 1);
      var es: seq<Step> :| !Run(cfg, s0, es).forgot
        && Run(cfg, s0, es).seats[0].Proc? && Run(cfg, s0, es).seats[0].live == cfg.perProcess + 1;
      assert LiveQps(Run(cfg, s0, es).seats[0]) > cfg.perProcess;
    }
  }

  /**
    If nothing is forgotten, the global limit is kept if and only if the table is roomy and nothing
    overshoots: there is one process only, or all of them at their own limits stay within it, or it
    is 0.
   */
  lemma GlobalLimitIfRemembered(cfg: Config, s0: System)
    requires Init(s0) && Sane(cfg, |s0.seats|)
    ensures GlobalLimitKeptIfRemembered(cfg, s0) <==>
      && Roomy(cfg, |s0.gc.regs|, |s0.seats|)
      && (cfg.global == 0 || |s0.seats| == 1 || cfg.perProcess * |s0.seats| <= cfg.global)
  {
    if Roomy(cfg, |s0.gc.regs|, |s0.seats|) {
      PeakIsExact(cfg, s0);
      var es: seq<Step> :|
        !Run(cfg, s0, es).forgot && Sum(Run(cfg, s0, es).seats, LiveQps) == Peak(cfg, |s0.seats|);
    } else {
      RefusedCommitsEvadeTheLimits(cfg, s0, cfg.global + 1);
      var es: seq<Step> :|
        !Run(cfg, s0, es).forgot && Sum(Run(cfg, s0, es).seats, LiveQps) == cfg.global + 1;
    }
  }

  // ----- All runs -----

  /** No process ever has more QPs than max_qp_per_process. */
  ghost predicate ProcessLimitKept(cfg: Config, s0: System)
    requires Shape(s0)
  {
    forall es: seq<Step>, k: nat :: k < |s0.seats| ==> LiveQps(Run(cfg, s0, es).seats[k]) <= cfg.perProcess
  }

  /** All processes together never have more than max_global_qp. */
  ghost predicate GlobalLimitKept(cfg: Config, s0: System)
    requires Shape(s0)
  {
    forall es: seq<Step> :: Sum(Run(cfg, s0, es).seats, LiveQps) <= cfg.global
  }

  /** A limit is 0, or there is only one program that attaches, and a slot for each of its QPs. */
  predicate Solitary(cfg: Config, slots: nat, n: nat) {
    cfg.perProcess == 0 || cfg.global == 0 || (n == 1 && slots >= cfg.global)
  }

  /** Under a limit of 0 nothing ever gets as far as a create, and the table stays blank. */
  ghost predicate Barred(cfg: Config, s: System) {
    && Blank(s.gc.table)
    && forall k :: 0 <= k < |s.seats| && s.seats[k].Proc? ==>
         s.seats[k].pc !in {Admitted, Created, Counted} && (cfg.perProcess == 0 ==> s.seats[k].pc != ProcessOk)
  }

  lemma SeatBarred(cfg: Config, s: System, s': System, e: Step)
    requires Shape(s) && Barred(cfg, s) && (cfg.perProcess == 0 || cfg.global == 0)
    requires !e.ExitEvent? && !e.ScanSlot? && SeatMoves(cfg, s, s', e)
    requires cfg.perProcess == 0 && s'.seats[e.k].Proc? ==> s'.seats[e.k].pc != ProcessOk && !e.CheckGlobal?
    ensures Barred(cfg, s')
  {
    assert InFlight(s.seats[e.k]) == 0;
  }

  /** With a blank table and a limit of 0, the check of that limit fails. */
  lemma ChecksFail(cfg: Config, s: System, e: Step)
    requires Shape(s) && Barred(cfg, s) && Enabled(s, e) && cfg.perProcess == 0
    requires !e.Commit? && !e.ExitEvent? && !e.ScanSlot?
    ensures var p := Effect(cfg, s, e).seats[e.k];
      p.Proc? ==> p.pc != ProcessOk && !e.CheckGlobal?
  {
    if e.CheckProcess? {
      var i := IndexOf(s.gc.table.slots, s.seats[e.k].id.pid);
      assert i >= 0 ==> s.gc.table.slots[i] == FREE;
    }
  }

  lemma NextBarred(cfg: Config, s: System, e: Step)
    requires Identity(s) && Barred(cfg, s) && (cfg.perProcess == 0 || cfg.global == 0)
    ensures Barred(cfg, Next(cfg, s, e))
  {
    if Enabled(s, e) {
      if e.ExitEvent? || e.ScanSlot? {
        OnlyTheDeadAreReaped(cfg, s, e);
        assert s.gc.table.slots[e.i] == FREE;
      } else {
        assert !e.Commit?;
        SeatStep(cfg, s, e);
        if cfg.perProcess == 0 {
          ChecksFail(cfg, s, e);
        }
        SeatBarred(cfg, s, Effect(cfg, s, e), e);
      }
    }
  }

  lemma {:induction false} RunBarred(cfg: Config, s0: System, es: seq<Step>)
    requires Init(s0) && (cfg.perProcess == 0 || cfg.global == 0)
    ensures Barred(cfg, Run(cfg, s0, es)) && Undisturbed(cfg, s0, es)
  {
    if es != [] {
      RunBarred(cfg, s0, es[..|es| - 1]);
      RunIdentity(cfg, s0, es[..|es| - 1]);
      NextBarred(cfg, Run(cfg, s0, es[..|es| - 1]), es[|es| - 1]);
    }
  }

  lemma SolitaryNeverForgets(cfg: Config, s0: System, es: seq<Step>)
    requires Init(s0) && Solitary(cfg, |s0.gc.regs|, |s0.seats|)
    ensures !Run(cfg, s0, es).forgot
  {
    if cfg.perProcess == 0 || cfg.global == 0 {
      RunBarred(cfg, s0, es);
    } else {
      AloneUndisturbed(cfg, s0, es);
    }
    UndisturbedNeverForgets(cfg, s0, es);
  }

  /** In every other case any number of QPs is reached, by refused or by forgotten commits. */
  lemma Unlimited(cfg: Config, s0: System, q: nat)
    requires Init(s0) && |s0.seats| > 0 && !Solitary(cfg, |s0.gc.regs|, |s0.seats|)
    ensures exists es: seq<Step> ::
              var seats := Run(cfg, s0, es).seats;
              && Swept(es, |s0.gc.regs|)
              && seats[0].Proc? && seats[0].live == q && Sum(seats, LiveQps) == q
  {
    if Roomy(cfg, |s0.gc.regs|, |s0.seats|) {
      ForgottenCommitsEvadeTheLimits(cfg, s0, q);
    } else {
      RefusedCommitsEvadeTheLimits(cfg, s0, q);
    }
  }

  /** Over all runs the per-process limit is kept if and only if the configuration is solitary. */
  lemma ProcessLimitExactly(cfg: Config, s0: System)
    requires Init(s0) && Sane(cfg, |s0.seats|)
    ensures ProcessLimitKept(cfg, s0) <==> Solitary(cfg, |s0.gc.regs|, |s0.seats|)
  {
    if Solitary(cfg, |s0.gc.regs|, |s0.seats|) {
      forall es: seq<Step>, k: nat | k < |s0.seats|
        ensures LiveQps(Run(cfg, s0, es).seats[k]) <= cfg.perProcess
      {
        SolitaryNeverForgets(cfg, s0, es);
        if Run(cfg, s0, es).seats[k].Proc? {
          PerProcessExactness(cfg, s0, es, k);
        }
      }
    } else {
      Unlimited(cfg, s0, cfg.perProcess + 1);
      var es: seq<Step> :| Run(cfg, s0, es).seats[0].Proc? && Run(cfg, s0, es).seats[0].live == cfg.perProcess + 1;
      assert LiveQps(Run(cfg, s0, es).seats[0]) > cfg.perProcess;
    }
  }

  /** And so is the global one. */
  lemma GlobalLimitExactly(cfg: Config, s0: System)
    requires Init(s0) && Sane(cfg, |s0.seats|)
    ensures GlobalLimitKept(cfg, s0) <==> Solitary(cfg, |s0.gc.regs|, |s0.seats|)
  {
    if Solitary(cfg, |s0.gc.regs|, |s0.seats|) {
      forall es: seq<Step>
        ensures Sum(Run(cfg, s0, es).seats, LiveQps) <= cfg.global
      {
        SolitaryNeverForgets(cfg, s0, es);
        GlobalOvershootBound(cfg, s0, es);
        assert cfg.perProcess == 0 ==> cfg.perProcess * |s0.seats| == 0;
      }
    } else {
      Unlimited(cfg, s0, cfg.global + 1);
      var es: seq<Step> :| Sum(Run(cfg, s0, es).seats, LiveQps) == cfg.global + 1;
    }
  }
}
