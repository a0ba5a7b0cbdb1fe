/**
  The registrations and deregistrations of one process over time: the tenant's quota is asked first, then
  the rate limiter, which counts every call it lets through, and then the real verb.
 */
module MemoryRegions {
  import opened Common
  import opened Sums
  import opened ProcessTable
  import H = Hooks
  import R = RateLimiter

  /** The library's state, the limiter's, and the lengths of the regions the process holds. */
  datatype Session = Session(h: H.State, limiter: R.State, held: seq<nat>)

  /** Deregister gives back the i-th region held; `clock` is what the limiter reads if it is asked. */
  datatype Op =
    | Register(length: nat, works: bool, clock: R.Call)
    | Deregister(i: nat, works: bool, clock: R.Call)

  /** The limit that a configuration sets, if it sets one. */
  function LimitFor(cfg: R.Config): Option<R.Limit> {
    if R.Limits(cfg) then Some(R.LimitOf(cfg)) else None
  }

  /** check_mr_rate_limit. */
  function Limited(lim: Option<R.Limit>, s: R.State, c: R.Call): (bool, R.State) {
    if lim.Some? then R.Check(lim.value, s, c) else (true, s)
  }

  /** The limiter is asked about the call. */
  predicate Asks(s: Session, tenant: nat, op: Op) {
    match op
    case Register(length, _, _) => H.MrAllowed(s.h.reg, tenant, length)
    case Deregister(i, _, _) => i < |s.held|
  }

  /** ibv_reg_mr and ibv_dereg_mr; a region that is not held cannot be given back. */
  function After(lim: Option<R.Limit>, s: Session, tenant: nat, op: Op): (bool, Session) {
    if !Asks(s, tenant, op) then (false, s) else
    var (inRate, limiter) := Limited(lim, s.limiter, op.clock);
    match op
    case Register(length, works, _) =>
      var (ok, h) := H.RegisterMr(s.h, tenant, length, inRate, works);
      (ok, Session(h, limiter, if ok then s.held + [length] else s.held))
    case Deregister(i, works, _) =>
      var (ok, h) := H.DeregisterMr(s.h, tenant, s.held[i], inRate, works);
      (ok, Session(h, limiter, if ok then s.held[..i] + s.held[i + 1..] else s.held))
  }

  function Run(lim: Option<R.Limit>, s: Session, tenant: nat, ops: seq<Op>): (r: (seq<bool>, Session))
    ensures |r.0| == |ops|
  {
    if ops == [] then ([], s)
    else
      var (oks, mid) := Run(lim, s, tenant, ops[..|ops| - 1]);
      var (ok, last) := After(lim, mid, tenant, ops[|ops| - 1]);
      (oks + [ok], last)
  }

  // ----- The rate of calls that go through -----

  function Clocks(ops: seq<Op>): (cs: seq<R.Call>)
    ensures |cs| == |ops| && forall i :: 0 <= i < |ops| ==> cs[i] == ops[i].clock
  {
    if ops == [] then [] else Clocks(ops[..|ops| - 1]) + [ops[|ops| - 1].clock]
  }

  /** The readings of the calls about which the limiter was asked. */
  function Asked(lim: Option<R.Limit>, s: Session, tenant: nat, ops: seq<Op>): seq<R.Call> {
    if ops == [] then []
    else
      var before, op := ops[..|ops| - 1], ops[|ops| - 1];
      Asked(lim, s, tenant, before) + if Asks(Run(lim, s, tenant, before).1, tenant, op) then [op.clock] else []
  }

  /** The limiter is asked in the order of the calls; t is any time by which they are over. */
  lemma {:induction false} AskedClocked(lim: Option<R.Limit>, s: Session, tenant: nat, ops: seq<Op>, t: nat)
    requires R.Clocked(Clocks(ops)) && forall i :: 0 <= i < |ops| ==> Clocks(ops)[i].second <= t
    ensures R.Clocked(Asked(lim, s, tenant, ops))
    ensures forall i :: 0 <= i < |Asked(lim, s, tenant, ops)| ==> Asked(lim, s, tenant, ops)[i].second <= t
  {
    if ops != [] {
      var before, op := ops[..|ops| - 1], ops[|ops| - 1];
      EarlierClocks(ops);
      AskedClocked(lim, s, tenant, before, op.clock.first);
      OneMoreClocked(Asked(lim, s, tenant, before), op.clock);
    }
  }

  lemma EarlierClocks(ops: seq<Op>)
    requires ops != [] && R.Clocked(Clocks(ops))
    ensures var before, c := ops[..|ops| - 1], ops[|ops| - 1].clock;
      && R.Clocked(Clocks(before)) && (forall i :: 0 <= i < |before| ==> Clocks(before)[i].second <= c.first)
      && 0 < c.first <= c.at <= c.second < TWO64
  {
    var before := ops[..|ops| - 1];
    assert forall i :: 0 <= i < |before| ==> Clocks(before)[i] == Clocks(ops)[i];
    assert Clocks(ops)[|ops| - 1] == ops[|ops| - 1].clock;
  }

  lemma OneMoreClocked(cs: seq<R.Call>, c: R.Call)
    requires R.Clocked(cs) && (forall i :: 0 <= i < |cs| ==> cs[i].second <= c.first)
    requires 0 < c.first <= c.at <= c.second < TWO64
    ensures R.Clocked(cs + [c]) && cs + [] == cs
  {
  }

  /** The limiter's state is what the calls it was asked about made of it, and every call that went
      through was granted by it. */
  lemma {:induction false} WithinGrants(lim: Option<R.Limit>, s: Session, tenant: nat, ops: seq<Op>, lo: int, hi: int)
    requires lim.Some? && s.limiter == R.FRESH
    ensures var (oks, s') := Run(lim, s, tenant, ops);
      var (grants, limiter) := R.Run(lim.value, Asked(lim, s, tenant, ops));
      && s'.limiter == limiter && |grants| == |Asked(lim, s, tenant, ops)|
      && R.GrantedIn(Clocks(ops), oks, lo, hi) <= R.GrantedIn(Asked(lim, s, tenant, ops), grants, lo, hi)
  {
    if ops != [] {
      var before, op := ops[..|ops| - 1], ops[|ops| - 1];
      WithinGrants(lim, s, tenant, before, lo, hi);
      var (oks, mid) := Run(lim, s, tenant, before);
      var asked := Asked(lim, s, tenant, before);
      var (grants, limiter) := R.Run(lim.value, asked);
      R.GrantedInMore(Clocks(before), oks, op.clock, After(lim, mid, tenant, op).0, lo, hi);
      if Asks(mid, tenant, op) {
        assert (asked + [op.clock])[..|asked|] == asked;
        R.GrantedInMore(asked, grants, op.clock, R.Check(lim.value, limiter, op.clock).0, lo, hi);
        H.RefusedMrChangesNothing(mid.h, tenant, Length(mid, op), Limited(lim, limiter, op.clock).0, op.works);
      } else {
        assert asked + [] == asked;
      }
    }
  }

  function Length(s: Session, op: Op): nat {
    match op
    case Register(length, _, _) => length
    case Deregister(i, _, _) => if i < |s.held| then s.held[i] else 0
  }

  lemma WithinLimit(lim: R.Limit, s: Session, tenant: nat, ops: seq<Op>, lo: nat)
    requires s.limiter == R.FRESH && R.Clocked(Clocks(ops))
    ensures R.GrantedIn(Clocks(ops), Run(Some(lim), s, tenant, ops).0, lo, lo + lim.window) <= 2 * lim.capacity - 1
  {
    var cs := GrantedTo(lim, s, tenant, ops, lo);
    R.RateBound(lim, cs, lo);
  }

  /** Calls in order of which the limiter granted at least as many as went through. */
  lemma GrantedTo(lim: R.Limit, s: Session, tenant: nat, ops: seq<Op>, lo: nat) returns (cs: seq<R.Call>)
    requires s.limiter == R.FRESH && R.Clocked(Clocks(ops))
    ensures R.Clocked(cs) && |R.Run(lim, cs).0| == |cs|
    ensures R.GrantedIn(Clocks(ops), Run(Some(lim), s, tenant, ops).0, lo, lo + lim.window)
            <= R.GrantedIn(cs, R.Run(lim, cs).0, lo, lo + lim.window)
  {
    cs := Asked(Some(lim), s, tenant, ops);
    AskedClocked(Some(lim), s, tenant, ops, TWO64);
    WithinGrants(Some(lim), s, tenant, ops, lo, lo + lim.window);
  }

  /**
    The rate limit as the hooks enforce it: with the limit on, over any sequence of registrations and
    deregistrations by a clock that does not go back, the calls that go through within any window
    length, and one more, are at most twice the configured rate, or twice one if that is more.
   */
  lemma HookRateBound(cfg: R.Config, s: Session, tenant: nat, ops: seq<Op>, lo: nat)
    requires cfg.enabled && cfg.opsPerSec > 0 && s.limiter == R.FRESH && R.Clocked(Clocks(ops))
    ensures 1000 * (R.GrantedIn(Clocks(ops), Run(LimitFor(cfg), s, tenant, ops).0, lo, lo + R.WindowMs(cfg)) + 1)
            <= 2 * Max(1000, cfg.opsPerSec * R.WindowMs(cfg))
  {
    var lim := R.LimitOf(cfg);
    WithinLimit(lim, s, tenant, ops, lo);
    R.TwiceRate(cfg, R.GrantedIn(Clocks(ops), Run(Some(lim), s, tenant, ops).0, lo, lo + lim.window));
  }

  /** With the limit off, or at 0 operations per second, a call goes through exactly when the tenant's
      quota allows it (or the region is held) and the real verb works. */
  lemma Unlimited(cfg: R.Config, s: Session, tenant: nat, op: Op)
    requires !cfg.enabled || cfg.opsPerSec == 0
    ensures After(LimitFor(cfg), s, tenant, op).0 <==> Asks(s, tenant, op) && op.works
    ensures After(LimitFor(cfg), s, tenant, op).1.limiter == s.limiter
  {
    H.RefusedMrChangesNothing(s.h, tenant, Length(s, op), true, op.works);
  }

  /** A call that does not go through leaves the library's state and the regions as they were. */
  lemma RefusedLeavesState(lim: Option<R.Limit>, s: Session, tenant: nat, op: Op)
    requires !After(lim, s, tenant, op).0
    ensures After(lim, s, tenant, op).1.h == s.h && After(lim, s, tenant, op).1.held == s.held
  {
    H.RefusedMrChangesNothing(s.h, tenant, Length(s, op), Limited(lim, s.limiter, op.clock).0, op.works);
  }

  // ----- What the process is charged with -----

  function Same(n: nat): int { n }

  /** Count and bytes are those of the regions held. */
  ghost predicate Exact(s: Session) { s.h.mr == |s.held| && s.h.mem == Sum(s.held, Same) < TWO64 }

  /** The lengths held add up to what 64 bits can hold, throughout. */
  ghost predicate Fits(lim: Option<R.Limit>, s: Session, tenant: nat, ops: seq<Op>) {
    Sum(Run(lim, s, tenant, ops).1.held, Same) < TWO64 && (ops != [] ==> Fits(lim, s, tenant, ops[..|ops| - 1]))
  }

  lemma {:induction false} SumWithout(held: seq<nat>, i: nat)
    requires i < |held|
    ensures Sum(held[..i] + held[i + 1..], Same) == Sum(held, Same) - held[i] && held[i] <= Sum(held, Same)
  {
    var n := |held| - 1;
    SumBoundsTerms(held, Same);
    assert Same(held[i]) <= Sum(held, Same);
    if i == n {
      assert held[..i] + held[i + 1..] == held[..n];
    } else {
      SumWithout(held[..n], i);
      assert (held[..i] + held[i + 1..])[..n - 1] == held[..n][..i] + held[..n][i + 1..];
    }
  }

  lemma AfterExact(lim: Option<R.Limit>, s: Session, tenant: nat, op: Op)
    requires Exact(s) && Sum(After(lim, s, tenant, op).1.held, Same) < TWO64
    ensures Exact(After(lim, s, tenant, op).1)
  {
    if After(lim, s, tenant, op).0 {
      match op
      case Register(length, _, _) => assert (s.held + [length])[..|s.held|] == s.held;
      case Deregister(i, _, _) => SumWithout(s.held, i);
    } else {
      RefusedLeavesState(lim, s, tenant, op);
    }
  }

  /**
    Over every run of registrations and deregistrations, whatever is refused by quota, limiter or verb,
    the library's MR count is the number of regions held and its bytes are their lengths' sum, as long
    as that sum fits in 64 bits.
   */
  lemma {:induction false} ChargesAreExact(lim: Option<R.Limit>, s: Session, tenant: nat, ops: seq<Op>)
    requires Exact(s) && Fits(lim, s, tenant, ops)
    ensures Exact(Run(lim, s, tenant, ops).1)
  {
    if ops != [] {
      ChargesAreExact(lim, s, tenant, ops[..|ops| - 1]);
      AfterExact(lim, Run(lim, s, tenant, ops[..|ops| - 1]).1, tenant, ops[|ops| - 1]);
    }
  }

  // ----- The calls in memory -----

  class MrHooks {
    const hooks: H.InterceptState
    const limiter: R.MrRateLimiter

    ghost predicate Valid()
      reads hooks.tenants.tenants
    {
      hooks.Valid()
    }

    constructor (hooks: H.InterceptState, limiter: R.MrRateLimiter)
      requires hooks.Valid()
      ensures this.hooks == hooks && this.limiter == limiter && Valid()
    {
      this.hooks := hooks;
      this.limiter := limiter;
    }

    /** ibv_reg_mr: the limiter is asked only about what the tenant's quota allows. */
    method Reg(cfg: R.Config, tenant: nat, length: nat, works: bool, first: nat, second: nat, ghost held: seq<nat>)
      returns (ok: bool)
      requires Valid()
      modifies hooks`mrCount, hooks`memoryUsed, hooks.tenants.tenants, limiter
      ensures Valid()
      ensures var (went, s') := After(LimitFor(cfg), Session(old(hooks.View()), old(limiter.state), held), tenant,
                                      Register(length, works, R.Call(first, second, second)));
        ok == went && hooks.View() == s'.h && limiter.state == s'.limiter
    {
      ok := hooks.CheckMrLimit(tenant, length);
      if ok {
        ok := limiter.Allow(cfg, first, second);
        ok := hooks.RegMr(tenant, length, ok, works);
      }
    }

    /** ibv_dereg_mr of the i-th region held. */
    method Dereg(cfg: R.Config, tenant: nat, length: nat, works: bool, first: nat, second: nat,
                 ghost held: seq<nat>, ghost i: nat)
      returns (ok: bool)
      requires Valid() && i < |held| && held[i] == length
      modifies hooks`mrCount, hooks`memoryUsed, hooks.tenants.tenants, limiter
      ensures Valid()
      ensures var (went, s') := After(LimitFor(cfg), Session(old(hooks.View()), old(limiter.state), held), tenant,
                                      Deregister(i, works, R.Call(first, second, second)));
        ok == went && hooks.View() == s'.h && limiter.state == s'.limiter
    {
      ok := limiter.Allow(cfg, first, second);
      ok := hooks.DeregMr(tenant, length, ok, works);
    }
  }
}
