/**
  The fixed-window limiter on MR registrations and deregistrations. A call reads the monotonic
  clock once to decide, and a second time when it opens a window; both are given in nanoseconds.
 */
module RateLimiter {
  import opened Common

  /** enable_mr_rate_limit, max_mr_ops_per_sec and mr_rate_limit_window_ms. */
  datatype Config = Config(enabled: bool, opsPerSec: nat, windowMs: nat)

  ghost predicate InRange(cfg: Config) { cfg.opsPerSec < TWO32 && cfg.windowMs < TWO32 }

  predicate Limits(cfg: Config) { cfg.enabled && cfg.opsPerSec != 0 }

  function Window(cfg: Config): (w: nat)
    ensures w > 0
  {
    if cfg.windowMs > 0 then cfg.windowMs else 1000
  }

  /** The most operations one window lets through; at least one. */
  function Capacity(cfg: Config): (m: nat)
    ensures m >= 1
  {
    var m := cfg.opsPerSec * Window(cfg) / 1000;
    if m < 1 then 1 else m
  }

  /** The configured window length in milliseconds; 0 stands for one second. */
  function WindowMs(cfg: Config): nat { if cfg.windowMs == 0 then 1000 else cfg.windowMs }

  /** One window lets through the operations per second times its seconds, rounded down, but one at least. */
  lemma CapacityMeans(cfg: Config)
    ensures var w := WindowMs(cfg);
      && Window(cfg) == w
      && (cfg.opsPerSec * w >= 1000 ==>
            1000 * Capacity(cfg) <= cfg.opsPerSec * w < 1000 * (Capacity(cfg) + 1))
      && (cfg.opsPerSec * w < 1000 ==> Capacity(cfg) == 1)
  {
    var p := cfg.opsPerSec * WindowMs(cfg);
    assert p == 1000 * (p / 1000) + p % 1000;
  }

  /** The 64-bit product of the two 32-bit factors is the true one. */
  lemma ProductFits(cfg: Config)
    requires InRange(cfg)
    ensures cfg.opsPerSec * Window(cfg) < TWO64
  {
    assert cfg.opsPerSec * Window(cfg) <= (TWO32 - 1) * (TWO32 - 1) by {
      MulMonotone(cfg.opsPerSec, Window(cfg), TWO32 - 1, TWO32 - 1);
    }
  }

  lemma MulMonotone(a: nat, b: nat, c: nat, d: nat)
    requires a <= c && b <= d
    ensures a * b <= c * d
  {
    assert a * b <= c * b;
    assert c * b <= c * d;
  }

  datatype AnyLimit = Limit(window: nat, capacity: nat)

  /** A window length in milliseconds and what one window lets through. */
  type Limit = l: AnyLimit | l.window > 0 && l.capacity > 0 witness Limit(1, 1)

  function LimitOf(cfg: Config): Limit { Limit(Window(cfg), Capacity(cfg)) }

  function Ms(ns: nat): nat { ns / 1000000 }

  /** When the window began (0: never) and how many operations it has let through. */
  datatype State = State(start: nat, count: nat)
  const FRESH := State(0, 0)

  /** The first clock reading of a call, the instant it counts for, and the second reading. */
  datatype Call = Call(first: nat, at: nat, second: nat)

  predicate Opens(lim: Limit, s: State, c: Call) {
    s.start == 0 || (Ms(c.first) - Ms(s.start)) % TWO64 >= lim.window
  }

  /** check_mr_rate_limit when it limits at all. */
  function Check(lim: Limit, s: State, c: Call): (bool, State) {
    var s1 := if Opens(lim, s, c) then State(c.second, 0) else s;
    if s1.count < lim.capacity then (true, s1.(count := s1.count + 1)) else (false, s1)
  }

  function Run(lim: Limit, cs: seq<Call>): (seq<bool>, State) {
    if cs == [] then ([], FRESH)
    else
      var (oks, s) := Run(lim, cs[..|cs| - 1]);
      var (ok, s') := Check(lim, s, cs[|cs| - 1]);
      (oks + [ok], s')
  }

  /** Calls under the mutex, by a clock that is positive, never goes back and fits in 64 bits. */
  ghost predicate Clocked(cs: seq<Call>) {
    && (forall i :: 0 <= i < |cs| ==> 0 < cs[i].first <= cs[i].at <= cs[i].second < TWO64)
    && (forall i, j :: 0 <= i < j < |cs| ==> cs[i].second <= cs[j].first)
  }

  /** Granted calls that count for a time in [lo, hi) milliseconds. */
  function GrantedIn(cs: seq<Call>, oks: seq<bool>, lo: int, hi: int): nat
    requires |cs| == |oks|
  {
    if cs == [] then 0
    else
      var n := |cs| - 1;
      GrantedIn(cs[..n], oks[..n], lo, hi) + if oks[n] && lo <= Ms(cs[n].at) < hi then 1 else 0
  }

  /** Granted calls that count for a time later than x milliseconds. */
  function GrantedAfter(cs: seq<Call>, oks: seq<bool>, x: int): nat
    requires |cs| == |oks|
  {
    if cs == [] then 0
    else
      var n := |cs| - 1;
      GrantedAfter(cs[..n], oks[..n], x) + if oks[n] && Ms(cs[n].at) > x then 1 else 0
  }

  lemma {:induction false} InIsWithinAfter(cs: seq<Call>, oks: seq<bool>, lo: int, hi: int)
    requires |cs| == |oks|
    ensures GrantedIn(cs, oks, lo, hi) <= GrantedAfter(cs, oks, lo - 1)
  {
    if cs != [] {
      var n := |cs| - 1;
      InIsWithinAfter(cs[..n], oks[..n], lo, hi);
    }
  }

  lemma {:induction false} AfterDecreases(cs: seq<Call>, oks: seq<bool>, x: int, y: int)
    requires |cs| == |oks| && x <= y
    ensures GrantedAfter(cs, oks, y) <= GrantedAfter(cs, oks, x)
  {
    if cs != [] {
      var n := |cs| - 1;
      AfterDecreases(cs[..n], oks[..n], x, y);
    }
  }

  /** Nothing was granted for a time after every call so far. */
  lemma {:induction false} NothingLater(cs: seq<Call>, oks: seq<bool>, x: int)
    requires |cs| == |oks| && forall i :: 0 <= i < |cs| ==> Ms(cs[i].at) <= x
    ensures GrantedAfter(cs, oks, x) == 0
  {
    if cs != [] {
      var n := |cs| - 1;
      NothingLater(cs[..n], oks[..n], x);
    }
  }

  // ----- Windows -----

  /** The starts of the windows opened so far, in nanoseconds. */
  function Starts(lim: Limit, cs: seq<Call>): seq<nat> {
    if cs == [] then []
    else
      var before := cs[..|cs| - 1];
      Starts(lim, before) +
      if Opens(lim, Run(lim, before).1, cs[|cs| - 1]) then [cs[|cs| - 1].second] else []
  }

  function Last(starts: seq<nat>): nat { if starts == [] then 0 else starts[|starts| - 1] }

  /** The start before the current one. */
  function Previous(starts: seq<nat>): int { if |starts| < 2 then -1 else Ms(starts[|starts| - 2]) }

  ghost predicate Spaced(lim: Limit, starts: seq<nat>) {
    forall i, j :: 0 <= i < j < |starts| ==> Ms(starts[i]) + lim.window <= Ms(starts[j])
  }

  /** What a run keeps true: the current window has granted `count`, at most its capacity; strictly
      later than its start all of those but the one that opened it, and likewise for the window
      before it. */
  ghost predicate Kept(lim: Limit, cs: seq<Call>, oks: seq<bool>, s: State, starts: seq<nat>) {
    && |oks| == |cs|
    && s.start == Last(starts) && s.count <= lim.capacity
    && (starts == [] <==> cs == []) && Spaced(lim, starts)
    && (cs != [] ==> 0 < s.start <= cs[|cs| - 1].second)
    && (cs != [] ==> GrantedAfter(cs, oks, Ms(s.start)) <= s.count - 1)
    && GrantedAfter(cs, oks, Previous(starts)) <= lim.capacity - 1 + s.count
  }

  lemma GrantedAfterMore(cs: seq<Call>, oks: seq<bool>, c: Call, ok: bool, x: int)
    requires |cs| == |oks|
    ensures GrantedAfter(cs + [c], oks + [ok], x) ==
      GrantedAfter(cs, oks, x) + if ok && Ms(c.at) > x then 1 else 0
  {
    assert (cs + [c])[..|cs|] == cs && (oks + [ok])[..|cs|] == oks;
  }

  /** The times of earlier calls are no later than the last call's first reading. */
  lemma EarlierCalls(cs: seq<Call>, c: Call)
    requires Clocked(cs + [c])
    ensures Clocked(cs) && 0 < c.first <= c.at <= c.second < TWO64
    ensures forall i :: 0 <= i < |cs| ==> cs[i].at <= c.first && cs[i].second <= c.first
  {
    var all := cs + [c];
    assert all[|cs|] == c;
    forall i | 0 <= i < |cs|
      ensures cs[i] == all[i] && cs[i].at <= c.first && cs[i].second <= c.first
    {
      assert cs[i] == all[i] && all[i].second <= all[|cs|].first;
    }
  }

  /** A call that opens a window: a full window after the last one opened. */
  lemma OpeningCall(lim: Limit, cs: seq<Call>, oks: seq<bool>, s: State, starts: seq<nat>, c: Call)
    requires Kept(lim, cs, oks, s, starts) && Clocked(cs + [c]) && Opens(lim, s, c)
    ensures cs != [] ==> Ms(s.start) + lim.window <= Ms(c.first)
    ensures Kept(lim, cs + [c], oks + [true], State(c.second, 1), starts + [c.second])
  {
    EarlierCalls(cs, c);
    GrantedAfterMore(cs, oks, c, true, Ms(c.second));
    NothingLater(cs, oks, Ms(c.second));
    if cs != [] {
      assert Ms(s.start) <= Ms(c.first);
      assert Previous(starts + [c.second]) == Ms(s.start);
      GrantedAfterMore(cs, oks, c, true, Ms(s.start));
    } else {
      GrantedAfterMore(cs, oks, c, true, -1);
    }
  }

  /** A call inside the current window. */
  lemma InnerCall(lim: Limit, cs: seq<Call>, oks: seq<bool>, s: State, starts: seq<nat>, c: Call)
    requires Kept(lim, cs, oks, s, starts) && Clocked(cs + [c]) && !Opens(lim, s, c)
    ensures var (ok, s') := Check(lim, s, c);
      Kept(lim, cs + [c], oks + [ok], s', starts)
  {
    EarlierCalls(cs, c);
    var (ok, s') := Check(lim, s, c);
    GrantedAfterMore(cs, oks, c, ok, Ms(s.start));
    GrantedAfterMore(cs, oks, c, ok, Previous(starts));
  }

  lemma OneMoreCall(lim: Limit, cs: seq<Call>, oks: seq<bool>, s: State, starts: seq<nat>, c: Call)
    requires Kept(lim, cs, oks, s, starts) && Clocked(cs + [c])
    ensures var (ok, s') := Check(lim, s, c);
      Kept(lim, cs + [c], oks + [ok], s', if Opens(lim, s, c) then starts + [c.second] else starts)
  {
    if Opens(lim, s, c) {
      OpeningCall(lim, cs, oks, s, starts, c);
    } else {
      InnerCall(lim, cs, oks, s, starts, c);
    }
  }

  lemma {:induction false} RunKept(lim: Limit, cs: seq<Call>)
    requires Clocked(cs)
    ensures Kept(lim, cs, Run(lim, cs).0, Run(lim, cs).1, Starts(lim, cs))
  {
    if cs != [] {
      var before, c := cs[..|cs| - 1], cs[|cs| - 1];
      assert cs == before + [c];
      EarlierCalls(before, c);
      RunKept(lim, before);
      OneMoreCall(lim, before, Run(lim, before).0, Run(lim, before).1, Starts(lim, before), c);
    }
  }

  /** Windows start at least one window length apart. */
  lemma WindowsAreApart(lim: Limit, cs: seq<Call>, i: nat, j: nat)
    requires Clocked(cs) && i < j < |Starts(lim, cs)|
    ensures Ms(Starts(lim, cs)[i]) + lim.window <= Ms(Starts(lim, cs)[j])
  {
    RunKept(lim, cs);
  }

  /** Which call opened the current window. */
  function LastOpening(lim: Limit, cs: seq<Call>): (k: nat)
    requires cs != []
    ensures k < |cs|
  {
    var before := cs[..|cs| - 1];
    if before == [] || Opens(lim, Run(lim, before).1, cs[|cs| - 1]) then |cs| - 1 else LastOpening(lim, before)
  }

  function Grants(oks: seq<bool>): nat {
    if oks == [] then 0 else Grants(oks[..|oks| - 1]) + if oks[|oks| - 1] then 1 else 0
  }

  /** The counter is the number of calls granted since the current window opened. */
  lemma {:induction false} CountIsGrants(lim: Limit, cs: seq<Call>)
    requires cs != []
    ensures |Run(lim, cs).0| == |cs|
    ensures Run(lim, cs).1.count == Grants(Run(lim, cs).0[LastOpening(lim, cs)..])
  {
    var before, c := cs[..|cs| - 1], cs[|cs| - 1];
    var (oks, s) := Run(lim, before);
    var (ok, s') := Check(lim, s, c);
    var k := LastOpening(lim, cs);
    if before != [] {
      CountIsGrants(lim, before);
    }
    var since := (oks + [ok])[k..];
    if Opens(lim, s, c) {
      assert since == [ok] && since[..0] == [];
    } else {
      assert since[..|since| - 1] == oks[k..];
    }
  }

  /** A call is denied exactly when it does not open a window and the current one has let through its
      whole capacity. */
  lemma DeniedMeansFull(lim: Limit, cs: seq<Call>, c: Call)
    requires Clocked(cs + [c])
    ensures var (oks, s) := Run(lim, cs);
      && |oks| == |cs|
      && (!Check(lim, s, c).0 <==>
            !Opens(lim, s, c) && cs != [] && Grants(oks[LastOpening(lim, cs)..]) == lim.capacity)
  {
    EarlierCalls(cs, c);
    RunKept(lim, cs);
    if cs != [] {
      CountIsGrants(lim, cs);
    }
  }

  /** The window began with the second reading of the call that opened it. */
  lemma {:induction false} StartIsOpening(lim: Limit, cs: seq<Call>)
    requires cs != []
    ensures Run(lim, cs).1.start == cs[LastOpening(lim, cs)].second
  {
    var before := cs[..|cs| - 1];
    if before != [] && !Opens(lim, Run(lim, before).1, cs[|cs| - 1]) {
      StartIsOpening(lim, before);
    }
  }

  /**
    The same for a configuration, in operations per second and milliseconds: a call is denied exactly
    when less than the window length has passed since the current window was opened, and it has let
    through at least one call and so many that one more would exceed the rate.
   */
  lemma DeniedExactly(cfg: Config, cs: seq<Call>, c: Call)
    requires Clocked(cs + [c])
    ensures var (oks, s) := Run(LimitOf(cfg), cs);
      && |oks| == |cs|
      && (!Check(LimitOf(cfg), s, c).0 <==>
            && cs != []
            && var k := LastOpening(LimitOf(cfg), cs);
               && Ms(c.first) - Ms(cs[k].second) < WindowMs(cfg)
               && Grants(oks[k..]) >= 1 && 1000 * (Grants(oks[k..]) + 1) > cfg.opsPerSec * WindowMs(cfg))
  {
    var lim := LimitOf(cfg);
    CapacityMeans(cfg);
    DeniedMeansFull(lim, cs, c);
    EarlierCalls(cs, c);
    RunKept(lim, cs);
    if cs != [] {
      StartIsOpening(lim, cs);
      CountIsGrants(lim, cs);
      OpensAfter(lim, Run(lim, cs).1, c);
    }
  }

  lemma OpensAfter(lim: Limit, s: State, c: Call)
    requires 0 < s.start <= c.first < TWO64
    ensures Opens(lim, s, c) <==> Ms(c.first) - Ms(s.start) >= lim.window
  {
  }

  lemma GrantedInMore(cs: seq<Call>, oks: seq<bool>, c: Call, ok: bool, lo: int, hi: int)
    requires |cs| == |oks|
    ensures GrantedIn(cs + [c], oks + [ok], lo, hi) ==
      GrantedIn(cs, oks, lo, hi) + if ok && lo <= Ms(c.at) < hi then 1 else 0
  {
    assert (cs + [c])[..|cs|] == cs && (oks + [ok])[..|cs|] == oks;
  }

  /** A grant at a time in the interval finds room there. */
  lemma GrantFits(lim: Limit, cs: seq<Call>, oks: seq<bool>, s: State, starts: seq<nat>, c: Call, lo: nat)
    requires Kept(lim, cs, oks, s, starts) && Clocked(cs + [c]) && Check(lim, s, c).0
    requires lo <= Ms(c.at) < lo + lim.window
    ensures GrantedIn(cs, oks, lo, lo + lim.window) + 1 <= 2 * lim.capacity - 1
  {
    EarlierCalls(cs, c);
    InIsWithinAfter(cs, oks, lo, lo + lim.window);
    if cs == [] {
    } else if Opens(lim, s, c) {
      OpeningCall(lim, cs, oks, s, starts, c);
      AfterDecreases(cs, oks, Ms(s.start), lo - 1);
    } else {
      assert Ms(s.start) <= Ms(c.first) <= Ms(c.at);
      assert |starts| >= 2 ==> Ms(starts[|starts| - 2]) + lim.window <= Ms(starts[|starts| - 1]);
      AfterDecreases(cs, oks, Previous(starts), lo - 1);
    }
  }

  /**
    The rate limit: with a fixed configuration and a clock that does not go back, no half-open
    interval as long as the window, wherever it lies, contains more than 2 * capacity - 1 granted
    operations, one less than two full windows.
   */
  lemma {:induction false} RateBound(lim: Limit, cs: seq<Call>, lo: nat)
    requires Clocked(cs)
    ensures |Run(lim, cs).0| == |cs|
    ensures GrantedIn(cs, Run(lim, cs).0, lo, lo + lim.window) <= 2 * lim.capacity - 1
  {
    RunKept(lim, cs);
    if cs != [] {
      var before, c := cs[..|cs| - 1], cs[|cs| - 1];
      assert cs == before + [c];
      EarlierCalls(before, c);
      RateBound(lim, before, lo);
      RunKept(lim, before);
      var (oks, s) := Run(lim, before);
      var ok := Check(lim, s, c).0;
      GrantedInMore(before, oks, c, ok, lo, lo + lim.window);
      if ok && lo <= Ms(c.at) < lo + lim.window {
        GrantFits(lim, before, oks, s, Starts(lim, before), c, lo);
      }
    }
  }

  // ----- The bound is reached -----

  function Instant(ms: nat): Call { Call(ms * 1000000, ms * 1000000, ms * 1000000) }

  function Copies(c: Call, n: nat): (cs: seq<Call>)
    ensures |cs| == n && forall i :: 0 <= i < n ==> cs[i] == c
  {
    seq(n, _ => c)
  }

  /** The calls lead to state s, with g of them granted in the interval. */
  ghost predicate Reaches(lim: Limit, cs: seq<Call>, s: State, g: nat, lo: int, hi: int) {
    |Run(lim, cs).0| == |cs| && Run(lim, cs).1 == s && GrantedIn(cs, Run(lim, cs).0, lo, hi) == g
  }

  /** One more call that is granted. */
  lemma GrantMore(lim: Limit, cs: seq<Call>, s: State, g: nat, c: Call, lo: int, hi: int)
    requires Reaches(lim, cs, s, g, lo, hi) && Check(lim, s, c).0
    ensures Reaches(lim, cs + [c], Check(lim, s, c).1, g + (if lo <= Ms(c.at) < hi then 1 else 0), lo, hi)
  {
    assert (cs + [c])[..|cs|] == cs;
    GrantedInMore(cs, Run(lim, cs).0, c, true, lo, hi);
  }

  /** n calls at one instant in the current window, while it has room. */
  lemma {:induction false} Burst(lim: Limit, cs: seq<Call>, s: State, g: nat, c: Call, n: nat, lo: int, hi: int)
    requires Reaches(lim, cs, s, g, lo, hi) && lo <= Ms(c.at) < hi
    requires !Opens(lim, s, c) && s.count + n <= lim.capacity
    ensures Reaches(lim, cs + Copies(c, n), s.(count := s.count + n), g + n, lo, hi)
    decreases n
  {
    if n == 0 {
      assert cs + Copies(c, 0) == cs;
    } else {
      GrantMore(lim, cs, s, g, c, lo, hi);
      Burst(lim, cs + [c], s.(count := s.count + 1), g + 1, c, n - 1, lo, hi);
      assert cs + Copies(c, n) == cs + [c] + Copies(c, n - 1);
    }
  }

  /** Between instants, a window opens when it is due. */
  lemma OpensAt(lim: Limit, a: nat, b: nat, count: nat)
    requires 1 <= a <= b < TWO32 + 1
    ensures Opens(lim, State(a * 1000000, count), Instant(b)) <==> b - a >= lim.window
    ensures Ms(a * 1000000) == a && Ms(b * 1000000) == b
  {
  }

  /** One call at the start of a window, the rest of it at its end, and all of the next at once. */
  function Straddling(lim: Limit): seq<Call> {
    Early(lim) + [Instant(lim.window + 1)] + Copies(Instant(lim.window + 1), lim.capacity - 1)
  }

  /** The bound cannot be improved: whenever the window is longer than a millisecond, some calls get
      2 * capacity - 1 grants within one window length, almost twice the configured rate. */
  lemma RateBoundIsReached(lim: Limit)
    requires 2 <= lim.window < TWO32
    ensures var cs, w := Straddling(lim), lim.window;
      && Clocked(cs) && |Run(lim, cs).0| == |cs|
      && GrantedIn(cs, Run(lim, cs).0, w, 2 * w) == 2 * lim.capacity - 1
  {
    StraddlingClocked(lim);
    FirstWindow(lim);
    SecondWindow(lim);
  }

  /** The calls of the first window. */
  function Early(lim: Limit): seq<Call> { [] + [Instant(1)] + Copies(Instant(lim.window), lim.capacity - 1) }

  lemma FirstWindow(lim: Limit)
    requires 2 <= lim.window < TWO32
    ensures Reaches(lim, Early(lim), State(1000000, lim.capacity), lim.capacity - 1, lim.window, 2 * lim.window)
  {
    var m, w := lim.capacity, lim.window;
    OpensAt(lim, 1, w, 1);
    assert Reaches(lim, [], FRESH, 0, w, 2 * w);
    GrantMore(lim, [], FRESH, 0, Instant(1), w, 2 * w);
    Burst(lim, [] + [Instant(1)], State(1000000, 1), 0, Instant(w), m - 1, w, 2 * w);
  }

  lemma SecondWindow(lim: Limit)
    requires 2 <= lim.window < TWO32
    requires Reaches(lim, Early(lim), State(1000000, lim.capacity), lim.capacity - 1, lim.window, 2 * lim.window)
    ensures Reaches(lim, Straddling(lim), State((lim.window + 1) * 1000000, lim.capacity), 2 * lim.capacity - 1,
                    lim.window, 2 * lim.window)
  {
    var m, w := lim.capacity, lim.window;
    var c := Instant(w + 1);
    OpensAt(lim, 1, w + 1, m);
    OpensAt(lim, w + 1, w + 1, 1);
    GrantMore(lim, Early(lim), State(1000000, m), m - 1, c, w, 2 * w);
    Burst(lim, Early(lim) + [c], State((w + 1) * 1000000, 1), m, c, m - 1, w, 2 * w);
    assert Straddling(lim) == Early(lim) + [c] + Copies(c, m - 1);
  }

  lemma StraddlingClocked(lim: Limit)
    requires 2 <= lim.window < TWO32
    ensures Clocked(Straddling(lim))
  {
    var cs, m, w := Straddling(lim), lim.capacity, lim.window;
    assert forall i :: 0 <= i < |cs| ==>
      cs[i] == if i == 0 then Instant(1) else if i < m then Instant(w) else Instant(w + 1);
  }

  /** Less than twice the capacity, in operations per second and milliseconds. */
  lemma TwiceRate(cfg: Config, g: nat)
    requires g <= 2 * Capacity(cfg) - 1
    ensures Window(cfg) == WindowMs(cfg) && 1000 * (g + 1) <= 2 * Max(1000, cfg.opsPerSec * WindowMs(cfg))
  {
    CapacityMeans(cfg);
  }

  /** The rate limit of a configuration: within any window length, the operations let through and one
      more are at most twice the configured rate, or twice one operation if that is more. */
  lemma ConfiguredRateBound(cfg: Config, cs: seq<Call>, lo: nat)
    requires Clocked(cs)
    ensures |Run(LimitOf(cfg), cs).0| == |cs|
    ensures 1000 * (GrantedIn(cs, Run(LimitOf(cfg), cs).0, lo, lo + WindowMs(cfg)) + 1)
            <= 2 * Max(1000, cfg.opsPerSec * WindowMs(cfg))
  {
    RateBound(LimitOf(cfg), cs, lo);
    TwiceRate(cfg, GrantedIn(cs, Run(LimitOf(cfg), cs).0, lo, lo + Window(cfg)));
  }

  // ----- The limiter in memory -----

  class MrRateLimiter {
    var state: State

    constructor ()
      ensures state == FRESH
    {
      state := FRESH;
    }

    /** check_mr_rate_limit. */
    method Allow(cfg: Config, first: nat, second: nat) returns (allowed: bool)
      modifies this
      ensures !Limits(cfg) ==> allowed && state == old(state)
      ensures Limits(cfg) ==> (allowed, state) == Check(LimitOf(cfg), old(state), Call(first, second, second))
    {
      if !cfg.enabled || cfg.opsPerSec == 0 {
        return true;
      }
      var now := Ms(first);
      var window := if cfg.windowMs > 0 then cfg.windowMs else 1000;
      if state.start == 0 {
        state := State(second, 0);
      } else {
        var startMs := Ms(state.start);
        if (now - startMs) % TWO64 >= window {
          state := State(second, 0);
        }
      }
      var max := cfg.opsPerSec * window / 1000;
      if max < 1 {
        max := 1;
      }
      allowed := state.count < max;
      if allowed {
        state := state.(count := state.count + 1);
      }
    }
  }
}
