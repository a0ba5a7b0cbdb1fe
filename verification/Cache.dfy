/**
  The direct-mapped cache of process usages: 256 lines picked by a multiplicative hash of the pid,
  each valid for a time to live. The clock is whatever gettimeofday says, backward jumps included.
 */
module Cache {
  import opened Common
  import opened ProcessTable

  const BUCKETS: int := 256

  /** hash_pid: the product is taken modulo 2^32, the line number modulo 256. */
  function HashPid(pid: int): (b: nat)
    ensures b < BUCKETS
  {
    U32(U32(pid) * 2654435761) % BUCKETS
  }

  /** valid, pid, usage and last_update of a line. */
  datatype Line = Line(valid: bool, pid: int, usage: Usage, stamp: nat)

  datatype Op =
    | Store(pid: int, usage: Usage, time: nat)
    | Get(pid: int, time: nat, ttl: nat)
    | Invalidate(pid: int)
    | Clear

  /** The age test, in unsigned 64-bit arithmetic. */
  predicate Expired(stamp: nat, time: nat, ttl: nat) { U64(time - stamp) > ttl }

  datatype Answer = Miss | Hit(usage: Usage)

  function Answered(lines: seq<Line>, pid: int, time: nat, ttl: nat): Answer
    requires |lines| == BUCKETS
  {
    var l := lines[HashPid(pid)];
    if l.valid && l.pid == pid && !Expired(l.stamp, time, ttl) then Hit(l.usage) else Miss
  }

  function Cleared(lines: seq<Line>): (r: seq<Line>)
    ensures |r| == |lines|
    ensures forall i :: 0 <= i < |r| ==> r[i] == lines[i].(valid := false)
  {
    seq(|lines|, i requires 0 <= i < |lines| => lines[i].(valid := false))
  }

  function Empty(): (r: seq<Line>)
    ensures |r| == BUCKETS
  {
    seq(BUCKETS, _ => Line(false, 0, NONE, 0))
  }

  function Step(lines: seq<Line>, op: Op): (r: seq<Line>)
    requires |lines| == BUCKETS
    ensures |r| == BUCKETS
  {
    match op
    case Store(pid, u, time) => lines[HashPid(pid) := Line(true, pid, u, time)]
    case Get(pid, time, ttl) =>
      var b := HashPid(pid);
      var l := lines[b];
      if l.valid && l.pid == pid && Expired(l.stamp, time, ttl) then lines[b := l.(valid := false)] else lines
    case Invalidate(pid) =>
      var b := HashPid(pid);
      if lines[b].pid == pid then lines[b := lines[b].(valid := false)] else lines
    case Clear => Cleared(lines)
  }

  function Run(h: seq<Op>): (r: seq<Line>)
    ensures |r| == BUCKETS
  {
    if h == [] then Empty() else Step(Run(h[..|h| - 1]), h[|h| - 1])
  }

  // ----- The hash -----

  lemma ModPlus(x: int, k: int)
    ensures (x + 256 * k) % 256 == x % 256
  {
  }

  /** Whatever wraps, the line number is 177 times the pid modulo 256. */
  lemma HashIsLinear(pid: int)
    ensures HashPid(pid) == (177 * (pid % 256)) % 256
  {
    var y := U32(pid);
    var z := y * 2654435761;
    ModPlus(U32(z), 16777216 * (z / TWO32));
    assert z == U32(z) + 256 * (16777216 * (z / TWO32));
    ModPlus(177 * y, 10368889 * y);
    assert z == 177 * y + 256 * (10368889 * y);
    ModPlus(y, 16777216 * (pid / TWO32));
    assert pid == y + 256 * (16777216 * (pid / TWO32));
    ModPlus(177 * (y % 256), 177 * (y / 256));
    assert 177 * y == 177 * (y % 256) + 256 * (177 * (y / 256));
  }

  /** 177 is invertible modulo 256: 81 * 177 is one more than a multiple of 256. */
  lemma Invertible(a: int, b: int)
    requires 0 <= a < 256 && 0 <= b < 256 && (177 * a) % 256 == (177 * b) % 256
    ensures a == b
  {
    ByInverse(a - b, 177 * a / 256 - 177 * b / 256);
  }

  lemma ByInverse(d: int, k: int)
    requires 177 * d == 256 * k && -256 < d < 256
    ensures d == 0
  {
    assert d == 256 * (81 * k - 56 * d);
  }

  /** Bucket collisions: two pids share a line exactly when they are congruent modulo 256. */
  lemma BucketCollisions(p: int, q: int)
    ensures HashPid(p) == HashPid(q) <==> p % 256 == q % 256
  {
    HashIsLinear(p);
    HashIsLinear(q);
    if p % 256 != q % 256 {
      DifferentLines(p % 256, q % 256);
    }
  }

  lemma DifferentLines(a: int, b: int)
    requires 0 <= a < 256 && 0 <= b < 256 && a != b
    ensures (177 * a) % 256 != (177 * b) % 256
  {
    if (177 * a) % 256 == (177 * b) % 256 {
      Invertible(a, b);
    }
  }

  lemma NotCongruent(p: int, q: int)
    requires p < q < p + 256
    ensures p % 256 != q % 256
  {
  }

  /** Among any 256 consecutive pids, whatever is done for one leaves the line of another alone. */
  lemma NeighboursDoNotDisturb(lines: seq<Line>, p: int, q: int, op: Op)
    requires |lines| == BUCKETS && p < q < p + 256 && !op.Clear? && op.pid in {p, q}
    ensures Step(lines, op)[HashPid(if op.pid == p then q else p)] == lines[HashPid(if op.pid == p then q else p)]
  {
    BucketCollisions(p, q);
    NotCongruent(p, q);
  }

  // ----- Soundness -----

  /** op makes a store e unreadable: a clear, an invalidation of its pid, a later store to its line,
      or a read of it after its time to live. */
  predicate Kills(op: Op, e: Op)
    requires e.Store?
  {
    match op
    case Store(q, _, _) => HashPid(q) == HashPid(e.pid)
    case Get(q, time, ttl) => q == e.pid && Expired(e.time, time, ttl)
    case Invalidate(q) => q == e.pid
    case Clear => true
  }

  /** The store e is in the history with nothing after it that kills it. */
  ghost predicate Kept(h: seq<Op>, e: Op)
    requires e.Store?
  {
    exists i :: 0 <= i < |h| && h[i] == e && forall j :: i < j < |h| ==> !Kills(h[j], e)
  }

  lemma KeptLater(h: seq<Op>, op: Op, e: Op)
    requires e.Store?
    ensures Kept(h + [op], e) <==> op == e || (Kept(h, e) && !Kills(op, e))
  {
    var h' := h + [op];
    if op == e {
      assert h'[|h|] == e;
    }
    if Kept(h, e) && !Kills(op, e) {
      var i :| 0 <= i < |h| && h[i] == e && forall j :: i < j < |h| ==> !Kills(h[j], e);
      assert h'[i] == e;
    }
    if i :| 0 <= i < |h'| && h'[i] == e && forall j :: i < j < |h'| ==> !Kills(h'[j], e) {
      if i < |h| {
        assert h[i] == e && !Kills(h'[|h|], e);
        assert forall j :: i < j < |h| ==> h[j] == h'[j];
      }
    }
  }

  ghost predicate Holds(lines: seq<Line>, e: Op)
    requires |lines| == BUCKETS && e.Store?
  {
    lines[HashPid(e.pid)] == Line(true, e.pid, e.usage, e.time)
  }

  /** After any history, the lines hold exactly the stores that history keeps. */
  lemma {:induction false} LinesHoldWhatIsKept(h: seq<Op>, e: Op)
    requires e.Store?
    ensures Kept(h, e) <==> Holds(Run(h), e)
  {
    if h != [] {
      var front, op := h[..|h| - 1], h[|h| - 1];
      LinesHoldWhatIsKept(front, e);
      KeptLater(front, op, e);
      assert h == front + [op];
    }
  }

  /** Far from the end of the 64-bit range, a store is unexpired exactly from its own time on, for
      one time to live: a clock that jumped back makes it a miss. */
  lemma UnsignedAge(stamp: nat, time: nat, ttl: nat)
    requires stamp < TWO64 / 2 && time < TWO64 / 2 && ttl < TWO32
    ensures !Expired(stamp, time, ttl) <==> stamp <= time <= stamp + ttl
  {
    if time < stamp {
      assert U64(time - stamp) == time - stamp + TWO64;
    }
  }

  /**
    Cache soundness: after any history of stores, reads, invalidations and clears, with any clock
    readings, a read hits with usage u exactly when some store of u for that pid has had no clear,
    no invalidation, no store to the same line and no expired read of it since, and is at most one
    time to live old. A read before the store's own time is a miss.
   */
  lemma CacheSoundness(h: seq<Op>, pid: int, time: nat, ttl: nat, u: Usage)
    requires time < TWO64 / 2 && ttl < TWO32
    requires forall i :: 0 <= i < |h| && h[i].Store? ==> h[i].time < TWO64 / 2
    ensures Answered(Run(h), pid, time, ttl) == Hit(u) <==>
      exists t: nat :: Kept(h, Store(pid, u, t)) && t <= time <= t + ttl
  {
    var l := Run(h)[HashPid(pid)];
    if Answered(Run(h), pid, time, ttl) == Hit(u) {
      LinesHoldWhatIsKept(h, Store(pid, u, l.stamp));
      KeptTime(h, Store(pid, u, l.stamp));
      UnsignedAge(l.stamp, time, ttl);
    }
    if t: nat :| Kept(h, Store(pid, u, t)) && t <= time <= t + ttl {
      LinesHoldWhatIsKept(h, Store(pid, u, t));
      KeptTime(h, Store(pid, u, t));
      UnsignedAge(t, time, ttl);
    }
  }

  lemma KeptTime(h: seq<Op>, e: Op)
    requires e.Store? && Kept(h, e)
    requires forall i :: 0 <= i < |h| && h[i].Store? ==> h[i].time < TWO64 / 2
    ensures e.time < TWO64 / 2
  {
  }

  // ----- The cache in memory -----

  class ResourceCache {
    const entries: array<Line>
    var ttl: nat

    ghost predicate Valid() { entries.Length == BUCKETS }

    constructor ()
      ensures Valid() && fresh(entries) && entries[..] == Run([]) && ttl == 100
    {
      entries := new Line[BUCKETS](_ => Line(false, 0, NONE, 0));
      ttl := 100;
    }

    /** perf_optimizer_get_cached_resources. */
    method GetCached(pid: int, time: nat) returns (answer: Answer)
      requires Valid()
      modifies entries
      ensures answer == Answered(old(entries[..]), pid, time, ttl)
      ensures entries[..] == Step(old(entries[..]), Get(pid, time, ttl))
    {
      var b := HashPid(pid);
      if !entries[b].valid || entries[b].pid != pid {
        return Miss;
      }
      if U64(time - entries[b].stamp) > ttl {
        entries[b] := entries[b].(valid := false);
        return Miss;
      }
      return Hit(entries[b].usage);
    }

    /** perf_optimizer_update_cached_resources. */
    method UpdateCached(pid: int, usage: Usage, time: nat)
      requires Valid()
      modifies entries
      ensures entries[..] == Step(old(entries[..]), Store(pid, usage, time))
    {
      entries[HashPid(pid)] := Line(true, pid, usage, time);
    }

    /** perf_optimizer_invalidate_cache. */
    method InvalidateCached(pid: int)
      requires Valid()
      modifies entries
      ensures entries[..] == Step(old(entries[..]), Invalidate(pid))
    {
      var b := HashPid(pid);
      if entries[b].pid == pid {
        entries[b] := entries[b].(valid := false);
      }
    }

    /** perf_optimizer_clear_cache. */
    method ClearCache()
      requires Valid()
      modifies entries
      ensures entries[..] == Step(old(entries[..]), Clear)
    {
      for i := 0 to BUCKETS
        invariant forall j :: 0 <= j < i ==> entries[j] == old(entries[j]).(valid := false)
        invariant forall j :: i <= j < BUCKETS ==> entries[j] == old(entries[j])
      {
        entries[i] := entries[i].(valid := false);
      }
    }

    /** perf_optimizer_set_cache_ttl. */
    method SetTtl(ms: nat)
      modifies this`ttl
      ensures ttl == Max(10, Min(ms, 10000))
    {
      ttl := if ms < 10 then 10 else if ms > 10000 then 10000 else ms;
    }
  }
}
