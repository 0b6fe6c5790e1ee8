/** The shared rate limiter and the copy workers of the memory noise
    (src/realsense_memory_noise.cpp).

    A call of the limiter holds its lock from the first clock reading to the
    grant, so the calls of all workers form one sequence; `grants` records the
    times at which they were let through. */
module MemoryNoise {

  /** A clock that never goes back, the sleep asked of it, and the stop request,
      which is never taken back. */
  class Clock {
    var now: int
    var stopped: bool
    ghost var slept: nat

    constructor (now: int)
      ensures this.now == now && !stopped && slept == 0
    {
      this.now, stopped, slept := now, false, 0;
    }

    method Read() returns (t: int)
      modifies this`now
      ensures t == now >= old(now)
    {
      var later: int := *;
      now := if later > now then later else now;
      t := now;
    }

    method Sleep(duration: nat)
      modifies this`now, this`slept
      ensures now >= old(now) + duration && slept == old(slept) + duration
    {
      var later: int := *;
      now := if later > now + duration then later else now + duration;
      slept := slept + duration;
    }

    method StopRequested() returns (stop: bool)
      modifies this`stopped
      ensures stop == stopped && (old(stopped) ==> stopped)
    {
      var requested: bool := *;
      stopped := stopped || requested;
      stop := stopped;
    }
  }

  /** Neighbouring grants are at least one interval apart. */
  predicate Spaced(grants: seq<int>, interval: int) {
    forall i :: 0 < i < |grants| ==> grants[i] >= grants[i - 1] + interval
  }

  lemma SpacedAppend(grants: seq<int>, interval: int, t: int)
    requires Spaced(grants, interval) && (|grants| > 0 ==> grants[|grants| - 1] + interval <= t)
    ensures Spaced(grants + [t], interval)
  {
  }

  /** The target rate in bytes per nanosecond. */
  function BytesPerNs(targetMibPerSecond: real): (rate: real)
    requires targetMibPerSecond > 0.0
    ensures rate > 0.0
  {
    targetMibPerSecond * 1048576.0 / 1000000000.0
  }

  /** The time of one quantum at the target rate, in whole nanoseconds and at least one. */
  function IntervalOf(quantumBytes: nat, targetMibPerSecond: real): (interval: int)
    requires targetMibPerSecond > 0.0
    ensures interval >= 1
    ensures var exact := quantumBytes as real / BytesPerNs(targetMibPerSecond);
            exact - 1.0 < interval as real && (interval as real <= exact || interval == 1)
  {
    var exact := quantumBytes as real * 1000000000.0 / (targetMibPerSecond * 1048576.0);
    SameQuotient(quantumBytes as real, targetMibPerSecond * 1048576.0);
    if exact.Floor < 1 then 1 else exact.Floor
  }

  lemma SameQuotient(a: real, b: real)
    requires b > 0.0
    ensures a * 1000000000.0 / b == a / (b / 1000000000.0)
  {
    var x, y := a * 1000000000.0 / b, a / (b / 1000000000.0);
    assert x * b == a * 1000000000.0;
    assert y * (b / 1000000000.0) == a;
    assert y * b == a * 1000000000.0;
    assert (x - y) * b == 0.0;
  }

  const POLL: nat := 10_000_000

  class RateLimiter {
    const enabled: bool
    const interval: int
    var initialized: bool
    var nextSlot: int
    ghost var grants: seq<int>

    ghost predicate Valid()
      reads this
    {
      && (enabled ==> interval >= 1)
      && Spaced(grants, interval)
      && (|grants| > 0 ==> initialized && grants[|grants| - 1] + interval <= nextSlot)
    }

    constructor (quantumBytes: nat, targetMibPerSecond: real)
      ensures Valid() && grants == [] && enabled == (targetMibPerSecond > 0.0)
      ensures enabled ==> interval == IntervalOf(quantumBytes, targetMibPerSecond)
    {
      enabled := targetMibPerSecond > 0.0;
      interval := if targetMibPerSecond > 0.0 then IntervalOf(quantumBytes, targetMibPerSecond) else 0;
      initialized, nextSlot, grants := false, 0, [];
    }

    /** Wait for the next slot, asking to sleep no longer than until it comes; only
        a stop request ends the wait without a grant. */
    method WaitForSlot(clock: Clock) returns (granted: bool)
      requires Valid()
      modifies this, clock
      ensures Valid() && clock.now >= old(clock.now)
      ensures grants == if granted && enabled then old(grants) + [clock.now] else old(grants)
      ensures !granted ==> clock.stopped
      ensures granted && enabled ==> nextSlot == clock.now + interval
      ensures clock.slept == old(clock.slept)
              || (enabled && old(initialized) && clock.slept <= old(clock.slept) + old(nextSlot) - old(clock.now))
    {
      var stopRequested := clock.StopRequested();
      if !enabled {
        return !stopRequested;
      }
      var now := clock.Read();
      if !initialized || nextSlot < now {
        nextSlot := now;
        initialized := true;
      }
      var slot := nextSlot;
      while !stopRequested
        invariant Valid() && grants == old(grants)
        invariant clock.now >= now >= old(clock.now) && slot == nextSlot >= now && initialized
        invariant slot == now || (old(initialized) && slot == old(nextSlot))
        invariant old(clock.slept) <= clock.slept <= old(clock.slept) + (slot - now)
        invariant clock.slept <= old(clock.slept) + (clock.now - now)
        invariant stopRequested ==> clock.stopped
        decreases !stopRequested, slot - clock.now
      {
        var current := clock.Read();
        if current >= slot {
          SpacedAppend(grants, interval, current);
          grants := grants + [current];
          nextSlot := current + interval;
          return true;
        }
        clock.Sleep(if slot - current <= POLL then slot - current else POLL);
        stopRequested := clock.StopRequested();
      }
      return false;
    }
  }

  // ----- what spacing means

  /** Any k + 1 successive grants span at least k intervals. */
  lemma {:induction false} GrantsSpan(grants: seq<int>, interval: int, i: nat, k: nat)
    requires Spaced(grants, interval) && i + k < |grants|
    ensures grants[i + k] - grants[i] >= k * interval
  {
    if k > 0 {
      GrantsSpan(grants, interval, i, k - 1);
      assert grants[i + k] >= grants[i + k - 1] + interval;
    }
  }

  /** Number of grants in the closed window. */
  function GrantsIn(grants: seq<int>, from: int, to: int): nat {
    if |grants| == 0 then 0
    else
      var n := |grants| - 1;
      GrantsIn(grants[..n], from, to) + (if from <= grants[n] <= to then 1 else 0)
  }

  lemma SpacedPrefix(grants: seq<int>, interval: int)
    requires Spaced(grants, interval) && |grants| > 0
    ensures Spaced(grants[..|grants| - 1], interval)
  {
  }

  /** Grants in a window that ends no later than the last one before `limit`. */
  lemma {:induction false} GrantsFit(grants: seq<int>, interval: int, from: int, to: int)
    requires Spaced(grants, interval) && interval >= 1 && from <= to
    ensures (GrantsIn(grants, from, to) - 1) * interval <= to - from
    ensures |grants| > 0 && grants[|grants| - 1] <= to ==>
              || GrantsIn(grants, from, to) == 0
              || (GrantsIn(grants, from, to) - 1) * interval <= grants[|grants| - 1] - from
  {
    if |grants| > 0 {
      var n := |grants| - 1;
      var pre, t := grants[..n], grants[n];
      SpacedPrefix(grants, interval);
      GrantsFit(pre, interval, from, to);
      if n > 0 {
        assert t >= grants[n - 1] + interval;
      }
      OneMoreGrant(GrantsIn(pre, from, to), interval);
    }
  }

  lemma OneMoreGrant(c: int, interval: int)
    ensures c * interval == (c - 1) * interval + interval
  {
  }

  /** A closed window of length W sees at most floor(W / interval) + 1 grants. */
  lemma WindowBound(grants: seq<int>, interval: int, from: int, length: nat)
    requires Spaced(grants, interval) && interval >= 1
    ensures GrantsIn(grants, from, from + length) <= length / interval + 1
  {
    GrantsFit(grants, interval, from, from + length);
    QuotientBound(GrantsIn(grants, from, from + length) - 1, interval, length);
  }

  lemma QuotientBound(a: int, c: int, total: nat)
    requires a * c <= total && c >= 1
    ensures a <= total / c
  {
    var q := total / c;
    assert total < (q + 1) * c;
    if a > q {
      Multiples(a, q + 1, c);
    }
  }

  lemma Multiples(a: int, b: int, c: int)
    requires a >= b && c >= 0
    ensures a * c >= b * c
  {
  }

  lemma ProductGrows(k: real, a: real, b: real)
    requires k >= 0.0 && a <= b
    ensures k * a <= k * b
  {
  }

  lemma ByteProduct(k: real, exact: real, rate: real, interval: real, length: real)
    requires k >= 0.0 && rate > 0.0 && exact - 1.0 < interval && k * interval <= length
    ensures k * (exact * rate) <= rate * (length + k)
  {
    ProductGrows(k, exact - 1.0, interval);
    assert k * (exact - 1.0) == k * exact - k;
    ProductGrows(rate, k * exact, length + k);
    assert rate * (k * exact) == k * (exact * rate);
  }

  lemma ByteQuotient(k: int, quantum: real, rate: real, interval: int, length: int)
    requires k >= 0 && rate > 0.0 && quantum / rate - 1.0 < interval as real && k * interval <= length
    ensures k as real * quantum <= rate * (length + k) as real
  {
    var exact := quantum / rate;
    assert exact * rate == quantum;
    assert k as real * interval as real == (k * interval) as real;
    ByteProduct(k as real, exact, rate, interval as real, length as real);
  }

  /** What is let through in a window, but for one quantum, is at most the target
      rate over the window and one nanosecond for each further grant. */
  lemma WindowBytes(grants: seq<int>, quantumBytes: nat, targetMibPerSecond: real, from: int, length: nat)
    requires targetMibPerSecond > 0.0 && Spaced(grants, IntervalOf(quantumBytes, targetMibPerSecond))
    requires GrantsIn(grants, from, from + length) > 0
    ensures var k := GrantsIn(grants, from, from + length) - 1;
            k as real * quantumBytes as real <= BytesPerNs(targetMibPerSecond) * (length + k) as real
  {
    var interval, rate := IntervalOf(quantumBytes, targetMibPerSecond), BytesPerNs(targetMibPerSecond);
    var k := GrantsIn(grants, from, from + length) - 1;
    GrantsFit(grants, interval, from, from + length);
    ByteQuotient(k, quantumBytes as real, rate, interval, length);
  }

  // ----- the copy worker

  /** What the worker reads of the measurement flag at one granted slot. */
  datatype Flags = Flags(atPass: bool, atChunk: bool)

  /** The options the program accepts. */
  predicate AcceptedSizes(size: nat, chunk: nat) {
    0 < chunk <= size && size % chunk == 0
  }

  datatype Work = Work(total: nat, swaps: nat, offset: nat, chunks: nat, passes: nat)

  function Measured(slots: seq<Flags>): nat {
    if |slots| == 0 then 0 else Measured(slots[..|slots| - 1]) + (if slots[|slots| - 1].atChunk then 1 else 0)
  }

  lemma MeasuredNext(slots: seq<Flags>, i: nat)
    requires i < |slots|
    ensures Measured(slots[..i + 1]) == Measured(slots[..i]) + (if slots[i].atChunk then 1 else 0)
    ensures forall p: nat :: p > 0 ==>
              MeasuredPasses(slots[..i + 1], p) ==
              MeasuredPasses(slots[..i], p) + (if (i + 1) % p == 0 && slots[i].atPass then 1 else 0)
  {
    assert slots[..i + 1][..i] == slots[..i];
  }

  /** Passes that ended while the measurement was on; a pass takes `perPass` slots. */
  function MeasuredPasses(slots: seq<Flags>, perPass: nat): nat
    requires perPass > 0
  {
    if |slots| == 0 then 0
    else
      MeasuredPasses(slots[..|slots| - 1], perPass)
      + (if |slots| % perPass == 0 && slots[|slots| - 1].atPass then 1 else 0)
  }

  method CopyChunk(source: array<bv8>, destination: array<bv8>, offset: nat, length: nat)
    requires source != destination && offset + length <= source.Length == destination.Length
    modifies destination
    ensures destination[..] ==
            old(destination[..offset]) + source[offset..offset + length] + old(destination[offset + length..])
    ensures source[..] == old(source[..])
  {
    forall i | offset <= i < offset + length {
      destination[i] := source[i];
    }
  }

  lemma ChunkFits(size: nat, chunk: nat, k: nat)
    requires AcceptedSizes(size, chunk) && k * chunk < size
    ensures (k + 1) * chunk <= size
    ensures (k + 1) * chunk == size <==> k + 1 == size / chunk
    ensures k < size / chunk
  {
    var n := size / chunk;
    assert size == n * chunk;
    if k >= n {
      Multiples(k, n, chunk);
    }
    Multiples(n, k + 1, chunk);
    if k + 1 < n {
      Multiples(n, k + 2, chunk);
      assert (k + 2) * chunk == (k + 1) * chunk + chunk;
    }
  }

  /** Both buffers after some copying: the source holds the first buffer's initial
      contents, the destination holds them up to `offset` and beyond it what it
      held when the pass began. */
  predicate Copied(source: seq<bv8>, destination: seq<bv8>, first: seq<bv8>, second: seq<bv8>, w: Work) {
    && |first| == |second| && w.offset <= |first|
    && source == first
    && destination == first[..w.offset] + (if w.swaps == 0 then second else first)[w.offset..]
  }

  /** Chunks, buffer swaps and position belong together. */
  predicate Conserved(w: Work, size: nat, chunk: nat)
    requires chunk > 0
  {
    w.offset < size && w.offset % chunk == 0 && w.total == w.swaps * (size / chunk) + w.offset / chunk
  }

  lemma CopyAdvances(
      source: seq<bv8>, before: seq<bv8>, after: seq<bv8>, first: seq<bv8>, second: seq<bv8>, w: Work, chunk: nat)
    requires Copied(source, before, first, second, w) && w.offset + chunk <= |first|
    requires after == before[..w.offset] + source[w.offset..w.offset + chunk] + before[w.offset + chunk..]
    ensures Copied(source, after, first, second, w.(offset := w.offset + chunk))
  {
    var rest := (if w.swaps == 0 then second else first);
    var next := w.offset + chunk;
    assert before[..w.offset] == first[..w.offset];
    assert before[next..] == rest[next..];
    assert first[..w.offset] + first[w.offset..next] == first[..next];
  }

  lemma PassEnds(source: seq<bv8>, destination: seq<bv8>, first: seq<bv8>, second: seq<bv8>, w: Work)
    requires Copied(source, destination, first, second, w) && w.offset == |first|
    ensures Copied(destination, source, first, second, w.(offset := 0, swaps := w.swaps + 1))
  {
  }

  /** The counters after one more chunk. */
  function NextWork(w: Work, size: nat, chunk: nat, f: Flags): Work {
    var full := w.offset + chunk == size;
    Work(w.total + 1,
         if full then w.swaps + 1 else w.swaps,
         if full then 0 else w.offset + chunk,
         if f.atChunk then w.chunks + 1 else w.chunks,
         if full && f.atPass then w.passes + 1 else w.passes)
  }

  lemma ConservedNext(w: Work, size: nat, chunk: nat, f: Flags)
    requires AcceptedSizes(size, chunk) && Conserved(w, size, chunk)
    ensures w.offset + chunk <= size && Conserved(NextWork(w, size, chunk, f), size, chunk)
    ensures size / chunk > 0 && (w.offset + chunk == size <==> (w.total + 1) % (size / chunk) == 0)
  {
    var k := w.offset / chunk;
    assert w.offset == k * chunk;
    ChunkFits(size, chunk, k);
    assert w.offset + chunk == (k + 1) * chunk;
    NextQuotient(k + 1, chunk);
    Remainder(w.swaps, size / chunk, k + 1);
    if w.offset + chunk == size {
      assert (w.swaps + 1) * (size / chunk) == w.swaps * (size / chunk) + size / chunk;
      NextQuotient(0, chunk);
    }
  }

  lemma CopiedNext(
      source: seq<bv8>, before: seq<bv8>, after: seq<bv8>, first: seq<bv8>, second: seq<bv8>,
      w: Work, chunk: nat, f: Flags)
    requires Copied(source, before, first, second, w) && w.offset + chunk <= |first|
    requires after == before[..w.offset] + source[w.offset..w.offset + chunk] + before[w.offset + chunk..]
    ensures var next := NextWork(w, |first|, chunk, f);
            if w.offset + chunk == |first| then Copied(after, source, first, second, next)
            else Copied(source, after, first, second, next)
  {
    CopyAdvances(source, before, after, first, second, w, chunk);
    var moved := w.(offset := w.offset + chunk);
    if w.offset + chunk == |first| {
      PassEnds(source, after, first, second, moved);
    }
  }

  lemma Remainder(s: nat, p: nat, r: nat)
    requires 1 <= r <= p
    ensures (s * p + r) % p == 0 <==> r == p
  {
    var q := (s * p + r) / p;
    assert s * p + r == q * p + (s * p + r) % p;
    if r < p {
      if q <= s - 1 {
        Multiples(s - 1, q, p);
      } else if q >= s + 1 {
        Multiples(q, s + 1, p);
      }
    } else {
      assert s * p + r == (s + 1) * p;
      NextQuotient(s + 1, p);
    }
  }

  lemma NextQuotient(k: nat, chunk: nat)
    requires chunk > 0
    ensures (k * chunk) / chunk == k && (k * chunk) % chunk == 0
  {
    var q, r := (k * chunk) / chunk, (k * chunk) % chunk;
    assert k * chunk == q * chunk + r;
    if q > k {
      Multiples(q, k + 1, chunk);
    } else if q < k {
      Multiples(k, q + 1, chunk);
    }
  }

  /** Copy the chunk of one slot. */
  method CopySlot(
      source: array<bv8>, destination: array<bv8>, w: Work, chunk: nat, f: Flags,
      ghost first: seq<bv8>, ghost second: seq<bv8>)
    requires source != destination && source.Length == destination.Length == |first|
    requires w.offset + chunk <= |first| && Copied(source[..], destination[..], first, second, w)
    modifies destination
    ensures var next := NextWork(w, |first|, chunk, f);
            if w.offset + chunk == |first| then Copied(destination[..], source[..], first, second, next)
            else Copied(source[..], destination[..], first, second, next)
  {
    ghost var before := destination[..];
    CopyChunk(source, destination, w.offset, chunk);
    CopiedNext(source[..], before, destination[..], first, second, w, chunk, f);
  }

  function Checksum(s: seq<bv8>): nat
    requires |s| > 0
  {
    s[0] as nat + s[|s| / 2] as nat + s[|s| - 1] as nat
  }

  /** The other workers take any number of slots. */
  method OtherWorkers(limiter: RateLimiter, clock: Clock)
    requires limiter.Valid()
    modifies limiter, clock
    ensures limiter.Valid() && |limiter.grants| >= |old(limiter.grants)|
  {
    var calls: int := *;
    for i := 0 to if calls > 0 then calls else 0
      invariant limiter.Valid() && |limiter.grants| >= |old(limiter.grants)|
    {
      var granted := limiter.WaitForSlot(clock);
    }
  }

  /** Wait for a slot in competition with the other workers. */
  method TakeSlot(limiter: RateLimiter, clock: Clock) returns (granted: bool)
    requires limiter.Valid()
    modifies limiter, clock
    ensures limiter.Valid()
    ensures |limiter.grants| >= |old(limiter.grants)| + (if granted && limiter.enabled then 1 else 0)
    ensures !granted ==> clock.stopped
  {
    OtherWorkers(limiter, clock);
    granted := limiter.WaitForSlot(clock);
  }

  /** The counters after the first `i` slots. */
  predicate WorkedOff(w: Work, size: nat, chunk: nat, flags: seq<Flags>, i: nat) {
    && 0 < chunk <= size && i <= |flags| && w.total == i && Conserved(w, size, chunk)
    && size / chunk > 0
    && w.chunks == Measured(flags[..i]) && w.passes == MeasuredPasses(flags[..i], size / chunk)
  }

  /** The counters after the given slots. */
  function WorkAfter(flags: seq<Flags>, size: nat, chunk: nat): Work {
    if |flags| == 0 then Work(0, 0, 0, 0, 0)
    else NextWork(WorkAfter(flags[..|flags| - 1], size, chunk), size, chunk, flags[|flags| - 1])
  }

  lemma WorkAfterNext(flags: seq<Flags>, i: nat, size: nat, chunk: nat)
    requires i < |flags|
    ensures WorkAfter(flags[..i + 1], size, chunk) ==
            NextWork(WorkAfter(flags[..i], size, chunk), size, chunk, flags[i])
  {
    assert flags[..i + 1][..i] == flags[..i];
  }

  lemma {:induction false} WorkAfterMeaning(flags: seq<Flags>, i: nat, size: nat, chunk: nat)
    requires AcceptedSizes(size, chunk) && i <= |flags|
    ensures WorkedOff(WorkAfter(flags[..i], size, chunk), size, chunk, flags, i)
    ensures WorkAfter(flags[..i], size, chunk).offset + chunk <= size
  {
    if i == 0 {
      NextQuotient(0, chunk);
      ChunkFits(size, chunk, 0);
    } else {
      WorkAfterMeaning(flags, i - 1, size, chunk);
      var w := WorkAfter(flags[..i - 1], size, chunk);
      WorkAfterNext(flags, i - 1, size, chunk);
      ConservedNext(w, size, chunk, flags[i - 1]);
      ConservedNext(NextWork(w, size, chunk, flags[i - 1]), size, chunk, flags[i - 1]);
      MeasuredNext(flags, i - 1);
    }
  }

  /** One slot: wait for it and copy, or find the wait ended. */
  method WorkSlot(
      source: array<bv8>, destination: array<bv8>, w: Work, chunk: nat, limiter: RateLimiter, clock: Clock, f: Flags,
      ghost first: seq<bv8>, ghost second: seq<bv8>)
    returns (granted: bool)
    requires source != destination && source.Length == destination.Length == |first|
    requires w.offset + chunk <= |first| && Copied(source[..], destination[..], first, second, w) && limiter.Valid()
    modifies destination, limiter, clock
    ensures limiter.Valid()
    ensures |limiter.grants| >= |old(limiter.grants)| + (if granted && limiter.enabled then 1 else 0)
    ensures var next := NextWork(w, |first|, chunk, f);
            if !granted then clock.stopped && Copied(source[..], destination[..], first, second, w)
            else if w.offset + chunk == |first| then Copied(destination[..], source[..], first, second, next)
            else Copied(source[..], destination[..], first, second, next)
  {
    granted := TakeSlot(limiter, clock);
    if granted {
      CopySlot(source, destination, w, chunk, f, first, second);
    }
  }

  lemma WorkFits(flags: seq<Flags>, i: nat, size: nat, chunk: nat)
    requires AcceptedSizes(size, chunk) && i <= |flags|
    ensures WorkAfter(flags[..i], size, chunk).offset + chunk <= size
    ensures WorkAfter(flags[..i], size, chunk).total == i
  {
    WorkAfterMeaning(flags, i, size, chunk);
  }

  /** Where the contents are after `w`. */
  predicate Holds(first: array<bv8>, second: array<bv8>, w: Work, a: seq<bv8>, b: seq<bv8>)
    reads first, second
  {
    if w.swaps % 2 == 0 then Copied(first[..], second[..], a, b, w) else Copied(second[..], first[..], a, b, w)
  }

  method WorkOneSlot(
      first: array<bv8>, second: array<bv8>, w: Work, chunk: nat, limiter: RateLimiter, clock: Clock, f: Flags,
      ghost a: seq<bv8>, ghost b: seq<bv8>)
    returns (granted: bool)
    requires first != second && first.Length == second.Length == |a|
    requires w.offset + chunk <= |a| && Holds(first, second, w, a, b) && limiter.Valid()
    modifies first, second, limiter, clock
    ensures limiter.Valid()
    ensures |limiter.grants| >= |old(limiter.grants)| + (if granted && limiter.enabled then 1 else 0)
    ensures Holds(first, second, if granted then NextWork(w, |a|, chunk, f) else w, a, b)
    ensures !granted ==> clock.stopped
  {
    if w.swaps % 2 == 0 {
      granted := WorkSlot(first, second, w, chunk, limiter, clock, f, a, b);
    } else {
      granted := WorkSlot(second, first, w, chunk, limiter, clock, f, a, b);
    }
  }

  /** One worker, until a wait ends without a slot or `flags`, the readings of the
      measurement flag, run out: it copies once per slot that the shared limiter
      granted it.  The roles of the buffers alternate with every swap. */
  method CopyWorker(
      first: array<bv8>, second: array<bv8>, chunk: nat, limiter: RateLimiter, clock: Clock, flags: seq<Flags>)
    returns (w: Work, checksum: nat)
    requires first != second && first.Length == second.Length && AcceptedSizes(first.Length, chunk)
    requires limiter.Valid()
    modifies first, second, limiter, clock
    ensures w.total <= |flags| && WorkedOff(w, first.Length, chunk, flags, w.total)
    ensures w.total < |flags| ==> clock.stopped
    ensures limiter.Valid() && (limiter.enabled ==> |limiter.grants| >= |old(limiter.grants)| + w.total)
    ensures Holds(first, second, w, old(first[..]), old(second[..]))
    ensures checksum == Checksum(old(first[..]))
  {
    w := CopyUntilStopped(first, second, chunk, limiter, clock, flags);
    WorkAfterMeaning(flags, w.total, first.Length, chunk);
    checksum := ReadChecksum(if w.swaps % 2 == 0 then first else second);
  }

  method ReadChecksum(source: array<bv8>) returns (checksum: nat)
    requires source.Length > 0
    ensures checksum == Checksum(source[..])
  {
    checksum := source[0] as nat + source[source.Length / 2] as nat + source[source.Length - 1] as nat;
  }

  method CopyUntilStopped(
      first: array<bv8>, second: array<bv8>, chunk: nat, limiter: RateLimiter, clock: Clock, flags: seq<Flags>)
    returns (w: Work)
    requires first != second && first.Length == second.Length && AcceptedSizes(first.Length, chunk)
    requires limiter.Valid()
    modifies first, second, limiter, clock
    ensures w.total <= |flags| && w == WorkAfter(flags[..w.total], first.Length, chunk)
    ensures w.total < |flags| ==> clock.stopped
    ensures limiter.Valid() && (limiter.enabled ==> |limiter.grants| >= |old(limiter.grants)| + w.total)
    ensures Holds(first, second, w, old(first[..]), old(second[..]))
  {
    ghost var a, b, before := first[..], second[..], |limiter.grants|;
    var size, i, granted := first.Length, 0, true;
    w := Work(0, 0, 0, 0, 0);
    while i < |flags| && granted
      invariant i <= |flags| && w == WorkAfter(flags[..i], size, chunk)
      invariant limiter.Valid() && (limiter.enabled ==> |limiter.grants| >= before + i)
      invariant Holds(first, second, w, a, b)
      invariant !granted ==> clock.stopped
      decreases |flags| - i, granted
    {
      WorkFits(flags, i, size, chunk);
      granted := WorkOneSlot(first, second, w, chunk, limiter, clock, flags[i], a, b);
      if granted {
        WorkAfterNext(flags, i, size, chunk);
        w := NextWork(w, size, chunk, flags[i]);
        i := i + 1;
      }
    }
    WorkFits(flags, i, size, chunk);
  }
}
