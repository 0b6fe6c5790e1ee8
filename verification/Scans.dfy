/** Scans with a moving position: the enclosing callback of a buffer
    (tools/realsense_steady_bench/analyze_full_receive_path.py), the nearest
    timestamps of two interrupt lines and the densest window
    (tools/realsense_hardware_sync_bench/compare_usb_irq_pressure.py).
    Times are whole nanoseconds. */
module Scans {
  import opened Wrappers
  import opened Sequences
  import opened Numbers
  import opened Overlap

  // ----- the enclosing callback

  datatype Callback = Callback(start: int, end: int, release: int, irq: Option<int>)

  predicate StartSorted(callbacks: seq<Callback>) {
    forall i, j :: 0 <= i < j < |callbacks| ==> callbacks[i].start <= callbacks[j].start
  }

  predicate Encloses(c: Callback, time: int) {
    c.start <= time <= c.end
  }

  /** All enclosing callbacks, latest first. */
  function Enclosing(callbacks: seq<Callback>, time: int): seq<Callback> {
    if |callbacks| == 0 then []
    else
      var n := |callbacks| - 1;
      (if Encloses(callbacks[n], time) then [callbacks[n]] else []) + Enclosing(callbacks[..n], time)
  }

  function LongestCallback(callbacks: seq<Callback>): (m: int)
    ensures forall i :: 0 <= i < |callbacks| ==> callbacks[i].end - callbacks[i].start <= m
  {
    if |callbacks| == 0 then 0
    else
      var n := |callbacks| - 1;
      var d := callbacks[n].end - callbacks[n].start;
      if n == 0 then d else Max(LongestCallback(callbacks[..n]), d)
  }

  function Starts(callbacks: seq<Callback>): (starts: seq<int>)
    ensures |starts| == |callbacks| && forall i :: 0 <= i < |callbacks| ==> starts[i] == callbacks[i].start
  {
    seq(|callbacks|, i requires 0 <= i < |callbacks| => callbacks[i].start)
  }

  lemma {:induction false} NoneEnclose(callbacks: seq<Callback>, time: int)
    requires forall i :: 0 <= i < |callbacks| ==> !Encloses(callbacks[i], time)
    ensures Enclosing(callbacks, time) == []
  {
    if |callbacks| > 0 {
      NoneEnclose(callbacks[..|callbacks| - 1], time);
    }
  }

  /** Callbacks that start later cannot enclose the time. */
  lemma {:induction false} LaterDoNotEnclose(callbacks: seq<Callback>, time: int, k: nat)
    requires SplitsAt(Starts(callbacks), time, k)
    ensures Enclosing(callbacks, time) == Enclosing(callbacks[..k], time)
  {
    var n := |callbacks| - 1;
    if k <= n {
      assert time < Starts(callbacks)[n];
      assert Starts(callbacks[..n]) == Starts(callbacks)[..n];
      LaterDoNotEnclose(callbacks[..n], time, k);
      assert callbacks[..n][..k] == callbacks[..k];
    } else {
      assert callbacks[..k] == callbacks;
    }
  }

  function Remaining(callbacks: seq<Callback>, p: nat, time: int): seq<Callback>
    requires p <= |callbacks|
  {
    Enclosing(callbacks[..p], time)
  }

  lemma EnclosingNext(callbacks: seq<Callback>, p: nat, time: int, found: seq<Callback>)
    requires p < |callbacks|
    ensures found + Remaining(callbacks, p + 1, time) ==
            (if Encloses(callbacks[p], time) then found + [callbacks[p]] else found) + Remaining(callbacks, p, time)
  {
    assert callbacks[..p + 1][..p] == callbacks[..p];
  }

  /** A callback that starts longer ago than the longest one lasts ends the search. */
  lemma TooEarly(callbacks: seq<Callback>, position: nat, longest: int, time: int)
    requires StartSorted(callbacks) && position < |callbacks| && longest == LongestCallback(callbacks)
    requires callbacks[position].start < time - longest
    ensures Remaining(callbacks, position + 1, time) == []
  {
    var before := callbacks[..position + 1];
    forall i | 0 <= i < |before| ensures !Encloses(before[i], time) {
      assert callbacks[i].start <= callbacks[position].start;
      assert callbacks[i].end - callbacks[i].start <= longest;
    }
    NoneEnclose(before, time);
  }

  /** The backward search stops at the longest callback, and misses none. */
  method FindEnclosing(callbacks: seq<Callback>, starts: seq<int>, longest: int, time: int)
    returns (candidates: seq<Callback>)
    requires StartSorted(callbacks) && starts == Starts(callbacks) && longest == LongestCallback(callbacks)
    ensures candidates == Enclosing(callbacks, time)
  {
    var k := BisectRight(starts, time);
    LaterDoNotEnclose(callbacks, time, k);
    candidates := [];
    assert [] + Remaining(callbacks, k, time) == Enclosing(callbacks, time);
    var position := k as int - 1;
    while position >= 0 && callbacks[position].start >= time - longest
      invariant -1 <= position < k
      invariant candidates + Remaining(callbacks, position + 1, time) == Enclosing(callbacks, time)
    {
      assert starts[position] <= time;
      EnclosingNext(callbacks, position, time, candidates);
      if time <= callbacks[position].end {
        candidates := candidates + [callbacks[position]];
      }
      position := position - 1;
    }
    if position >= 0 {
      TooEarly(callbacks, position, longest, time);
    }
    assert candidates + [] == candidates;
  }

  lemma {:induction false} EnclosingMembers(callbacks: seq<Callback>, time: int)
    ensures forall c :: c in Enclosing(callbacks, time) <==> c in callbacks && Encloses(c, time)
  {
    if |callbacks| > 0 {
      var n := |callbacks| - 1;
      EnclosingMembers(callbacks[..n], time);
      assert callbacks == callbacks[..n] + [callbacks[n]];
    }
  }

  lemma LastDoesNotEnclose(callbacks: seq<Callback>, time: int)
    requires |callbacks| > 0 && !Encloses(callbacks[|callbacks| - 1], time)
    ensures Enclosing(callbacks, time) == Enclosing(callbacks[..|callbacks| - 1], time)
    ensures forall c :: c in callbacks && Encloses(c, time) <==> c in callbacks[..|callbacks| - 1] && Encloses(c, time)
  {
    var n := |callbacks| - 1;
    assert callbacks == callbacks[..n] + [callbacks[n]];
  }

  /** The candidate taken is an enclosing callback with the latest start, and one
      is taken exactly when some callback encloses the time. */
  lemma {:induction false} LatestIsFirst(callbacks: seq<Callback>, time: int)
    requires StartSorted(callbacks)
    ensures var found := Enclosing(callbacks, time);
            && (found == [] <==> forall c :: c in callbacks ==> !Encloses(c, time))
            && (found != [] ==> && found[0] in callbacks && Encloses(found[0], time)
                                && forall c :: c in callbacks && Encloses(c, time) ==> c.start <= found[0].start)
  {
    EnclosingMembers(callbacks, time);
    if |callbacks| > 0 {
      var n := |callbacks| - 1;
      if !Encloses(callbacks[n], time) {
        LatestIsFirst(callbacks[..n], time);
        LastDoesNotEnclose(callbacks, time);
      }
    }
  }

  datatype Buffer = Buffer(backend: int, activation: Option<int>, run: Option<int>, irq: Option<int>)

  function Annotated(b: Buffer, callbacks: seq<Callback>): Buffer {
    var found := Enclosing(callbacks, b.backend);
    if found == [] then b
    else b.(activation := Some(found[0].release), run := Some(found[0].start),
            irq := if found[0].irq.Some? then found[0].irq else b.irq)
  }

  /** A buffer takes the release, the start and the interrupt of an enclosing
      callback with the latest start, and is left alone where none encloses it. */
  lemma AnnotationMeaning(b: Buffer, callbacks: seq<Callback>)
    requires StartSorted(callbacks)
    ensures var a := Annotated(b, callbacks);
            && a.backend == b.backend
            && ((forall c :: c in callbacks ==> !Encloses(c, b.backend)) ==> a == b)
            && ((exists c :: c in callbacks && Encloses(c, b.backend)) ==>
                  exists c :: && c in callbacks && Encloses(c, b.backend)
                              && (forall d :: d in callbacks && Encloses(d, b.backend) ==> d.start <= c.start)
                              && a.activation == Some(c.release) && a.run == Some(c.start)
                              && a.irq == if c.irq.Some? then c.irq else b.irq)
  {
    LatestIsFirst(callbacks, b.backend);
  }

  /** The first candidate with the latest start, as `max` picks it. */
  method Latest(candidates: seq<Callback>) returns (k: nat)
    requires candidates != []
    ensures k < |candidates|
    ensures forall i :: 0 <= i < |candidates| ==> candidates[i].start <= candidates[k].start
    ensures forall i :: 0 <= i < k ==> candidates[i].start < candidates[k].start
  {
    k := 0;
    for i := 1 to |candidates|
      invariant k < i
      invariant forall j :: 0 <= j < i ==> candidates[j].start <= candidates[k].start
      invariant forall j :: 0 <= j < k ==> candidates[j].start < candidates[k].start
    {
      if candidates[i].start > candidates[k].start {
        k := i;
      }
    }
  }

  predicate Descending(s: seq<Callback>) {
    forall i, j :: 0 <= i < j < |s| ==> s[j].start <= s[i].start
  }

  lemma ConsDescending(c: Callback, s: seq<Callback>)
    requires Descending(s) && forall x :: x in s ==> x.start <= c.start
    ensures Descending([c] + s)
  {
    var all := [c] + s;
    forall i, j | 0 <= i < j < |all| ensures all[j].start <= all[i].start {
      assert all[j] == s[j - 1];
      if i == 0 {
        assert s[j - 1] in s;
      } else {
        assert all[i] == s[i - 1];
      }
    }
  }

  lemma {:induction false} EnclosingDescends(callbacks: seq<Callback>, time: int)
    requires StartSorted(callbacks)
    ensures Descending(Enclosing(callbacks, time))
  {
    if |callbacks| > 0 {
      var n := |callbacks| - 1;
      EnclosingDescends(callbacks[..n], time);
      EnclosingMembers(callbacks[..n], time);
      var earlier := Enclosing(callbacks[..n], time);
      if Encloses(callbacks[n], time) {
        ConsDescending(callbacks[n], earlier);
      } else {
        assert Enclosing(callbacks, time) == earlier;
      }
    }
  }

  lemma FirstIsLatest(s: seq<Callback>, k: nat)
    requires Descending(s) && k < |s| && forall i :: 0 <= i < k ==> s[i].start < s[k].start
    ensures k == 0
  {
    assert s[0].start >= s[k].start;
  }

  method AnnotateBuffers(buffers: array<Buffer>, callbacks: seq<Callback>)
    requires StartSorted(callbacks)
    modifies buffers
    ensures forall i :: 0 <= i < buffers.Length ==> buffers[i] == Annotated(old(buffers[i]), callbacks)
  {
    var starts, longest := Starts(callbacks), LongestCallback(callbacks);
    for i := 0 to buffers.Length
      invariant forall j :: 0 <= j < i ==> buffers[j] == Annotated(old(buffers[j]), callbacks)
      invariant forall j :: i <= j < buffers.Length ==> buffers[j] == old(buffers[j])
    {
      var candidates := FindEnclosing(callbacks, starts, longest, buffers[i].backend);
      if candidates != [] {
        EnclosingDescends(callbacks, buffers[i].backend);
        var k := Latest(candidates);
        var c := candidates[k];
        FirstIsLatest(candidates, k);
        buffers[i] := buffers[i].(activation := Some(c.release), run := Some(c.start));
        if c.irq.Some? {
          buffers[i] := buffers[i].(irq := c.irq);
        }
      }
    }
  }

  // ----- the nearest timestamp

  function Distance(a: int, b: int): nat { if a <= b then b - a else a - b }

  /** The smallest distance to any timestamp. */
  function Nearest(right: seq<int>, t: int): (d: nat)
    requires |right| > 0
    ensures forall i :: 0 <= i < |right| ==> d <= Distance(t, right[i])
    ensures exists i :: 0 <= i < |right| && d == Distance(t, right[i])
  {
    var n := |right| - 1;
    var last := Distance(t, right[n]);
    if n == 0 then last
    else
      var d := Nearest(right[..n], t);
      if d <= last then
        assert exists i :: 0 <= i < n && d == Distance(t, right[i]) by {
          var i :| 0 <= i < |right[..n]| && d == Distance(t, right[..n][i]);
          assert d == Distance(t, right[i]);
        }
        d
      else last
  }

  predicate Between(right: seq<int>, t: int, index: nat) {
    && index < |right|
    && (index > 0 ==> right[index] <= t)
    && (index + 1 < |right| ==> right[index + 1] > t)
  }

  method Advance(right: seq<int>, t: int, start: nat) returns (index: nat)
    requires start < |right| && (start > 0 ==> right[start] <= t)
    ensures Between(right, t, index)
  {
    index := start;
    while index + 1 < |right| && right[index + 1] <= t
      invariant index < |right| && (index > 0 ==> right[index] <= t)
    {
      index := index + 1;
    }
  }

  method Closer(right: seq<int>, t: int, index: nat) returns (d: nat)
    requires Sorted(right) && Between(right, t, index)
    ensures d == Nearest(right, t)
  {
    d := Distance(t, right[index]);
    if index + 1 < |right| && Distance(t, right[index + 1]) < d {
      d := Distance(t, right[index + 1]);
    }
    NearestIsNeighbour(right, t, index, d);
  }

  /** Distances in nanoseconds; the source divides them by 1000. */
  method NearestDeltas(left: seq<int>, right: seq<int>) returns (result: seq<nat>)
    requires Sorted(left) && Sorted(right)
    ensures |result| == if right == [] then 0 else |left|
    ensures forall i :: 0 <= i < |result| ==> right != [] && result[i] == Nearest(right, left[i])
  {
    result := [];
    if left == [] || right == [] {
      return;
    }
    var index: nat := 0;
    for i := 0 to |left|
      invariant |result| == i && index < |right|
      invariant index > 0 ==> i > 0 && right[index] <= left[i - 1]
      invariant forall j :: 0 <= j < i ==> result[j] == Nearest(right, left[j])
    {
      assert i > 0 ==> left[i - 1] <= left[i];
      index := Advance(right, left[i], index);
      var d := Closer(right, left[i], index);
      result := result + [d];
    }
  }

  /** On a sorted list the nearest timestamp is a neighbour of the position. */
  lemma NearestIsNeighbour(right: seq<int>, t: int, index: nat, d: nat)
    requires Sorted(right) && Between(right, t, index)
    requires d == Distance(t, right[index]) || (index + 1 < |right| && d == Distance(t, right[index + 1]))
    requires d <= Distance(t, right[index]) && (index + 1 < |right| ==> d <= Distance(t, right[index + 1]))
    ensures d == Nearest(right, t)
  {
    forall i | 0 <= i < |right| ensures d <= Distance(t, right[i]) {
      if i < index {
        assert right[i] <= right[index];
      } else if i > index + 1 {
        assert right[index + 1] <= right[i];
      }
    }
    var i :| 0 <= i < |right| && Nearest(right, t) == Distance(t, right[i]);
  }

  // ----- the densest window

  /** Number of timestamps in the window [from, to). */
  function CountIn(timestamps: seq<int>, from: int, to: int): nat {
    if |timestamps| == 0 then 0
    else
      var n := |timestamps| - 1;
      CountIn(timestamps[..n], from, to) + (if from <= timestamps[n] < to then 1 else 0)
  }

  /** Largest number of timestamps in a window that ends with one of them. */
  function Densest(timestamps: seq<int>, width: int): nat {
    if |timestamps| == 0 then 0
    else
      var n := |timestamps| - 1;
      Max(Densest(timestamps[..n], width), CountIn(timestamps, timestamps[n] - width + 1, timestamps[n] + 1))
  }

  lemma {:induction false} CountSplit(timestamps: seq<int>, from: int, to: int, low: nat)
    requires low <= |timestamps|
    requires forall i :: 0 <= i < low ==> timestamps[i] < from
    requires forall i :: low <= i < |timestamps| ==> from <= timestamps[i] < to
    ensures CountIn(timestamps, from, to) == |timestamps| - low
  {
    var n := |timestamps| - 1;
    if n >= 0 {
      CountSplit(timestamps[..n], from, to, if low <= n then low else n);
    }
  }

  method SlidingWindowMax(timestamps: seq<int>, width: int) returns (maximum: nat)
    requires Sorted(timestamps)
    ensures maximum == Densest(timestamps, width)
  {
    var active: seq<int> := [];
    ghost var low := 0;
    maximum := 0;
    for i := 0 to |timestamps|
      invariant low <= i && active == timestamps[low..i]
      invariant i > 0 ==> forall j :: 0 <= j < low ==> timestamps[i - 1] - timestamps[j] >= width
      invariant i == 0 ==> low == 0
      invariant maximum == Densest(timestamps[..i], width)
    {
      var t := timestamps[i];
      active := active + [t];
      while active != [] && t - active[0] >= width
        invariant low <= i + 1 && active == timestamps[low..i + 1]
        invariant forall j :: 0 <= j < low ==> t - timestamps[j] >= width
        decreases |active|
      {
        active := active[1..];
        low := low + 1;
      }
      ActiveIsWindow(timestamps, i, low, width);
      maximum := Max(maximum, |active|);
      assert timestamps[..i + 1][..i] == timestamps[..i];
    }
    assert timestamps[..|timestamps|] == timestamps;
  }

  lemma ActiveIsWindow(timestamps: seq<int>, i: nat, low: nat, width: int)
    requires Sorted(timestamps) && low <= i + 1 <= |timestamps|
    requires forall j :: 0 <= j < low ==> timestamps[i] - timestamps[j] >= width
    requires low <= i ==> timestamps[i] - timestamps[low] < width
    ensures CountIn(timestamps[..i + 1], timestamps[i] - width + 1, timestamps[i] + 1) == i + 1 - low
  {
    var t := timestamps[i];
    forall j | low <= j <= i ensures t - width + 1 <= timestamps[j] < t + 1 {
      assert timestamps[low] <= timestamps[j] <= timestamps[i];
    }
    CountSplit(timestamps[..i + 1], t - width + 1, t + 1, low);
  }

  lemma {:induction false} CountInside(timestamps: seq<int>, from: int, to: int, from2: int, to2: int)
    requires forall i :: 0 <= i < |timestamps| && from <= timestamps[i] < to ==> from2 <= timestamps[i] < to2
    ensures CountIn(timestamps, from, to) <= CountIn(timestamps, from2, to2)
  {
    if |timestamps| > 0 {
      CountInside(timestamps[..|timestamps| - 1], from, to, from2, to2);
    }
  }

  /** No window of the given width holds more timestamps than the maximum. */
  lemma {:induction false} NoWindowIsDenser(timestamps: seq<int>, width: int, from: int)
    requires Sorted(timestamps)
    ensures CountIn(timestamps, from, from + width) <= Densest(timestamps, width)
  {
    if |timestamps| > 0 {
      var n := |timestamps| - 1;
      var t := timestamps[n];
      NoWindowIsDenser(timestamps[..n], width, from);
      if from <= t < from + width {
        CountInside(timestamps, from, from + width, t - width + 1, t + 1);
      }
    }
  }

  /** And some window holds that many. */
  lemma {:induction false} SomeWindowIsAsDense(timestamps: seq<int>, width: int) returns (from: int)
    requires Sorted(timestamps)
    ensures CountIn(timestamps, from, from + width) == Densest(timestamps, width)
  {
    from := 0;
    if |timestamps| > 0 {
      var n := |timestamps| - 1;
      var t := timestamps[n];
      if Densest(timestamps[..n], width) <= CountIn(timestamps, t - width + 1, t + 1) {
        from := t - width + 1;
      } else {
        from := SomeWindowIsAsDense(timestamps[..n], width);
        NoWindowIsDenser(timestamps, width, from);
      }
    }
  }
}
