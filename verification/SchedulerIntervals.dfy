/** Scheduler state intervals of one thread
    (tools/realsense_startup_bench/parse_startup_trace.py, `scheduler_intervals`).
    The labels copied into every interval are left out. */
module SchedulerIntervals {
  import opened Wrappers

  datatype Kind =
    | Blocking(name: string)
    | SwitchedIn
    | SwitchedOut(task: int)
    | WokenUp(name: string)
    | ProcessExit
    | Unrelated

  datatype Event = Event(ts: int, kind: Kind, cpu: Option<int>)

  datatype State = Running | Ready | Sleeping

  datatype Reason = NoReason | Preempted | BlockedIn(name: string) | TaskState(task: int) | Woken(name: string)

  datatype Interval = Interval(state: State, start: int, end: int, cpu: Option<int>, reason: Reason)

  datatype Open = Open(state: State, start: int)

  datatype Walk = Walk(
    intervals: seq<Interval>,
    current: Option<Open>,
    cpu: Option<int>,
    reason: Reason,
    lastBlocking: string,
    firstRun: Option<int>,
    firstSleep: Option<int>)

  const START := Walk([], None, None, NoReason, "", None, None)

  function Close(w: Walk, ts: int): Walk {
    if w.current.None? || ts < w.current.value.start then w
    else
      var o := w.current.value;
      w.(intervals := w.intervals + [Interval(o.state, o.start, ts, w.cpu, w.reason)], current := None)
  }

  function Begin(w: Walk, state: State, ts: int, cpu: Option<int>, reason: Reason): Walk {
    w.(current := Some(Open(state, ts)), cpu := cpu, reason := reason)
  }

  function First(earlier: Option<int>, ts: int): Option<int> {
    if earlier.None? then Some(ts) else earlier
  }

  function Or(cpu: Option<int>, otherwise: Option<int>): Option<int> {
    if cpu.Some? then cpu else otherwise
  }

  function OutReason(task: int, lastBlocking: string): Reason {
    if task == 0 then Preempted else if lastBlocking != "" then BlockedIn(lastBlocking) else TaskState(task)
  }

  function Step(w: Walk, e: Event): Walk {
    match e.kind
    case Blocking(name) => w.(lastBlocking := name)
    case SwitchedIn => Begin(Close(w, e.ts), Running, e.ts, e.cpu, NoReason).(firstRun := First(w.firstRun, e.ts))
    case SwitchedOut(task) =>
      var next := Begin(Close(w, e.ts), if task == 0 then Ready else Sleeping, e.ts, Or(e.cpu, w.cpu),
                        OutReason(task, w.lastBlocking));
      if task != 0 then next.(firstSleep := First(w.firstSleep, e.ts)) else next
    case WokenUp(name) =>
      var closed := if w.current.Some? && w.current.value.state == Sleeping then Close(w, e.ts) else w;
      if closed.current.None? then Begin(closed, Ready, e.ts, e.cpu, Woken(name)) else closed
    case ProcessExit => Close(w, e.ts)
    case Unrelated => w
  }

  function WalkOver(events: seq<Event>): Walk {
    if events == [] then START else Step(WalkOver(events[..|events| - 1]), events[|events| - 1])
  }

  function Relevant(events: seq<Event>, begin: int, end: int): seq<Event> {
    if events == [] then []
    else
      var n := |events| - 1;
      Relevant(events[..n], begin, end) + (if begin <= events[n].ts <= end then [events[n]] else [])
  }

  function Intervals(events: seq<Event>, begin: int, end: int): seq<Interval> {
    Close(WalkOver(Relevant(events, begin, end)), end).intervals
  }

  method FilterWindow(events: seq<Event>, begin: int, end: int) returns (relevant: seq<Event>)
    ensures relevant == Relevant(events, begin, end)
  {
    relevant := [];
    for i := 0 to |events|
      invariant relevant == Relevant(events[..i], begin, end)
    {
      assert events[..i + 1][..i] == events[..i];
      if begin <= events[i].ts <= end {
        relevant := relevant + [events[i]];
      }
    }
    assert events[..|events|] == events;
  }

  lemma WalkNext(events: seq<Event>, i: nat)
    requires i < |events|
    ensures WalkOver(events[..i + 1]) == Step(WalkOver(events[..i]), events[i])
  {
    assert events[..i + 1][..i] == events[..i];
  }

  method BuildIntervals(events: seq<Event>, begin: int, end: int)
    returns (intervals: seq<Interval>, firstRun: Option<int>, firstSleep: Option<int>)
    ensures intervals == Intervals(events, begin, end)
    ensures firstRun == WalkOver(Relevant(events, begin, end)).firstRun
    ensures firstSleep == WalkOver(Relevant(events, begin, end)).firstSleep
  {
    var relevant := FilterWindow(events, begin, end);
    var w := START;
    for i := 0 to |relevant|
      invariant w == WalkOver(relevant[..i])
    {
      WalkNext(relevant, i);
      var e := relevant[i];
      match e.kind {
        case Blocking(name) =>
          w := w.(lastBlocking := name);
        case SwitchedIn =>
          w := Close(w, e.ts);
          w := w.(current := Some(Open(Running, e.ts)), cpu := e.cpu, reason := NoReason);
          if w.firstRun.None? {
            w := w.(firstRun := Some(e.ts));
          }
        case SwitchedOut(task) =>
          w := Close(w, e.ts);
          w := w.(current := Some(Open(if task == 0 then Ready else Sleeping, e.ts)), cpu := Or(e.cpu, w.cpu),
                  reason := OutReason(task, w.lastBlocking));
          if task != 0 && w.firstSleep.None? {
            w := w.(firstSleep := Some(e.ts));
          }
        case WokenUp(name) =>
          if w.current.Some? && w.current.value.state == Sleeping {
            w := Close(w, e.ts);
          }
          if w.current.None? {
            w := w.(current := Some(Open(Ready, e.ts)), cpu := e.cpu, reason := Woken(name));
          }
        case ProcessExit =>
          w := Close(w, e.ts);
        case Unrelated =>
      }
    }
    assert relevant[..|relevant|] == relevant;
    firstRun, firstSleep := w.firstRun, w.firstSleep;
    w := Close(w, end);
    intervals := w.intervals;
  }

  // ----- meaning

  predicate TimeSorted(events: seq<Event>) {
    forall i, j :: 0 <= i < j < |events| ==> events[i].ts <= events[j].ts
  }

  /** What an event does to the state of the thread. */
  function NextState(s: Option<State>, k: Kind): Option<State> {
    match k
    case SwitchedIn => Some(Running)
    case SwitchedOut(task) => Some(if task == 0 then Ready else Sleeping)
    case WokenUp(_) => if s.None? || s == Some(Sleeping) then Some(Ready) else s
    case ProcessExit => None
    case _ => s
  }

  /** State of the thread at time `t`: the effect of the events up to then. */
  function StateAt(events: seq<Event>, t: int): Option<State> {
    if events == [] then None
    else
      var n := |events| - 1;
      var s := StateAt(events[..n], t);
      if events[n].ts <= t then NextState(s, events[n].kind) else s
  }

  /** State of the interval around `t`. */
  function Recorded(intervals: seq<Interval>, t: int): Option<State> {
    if intervals == [] then None
    else
      var n := |intervals| - 1;
      if intervals[n].start <= t < intervals[n].end then Some(intervals[n].state) else Recorded(intervals[..n], t)
  }

  function View(w: Walk, t: int): Option<State> {
    if w.current.Some? && w.current.value.start <= t then Some(w.current.value.state) else Recorded(w.intervals, t)
  }

  lemma RecordedAppend(intervals: seq<Interval>, i: Interval, t: int)
    ensures Recorded(intervals + [i], t) ==
            if i.start <= t < i.end then Some(i.state) else Recorded(intervals, t)
  {
    assert (intervals + [i])[..|intervals|] == intervals;
  }

  /** Everything recorded or open began by `time`, and what is recorded ended by then. */
  predicate Past(w: Walk, time: int) {
    && (w.current.Some? ==> w.current.value.start <= time)
    && forall i :: 0 <= i < |w.intervals| ==> w.intervals[i].end <= time
  }

  lemma {:induction false} RecordedPast(intervals: seq<Interval>, t: int)
    requires forall i :: 0 <= i < |intervals| ==> intervals[i].end <= t
    ensures Recorded(intervals, t) == None
  {
    if intervals != [] {
      RecordedPast(intervals[..|intervals| - 1], t);
    }
  }

  lemma CloseView(w: Walk, ts: int, t: int)
    requires Past(w, ts)
    ensures Past(Close(w, ts), ts) && Close(w, ts).current == None
    ensures View(Close(w, ts), t) == if t < ts then View(w, t) else None
  {
    if w.current.Some? {
      var o := w.current.value;
      RecordedAppend(w.intervals, Interval(o.state, o.start, ts, w.cpu, w.reason), t);
    }
    if t >= ts {
      RecordedPast(w.intervals, t);
    }
  }

  lemma StepView(w: Walk, e: Event, t: int, s: Option<State>)
    requires Past(w, e.ts) && View(w, t) == s
    requires t >= e.ts ==> s == (if w.current.Some? then Some(w.current.value.state) else None)
    ensures Past(Step(w, e), e.ts)
    ensures View(Step(w, e), t) == if e.ts <= t then NextState(s, e.kind) else s
  {
    CloseView(w, e.ts, t);
  }

  lemma {:induction false} StateAfterAll(events: seq<Event>, t: int)
    requires TimeSorted(events) && forall i :: 0 <= i < |events| ==> events[i].ts <= t
    ensures StateAt(events, t) == OpenState(WalkOver(events))
    ensures WalkOver(events).current.Some? ==> WalkOver(events).current.value.start <= t
  {
    if events != [] {
      var n := |events| - 1;
      StateAfterAll(events[..n], t);
      StateAfterAll(events[..n], events[n].ts);
      assert events[n].ts <= t;
    }
  }

  function OpenState(w: Walk): Option<State> {
    if w.current.Some? then Some(w.current.value.state) else None
  }

  lemma {:induction false} WalkView(events: seq<Event>, t: int)
    requires TimeSorted(events)
    ensures View(WalkOver(events), t) == StateAt(events, t)
    ensures events != [] ==> Past(WalkOver(events), events[|events| - 1].ts)
  {
    if events != [] {
      var n := |events| - 1;
      var w, e := WalkOver(events[..n]), events[n];
      WalkView(events[..n], t);
      if t >= e.ts {
        StateAfterAll(events[..n], t);
      }
      StepView(w, e, t, StateAt(events[..n], t));
    }
  }

  lemma {:induction false} RelevantSorted(events: seq<Event>, begin: int, end: int)
    requires TimeSorted(events)
    ensures TimeSorted(Relevant(events, begin, end))
    ensures forall i :: 0 <= i < |Relevant(events, begin, end)| ==>
                          && begin <= Relevant(events, begin, end)[i].ts <= end
                          && Relevant(events, begin, end)[i] in events
  {
    if events != [] {
      var n := |events| - 1;
      RelevantSorted(events[..n], begin, end);
    }
  }

  /** The emitted intervals are the state of the thread over time: at every time
      the interval around it, if any, carries the state that the events up to
      then leave the thread in. */
  lemma IntervalsShowState(events: seq<Event>, begin: int, end: int, t: int)
    requires TimeSorted(events)
    ensures Recorded(Intervals(events, begin, end), t) ==
            if t < end then StateAt(Relevant(events, begin, end), t) else None
  {
    var relevant := Relevant(events, begin, end);
    RelevantSorted(events, begin, end);
    WalkView(relevant, t);
    CloseView(WalkOver(relevant), end, t);
    assert Close(WalkOver(relevant), end).current == None;
  }

  // ----- what opened an interval

  /** The name of the last blocking call. */
  function LastBlocked(events: seq<Event>): string {
    if events == [] then ""
    else
      var n := |events| - 1;
      if events[n].kind.Blocking? then events[n].kind.name else LastBlocked(events[..n])
  }

  /** The CPU of the last event that put the thread in a state; a switch-out
      without one keeps the CPU before it. */
  function LastCpu(events: seq<Event>): Option<int> {
    if events == [] then None
    else
      var n := |events| - 1;
      var e, before := events[n], LastCpu(events[..n]);
      match e.kind
      case SwitchedIn => e.cpu
      case SwitchedOut(_) => if e.cpu.Some? then e.cpu else before
      case WokenUp(_) =>
        var s := StateAt(events[..n], e.ts);
        if s.None? || s == Some(Sleeping) then e.cpu else before
      case _ => before
  }

  /** Event `p` opened an interval with this state, start, CPU and reason. */
  predicate OpenedBy(events: seq<Event>, p: int, state: State, start: int, cpu: Option<int>, reason: Reason) {
    && 0 <= p < |events| && events[p].ts == start
    && match events[p].kind
       case SwitchedIn => state == Running && cpu == events[p].cpu && reason == NoReason
       case SwitchedOut(task) =>
         && cpu == (if events[p].cpu.Some? then events[p].cpu else LastCpu(events[..p]))
         && (if task == 0 then state == Ready && reason == Preempted
             else && state == Sleeping
                  && var name := LastBlocked(events[..p]);
                     reason == if name != "" then BlockedIn(name) else TaskState(task))
       case WokenUp(name) => state == Ready && cpu == events[p].cpu && reason == Woken(name)
       case _ => false
  }

  ghost predicate HasOpener(events: seq<Event>, state: State, start: int, cpu: Option<int>, reason: Reason) {
    exists p :: OpenedBy(events, p, state, start, cpu, reason)
  }

  ghost predicate AllOpened(events: seq<Event>, intervals: seq<Interval>) {
    forall i :: 0 <= i < |intervals| ==>
                  HasOpener(events, intervals[i].state, intervals[i].start, intervals[i].cpu, intervals[i].reason)
  }

  ghost predicate Explained(events: seq<Event>, w: Walk) {
    && w.lastBlocking == LastBlocked(events) && w.cpu == LastCpu(events) && AllOpened(events, w.intervals)
    && (w.current.Some? ==> HasOpener(events, w.current.value.state, w.current.value.start, w.cpu, w.reason))
  }

  lemma OpenerStays(
      pre: seq<Event>, e: Event, state: State, start: int, cpu: Option<int>, reason: Reason)
    requires HasOpener(pre, state, start, cpu, reason)
    ensures HasOpener(pre + [e], state, start, cpu, reason)
  {
    var p :| OpenedBy(pre, p, state, start, cpu, reason);
    assert (pre + [e])[..p] == pre[..p];
    assert OpenedBy(pre + [e], p, state, start, cpu, reason);
  }

  lemma OpenersStay(pre: seq<Event>, e: Event, intervals: seq<Interval>)
    requires AllOpened(pre, intervals)
    ensures AllOpened(pre + [e], intervals)
  {
    forall i | 0 <= i < |intervals|
      ensures HasOpener(pre + [e], intervals[i].state, intervals[i].start, intervals[i].cpu, intervals[i].reason)
    {
      OpenerStays(pre, e, intervals[i].state, intervals[i].start, intervals[i].cpu, intervals[i].reason);
    }
  }

  lemma CloseExplained(pre: seq<Event>, w: Walk, ts: int)
    requires AllOpened(pre, w.intervals)
    requires w.current.Some? ==> HasOpener(pre, w.current.value.state, w.current.value.start, w.cpu, w.reason)
    ensures AllOpened(pre, Close(w, ts).intervals)
  {
  }

  lemma LastEventOpens(pre: seq<Event>, e: Event, state: State, cpu: Option<int>, reason: Reason)
    requires match e.kind
             case SwitchedIn => state == Running && cpu == e.cpu && reason == NoReason
             case SwitchedOut(task) =>
               && state == (if task == 0 then Ready else Sleeping) && cpu == Or(e.cpu, LastCpu(pre))
               && reason == OutReason(task, LastBlocked(pre))
             case WokenUp(name) => state == Ready && cpu == e.cpu && reason == Woken(name)
             case _ => false
    ensures HasOpener(pre + [e], state, e.ts, cpu, reason)
  {
    assert (pre + [e])[..|pre|] == pre && (pre + [e])[|pre|] == e;
    assert OpenedBy(pre + [e], |pre|, state, e.ts, cpu, reason);
  }

  lemma StepExplained(pre: seq<Event>, w: Walk, e: Event)
    requires Explained(pre, w) && OpenState(w) == StateAt(pre, e.ts)
    requires w.current.Some? ==> w.current.value.start <= e.ts
    ensures Explained(pre + [e], Step(w, e))
  {
    assert (pre + [e])[..|pre|] == pre && (pre + [e])[|pre|] == e;
    CloseExplained(pre, w, e.ts);
    OpenersStay(pre, e, w.intervals);
    OpenersStay(pre, e, Close(w, e.ts).intervals);
    var t := Step(w, e);
    if Opens(e.kind) && (e.kind.WokenUp? ==> StateAt(pre, e.ts).None? || StateAt(pre, e.ts) == Some(Sleeping)) {
      LastEventOpens(pre, e, t.current.value.state, t.cpu, t.reason);
    } else if w.current.Some? {
      OpenerStays(pre, e, w.current.value.state, w.current.value.start, w.cpu, w.reason);
    }
  }

  lemma {:induction false} WalkExplained(events: seq<Event>)
    requires TimeSorted(events)
    ensures Explained(events, WalkOver(events))
  {
    if events != [] {
      var n := |events| - 1;
      WalkExplained(events[..n]);
      StateAfterAll(events[..n], events[n].ts);
      StepExplained(events[..n], WalkOver(events[..n]), events[n]);
      assert events == events[..n] + [events[n]];
    }
  }

  /** Every interval begins with an event that put the thread in its state, and
      has the CPU and the reason that this event gives. */
  lemma IntervalsShowCause(events: seq<Event>, begin: int, end: int, i: nat)
    requires TimeSorted(events) && i < |Intervals(events, begin, end)|
    ensures var iv := Intervals(events, begin, end)[i];
            HasOpener(Relevant(events, begin, end), iv.state, iv.start, iv.cpu, iv.reason)
  {
    var relevant := Relevant(events, begin, end);
    RelevantSorted(events, begin, end);
    WalkExplained(relevant);
    CloseExplained(relevant, WalkOver(relevant), end);
  }

  predicate Sleeps(k: Kind) { k.SwitchedOut? && k.task != 0 }

  /** The time of the first event of a kind, if there is one. */
  ghost predicate IsFirst(events: seq<Event>, wanted: Kind -> bool, first: Option<int>) {
    if first.None? then forall p :: 0 <= p < |events| ==> !wanted(events[p].kind)
    else exists p :: && 0 <= p < |events| && wanted(events[p].kind) && events[p].ts == first.value
                     && forall q :: 0 <= q < p ==> !wanted(events[q].kind)
  }

  lemma FirstOfMore(pre: seq<Event>, e: Event, wanted: Kind -> bool, first: Option<int>)
    requires IsFirst(pre, wanted, first)
    ensures IsFirst(pre + [e], wanted, if wanted(e.kind) then First(first, e.ts) else first)
  {
    var events := pre + [e];
    assert forall p :: 0 <= p < |pre| ==> events[p] == pre[p];
    assert events[|pre|] == e;
    if first.Some? {
      var p :| && 0 <= p < |pre| && wanted(pre[p].kind) && pre[p].ts == first.value
               && forall q :: 0 <= q < p ==> !wanted(pre[q].kind);
      assert wanted(events[p].kind);
    }
  }

  /** The first run is the first switch-in, the first sleep the first switch-out
      that is not a preemption. */
  lemma {:induction false} FirstTimes(events: seq<Event>)
    ensures IsFirst(events, (k: Kind) => k.SwitchedIn?, WalkOver(events).firstRun)
    ensures IsFirst(events, Sleeps, WalkOver(events).firstSleep)
  {
    if events != [] {
      var n := |events| - 1;
      var w, e := WalkOver(events[..n]), events[n];
      FirstTimes(events[..n]);
      FirstOfMore(events[..n], e, (k: Kind) => k.SwitchedIn?, w.firstRun);
      FirstOfMore(events[..n], e, Sleeps, w.firstSleep);
      assert events == events[..n] + [e];
    }
  }

  // ----- order

  /** Intervals one after the other between `begin` and `end`. */
  predicate Chronological(intervals: seq<Interval>, begin: int, end: int) {
    if intervals == [] then true
    else
      var n := |intervals| - 1;
      && begin <= intervals[n].start <= intervals[n].end <= end
      && Chronological(intervals[..n], begin, intervals[n].start)
  }

  lemma {:induction false} ChronologicalOrder(intervals: seq<Interval>, begin: int, end: int, i: nat, j: nat)
    requires Chronological(intervals, begin, end) && i < j < |intervals|
    ensures begin <= intervals[i].start <= intervals[i].end <= intervals[j].start <= intervals[j].end <= end
  {
    var n := |intervals| - 1;
    if j < n {
      ChronologicalOrder(intervals[..n], begin, intervals[n].start, i, j);
    } else if i < n - 1 {
      ChronologicalOrder(intervals[..n], begin, intervals[n].start, i, n - 1);
    } else {
      assert intervals[..n][n - 1] == intervals[i];
    }
  }

  lemma ChronologicalLater(intervals: seq<Interval>, begin: int, end: int, later: int)
    requires Chronological(intervals, begin, end) && end <= later
    ensures Chronological(intervals, begin, later)
  {
  }

  /** Everything so far lies in order before `time`, the open interval included. */
  predicate Orderly(w: Walk, begin: int, time: int) {
    if w.current.Some? then
      begin <= w.current.value.start <= time && Chronological(w.intervals, begin, w.current.value.start)
    else Chronological(w.intervals, begin, time)
  }

  lemma CloseOrderly(w: Walk, begin: int, time: int, ts: int)
    requires Orderly(w, begin, time) && begin <= ts && time <= ts
    ensures Orderly(Close(w, ts), begin, ts) && Close(w, ts).current == None
  {
    if w.current.Some? {
      var closed := Close(w, ts).intervals;
      assert closed[..|w.intervals|] == w.intervals;
    } else {
      ChronologicalLater(w.intervals, begin, time, ts);
    }
  }

  lemma StepOrderly(w: Walk, begin: int, time: int, e: Event)
    requires Orderly(w, begin, time) && begin <= e.ts && time <= e.ts
    ensures Orderly(Step(w, e), begin, e.ts)
  {
    CloseOrderly(w, begin, time, e.ts);
    if w.current.None? {
      ChronologicalLater(w.intervals, begin, time, e.ts);
    }
  }

  lemma {:induction false} WalkOrderly(events: seq<Event>, begin: int)
    requires TimeSorted(events) && forall i :: 0 <= i < |events| ==> begin <= events[i].ts
    ensures Orderly(WalkOver(events), begin, if events == [] then begin else events[|events| - 1].ts)
  {
    if events != [] {
      var n := |events| - 1;
      WalkOrderly(events[..n], begin);
      StepOrderly(WalkOver(events[..n]), begin, if n == 0 then begin else events[n - 1].ts, events[n]);
    }
  }

  /** The intervals follow one another inside the window. */
  lemma IntervalsAreChronological(events: seq<Event>, begin: int, end: int)
    requires TimeSorted(events)
    ensures Chronological(Intervals(events, begin, end), begin, end)
  {
    var relevant := Relevant(events, begin, end);
    RelevantSorted(events, begin, end);
    if relevant != [] {
      WalkOrderly(relevant, begin);
      CloseOrderly(WalkOver(relevant), begin, relevant[|relevant| - 1].ts, end);
    }
  }

  // ----- tiling

  predicate NoExit(events: seq<Event>) {
    forall i :: 0 <= i < |events| ==> !events[i].kind.ProcessExit?
  }

  predicate Opens(k: Kind) {
    k.SwitchedIn? || k.SwitchedOut? || k.WokenUp?
  }

  /** Time of the first event that puts the thread in a state. */
  function FirstOpening(events: seq<Event>): Option<int> {
    if events == [] then None
    else
      var n := |events| - 1;
      var earlier := FirstOpening(events[..n]);
      if earlier.None? && Opens(events[n].kind) then Some(events[n].ts) else earlier
  }

  /** The intervals cover exactly the time from `a` to `b`, without gap or overlap. */
  predicate Tiles(intervals: seq<Interval>, a: int, b: int) {
    if intervals == [] then a == b
    else
      var n := |intervals| - 1;
      intervals[n].start <= intervals[n].end == b && Tiles(intervals[..n], a, intervals[n].start)
  }

  predicate TilesSince(w: Walk, opening: Option<int>, time: int) {
    if opening.None? then w.current.None? && w.intervals == []
    else w.current.Some? && w.current.value.start <= time && Tiles(w.intervals, opening.value, w.current.value.start)
  }

  lemma CloseTiles(w: Walk, opening: int, ts: int)
    requires w.current.Some? && w.current.value.start <= ts && Tiles(w.intervals, opening, w.current.value.start)
    ensures Tiles(Close(w, ts).intervals, opening, ts)
  {
    assert Close(w, ts).intervals[..|w.intervals|] == w.intervals;
  }

  lemma StepTiles(w: Walk, e: Event, opening: Option<int>, time: int)
    requires TilesSince(w, opening, time) && time <= e.ts && !e.kind.ProcessExit?
    ensures TilesSince(Step(w, e), if opening.None? && Opens(e.kind) then Some(e.ts) else opening, e.ts)
  {
    if opening.Some? {
      CloseTiles(w, opening.value, e.ts);
    }
  }

  lemma {:induction false} WalkTiles(events: seq<Event>)
    requires TimeSorted(events) && NoExit(events) && events != []
    ensures TilesSince(WalkOver(events), FirstOpening(events), events[|events| - 1].ts)
  {
    var n := |events| - 1;
    if n == 0 {
      assert events[..0] == [] && WalkOver([]) == START && FirstOpening([]) == None;
      StepTiles(START, events[0], None, events[0].ts);
      assert FirstOpening(events) == if Opens(events[0].kind) then Some(events[0].ts) else None;
    } else {
      WalkTiles(events[..n]);
      StepTiles(WalkOver(events[..n]), events[n], FirstOpening(events[..n]), events[n - 1].ts);
    }
  }

  function Total(intervals: seq<Interval>, s: State): int {
    if intervals == [] then 0
    else
      var n := |intervals| - 1;
      Total(intervals[..n], s) + (if intervals[n].state == s then intervals[n].end - intervals[n].start else 0)
  }

  lemma {:induction false} TiledTotal(intervals: seq<Interval>, a: int, b: int)
    requires Tiles(intervals, a, b)
    ensures Total(intervals, Running) + Total(intervals, Ready) + Total(intervals, Sleeping) == b - a
  {
    if intervals != [] {
      TiledTotal(intervals[..|intervals| - 1], a, intervals[|intervals| - 1].start);
    }
  }

  /** Without a process exit the intervals tile the time from the first opening
      event to the end of the window, and the three totals add up to it. */
  lemma IntervalsTile(events: seq<Event>, begin: int, end: int)
    requires TimeSorted(events) && NoExit(events)
    ensures var opening, intervals := FirstOpening(Relevant(events, begin, end)), Intervals(events, begin, end);
            if opening.None? then intervals == []
            else && Tiles(intervals, opening.value, end)
                 && Total(intervals, Running) + Total(intervals, Ready) + Total(intervals, Sleeping) ==
                    end - opening.value
  {
    var relevant := Relevant(events, begin, end);
    RelevantSorted(events, begin, end);
    if relevant != [] {
      WalkTiles(relevant);
      var opening := FirstOpening(relevant);
      if opening.Some? {
        CloseTiles(WalkOver(relevant), opening.value, end);
        TiledTotal(Intervals(events, begin, end), opening.value, end);
      }
    }
  }
}
