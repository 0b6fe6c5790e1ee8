/** What the freshness counters mean, in terms of sets of rows and numbers. */
module FreshnessMeaning {
  import opened Wrappers
  import opened Sequences
  import opened Freshness
  import SteadyMetrics

  // ----- one stream

  function WorkingOf(ns: seq<nat>): Working {
    if |ns| == 0 then NEW_STREAM else Observe(WorkingOf(ns[..|ns| - 1]), ns[|ns| - 1])
  }

  /** The number at `i` exceeds every earlier one. */
  predicate IsFresh(ns: seq<nat>, i: nat) {
    i < |ns| && forall j :: 0 <= j < i ==> ns[j] < ns[i]
  }

  /** A larger number was seen before position `i`. */
  predicate IsLate(ns: seq<nat>, i: nat) {
    i < |ns| && exists j :: 0 <= j < i && ns[j] > ns[i]
  }

  /** Positions that do not exceed everything before them. */
  function NotFresh(ns: seq<nat>): set<nat> {
    if |ns| == 0 then {}
    else
      var n := |ns| - 1;
      NotFresh(ns[..n]) + (if IsFresh(ns, n) then {} else {n})
  }

  /** Positions below something before them. */
  function Late(ns: seq<nat>): set<nat> {
    if |ns| == 0 then {}
    else
      var n := |ns| - 1;
      Late(ns[..n]) + (if IsLate(ns, n) then {n} else {})
  }

  lemma {:induction false} PositionMembers(ns: seq<nat>, i: nat)
    ensures i in NotFresh(ns) <==> i < |ns| && !IsFresh(ns, i)
    ensures i in Late(ns) <==> IsLate(ns, i)
  {
    if |ns| > 0 {
      var pre := ns[..|ns| - 1];
      PositionMembers(pre, i);
      assert forall j :: 0 <= j < |pre| ==> pre[j] == ns[j];
      assert i < |pre| ==> IsFresh(pre, i) == IsFresh(ns, i) && IsLate(pre, i) == IsLate(ns, i);
    }
  }

  function Highest(ns: seq<nat>): (m: nat)
    requires ns != []
    ensures m in ns && forall i :: 0 <= i < |ns| ==> ns[i] <= m
  {
    if |ns| == 1 then ns[0]
    else
      var rest := Highest(ns[..|ns| - 1]);
      if rest >= ns[|ns| - 1] then rest else ns[|ns| - 1]
  }

  /** Numbers between the lowest and the highest seen that were never seen. */
  function Missing(ns: seq<nat>): set<int> {
    if |ns| == 0 then {} else Range(Least(ns), Highest(ns) + 1) - Elems(ns)
  }

  lemma LastPosition(ns: seq<nat>)
    requires ns != []
    ensures var n := |ns| - 1;
            && (IsFresh(ns, n) <==> n == 0 || Highest(ns[..n]) < ns[n])
            && (IsLate(ns, n) <==> n > 0 && Highest(ns[..n]) > ns[n])
            && n !in NotFresh(ns[..n]) && n !in Late(ns[..n])
  {
    var n := |ns| - 1;
    PositionMembers(ns[..n], n);
    assert forall j :: 0 <= j < n ==> ns[..n][j] == ns[j];
  }

  lemma WorkingAppend(ns: seq<nat>, x: nat)
    ensures WorkingOf(ns + [x]) == Observe(WorkingOf(ns), x)
  {
    assert (ns + [x])[..|ns|] == ns;
  }

  lemma {:induction false} WorkingNumbers(ns: seq<nat>)
    ensures WorkingOf(ns).numbers == ns
  {
    if |ns| > 0 {
      var pre, x := ns[..|ns| - 1], ns[|ns| - 1];
      assert ns == pre + [x];
      WorkingNumbers(pre);
      WorkingAppend(pre, x);
    }
  }

  function MaxOf(ns: seq<nat>): Option<nat> {
    if |ns| == 0 then None else Some(Highest(ns))
  }

  lemma MaxStep(ns: seq<nat>)
    requires ns != []
    ensures var pre, x := ns[..|ns| - 1], ns[|ns| - 1];
            MaxOf(ns) == if pre == [] || x > Highest(pre) then Some(x) else MaxOf(pre)
  {
  }

  lemma {:induction false} WorkingHighest(ns: seq<nat>)
    ensures WorkingOf(ns).highest == MaxOf(ns)
  {
    if |ns| > 0 {
      WorkingHighest(ns[..|ns| - 1]);
      MaxStep(ns);
    }
  }

  lemma PositionCounts(ns: seq<nat>)
    requires ns != []
    ensures var n := |ns| - 1;
            && |NotFresh(ns)| == |NotFresh(ns[..n])| + (if IsFresh(ns, n) then 0 else 1)
            && |Late(ns)| == |Late(ns[..n])| + (if IsLate(ns, n) then 1 else 0)
  {
    var n := |ns| - 1;
    LastPosition(ns);
    AddElem(NotFresh(ns[..n]), n);
    AddElem(Late(ns[..n]), n);
    assert NotFresh(ns[..n]) + {} == NotFresh(ns[..n]);
    assert Late(ns[..n]) + {} == Late(ns[..n]);
  }

  lemma CounterStep(ns: seq<nat>)
    requires ns != []
    ensures var n := |ns| - 1; var w, before := WorkingOf(ns), WorkingOf(ns[..n]);
            && w.nonadvancing == before.nonadvancing + (if IsFresh(ns, n) then 0 else 1)
            && w.outOfOrder == before.outOfOrder + (if IsLate(ns, n) then 1 else 0)
  {
    WorkingHighest(ns[..|ns| - 1]);
    LastPosition(ns);
  }

  /** The online counters of a stream count the positions that do not exceed, or
      fall below, what came before them. */
  lemma {:induction false} CountersMeanPositions(ns: seq<nat>)
    ensures WorkingOf(ns).nonadvancing == |NotFresh(ns)|
    ensures WorkingOf(ns).outOfOrder == |Late(ns)|
  {
    if |ns| > 0 {
      var n := |ns| - 1;
      CountersMeanPositions(ns[..n]);
      PositionCounts(ns);
      CounterStep(ns);
    }
  }

  // ----- sorting and removing duplicates

  lemma SortedTail(s: seq<int>)
    requires Sorted(s) && |s| > 1
    ensures Sorted(s[1..]) && (s[0] == s[1] <==> s[0] in s[1..])
  {
    assert s[1..][0] == s[1];
    assert forall i :: 1 <= i < |s| ==> s[1] <= s[i] && s[0] <= s[1];
  }

  /** After a sort, removing adjacent duplicates leaves one of each number. */
  lemma {:induction false} UniqueCountsElems(s: seq<int>)
    requires Sorted(s)
    ensures |Unique(s)| == |Elems(s)|
  {
    if |s| > 1 {
      SortedTail(s);
      UniqueCountsElems(s[1..]);
      ElemsFirst(s);
    } else if |s| == 1 {
      ElemsFirst(s);
    }
  }

  lemma {:induction false} UniqueKeepsLast(s: seq<int>)
    requires s != []
    ensures Unique(s) != [] && Unique(s)[|Unique(s)| - 1] == s[|s| - 1]
  {
    if |s| > 1 {
      UniqueKeepsLast(s[1..]);
    }
  }

  /** The ends of a sorted rearrangement are the smallest and the largest number. */
  lemma EndsAreExtremes(s: seq<int>, low: int, high: int)
    requires Sorted(s) && s != [] && low in s && high in s
    requires forall x :: x in s ==> low <= x <= high
    ensures s[0] == low && s[|s| - 1] == high
  {
    var i :| 0 <= i < |s| && s[i] == low;
    var j :| 0 <= j < |s| && s[j] == high;
    assert s[0] in s && s[|s| - 1] in s;
    assert s[0] <= s[i] && s[j] <= s[|s| - 1];
  }

  lemma SortMembers(ns: seq<nat>, x: int)
    ensures x in Sort(ns) <==> x in ns
  {
    SortSorts(ns);
    assert x in Sort(ns) <==> x in multiset(Sort(ns));
    assert x in multiset(Sort(ns)) <==> x in multiset(ns);
  }

  lemma SortedEnds(ns: seq<nat>)
    requires ns != []
    ensures var s := Sort(ns); |s| == |ns| && s[0] == Least(ns) && s[|s| - 1] == Highest(ns)
  {
    var s := Sort(ns);
    SortSorts(ns);
    SameElems<int>(s, ns);
    LeastMeaning(ns);
    SortMembers(ns, Least(ns));
    SortMembers(ns, Highest(ns));
    forall x | x in s ensures Least(ns) <= x <= Highest(ns) {
      SortMembers(ns, x);
    }
    EndsAreExtremes(s, Least(ns), Highest(ns));
  }

  lemma SpanSize(ns: seq<nat>)
    requires ns != []
    ensures |Missing(ns)| == Highest(ns) - Least(ns) + 1 - |Elems(ns)|
  {
    LeastMeaning(ns);
    var all: set<int> := Range(Least(ns), Highest(ns) + 1);
    var seen: set<int> := set i | 0 <= i < |ns| :: ns[i] as int;
    assert seen == Elems(ns);
    assert seen <= all;
    assert all == (all - seen) + seen;
  }

  lemma {:induction false} FreshPositionsAreNew(ns: seq<nat>)
    ensures |ns| - |NotFresh(ns)| <= |Elems(ns)| <= |ns|
    ensures Late(ns) == {} ==> |ns| - |NotFresh(ns)| == |Elems(ns)|
  {
    if |ns| > 0 {
      var n := |ns| - 1;
      FreshPositionsAreNew(ns[..n]);
      LastPosition(ns);
      ElemsLast(ns);
      PositionCounts(ns);
      if IsFresh(ns, n) {
        assert ns[n] !in ns[..n];
      } else if !IsLate(ns, n) {
        assert ns[n] == Highest(ns[..n]);
      }
    }
  }

  // ----- the online drop counter

  /** `drops`: forward jumps over the previous frame number. */
  function OnlineDrops(ns: seq<nat>): nat {
    if |ns| <= 1 then 0
    else
      var n := |ns| - 1;
      OnlineDrops(ns[..n]) + (if ns[n] > ns[n - 1] + 1 then ns[n] - ns[n - 1] - 1 else 0)
  }

  lemma {:induction false} OrderedDropsAreMissing(ns: seq<nat>)
    requires ns != [] && Late(ns) == {}
    ensures Highest(ns) == ns[|ns| - 1]
    ensures OnlineDrops(ns) == Highest(ns) - Least(ns) + 1 - |Elems(ns)|
  {
    var n := |ns| - 1;
    ElemsLast(ns);
    if n > 0 {
      var pre := ns[..n];
      LastPosition(ns);
      assert Late(pre) == {} && !IsLate(ns, n);
      OrderedDropsAreMissing(pre);
      assert pre[n - 1] == ns[n - 1];
      assert Least(ns) == Least(pre);
      assert ns[n] > Highest(pre) ==> ns[n] !in pre;
      assert ns[n] == Highest(pre) ==> ns[n] in pre;
    }
  }

  /** The reported counters of a stream, as sets: duplicates are observed minus
      distinct, gaps are the numbers never seen, and every duplicate is also
      nonadvancing.  Without a late frame the nonadvancing frames are exactly the
      duplicates, and the online drop counter equals the gaps. */
  lemma StreamCountersMeaning(ns: seq<nat>)
    ensures var r := StreamResult(WorkingOf(ns));
            && r.observed == |ns| && r.unique == |Elems(ns)|
            && r.duplicates == |ns| - |Elems(ns)| >= 0
            && r.gaps == |Missing(ns)|
            && r.nonadvancing == |NotFresh(ns)| >= r.duplicates
            && r.outOfOrder == |Late(ns)|
            && (r.outOfOrder == 0 ==> r.nonadvancing == r.duplicates && r.gaps == OnlineDrops(ns))
  {
    WorkingNumbers(ns);
    CountersMeanPositions(ns);
    FreshPositionsAreNew(ns);
    SortedSide(WorkingOf(ns));
    if |ns| > 0 && |Late(ns)| == 0 {
      OrderedDropsAreMissing(ns);
      SpanSize(ns);
    }
  }

  lemma SortedCounts(ns: seq<nat>)
    ensures |Sort(ns)| == |ns| && |Unique(Sort(ns))| == |Elems(ns)|
  {
    SortSorts(ns);
    SameElems<int>(Sort(ns), ns);
    UniqueCountsElems(Sort(ns));
    IntElems(ns);
  }

  /** Sorting and removing duplicates yields the distinct numbers and the gaps. */
  lemma SortedSide(w: Working)
    ensures var r, ns := StreamResult(w), w.numbers;
            && r.observed == |ns| && r.unique == |Elems(ns)| && r.duplicates == |ns| - |Elems(ns)|
            && r.gaps == |Missing(ns)|
  {
    var ns := w.numbers;
    SortedCounts(ns);
    if |ns| > 0 {
      SortedEnds(ns);
      UniqueKeepsLast(Sort(ns));
      SpanSize(ns);
    }
  }

  lemma IntElems(ns: seq<nat>)
    ensures Elems<int>(ns) == Elems<nat>(ns)
  {
  }

  // ----- the rows of one stream

  function Numbers(rows: seq<Row>, key: StreamKey): seq<nat> {
    if |rows| == 0 then []
    else
      var n := |rows| - 1;
      Numbers(rows[..n], key) + (if StreamOf(rows[n]) == key then [rows[n].number] else [])
  }

  /** The scan keeps for each stream exactly the counters of that stream's numbers. */
  lemma {:induction false} ScanSeparatesStreams(rows: seq<Row>, key: StreamKey)
    ensures WorkingOn(ScanRows(rows), key) == WorkingOf(Numbers(rows, key))
    ensures key in ScanRows(rows).streams <==> Numbers(rows, key) != []
  {
    if |rows| > 0 {
      var n := |rows| - 1;
      var pre, r := rows[..n], rows[n];
      ScanSeparatesStreams(pre, key);
      assert OpenDelivery(ScanRows(pre), DeliveryOf(r)).streams == ScanRows(pre).streams;
      if StreamOf(r) == key {
        var ns := Numbers(pre, key) + [r.number];
        assert ns[..|ns| - 1] == Numbers(pre, key);
      } else {
        assert Numbers(rows, key) == Numbers(pre, key);
      }
    }
  }

  /** Every reported stream carries the set meaning of its own rows. */
  lemma FreshnessOfStream(rows: seq<Row>, key: StreamKey)
    requires key in Analyze(rows).streams
    ensures Analyze(rows).streams[key] == StreamResult(WorkingOf(Numbers(rows, key)))
  {
    ScanSeparatesStreams(rows, key);
  }

  // ----- deliveries

  /** Row `i` exceeds every earlier row of its stream. */
  predicate Advances(rows: seq<Row>, i: nat) {
    i < |rows| && forall j :: 0 <= j < i && StreamOf(rows[j]) == StreamOf(rows[i]) ==> rows[j].number < rows[i].number
  }

  function Deliveries(rows: seq<Row>): set<DeliveryKey> {
    if |rows| == 0 then {} else Deliveries(rows[..|rows| - 1]) + {DeliveryOf(rows[|rows| - 1])}
  }

  /** Deliveries with a row that advances, or with one that does not. */
  function Marked(rows: seq<Row>, advancing: bool): set<DeliveryKey> {
    if |rows| == 0 then {}
    else
      var n := |rows| - 1;
      Marked(rows[..n], advancing) + (if Advances(rows, n) == advancing then {DeliveryOf(rows[n])} else {})
  }

  function Advancing(rows: seq<Row>): set<DeliveryKey> { Marked(rows, true) }

  function Repeating(rows: seq<Row>): set<DeliveryKey> { Marked(rows, false) }

  lemma AdvancesInPrefix(rows: seq<Row>, n: nat, i: nat)
    requires i < n <= |rows|
    ensures Advances(rows[..n], i) == Advances(rows, i)
  {
    assert forall j :: 0 <= j <= i ==> rows[..n][j] == rows[j];
  }

  /** Row `i` belongs to the delivery and advances, or does not. */
  predicate MarkedBy(rows: seq<Row>, advancing: bool, d: DeliveryKey, i: nat) {
    i < |rows| && Advances(rows, i) == advancing && DeliveryOf(rows[i]) == d
  }

  lemma MarkedInPrefix(rows: seq<Row>, n: nat, advancing: bool, d: DeliveryKey, i: nat)
    requires i < n <= |rows|
    ensures MarkedBy(rows[..n], advancing, d, i) == MarkedBy(rows, advancing, d, i)
  {
    AdvancesInPrefix(rows, n, i);
  }

  /** A delivery is marked exactly when one of its rows says so. */
  lemma {:induction false} MarkedMembers(rows: seq<Row>, advancing: bool, d: DeliveryKey)
    ensures d in Marked(rows, advancing) <==> exists i :: MarkedBy(rows, advancing, d, i)
  {
    if |rows| > 0 {
      var n := |rows| - 1;
      MarkedMembers(rows[..n], advancing, d);
      forall i | 0 <= i < n ensures MarkedBy(rows[..n], advancing, d, i) == MarkedBy(rows, advancing, d, i) {
        MarkedInPrefix(rows, n, advancing, d, i);
      }
      assert d in Marked(rows, advancing) <==> d in Marked(rows[..n], advancing) || MarkedBy(rows, advancing, d, n);
      if d in Marked(rows[..n], advancing) {
        var i :| MarkedBy(rows[..n], advancing, d, i);
        assert MarkedBy(rows, advancing, d, i);
      }
    }
  }

  /** Rows of one delivery stand together, as the event file is written: a row
      continues the delivery before it or opens one not seen yet. */
  predicate Contiguous(rows: seq<Row>) {
    if |rows| <= 1 then true
    else
      var n := |rows| - 1;
      && Contiguous(rows[..n])
      && (DeliveryOf(rows[n]) == DeliveryOf(rows[n - 1]) || DeliveryOf(rows[n]) !in Deliveries(rows[..n]))
  }

  /** Whether a number exceeds the earlier rows of a stream depends only on their highest. */
  lemma {:induction false} HighestBounds(rows: seq<Row>, key: StreamKey, x: nat)
    ensures (forall j :: 0 <= j < |rows| && StreamOf(rows[j]) == key ==> rows[j].number < x) <==>
            Numbers(rows, key) == [] || Highest(Numbers(rows, key)) < x
  {
    if |rows| > 0 {
      var n := |rows| - 1;
      var pre := rows[..n];
      HighestBounds(pre, key, x);
      var ns := Numbers(pre, key);
      assert (forall j :: 0 <= j < |rows| && StreamOf(rows[j]) == key ==> rows[j].number < x)
        <==> (forall j :: 0 <= j < |pre| && StreamOf(pre[j]) == key ==> pre[j].number < x)
             && (StreamOf(rows[n]) == key ==> rows[n].number < x);
      if StreamOf(rows[n]) == key {
        HighestOfAppend(ns, rows[n].number);
      } else {
        assert Numbers(rows, key) == ns;
      }
    }
  }

  lemma HighestOfAppend(ns: seq<nat>, x: nat)
    ensures Highest(ns + [x]) == if ns != [] && Highest(ns) >= x then Highest(ns) else x
  {
    var all := ns + [x];
    assert all[..|ns|] == ns;
  }

  /** The running maximum decides whether a row advances. */
  lemma HighestDecides(pre: seq<Row>, r: Row)
    ensures Advances(pre + [r], |pre|) <==> AdvancesOver(WorkingOn(ScanRows(pre), StreamOf(r)), r.number)
  {
    ScanSeparatesStreams(pre, StreamOf(r));
    WorkingHighest(Numbers(pre, StreamOf(r)));
    HighestBounds(pre, StreamOf(r), r.number);
    LastRowAdvances(pre, r);
  }

  lemma LastRowAdvances(pre: seq<Row>, r: Row)
    ensures Advances(pre + [r], |pre|) <==>
            forall j :: 0 <= j < |pre| && StreamOf(pre[j]) == StreamOf(r) ==> pre[j].number < r.number
  {
    var rows := pre + [r];
    assert forall j :: 0 <= j < |pre| ==> rows[j] == pre[j];
    assert rows[|pre|] == r;
  }

  type KeySet = set<DeliveryKey>

  /** Finished deliveries (all but the open one) by class, and the open one's flags. */
  predicate ScanMeans(s: Scan, all: KeySet, adv: KeySet, rep: KeySet) {
    if s.current.None? then s.fullyFresh == s.partial == s.stale == 0 && all == {}
    else
      var open := s.current.value;
      var closed := all - {open};
      && open in all
      && s.hasAdvance == (open in adv) && s.allAdvance == (open !in rep)
      && s.fullyFresh == |closed - rep| && s.partial == |closed * adv * rep| && s.stale == |closed - adv|
  }

  lemma TakeOut(a: KeySet, rest: KeySet, key: DeliveryKey)
    requires rest == a - {key}
    ensures |a| == |rest| + (if key in a then 1 else 0)
  {
    if key in a {
      assert a == rest + {key};
    } else {
      assert a == rest;
    }
  }

  lemma ClassesWithout(all: KeySet, adv: KeySet, rep: KeySet, key: DeliveryKey)
    ensures (all - {key}) - rep == (all - rep) - {key}
    ensures (all - {key}) * adv * rep == (all * adv * rep) - {key}
    ensures (all - {key}) - adv == (all - adv) - {key}
  {
  }

  lemma CloseDelivery(s: Scan, all: KeySet, adv: KeySet, rep: KeySet)
    requires ScanMeans(s, all, adv, rep) && adv + rep == all
    ensures var f := FinishDelivery(s);
            f.fullyFresh == |all - rep| && f.partial == |all * adv * rep| && f.stale == |all - adv|
  {
    if s.current.Some? {
      var open := s.current.value;
      var closed := all - {open};
      ClassesWithout(all, adv, rep, open);
      TakeOut(all - rep, closed - rep, open);
      TakeOut(all * adv * rep, closed * adv * rep, open);
      TakeOut(all - adv, closed - adv, open);
    } else {
      assert all - rep == {} && all * adv * rep == {} && all - adv == {};
    }
  }

  /** Whatever happens to one delivery, the classes of the others stay. */
  lemma OthersStay(closed: KeySet, adv: KeySet, rep: KeySet, key: DeliveryKey, advanced: bool)
    requires key !in closed
    ensures var adv2, rep2 := Mark(adv, key, advanced), Mark(rep, key, !advanced);
            && closed - rep2 == closed - rep && closed - adv2 == closed - adv
            && closed * adv2 * rep2 == closed * adv * rep
  {
  }

  lemma SameDelivery(s: Scan, all: KeySet, adv: KeySet, rep: KeySet, advanced: bool, t: Scan)
    requires s.current.Some? && ScanMeans(s, all, adv, rep)
    requires t.current == s.current && t.fullyFresh == s.fullyFresh && t.partial == s.partial && t.stale == s.stale
    requires t.hasAdvance == (s.hasAdvance || advanced) && t.allAdvance == (s.allAdvance && advanced)
    ensures var key := s.current.value;
            ScanMeans(t, all + {key}, Mark(adv, key, advanced), Mark(rep, key, !advanced))
  {
    var key := s.current.value;
    assert (all + {key}) - {key} == all - {key};
    OthersStay(all - {key}, adv, rep, key, advanced);
  }

  lemma NewDelivery(s: Scan, all: KeySet, adv: KeySet, rep: KeySet, key: DeliveryKey, advanced: bool, t: Scan)
    requires ScanMeans(s, all, adv, rep) && adv + rep == all && key !in all
    requires t.current == Some(key) && t.hasAdvance == advanced && t.allAdvance == advanced
    requires var f := FinishDelivery(s);
             t.fullyFresh == f.fullyFresh && t.partial == f.partial && t.stale == f.stale
    ensures ScanMeans(t, all + {key}, Mark(adv, key, advanced), Mark(rep, key, !advanced))
  {
    CloseDelivery(s, all, adv, rep);
    assert (all + {key}) - {key} == all;
    OthersStay(all, adv, rep, key, advanced);
  }

  lemma {:induction false} ClassesInside(rows: seq<Row>)
    ensures Advancing(rows) + Repeating(rows) == Deliveries(rows)
  {
    if |rows| > 0 {
      ClassesInside(rows[..|rows| - 1]);
    }
  }

  lemma LastRowMarks(pre: seq<Row>, r: Row)
    ensures var rows, key := pre + [r], DeliveryOf(r); var advanced := Advances(rows, |pre|);
            && Deliveries(rows) == Deliveries(pre) + {key}
            && Advancing(rows) == Mark(Advancing(pre), key, advanced)
            && Repeating(rows) == Mark(Repeating(pre), key, !advanced)
  {
    assert (pre + [r])[..|pre|] == pre;
    assert Marked(pre, true) + {} == Marked(pre, true);
    assert Marked(pre, false) + {} == Marked(pre, false);
  }

  lemma {:induction false} ScanLastRow(pre: seq<Row>, r: Row)
    requires Contiguous(pre + [r])
    requires ScanMeans(ScanRows(pre), Deliveries(pre), Advancing(pre), Repeating(pre))
    requires ScanRows(pre).current == if |pre| == 0 then None else Some(DeliveryOf(pre[|pre| - 1]))
    ensures var rows := pre + [r];
            && ScanMeans(ScanRows(rows), Deliveries(rows), Advancing(rows), Repeating(rows))
            && ScanRows(rows).current == Some(DeliveryOf(r))
  {
    var rows := pre + [r];
    assert rows[..|pre|] == pre;
    HighestDecides(pre, r);
    ScanOneRow(pre, r, Deliveries(pre), Advancing(pre), Repeating(pre), Advances(rows, |pre|));
    LastRowMarks(pre, r);
  }

  lemma {:induction false} ScanMeaning(rows: seq<Row>)
    requires Contiguous(rows)
    ensures ScanMeans(ScanRows(rows), Deliveries(rows), Advancing(rows), Repeating(rows))
    ensures ScanRows(rows).current == if |rows| == 0 then None else Some(DeliveryOf(rows[|rows| - 1]))
  {
    if |rows| > 0 {
      var pre, r := rows[..|rows| - 1], rows[|rows| - 1];
      assert rows == pre + [r];
      ScanMeaning(pre);
      ScanLastRow(pre, r);
    }
  }

  lemma ScanOneRow(pre: seq<Row>, r: Row, all: KeySet, adv: KeySet, rep: KeySet, advanced: bool)
    requires var s := ScanRows(pre);
             && ScanMeans(s, all, adv, rep)
             && s.current == (if |pre| == 0 then None else Some(DeliveryOf(pre[|pre| - 1])))
             && advanced == AdvancesOver(WorkingOn(s, StreamOf(r)), r.number)
    requires all == Deliveries(pre) && adv == Advancing(pre) && rep == Repeating(pre)
    requires pre != [] ==> DeliveryOf(r) == DeliveryOf(pre[|pre| - 1]) || DeliveryOf(r) !in all
    ensures var key := DeliveryOf(r);
            ScanMeans(ScanStep(ScanRows(pre), r), all + {key}, Mark(adv, key, advanced), Mark(rep, key, !advanced))
  {
    var s := ScanRows(pre);
    var t := ScanStep(s, r);
    ClassesInside(pre);
    if s.current == Some(DeliveryOf(r)) {
      SameDelivery(s, all, adv, rep, advanced, t);
    } else {
      NewDelivery(s, all, adv, rep, DeliveryOf(r), advanced, t);
    }
  }

  lemma ClassSizes(all: KeySet, adv: KeySet, rep: KeySet)
    requires adv + rep == all
    ensures |all * adv * rep| == |adv * rep|
    ensures |adv * rep| + |all - adv| == |rep|
    ensures |all - rep| + |rep| == |all|
  {
    assert all * adv * rep == adv * rep;
    assert rep == (adv * rep) + (all - adv);
    assert all == (all - rep) + rep;
  }

  /** The three delivery classes are what their names say, and together they are
      all deliveries. */
  lemma DeliveryClassesMeaning(rows: seq<Row>)
    requires Contiguous(rows)
    ensures var f := Analyze(rows);
            && f.fullyFresh == |Deliveries(rows) - Repeating(rows)|
            && f.partial == |Advancing(rows) * Repeating(rows)|
            && f.stale == |Deliveries(rows) - Advancing(rows)|
            && f.partial + f.stale == |Repeating(rows)|
            && f.fullyFresh + f.partial + f.stale == |Deliveries(rows)|
  {
    ScanMeaning(rows);
    ClassesInside(rows);
    CloseDelivery(ScanRows(rows), Deliveries(rows), Advancing(rows), Repeating(rows));
    ClassSizes(Deliveries(rows), Advancing(rows), Repeating(rows));
  }

  // ----- E2 and the summary

  lemma {:induction false} ProblemHighest(rows: seq<Row>, key: StreamKey)
    ensures var w := WorkingOf(Numbers(rows, key)); var p := ProblemRows(rows);
            if key in p.highest then w.highest == Some(p.highest[key]) else w.highest == None
  {
    if |rows| > 0 {
      var n := |rows| - 1;
      var pre, r := rows[..n], rows[n];
      ProblemHighest(pre, key);
      if StreamOf(r) == key {
        var ns := Numbers(pre, key) + [r.number];
        assert ns[..|ns| - 1] == Numbers(pre, key);
      } else {
        assert Numbers(rows, key) == Numbers(pre, key);
      }
    }
  }

  /** E2 marks exactly the deliveries with a row that does not advance. */
  lemma {:induction false} StaleMeansRepeating(rows: seq<Row>)
    ensures ProblemRows(rows).stale == Repeating(rows) && ProblemRows(rows).deliveries == Deliveries(rows)
  {
    if |rows| > 0 {
      var n := |rows| - 1;
      var pre, r := rows[..n], rows[n];
      assert rows == pre + [r];
      StaleMeansRepeating(pre);
      HighestDecides(pre, r);
      ScanSeparatesStreams(pre, StreamOf(r));
      ProblemHighest(pre, StreamOf(r));
    }
  }

  /** The rows of camera `c` in the event file. */
  predicate OfCamera(rows: seq<Row>, c: nat) {
    forall i :: 0 <= i < |rows| ==> rows[i].camera == c
  }

  /** Sum of the partially stale and stale framesets over the cameras, as `add_freshness` accumulates it. */
  function SummedStale(cameras: seq<seq<Row>>): nat {
    if |cameras| == 0 then 0
    else
      var f := Analyze(cameras[|cameras| - 1]);
      SummedStale(cameras[..|cameras| - 1]) + f.partial + f.stale
  }

  /** Rows of other cameras do not decide whether a row advances. */
  lemma OtherCamerasDoNotMatter(a: seq<Row>, pre: seq<Row>, r: Row)
    requires forall i :: 0 <= i < |a| ==> a[i].camera != r.camera
    ensures Advances(a + pre + [r], |a| + |pre|) == Advances(pre + [r], |pre|)
  {
    var before := a + pre;
    LastRowAdvances(before, r);
    LastRowAdvances(pre, r);
    assert forall j :: 0 <= j < |a| ==> before[j] == a[j];
    assert forall j :: 0 <= j < |pre| ==> before[|a| + j] == pre[j];
    if Advances(pre + [r], |pre|) {
      forall j | 0 <= j < |before| && StreamOf(before[j]) == StreamOf(r) ensures before[j].number < r.number {
        assert j >= |a|;
        assert before[j] == pre[j - |a|];
      }
    }
  }

  lemma {:induction false} RepeatingOfCameras(a: seq<Row>, b: seq<Row>)
    requires forall i, j :: 0 <= i < |a| && 0 <= j < |b| ==> a[i].camera != b[j].camera
    ensures Repeating(a + b) == Repeating(a) + Repeating(b)
  {
    if |b| == 0 {
      assert a + b == a;
    } else {
      var n := |b| - 1;
      var pre, r := b[..n], b[n];
      RepeatingOfCameras(a, pre);
      assert b == pre + [r] && a + b == a + pre + [r];
      assert (a + b)[..|a| + n] == a + pre;
      OtherCamerasDoNotMatter(a, pre, r);
    }
  }

  lemma CamerasOfRepeating(rows: seq<Row>)
    ensures forall d :: d in Repeating(rows) ==> exists i :: 0 <= i < |rows| && rows[i].camera == d.0
  {
    forall d | d in Repeating(rows) ensures exists i :: 0 <= i < |rows| && rows[i].camera == d.0 {
      MarkedMembers(rows, false, d);
      var i: nat :| MarkedBy(rows, false, d, i);
      assert rows[i].camera == d.0;
    }
  }

  /** Over all cameras, E2's stale framesets are the partially stale plus the
      stale framesets of the summary, whatever the frame numbers. */
  lemma {:induction false} StaleFramesetsAgree(cameras: seq<seq<Row>>)
    requires forall c :: 0 <= c < |cameras| ==> OfCamera(cameras[c], c) && Contiguous(cameras[c])
    ensures CountsOf(ProblemRows(Flatten(cameras))).stale == SummedStale(cameras)
  {
    StaleMeansRepeating(Flatten(cameras));
    if |cameras| > 0 {
      var n := |cameras| - 1;
      var before, last := cameras[..n], cameras[n];
      StaleFramesetsAgree(before);
      StaleMeansRepeating(Flatten(before));
      FileCameras(before);
      RepeatingOfCameras(Flatten(before), last);
      CamerasOfRepeating(Flatten(before));
      CamerasOfRepeating(last);
      assert Repeating(Flatten(before)) !! Repeating(last);
      DeliveryClassesMeaning(last);
    }
  }

  lemma {:induction false} FileCameras(cameras: seq<seq<Row>>)
    requires forall c :: 0 <= c < |cameras| ==> OfCamera(cameras[c], c)
    ensures forall i :: 0 <= i < |Flatten(cameras)| ==> Flatten(cameras)[i].camera < |cameras|
  {
    if |cameras| > 0 {
      FileCameras(cameras[..|cameras| - 1]);
    }
  }

  // ----- the recorded drop counter

  function EventNumbers(events: seq<SteadyMetrics.Event>, k: SteadyMetrics.Stream): seq<nat> {
    if |events| == 0 then []
    else
      var n := |events| - 1;
      EventNumbers(events[..n], k) + (if events[n].stream == k then [events[n].number] else [])
  }

  predicate DropsRecorded(m: SteadyMetrics.Metrics) {
    forall k :: k in m.streams ==>
                  var ns := EventNumbers(m.events, k);
                  && m.streams[k].drops == OnlineDrops(ns)
                  && m.streams[k].last == if ns == [] then None else Some(ns[|ns| - 1])
  }

  lemma {:induction false} LastEvent(events: seq<SteadyMetrics.Event>, e: SteadyMetrics.Event, k: SteadyMetrics.Stream)
    ensures var earlier := EventNumbers(events, k); var ns := EventNumbers(events + [e], k);
            if e.stream == k
            then ns == earlier + [e.number]
                 && OnlineDrops(ns) == OnlineDrops(earlier)
                                       + (if earlier != [] && e.number > earlier[|earlier| - 1] + 1
                                          then e.number - earlier[|earlier| - 1] - 1 else 0)
            else ns == earlier
  {
    assert (events + [e])[..|events|] == events;
    var earlier := EventNumbers(events, k);
    assert (earlier + [e.number])[..|earlier|] == earlier;
    assert earlier + [] == earlier;
  }

  lemma AddFrameRecordsDrops(m: SteadyMetrics.Metrics, f: SteadyMetrics.Frame, hostNs: int)
    requires DropsRecorded(m) && f.stream in m.streams
    ensures DropsRecorded(SteadyMetrics.AddFrame(m, f, hostNs))
  {
    var after := SteadyMetrics.AddFrame(m, f, hostNs);
    forall k | k in after.streams
      ensures var ns := EventNumbers(after.events, k);
              && after.streams[k].drops == OnlineDrops(ns)
              && after.streams[k].last == if ns == [] then None else Some(ns[|ns| - 1])
    {
      LastEvent(m.events, after.events[|m.events|], k);
    }
  }

  lemma {:induction false} AddFramesRecordsDrops(
      m: SteadyMetrics.Metrics, frames: seq<SteadyMetrics.Frame>, hostNs: int)
    requires DropsRecorded(m)
    ensures DropsRecorded(SteadyMetrics.AddFrames(m, frames, hostNs).0)
    decreases |frames|
  {
    if frames != [] && SteadyMetrics.FrameError(m, frames[0]).NoError? {
      AddFrameRecordsDrops(m, frames[0], hostNs);
      AddFramesRecordsDrops(SteadyMetrics.AddFrame(m, frames[0], hostNs), frames[1..], hostNs);
    }
  }

  lemma SameDrops(m: SteadyMetrics.Metrics, after: SteadyMetrics.Metrics)
    requires DropsRecorded(m) && after.streams == m.streams && after.events == m.events
    ensures DropsRecorded(after)
  {
  }

  /** Every delivery keeps the recorded drops equal to the forward jumps of the
      stored events, from the prepared state on. */
  lemma DeliveryRecordsDrops(
      m: SteadyMetrics.Metrics, d: SteadyMetrics.Delivery, enabled: bool, opts: SteadyMetrics.Options)
    requires DropsRecorded(m)
    ensures DropsRecorded(SteadyMetrics.RecordDelivery(m, d, enabled, opts).metrics)
  {
    var counted := SteadyMetrics.CountDelivery(m, d).0;
    var after := SteadyMetrics.RecordDelivery(m, d, enabled, opts).metrics;
    SameDrops(m, counted);
    AddFramesRecordsDrops(counted, d.frames, d.hostNs);
    var stored := SteadyMetrics.AddFrames(counted, d.frames, d.hostNs).0;
    if after.streams == m.streams && after.events == m.events {
      SameDrops(m, after);
    } else {
      SameDrops(stored, after);
    }
  }

  function RowsOf(c: nat, events: seq<SteadyMetrics.Event>): seq<Row> {
    if |events| == 0 then []
    else
      var n := |events| - 1;
      RowsOf(c, events[..n]) + [Row(c, events[n].delivery, events[n].stream, events[n].number)]
  }

  lemma {:induction false} RowNumbers(c: nat, events: seq<SteadyMetrics.Event>, k: SteadyMetrics.Stream)
    ensures Numbers(RowsOf(c, events), (c, k)) == EventNumbers(events, k)
  {
    if |events| > 0 {
      var n := |events| - 1;
      RowNumbers(c, events[..n], k);
      var rows := RowsOf(c, events);
      assert rows[..|rows| - 1] == RowsOf(c, events[..n]);
    }
  }

  /** A camera without a late frame on a stream reports as gaps exactly the drops
      it counted while recording. */
  lemma RecordedDropsEqualGaps(m: SteadyMetrics.Metrics, c: nat, k: SteadyMetrics.Stream)
    requires DropsRecorded(m) && k in m.streams
    requires (c, k) in Analyze(RowsOf(c, m.events)).streams
    requires Analyze(RowsOf(c, m.events)).streams[(c, k)].outOfOrder == 0
    ensures m.streams[k].drops == Analyze(RowsOf(c, m.events)).streams[(c, k)].gaps
  {
    RowNumbers(c, m.events, k);
    FreshnessOfStream(RowsOf(c, m.events), (c, k));
    StreamCountersMeaning(EventNumbers(m.events, k));
  }
}
