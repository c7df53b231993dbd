/** The event sweep of the ninja build-time report.  One pass over the sorted
    start/stop events charges every task its share of wall time through a single
    running total; the specification is the integral of 1/concurrency. */
module BuildTimeSweep {
  import opened Collections

  class Target {
    const start: real
    const end: real
    var weightedDuration: real

    constructor (start: real, end: real)
      ensures this.start == start && this.end == end && weightedDuration == 0.0
    {
      this.start, this.end, weightedDuration := start, end, 0.0;
    }
  }

  datatype Action = Start | Stop
  datatype Event = Event(time: real, action: Action, target: Target)

  function StartOf(t: Target): Event { Event(t.start, Start, t) }
  function StopOf(t: Target): Event { Event(t.end, Stop, t) }

  /** The sort key is (time, action name) and "start" precedes "stop". */
  predicate NotAfter(e: Event, f: Event) {
    e.time < f.time || (e.time == f.time && (e.action.Start? || f.action.Stop?))
  }

  ghost predicate InOrder(events: seq<Event>) {
    forall i, j :: 0 <= i < j < |events| ==> NotAfter(events[i], events[j])
  }

  /** The events of all entries, each exactly once, in any order. */
  ghost predicate EventsOf(entries: seq<Target>, events: seq<Event>) {
    && Distinct(events)
    && (forall t :: t in entries ==> StartOf(t) in events && StopOf(t) in events)
    && (forall e :: e in events ==> e.target in entries && (e == StartOf(e.target) || e == StopOf(e.target)))
  }

  /** Any arrangement the sort may produce: ties are left open. */
  ghost predicate Schedule(entries: seq<Target>, events: seq<Event>) {
    EventsOf(entries, events) && InOrder(events)
  }

  // ----- the specification: quantities integrated over a partition of the time line

  ghost predicate SortedTimes(p: seq<real>) {
    forall i, j :: 0 <= i < j < |p| ==> p[i] <= p[j]
  }

  /** A sorted list of points that contains every start and every end. */
  ghost predicate Partition(entries: seq<Target>, p: seq<real>) {
    SortedTimes(p) && forall t :: t in entries ==> t.start in p && t.end in p
  }

  /** The tasks that run during the whole of the cell [a, b]. */
  ghost function RunningDuring(entries: seq<Target>, a: real, b: real): set<Target> {
    set t | t in entries && t.start <= a && b <= t.end
  }

  datatype Quantity =
    | Share(task: Target)          // integral of 1/concurrency over the task's interval
    | Busy                         // measure of the union of all intervals
    | Idle(from: real, to: real)   // time in [from, to] during which nothing runs

  ghost function OnCell(q: Quantity, entries: seq<Target>, a: real, b: real): real {
    var running := RunningDuring(entries, a, b);
    if a >= b then 0.0 else
      match q
      case Share(t) => if t in running then (b - a) / |running| as real else 0.0
      case Busy => if running != {} then b - a else 0.0
      case Idle(lo, hi) => if running == {} && lo <= a && b <= hi then b - a else 0.0
  }

  ghost function Total(q: Quantity, entries: seq<Target>, p: seq<real>): real {
    if |p| < 2 then 0.0
    else Total(q, entries, p[..|p| - 1]) + OnCell(q, entries, p[|p| - 2], p[|p| - 1])
  }

  // ----- the totals do not depend on the partition

  ghost predicate BreakFree(q: Quantity, entries: seq<Target>, a: real, b: real) {
    && (forall t :: t in entries ==> !(a < t.start < b) && !(a < t.end < b))
    && (q.Idle? ==> !(a < q.from < b) && !(a < q.to < b))
  }

  ghost predicate Grid(q: Quantity, entries: seq<Target>, p: seq<real>) {
    SortedTimes(p) && forall i :: 0 < i < |p| ==> BreakFree(q, entries, p[i - 1], p[i])
  }

  ghost predicate Bounded(q: Quantity, p: seq<real>) {
    q.Idle? ==> q.from in p && q.to in p
  }

  ghost function Insert(p: seq<real>, c: real): (r: seq<real>)
    ensures |r| == |p| + 1
  {
    if p == [] || p[|p| - 1] <= c then p + [c]
    else Insert(p[..|p| - 1], c) + [p[|p| - 1]]
  }

  ghost function InsertAll(p: seq<real>, q: seq<real>): seq<real>
    decreases |q|
  {
    if q == [] then p else InsertAll(Insert(p, q[0]), q[1..])
  }

  lemma {:induction false} InsertBag(p: seq<real>, c: real)
    ensures multiset(Insert(p, c)) == multiset(p) + multiset{c}
  {
    if p != [] && p[|p| - 1] > c {
      InsertBag(p[..|p| - 1], c);
      assert p == p[..|p| - 1] + [p[|p| - 1]];
    }
  }

  lemma {:induction false} InsertAllBag(p: seq<real>, q: seq<real>)
    ensures multiset(InsertAll(p, q)) == multiset(p) + multiset(q)
    decreases |q|
  {
    if q != [] {
      InsertBag(p, q[0]);
      InsertAllBag(Insert(p, q[0]), q[1..]);
      assert q == [q[0]] + q[1..];
    }
  }

  lemma PartitionIsGrid(q: Quantity, entries: seq<Target>, p: seq<real>)
    requires Partition(entries, p) && Bounded(q, p)
    ensures Grid(q, entries, p)
  {
    forall i, x | 0 < i < |p| && x in p
      ensures !(p[i - 1] < x < p[i])
    {
      var k :| 0 <= k < |p| && p[k] == x;
    }
  }

  lemma SplitCell(q: Quantity, entries: seq<Target>, a: real, c: real, b: real)
    requires a <= c <= b && BreakFree(q, entries, a, b)
    ensures OnCell(q, entries, a, b) == OnCell(q, entries, a, c) + OnCell(q, entries, c, b)
  {
    if a < c < b {
      assert RunningDuring(entries, a, c) == RunningDuring(entries, a, b);
      assert RunningDuring(entries, c, b) == RunningDuring(entries, a, b);
      var n := |RunningDuring(entries, a, b)|;
      hide RunningDuring;
      if n > 0 { DivSum(c - a, b - c, n as real); }
    }
  }

  lemma DivSum(x: real, y: real, n: real)
    requires n > 0.0
    ensures (x + y) / n == x / n + y / n
  {
  }

  lemma {:induction false} InsertedFrom(p: seq<real>, c: real, x: real)
    requires x in Insert(p, c)
    ensures x == c || x in p
  {
    if p != [] && p[|p| - 1] > c && x != p[|p| - 1] { InsertedFrom(p[..|p| - 1], c, x); }
  }

  lemma {:induction false} InsertSorted(p: seq<real>, c: real)
    requires SortedTimes(p)
    ensures SortedTimes(Insert(p, c))
  {
    if p != [] && p[|p| - 1] > c {
      var last := p[|p| - 1];
      var r := Insert(p[..|p| - 1], c);
      InsertSorted(p[..|p| - 1], c);
      forall i | 0 <= i < |r| ensures r[i] <= last { InsertedFrom(p[..|p| - 1], c, r[i]); }
      assert Insert(p, c) == r + [last];
    }
  }

  lemma TotalSnoc(q: Quantity, entries: seq<Target>, p: seq<real>, b: real)
    ensures p != [] ==>
              Total(q, entries, p + [b]) == Total(q, entries, p) + OnCell(q, entries, p[|p| - 1], b)
  {
    assert (p + [b])[..|p|] == p;
  }

  lemma GridFront(q: Quantity, entries: seq<Target>, p: seq<real>)
    requires Grid(q, entries, p) && p != []
    ensures Grid(q, entries, p[..|p| - 1])
    ensures |p| > 1 ==> BreakFree(q, entries, p[|p| - 2], p[|p| - 1])
  {
  }

  /** Inserting a point before the last one leaves the total as it is. */
  lemma {:induction false} InsertInside(q: Quantity, entries: seq<Target>, p: seq<real>, c: real)
    requires Grid(q, entries, p) && p != [] && c < p[|p| - 1]
    requires c < p[0] ==> OnCell(q, entries, c, p[0]) == 0.0
    ensures Total(q, entries, Insert(p, c)) == Total(q, entries, p)
  {
    hide OnCell, BreakFree, Grid;
    var n := |p|;
    var front, last := p[..n - 1], p[n - 1];
    var r := Insert(front, c);
    TotalSnoc(q, entries, r, last);
    GridFront(q, entries, p);
    if n == 1 {
      assert r == [c];
    } else if front[n - 2] <= c {
      TotalSnoc(q, entries, front, c);
      SplitCell(q, entries, p[n - 2], c, last);
    } else {
      assert r[|r| - 1] == front[n - 2];
      InsertInside(q, entries, front, c);
    }
  }

  lemma InsertKeepsPoints(q: Quantity, entries: seq<Target>, p: seq<real>, c: real)
    requires Partition(entries, p) && Bounded(q, p)
    ensures Partition(entries, Insert(p, c)) && Bounded(q, Insert(p, c))
  {
    InsertSorted(p, c);
    InsertBag(p, c);
    forall x | x in p ensures x in Insert(p, c) { assert x in multiset(Insert(p, c)); }
  }

  lemma OutsideIsZero(q: Quantity, entries: seq<Target>, p: seq<real>, a: real, b: real)
    requires Partition(entries, p) && Bounded(q, p) && p != []
    requires b <= p[0] || p[|p| - 1] <= a
    requires q.Share? ==> q.task in entries
    ensures OnCell(q, entries, a, b) == 0.0
  {
    assert forall x :: x in p ==> p[0] <= x <= p[|p| - 1];
    if a < b {
      assert RunningDuring(entries, a, b) == {};
    }
  }

  lemma InsertKeepsTotal(q: Quantity, entries: seq<Target>, p: seq<real>, c: real)
    requires Partition(entries, p) && Bounded(q, p) && p != []
    requires q.Share? ==> q.task in entries
    ensures Partition(entries, Insert(p, c)) && Bounded(q, Insert(p, c))
    ensures Total(q, entries, Insert(p, c)) == Total(q, entries, p)
  {
    hide OnCell, Partition, Bounded, Grid;
    InsertKeepsPoints(q, entries, p, c);
    if p[|p| - 1] <= c {
      TotalSnoc(q, entries, p, c);
      OutsideIsZero(q, entries, p, p[|p| - 1], c);
    } else {
      PartitionIsGrid(q, entries, p);
      if c < p[0] { OutsideIsZero(q, entries, p, c, p[0]); }
      InsertInside(q, entries, p, c);
    }
  }

  lemma {:induction false} InsertAllKeepsTotal(q: Quantity, entries: seq<Target>, p: seq<real>, more: seq<real>)
    requires Partition(entries, p) && Bounded(q, p) && p != []
    requires q.Share? ==> q.task in entries
    ensures SortedTimes(InsertAll(p, more))
    ensures Total(q, entries, InsertAll(p, more)) == Total(q, entries, p)
    decreases |more|
  {
    if more != [] {
      InsertKeepsTotal(q, entries, p, more[0]);
      InsertAllKeepsTotal(q, entries, Insert(p, more[0]), more[1..]);
    }
  }

  lemma LastIsMax(p: seq<real>, x: real)
    requires SortedTimes(p) && x in multiset(p)
    ensures p != [] && x <= p[|p| - 1]
  {
    var i :| 0 <= i < |p| && p[i] == x;
  }

  lemma WithoutLast(p: seq<real>)
    requires p != []
    ensures multiset(p[..|p| - 1]) == multiset(p) - multiset{p[|p| - 1]}
  {
    assert p == p[..|p| - 1] + [p[|p| - 1]];
  }

  lemma SameLast(p: seq<real>, r: seq<real>)
    requires SortedTimes(p) && SortedTimes(r) && multiset(p) == multiset(r) && p != []
    ensures |p| == |r| && p[|p| - 1] == r[|p| - 1]
  {
    assert |multiset(p)| == |p| && |multiset(r)| == |r|;
    assert p[|p| - 1] in multiset(p) && r[|r| - 1] in multiset(r);
    LastIsMax(r, p[|p| - 1]);
    LastIsMax(p, r[|r| - 1]);
  }

  lemma {:induction false} SortedIsUnique(p: seq<real>, r: seq<real>)
    requires SortedTimes(p) && SortedTimes(r) && multiset(p) == multiset(r)
    ensures p == r
    decreases |p|
  {
    if p == [] {
      assert r == [] by { assert |multiset(r)| == |r|; }
    } else {
      SameLast(p, r);
      var n := |p| - 1;
      var p', r' := p[..n], r[..n];
      assert multiset(p') == multiset(r') by {
        WithoutLast(p);
        WithoutLast(r);
      }
      SortedIsUnique(p', r');
      assert forall i :: 0 <= i < n ==> p[i] == p'[i] && r[i] == r'[i];
    }
  }

  /** Any two partitions that contain all the endpoints give the same total:
      the totals are integrals, not artefacts of one list of events. */
  lemma TotalIsAnIntegral(q: Quantity, entries: seq<Target>, p: seq<real>, r: seq<real>)
    requires Partition(entries, p) && Partition(entries, r) && p != [] && r != []
    requires Bounded(q, p) && Bounded(q, r)
    requires q.Share? ==> q.task in entries
    ensures Total(q, entries, p) == Total(q, entries, r)
  {
    InsertAllKeepsTotal(q, entries, p, r);
    InsertAllKeepsTotal(q, entries, r, p);
    InsertAllBag(p, r);
    InsertAllBag(r, p);
    SortedIsUnique(InsertAll(p, r), InsertAll(r, p));
  }

  // ----- what the events processed so far say about a task

  ghost function Times(events: seq<Event>): (p: seq<real>)
    ensures |p| == |events|
    ensures forall i :: 0 <= i < |p| ==> p[i] == events[i].time
  {
    seq(|events|, i requires 0 <= i < |events| => events[i].time)
  }

  lemma TimesArePartition(entries: seq<Target>, events: seq<Event>)
    requires Schedule(entries, events)
    ensures Partition(entries, Times(events))
  {
    forall t | t in entries ensures t.start in Times(events) && t.end in Times(events) {
      var i :| 0 <= i < |events| && events[i] == StartOf(t);
      var j :| 0 <= j < |events| && events[j] == StopOf(t);
      assert Times(events)[i] == t.start && Times(events)[j] == t.end;
    }
  }

  ghost predicate Started(t: Target, events: seq<Event>, i: nat) requires i <= |events| {
    StartOf(t) in events[..i]
  }

  ghost predicate Stopped(t: Target, events: seq<Event>, i: nat) requires i <= |events| {
    StopOf(t) in events[..i]
  }

  /** Across a cell of positive length, the started and not yet stopped tasks are
      exactly the tasks that run over the whole cell. */
  lemma RunningIsConcurrency(entries: seq<Target>, events: seq<Event>, i: nat, t: Target)
    requires Schedule(entries, events) && 0 < i < |events| && t in entries
    requires events[i - 1].time < events[i].time
    ensures t in RunningDuring(entries, events[i - 1].time, events[i].time)
            <==> Started(t, events, i) && !Stopped(t, events, i)
  {
    var s :| 0 <= s < |events| && events[s] == StartOf(t);
    var e :| 0 <= e < |events| && events[e] == StopOf(t);
    assert Started(t, events, i) <==> s < i by {
      if Started(t, events, i) { var k :| 0 <= k < i && events[k] == StartOf(t); }
      if s < i { assert events[..i][s] == StartOf(t); }
    }
    assert Stopped(t, events, i) <==> e < i by {
      if Stopped(t, events, i) { var k :| 0 <= k < i && events[k] == StopOf(t); }
      if e < i { assert events[..i][e] == StopOf(t); }
    }
    assert s < i ==> s == i - 1 || NotAfter(events[s], events[i - 1]);
    assert s >= i ==> s == i || NotAfter(events[i], events[s]);
    assert e < i ==> e == i - 1 || NotAfter(events[e], events[i - 1]);
    assert e >= i ==> e == i || NotAfter(events[i], events[e]);
  }

  ghost function SoFar(q: Quantity, entries: seq<Target>, events: seq<Event>, i: nat): real
    requires i <= |events|
  {
    Total(q, entries, Times(events)[..i])
  }

  lemma SoFarInit(q: Quantity, entries: seq<Target>, events: seq<Event>)
    ensures SoFar(q, entries, events, 0) == 0.0
    ensures events != [] ==> SoFar(q, entries, events, 1) == 0.0
  {
  }

  lemma SoFarStep(q: Quantity, entries: seq<Target>, events: seq<Event>, i: nat)
    requires 0 < i < |events|
    ensures SoFar(q, entries, events, i + 1)
            == SoFar(q, entries, events, i) + OnCell(q, entries, events[i - 1].time, events[i].time)
  {
    var p := Times(events);
    assert p[..i + 1] == p[..i] + [p[i]];
    TotalSnoc(q, entries, p[..i], p[i]);
  }

  /** The running total moved on by dt: what every one of the running tasks is owed for it. */
  function Advanced(lastWeighted: real, running: map<Target, real>, dt: real): real {
    if |running| > 0 then lastWeighted + dt / |running| as real else lastWeighted
  }

  lemma EventShape(entries: seq<Target>, events: seq<Event>, i: nat)
    requires Schedule(entries, events) && i < |events|
    ensures events[i].target in entries
    ensures i > 0 ==> events[i - 1].time <= events[i].time
    ensures events[i] == if events[i].action.Start? then StartOf(events[i].target) else StopOf(events[i].target)
  {
    assert events[i] in events;
    assert i > 0 ==> NotAfter(events[i - 1], events[i]);
  }

  lemma RunningKeys(entries: seq<Target>, events: seq<Event>, i: nat, running: set<Target>)
    requires Schedule(entries, events) && 0 < i < |events| && events[i - 1].time < events[i].time
    requires forall t :: t in running ==> t in entries
    requires forall t :: t in entries ==> (t in running <==> Started(t, events, i) && !Stopped(t, events, i))
    ensures running == RunningDuring(entries, events[i - 1].time, events[i].time)
  {
    var a, b := events[i - 1].time, events[i].time;
    forall t | t in entries ensures t in running <==> t in RunningDuring(entries, a, b) {
      RunningIsConcurrency(entries, events, i, t);
    }
  }

  /** What the running total adds between two events is what every running task is owed. */
  lemma AdvanceCell(entries: seq<Target>, a: real, b: real, running: map<Target, real>, w: real, t: Target)
    requires a <= b
    requires a < b ==> running.Keys == RunningDuring(entries, a, b)
    ensures OnCell(Share(t), entries, a, b) == if t in running then Advanced(w, running, b - a) - w else 0.0
  {
    assert |running| == |running.Keys|;
    if t in running {
      assert running.Keys != {};
      if a == b { assert 0.0 / |running| as real == 0.0; }
    }
  }

  ghost function ChargedSum(ts: seq<Target>, m: map<Target, real>): real
    requires forall t :: t in ts ==> t in m
  {
    if ts == [] then 0.0 else m[ts[0]] + ChargedSum(ts[1..], m)
  }

  lemma {:induction false} ChargedZero(ts: seq<Target>, m: map<Target, real>)
    requires forall t :: t in ts ==> t in m && m[t] == 0.0
    ensures ChargedSum(ts, m) == 0.0
  {
    if ts != [] { ChargedZero(ts[1..], m); }
  }

  lemma {:induction false} ChargedUpdate(ts: seq<Target>, m: map<Target, real>, t: Target, x: real)
    requires Distinct(ts) && forall u :: u in ts ==> u in m
    requires t in m && m[t] == 0.0
    ensures ChargedSum(ts, m[t := x]) == ChargedSum(ts, m) + if t in ts then x else 0.0
  {
    if ts != [] {
      ChargedUpdate(ts[1..], m, t, x);
      assert t in ts <==> t == ts[0] || t in ts[1..];
    }
  }

  /** Where task t stands after i events. */
  ghost predicate Accounted(t: Target, duration: real, entries: seq<Target>, events: seq<Event>, i: nat,
                            running: map<Target, real>, lastWeighted: real)
    requires i <= |events|
  {
    var owed := SoFar(Share(t), entries, events, i);
    && (t in running <==> Started(t, events, i) && !Stopped(t, events, i))
    && (t in running ==> lastWeighted - running[t] == owed)
    && (Stopped(t, events, i) ==> Started(t, events, i) && t.start <= t.end && duration == owed)
    && (!Started(t, events, i) ==> owed == 0.0)
    && (!Stopped(t, events, i) ==> duration == 0.0)
  }

  lemma PrefixStep(events: seq<Event>, i: nat, e: Event)
    requires i < |events|
    ensures e in events[..i + 1] <==> e in events[..i] || e == events[i]
  {
    assert events[..i + 1] == events[..i] + [events[i]];
  }

  /** A stop that comes before its start belongs to a task that ends before it starts. */
  lemma StopBeforeStart(entries: seq<Target>, events: seq<Event>, i: nat)
    requires Schedule(entries, events) && i < |events| && events[i].action.Stop?
    requires !Started(events[i].target, events, i)
    ensures events[i].target in entries && events[i].target.end < events[i].target.start
  {
    var t := events[i].target;
    assert events[i] in events;
    var s :| 0 <= s < |events| && events[s] == StartOf(t);
    assert forall k :: 0 <= k < i ==> events[k] in events[..i];
    assert NotAfter(events[i], events[s]);
  }

  lemma StartBeforeStop(entries: seq<Target>, events: seq<Event>, i: nat)
    requires Schedule(entries, events) && i < |events| && events[i].action.Stop?
    requires Started(events[i].target, events, i)
    ensures events[i].target in entries && events[i].target.start <= events[i].target.end
  {
    var t := events[i].target;
    assert events[i] in events;
    var s :| 0 <= s < i && events[s] == StartOf(t);
    assert NotAfter(events[s], events[i]);
  }

  lemma NoRepeat(events: seq<Event>, i: nat)
    requires Distinct(events) && i < |events|
    ensures events[i] !in events[..i]
  {
  }

  /** The books after i events: `charged` holds what stopped tasks were given, 0 elsewhere. */
  ghost predicate Books(entries: seq<Target>, events: seq<Event>, i: nat,
                        running: map<Target, real>, lastWeighted: real, charged: map<Target, real>)
    requires i <= |events|
  {
    && (forall t :: t in running ==> t in entries)
    && (forall t :: t in entries ==> t in charged)
    && (forall t :: t in entries ==> Accounted(t, charged[t], entries, events, i, running, lastWeighted))
  }

  /** An account brought up to i + 1 by the running total, the events still being those before i. */
  ghost predicate Carried(t: Target, duration: real, entries: seq<Target>, events: seq<Event>, i: nat,
                          running: map<Target, real>, lastWeighted: real)
    requires i < |events|
  {
    var owed := SoFar(Share(t), entries, events, i + 1);
    && (t in running <==> Started(t, events, i) && !Stopped(t, events, i))
    && (t in running ==> lastWeighted - running[t] == owed)
    && (Stopped(t, events, i) ==> Started(t, events, i) && t.start <= t.end && duration == owed)
    && (!Started(t, events, i) ==> owed == 0.0)
    && (!Stopped(t, events, i) ==> duration == 0.0)
  }

  /** The books between accumulating time for event i and acting on it. */
  ghost predicate OpenBooks(entries: seq<Target>, events: seq<Event>, i: nat,
                            running: map<Target, real>, lastWeighted: real, charged: map<Target, real>)
    requires i < |events|
  {
    && (forall t :: t in running ==> t in entries)
    && (forall t :: t in entries ==> t in charged)
    && (forall t :: t in entries ==> Carried(t, charged[t], entries, events, i, running, lastWeighted))
  }

  lemma CarryTask(t: Target, duration: real, entries: seq<Target>, events: seq<Event>, i: nat,
                  running: map<Target, real>, lastWeighted: real, carried: real)
    requires i < |events|
    requires Accounted(t, duration, entries, events, i, running, lastWeighted)
    requires SoFar(Share(t), entries, events, i + 1)
             == SoFar(Share(t), entries, events, i) + if t in running then carried - lastWeighted else 0.0
    ensures Carried(t, duration, entries, events, i, running, carried)
  {
  }

  lemma BooksKeys(entries: seq<Target>, events: seq<Event>, i: nat, running: map<Target, real>,
                  lastWeighted: real, charged: map<Target, real>)
    requires Schedule(entries, events) && 0 < i < |events| && events[i - 1].time < events[i].time
    requires Books(entries, events, i, running, lastWeighted, charged)
    ensures running.Keys == RunningDuring(entries, events[i - 1].time, events[i].time)
  {
    assert forall t :: t in entries ==> Accounted(t, charged[t], entries, events, i, running, lastWeighted);
    RunningKeys(entries, events, i, running.Keys);
  }

  /** Accumulating up to event i brings every account to i + 1 without moving any task. */
  lemma BooksAdvance(entries: seq<Target>, events: seq<Event>, i: nat, running: map<Target, real>,
                     lastWeighted: real, charged: map<Target, real>, lastTime: real)
    requires Schedule(entries, events) && i < |events|
    requires Books(entries, events, i, running, lastWeighted, charged)
    requires if i == 0 then running == map[] else lastTime == events[i - 1].time
    ensures OpenBooks(entries, events, i, running,
                      Advanced(lastWeighted, running, events[i].time - lastTime), charged)
  {
    hide Accounted, Carried, OnCell, SoFar, Advanced, Schedule;
    var w := Advanced(lastWeighted, running, events[i].time - lastTime);
    if i > 0 {
      EventShape(entries, events, i);
      if lastTime < events[i].time {
        BooksKeys(entries, events, i, running, lastWeighted, charged);
      }
    }
    forall t | t in entries ensures Carried(t, charged[t], entries, events, i, running, w) {
      if i > 0 {
        AdvanceCell(entries, lastTime, events[i].time, running, lastWeighted, t);
        SoFarStep(Share(t), entries, events, i);
      } else {
        SoFarInit(Share(t), entries, events);
      }
      CarryTask(t, charged[t], entries, events, i, running, lastWeighted, w);
    }
  }

  lemma StartTask(t: Target, duration: real, entries: seq<Target>, events: seq<Event>, i: nat,
                  running: map<Target, real>, w: real)
    requires Schedule(entries, events) && i < |events| && events[i].action.Start?
    requires Carried(t, duration, entries, events, i, running, w)
    ensures Accounted(t, duration, entries, events, i + 1, running[events[i].target := w], w)
    ensures Stopped(t, events, i + 1) <==> Stopped(t, events, i)
  {
    EventShape(entries, events, i);
    NoRepeat(events, i);
    PrefixStep(events, i, StartOf(t));
    PrefixStep(events, i, StopOf(t));
  }

  lemma StopTask(t: Target, duration: real, entries: seq<Target>, events: seq<Event>, i: nat,
                 running: map<Target, real>, w: real)
    requires Schedule(entries, events) && i < |events| && events[i].action.Stop?
    requires Carried(t, duration, entries, events, i, running, w)
    requires events[i].target in running && events[i].target.start <= events[i].target.end
    ensures Accounted(t, if t == events[i].target then w - running[t] else duration,
                      entries, events, i + 1, running - {events[i].target}, w)
    ensures Stopped(t, events, i + 1) <==> Stopped(t, events, i) || t == events[i].target
  {
    EventShape(entries, events, i);
    NoRepeat(events, i);
    PrefixStep(events, i, StartOf(t));
    PrefixStep(events, i, StopOf(t));
  }

  lemma StopTarget(entries: seq<Target>, events: seq<Event>, i: nat, running: map<Target, real>,
                   w: real, duration: real)
    requires Schedule(entries, events) && i < |events| && events[i].action.Stop?
    requires events[i].target in running
    requires Carried(events[i].target, duration, entries, events, i, running, w)
    ensures events[i].target in entries && duration == 0.0
    ensures events[i].target.start <= events[i].target.end
  {
    EventShape(entries, events, i);
    StartBeforeStop(entries, events, i);
  }

  lemma BooksStart(entries: seq<Target>, events: seq<Event>, i: nat, running: map<Target, real>,
                   w: real, charged: map<Target, real>)
    requires Schedule(entries, events) && i < |events| && events[i].action.Start?
    requires OpenBooks(entries, events, i, running, w, charged)
    ensures Books(entries, events, i + 1, running[events[i].target := w], w, charged)
  {
    EventShape(entries, events, i);
    forall t | t in entries
      ensures Accounted(t, charged[t], entries, events, i + 1, running[events[i].target := w], w)
    {
      StartTask(t, charged[t], entries, events, i, running, w);
    }
  }

  lemma BooksStop(entries: seq<Target>, events: seq<Event>, i: nat, running: map<Target, real>,
                  w: real, charged: map<Target, real>)
    requires Schedule(entries, events) && i < |events| && events[i].action.Stop?
    requires events[i].target in running
    requires OpenBooks(entries, events, i, running, w, charged)
    ensures var target := events[i].target;
            && target in entries && charged[target] == 0.0
            && Books(entries, events, i + 1, running - {target}, w, charged[target := w - running[target]])
  {
    hide Schedule, Carried, Accounted;
    var target := events[i].target;
    assert Carried(target, charged[target], entries, events, i, running, w);
    StopTarget(entries, events, i, running, w, charged[target]);
    var charged' := charged[target := w - running[target]];
    forall t | t in entries
      ensures Accounted(t, charged'[t], entries, events, i + 1, running - {target}, w)
    {
      StopTask(t, charged[t], entries, events, i, running, w);
    }
  }

  /** A stop that finds its task missing from the running table. */
  lemma MissingMeansReversed(entries: seq<Target>, events: seq<Event>, i: nat, running: map<Target, real>,
                             lastWeighted: real, charged: map<Target, real>)
    requires Schedule(entries, events) && i < |events| && events[i].action.Stop?
    requires Books(entries, events, i, running, lastWeighted, charged)
    requires events[i].target !in running
    ensures events[i].target in entries && events[i].target.end < events[i].target.start
  {
    var target := events[i].target;
    assert events[i] in events && events[i] == StopOf(target);
    assert Accounted(target, charged[target], entries, events, i, running, lastWeighted);
    NoRepeat(events, i);
    StopBeforeStart(entries, events, i);
  }

  lemma BooksInit(entries: seq<Target>, events: seq<Event>, charged: map<Target, real>)
    requires forall t :: t in entries ==> t in charged && charged[t] == 0.0
    ensures Books(entries, events, 0, map[], 0.0, charged)
  {
  }

  lemma BooksClosed(entries: seq<Target>, events: seq<Event>, running: map<Target, real>,
                    lastWeighted: real, charged: map<Target, real>)
    requires Schedule(entries, events)
    requires Books(entries, events, |events|, running, lastWeighted, charged)
    ensures running == map[]
    ensures forall t :: t in entries ==> Stopped(t, events, |events|) && t.start <= t.end
    ensures forall t :: t in entries ==> charged[t] == Total(Share(t), entries, Times(events))
  {
    assert events[..|events|] == events && Times(events)[..|events|] == Times(events);
    forall t | t in entries
      ensures t !in running && Stopped(t, events, |events|) && t.start <= t.end
      ensures charged[t] == Total(Share(t), entries, Times(events))
    {
      assert Accounted(t, charged[t], entries, events, |events|, running, lastWeighted);
    }
  }

  /** The one-pass sweep.  It fails on a task that stops before it started; no task is left running after it. */
  method Sweep(entries: seq<Target>, events: seq<Event>)
    returns (ok: bool, weightedTotal: real, running: map<Target, real>, ghost charged: map<Target, real>)
    requires Distinct(entries) && Schedule(entries, events) && events != []
    modifies entries
    ensures ok <==> forall t :: t in entries ==> t.start <= t.end
    ensures ok ==> forall t :: t in entries ==>
                                 t in charged && t.weightedDuration == charged[t]
                                     == Total(Share(t), entries, Times(events))
    ensures ok ==> weightedTotal == ChargedSum(entries, charged) && running == map[]
  {
    hide Schedule, Distinct, Accounted, OpenBooks, Advanced;
    running := map[];
    var lastTime, lastWeighted := events[0].time, 0.0;
    weightedTotal := 0.0;
    charged := map t | t in entries :: 0.0;
    ChargedZero(entries, charged);
    BooksInit(entries, events, charged);
    for i := 0 to |events|
      invariant if i == 0 then running == map[] else lastTime == events[i - 1].time
      invariant Books(entries, events, i, running, lastWeighted, charged)
      invariant forall t :: t in entries && Stopped(t, events, i) ==> t.weightedDuration == charged[t]
      invariant weightedTotal == ChargedSum(entries, charged)
    {
      var time, target := events[i].time, events[i].target;
      EventShape(entries, events, i);
      BooksAdvance(entries, events, i, running, lastWeighted, charged, lastTime);
      ghost var before := lastWeighted;
      lastWeighted := Advanced(lastWeighted, running, time - lastTime);
      match events[i].action {
        case Start =>
          BooksStart(entries, events, i, running, lastWeighted, charged);
          running := running[target := lastWeighted];
        case Stop =>
          if target !in running {
            MissingMeansReversed(entries, events, i, running, before, charged);
            return false, weightedTotal, running, charged;
          }
          BooksStop(entries, events, i, running, lastWeighted, charged);
          var weightedDuration := lastWeighted - running[target];
          target.weightedDuration := weightedDuration;
          weightedTotal := weightedTotal + weightedDuration;
          ChargedUpdate(entries, charged, target, weightedDuration);
          charged := charged[target := weightedDuration];
          running := running - {target};
      }
      lastTime := time;
    }
    BooksClosed(entries, events, running, lastWeighted, charged);
    ok := running == map[];
  }

  // ----- conservation: the shares add up to the busy time

  ghost function CellSum(ts: seq<Target>, entries: seq<Target>, a: real, b: real): real {
    if ts == [] then 0.0 else OnCell(Share(ts[0]), entries, a, b) + CellSum(ts[1..], entries, a, b)
  }

  ghost function SumShares(ts: seq<Target>, entries: seq<Target>, p: seq<real>): real {
    if ts == [] then 0.0 else Total(Share(ts[0]), entries, p) + SumShares(ts[1..], entries, p)
  }

  lemma {:induction false} SumSharesSnoc(ts: seq<Target>, entries: seq<Target>, p: seq<real>, b: real)
    requires p != []
    ensures SumShares(ts, entries, p + [b])
            == SumShares(ts, entries, p) + CellSum(ts, entries, p[|p| - 1], b)
  {
    hide OnCell, Total;
    if ts != [] {
      TotalSnoc(Share(ts[0]), entries, p, b);
      SumSharesSnoc(ts[1..], entries, p, b);
    }
  }

  lemma CountStep(ts: seq<Target>, running: set<Target>)
    requires ts != [] && ts[0] !in ts[1..]
    ensures |set t | t in ts && t in running|
            == |set t | t in ts[1..] && t in running| + if ts[0] in running then 1 else 0
  {
    var here := set t | t in ts && t in running;
    var rest := set t | t in ts[1..] && t in running;
    assert here == if ts[0] in running then rest + {ts[0]} else rest;
  }

  lemma {:induction false} CellSumCounts(ts: seq<Target>, entries: seq<Target>, a: real, b: real,
                                         running: set<Target>, rate: real)
    requires Distinct(ts)
    requires forall t :: t in ts ==> OnCell(Share(t), entries, a, b) == if t in running then rate else 0.0
    ensures CellSum(ts, entries, a, b) == |set t | t in ts && t in running| as real * rate
  {
    hide OnCell;
    if ts == [] {
      assert (set t | t in ts && t in running) == {};
    } else {
      CellSumCounts(ts[1..], entries, a, b, running, rate);
      CountStep(ts, running);
      ScaleStep(|set t | t in ts[1..] && t in running|, rate);
    }
  }

  lemma ScaleStep(n: nat, rate: real)
    ensures (n + 1) as real * rate == n as real * rate + rate
  {
    assert (n + 1) as real == n as real + 1.0;
  }

  lemma CellConserved(entries: seq<Target>, a: real, b: real)
    requires Distinct(entries)
    ensures CellSum(entries, entries, a, b) == OnCell(Busy, entries, a, b)
  {
    var running := RunningDuring(entries, a, b);
    var rate := if a < b && running != {} then (b - a) / |running| as real else 0.0;
    forall t | t in entries
      ensures OnCell(Share(t), entries, a, b) == if t in running then rate else 0.0
    {}
    CellSumCounts(entries, entries, a, b, running, rate);
    assert (set t | t in entries && t in running) == running;
    if a < b && running != {} {
      assert |running| as real * ((b - a) / |running| as real) == b - a;
    }
  }

  lemma {:induction false} SumSharesOfPoint(ts: seq<Target>, entries: seq<Target>, p: seq<real>)
    requires |p| < 2
    ensures SumShares(ts, entries, p) == 0.0
  {
    if ts != [] { SumSharesOfPoint(ts[1..], entries, p); }
  }

  /** The weighted durations add up to the time during which at least one task runs. */
  lemma {:induction false} SharesSumToBusy(entries: seq<Target>, p: seq<real>)
    requires Distinct(entries)
    ensures SumShares(entries, entries, p) == Total(Busy, entries, p)
    decreases |p|
  {
    if |p| < 2 {
      SumSharesOfPoint(entries, entries, p);
    } else {
      var n := |p| - 1;
      assert p == p[..n] + [p[n]];
      SumSharesSnoc(entries, entries, p[..n], p[n]);
      CellConserved(entries, p[n - 1], p[n]);
      SharesSumToBusy(entries, p[..n]);
    }
  }

  /** Every instant of [lo, hi] is busy or idle, and neither amount is negative. */
  lemma {:induction false} BusyPlusIdle(entries: seq<Target>, p: seq<real>, lo: real, hi: real)
    requires SortedTimes(p) && p != [] && lo <= p[0] && p[|p| - 1] <= hi
    ensures Total(Busy, entries, p) + Total(Idle(lo, hi), entries, p) == p[|p| - 1] - p[0]
    ensures Total(Idle(lo, hi), entries, p) >= 0.0
  {
    if |p| > 1 {
      BusyPlusIdle(entries, p[..|p| - 1], lo, hi);
    }
  }

  lemma DivBound(x: real, n: real)
    requires x >= 0.0 && n >= 1.0
    ensures 0.0 <= x / n <= x
  {
    assert x / n * n == x;
  }

  /** A share is never negative and never exceeds the part of the task's interval walked so far. */
  lemma {:induction false} ShareWithinDuration(t: Target, entries: seq<Target>, p: seq<real>)
    requires SortedTimes(p) && t in entries && t.start <= t.end
    ensures 0.0 <= Total(Share(t), entries, p)
    ensures |p| > 0 && p[0] >= t.start ==> Total(Share(t), entries, p) <= p[|p| - 1] - p[0]
    ensures Total(Share(t), entries, p) <= t.end - t.start
    ensures |p| > 0 && p[|p| - 1] >= t.start ==> Total(Share(t), entries, p) <= p[|p| - 1] - t.start
    ensures |p| > 0 && p[|p| - 1] <= t.start ==> Total(Share(t), entries, p) == 0.0
  {
    if |p| > 1 {
      var n := |p| - 1;
      ShareWithinDuration(t, entries, p[..n]);
      var a, b := p[n - 1], p[n];
      var running := RunningDuring(entries, a, b);
      if a < b && t in running {
        assert running != {} && |running| >= 1;
        DivBound(b - a, |running| as real);
      }
    }
  }

  // ----- the report

  method SortEvents(events: seq<Event>) returns (sorted: seq<Event>)
    ensures InOrder(sorted) && multiset(sorted) == multiset(events)
  {
    sorted := [];
    for i := 0 to |events|
      invariant InOrder(sorted) && multiset(sorted) == multiset(events[..i])
    {
      var k := |sorted|;
      while k > 0 && !NotAfter(sorted[k - 1], events[i])
        invariant 0 <= k <= |sorted|
        invariant forall j :: k <= j < |sorted| ==> NotAfter(events[i], sorted[j])
      {
        k := k - 1;
      }
      InsertEvent(sorted, k, events[i]);
      InsertEventBag(sorted, k, events[i]);
      sorted := sorted[..k] + [events[i]] + sorted[k..];
      assert events[..i + 1] == events[..i] + [events[i]];
    }
    assert events[..|events|] == events;
  }

  lemma InsertEvent(sorted: seq<Event>, k: nat, e: Event)
    requires InOrder(sorted) && k <= |sorted|
    requires k > 0 ==> NotAfter(sorted[k - 1], e)
    requires forall j :: k <= j < |sorted| ==> NotAfter(e, sorted[j])
    ensures InOrder(sorted[..k] + [e] + sorted[k..])
  {
    forall j | 0 <= j < k ensures NotAfter(sorted[j], e) {
      assert j == k - 1 || NotAfter(sorted[j], sorted[k - 1]);
    }
    InsertOrdered(sorted, k, e);
  }

  lemma InsertOrdered(sorted: seq<Event>, k: nat, e: Event)
    requires InOrder(sorted) && k <= |sorted|
    requires forall j :: 0 <= j < k ==> NotAfter(sorted[j], e)
    requires forall j :: k <= j < |sorted| ==> NotAfter(e, sorted[j])
    ensures InOrder(sorted[..k] + [e] + sorted[k..])
  {
    hide NotAfter;
    var r := sorted[..k] + [e] + sorted[k..];
    assert forall i :: 0 <= i < k ==> r[i] == sorted[i];
    assert forall i :: k < i < |r| ==> r[i] == sorted[i - 1];
  }

  lemma InsertEventBag(sorted: seq<Event>, k: nat, e: Event)
    requires k <= |sorted|
    ensures multiset(sorted[..k] + [e] + sorted[k..]) == multiset(sorted) + multiset{e}
  {
    assert sorted == sorted[..k] + sorted[k..];
  }

  lemma {:induction false} DistinctBag<T>(s: seq<T>, x: T)
    requires Distinct(s)
    ensures multiset(s)[x] <= 1
  {
    if s != [] {
      DistinctBag(s[1..], x);
      assert s == [s[0]] + s[1..];
      assert s[0] !in s[1..];
    }
  }

  lemma SameBagDistinct<T>(s: seq<T>, r: seq<T>)
    requires Distinct(s) && multiset(s) == multiset(r)
    ensures Distinct(r)
  {
    forall i, j | 0 <= i < j < |r| ensures r[i] != r[j] {
      DistinctBag(s, r[i]);
      assert r == r[..j] + [r[j]] + r[j + 1..];
      assert r[i] == r[..j][i];
    }
  }

  lemma SameBagEvents(entries: seq<Target>, s: seq<Event>, r: seq<Event>)
    requires EventsOf(entries, s) && multiset(s) == multiset(r)
    ensures EventsOf(entries, r)
  {
    SameBagDistinct(s, r);
    assert forall e :: e in r <==> e in multiset(r);
    assert forall e :: e in s <==> e in multiset(s);
  }

  ghost predicate Span(entries: seq<Target>, lo: real, hi: real) {
    && (exists t :: t in entries && t.start == lo)
    && (exists t :: t in entries && t.end == hi)
    && forall t :: t in entries ==> lo <= t.start && t.end <= hi
  }

  lemma ExtendEvents(entries: seq<Target>, i: nat, events: seq<Event>)
    requires Distinct(entries) && i < |entries| && EventsOf(entries[..i], events)
    ensures EventsOf(entries[..i + 1], events + [StartOf(entries[i]), StopOf(entries[i])])
  {
    var t := entries[i];
    assert t !in entries[..i];
    var more := events + [StartOf(t), StopOf(t)];
    assert entries[..i + 1] == entries[..i] + [t];
    forall a, b | 0 <= a < b < |more| ensures more[a] != more[b] {
      if a < |events| <= b { assert events[a] in events; }
    }
  }

  lemma StillSpan(entries: seq<Target>, i: nat, lo: real, hi: real, lo': real, hi': real)
    requires i < |entries|
    requires i > 0 ==> Span(entries[..i], lo, hi)
    requires lo' == if i == 0 || entries[i].start < lo then entries[i].start else lo
    requires hi' == if i == 0 || entries[i].end > hi then entries[i].end else hi
    ensures Span(entries[..i + 1], lo', hi')
  {
    assert entries[..i + 1] == entries[..i] + [entries[i]];
    assert entries[i] in entries[..i + 1];
    if i > 0 {
      var s :| s in entries[..i] && s.start == lo;
      var e :| e in entries[..i] && e.end == hi;
      assert s in entries[..i + 1] && e in entries[..i + 1];
    }
  }

  ghost function Durations(ts: seq<Target>): real {
    if ts == [] then 0.0 else Durations(ts[..|ts| - 1]) + (ts[|ts| - 1].end - ts[|ts| - 1].start)
  }

  lemma DurationsNext(ts: seq<Target>, i: nat)
    requires i < |ts|
    ensures Durations(ts[..i + 1]) == Durations(ts[..i]) + (ts[i].end - ts[i].start)
  {
    assert ts[..i + 1][..i] == ts[..i];
  }

  /** The first loop of the report: bounds, elapsed time and the event list. */
  method CollectEvents(entries: seq<Target>)
    returns (earliest: real, latest: real, totalCpuTime: real, events: seq<Event>)
    requires Distinct(entries) && forall t :: t in entries ==> 0.0 <= t.start
    ensures EventsOf(entries, events)
    ensures entries != [] && (forall t :: t in entries ==> t.start <= t.end) ==> Span(entries, earliest, latest)
    ensures totalCpuTime == Durations(entries)
  {
    earliest, latest, totalCpuTime, events := -1.0, 0.0, 0.0, [];
    assert entries[..0] == [];
    assert EventsOf(entries[..0], events) && Durations(entries[..0]) == 0.0;
    hide EventsOf, Durations;
    ghost var hi := 0.0;
    for i := 0 to |entries|
      invariant EventsOf(entries[..i], events)
      invariant if i == 0 then earliest < 0.0 else earliest >= 0.0 && Span(entries[..i], earliest, hi)
      invariant latest == if i > 0 && hi > 0.0 then hi else 0.0
      invariant totalCpuTime == Durations(entries[..i])
    {
      var target := entries[i];
      DurationsNext(entries, i);
      ghost var lo := earliest;
      if earliest < 0.0 || target.start < earliest {
        earliest := target.start;
      }
      if target.end > latest {
        latest := target.end;
      }
      totalCpuTime := totalCpuTime + (target.end - target.start);
      ghost var hi' := if i == 0 || target.end > hi then target.end else hi;
      StillSpan(entries, i, lo, hi, earliest, hi');
      ExtendEvents(entries, i, events);
      hi := hi';
      events := events + [StartOf(target), StopOf(target)];
    }
    assert entries[..|entries|] == entries;
  }

  lemma {:induction false} ChargedSumIsShares(ts: seq<Target>, entries: seq<Target>, p: seq<real>, m: map<Target, real>)
    requires forall t :: t in ts ==> t in m && m[t] == Total(Share(t), entries, p)
    ensures ChargedSum(ts, m) == SumShares(ts, entries, p)
  {
    if ts != [] { ChargedSumIsShares(ts[1..], entries, p, m); }
  }

  lemma TimeInSpan(entries: seq<Target>, events: seq<Event>, lo: real, hi: real, i: nat)
    requires Schedule(entries, events) && i < |events| && Span(entries, lo, hi)
    requires forall t :: t in entries ==> t.start <= t.end
    ensures lo <= events[i].time <= hi
  {
    hide Schedule;
    EventShape(entries, events, i);
  }

  lemma SpanInPartition(entries: seq<Target>, p: seq<real>, lo: real, hi: real)
    requires Partition(entries, p) && Span(entries, lo, hi)
    ensures lo in p && hi in p
  {
  }

  lemma TimesSpan(entries: seq<Target>, events: seq<Event>, lo: real, hi: real)
    requires Schedule(entries, events) && events != [] && Span(entries, lo, hi)
    requires forall t :: t in entries ==> t.start <= t.end
    ensures Times(events)[0] == lo && Times(events)[|events| - 1] == hi
    ensures Partition(entries, Times(events))
  {
    hide Schedule, Span;
    TimesArePartition(entries, events);
    var p, n := Times(events), |events|;
    SpanInPartition(entries, p, lo, hi);
    TimeInSpan(entries, events, lo, hi, 0);
    TimeInSpan(entries, events, lo, hi, n - 1);
    var i :| 0 <= i < n && p[i] == lo;
    var j :| 0 <= j < n && p[j] == hi;
    assert p[0] <= p[i] && p[j] <= p[n - 1];
  }

  /** The report does not depend on the order of the entries: every quantity is one of their set. */
  lemma {:induction false} OrderOfEntries(q: Quantity, entries: seq<Target>, other: seq<Target>, p: seq<real>)
    requires forall t :: t in entries <==> t in other
    ensures Partition(entries, p) <==> Partition(other, p)
    ensures Total(q, entries, p) == Total(q, other, p)
  {
    if |p| >= 2 {
      OrderOfEntries(q, entries, other, p[..|p| - 1]);
      assert RunningDuring(entries, p[|p| - 2], p[|p| - 1]) == RunningDuring(other, p[|p| - 2], p[|p| - 1]);
    }
  }

  datatype Outcome =
    | NoEntries        // indexing the first event of an empty list fails
    | TaskNotRunning   // a stop event does not find its task among the running ones
    | Summary(length: real, totalCpuTime: real, weightedTotal: real)

  method SummarizeEntries(entries: seq<Target>) returns (r: Outcome)
    requires Distinct(entries) && forall t :: t in entries ==> 0.0 <= t.start
    modifies entries
    ensures r.NoEntries? <==> entries == []
    ensures r.TaskNotRunning? <==> exists t :: t in entries && t.end < t.start
    ensures r.Summary? ==> forall t :: t in entries ==> 0.0 <= t.weightedDuration <= t.end - t.start
    ensures r.Summary? ==> forall p, t :: p != [] && Partition(entries, p) && t in entries ==>
                                            t.weightedDuration == Total(Share(t), entries, p)
    ensures r.Summary? ==> forall p :: p != [] && Partition(entries, p) ==>
                                         r.weightedTotal == Total(Busy, entries, p)
    ensures r.Summary? ==> r.totalCpuTime == Durations(entries)
    ensures r.Summary? ==> exists lo, hi :: Span(entries, lo, hi) && r.length == hi - lo
    ensures r.Summary? ==> forall lo, hi, p :: p != [] && Partition(entries, p) && Span(entries, lo, hi) ==>
                                                 r.length - r.weightedTotal == Total(Idle(lo, hi), entries, p) >= 0.0
  {
    var earliest, latest, totalCpuTime, events := CollectEvents(entries);
    var length := latest - earliest;
    if entries == [] {
      return NoEntries;
    }
    var sorted := SortEvents(events);
    SameBagEvents(entries, events, sorted);
    assert StartOf(entries[0]) in sorted;
    var ok, weightedTotal, _, charged := Sweep(entries, sorted);
    if !ok {
      return TaskNotRunning;
    }
    r := Summary(length, totalCpuTime, weightedTotal);
    ReportMeaning(entries, sorted, charged, earliest, latest);
  }

  lemma SpanUnique(entries: seq<Target>, lo: real, hi: real, lo': real, hi': real)
    requires Span(entries, lo, hi) && Span(entries, lo', hi')
    ensures lo == lo' && hi == hi'
  {
  }

  /** What one schedule charged is what every partition of the time line says. */
  lemma ReportMeaning(entries: seq<Target>, events: seq<Event>, charged: map<Target, real>, lo: real, hi: real)
    requires Distinct(entries) && Schedule(entries, events) && events != [] && Span(entries, lo, hi)
    requires forall t :: t in entries ==> t.start <= t.end
    requires forall t :: t in entries ==> t in charged && charged[t] == Total(Share(t), entries, Times(events))
    ensures forall t :: t in entries ==> 0.0 <= charged[t] <= t.end - t.start
    ensures forall p, t :: p != [] && Partition(entries, p) && t in entries ==>
                             charged[t] == Total(Share(t), entries, p)
    ensures forall p :: p != [] && Partition(entries, p) ==> ChargedSum(entries, charged) == Total(Busy, entries, p)
    ensures forall lo', hi', p :: p != [] && Partition(entries, p) && Span(entries, lo', hi') ==>
                                    (hi - lo) - ChargedSum(entries, charged) == Total(Idle(lo', hi'), entries, p) >= 0.0
  {
    var p0 := Times(events);
    TimesSpan(entries, events, lo, hi);
    SharesSumToBusy(entries, p0);
    ChargedSumIsShares(entries, entries, p0, charged);
    BusyPlusIdle(entries, p0, lo, hi);
    forall t | t in entries ensures 0.0 <= charged[t] <= t.end - t.start {
      ShareWithinDuration(t, entries, p0);
    }
    forall p, t | p != [] && Partition(entries, p) && t in entries
      ensures charged[t] == Total(Share(t), entries, p)
    {
      TotalIsAnIntegral(Share(t), entries, p0, p);
    }
    forall p | p != [] && Partition(entries, p)
      ensures ChargedSum(entries, charged) == Total(Busy, entries, p)
    {
      TotalIsAnIntegral(Busy, entries, p0, p);
    }
    forall lo', hi', p | p != [] && Partition(entries, p) && Span(entries, lo', hi')
      ensures (hi - lo) - ChargedSum(entries, charged) == Total(Idle(lo', hi'), entries, p) >= 0.0
    {
      SpanUnique(entries, lo, hi, lo', hi');
      SpanInPartition(entries, p, lo, hi);
      SpanInPartition(entries, p0, lo, hi);
      TotalIsAnIntegral(Idle(lo, hi), entries, p0, p);
    }
  }
}
