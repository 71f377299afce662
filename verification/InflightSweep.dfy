/** The event sweep that finds how many requests were in flight at once during a window. */
module InflightSweep {
  import opened Wrappers
  import opened Records
  import opened Sorting

  datatype Event = Event(time: real, delta: int)

  predicate Within(t: Option<real>, start: real, end: real) {
    t.Some? && start <= t.value < end
  }

  /** In flight just before `start`: dispatched earlier and not finished earlier. */
  predicate OpenBefore(r: RequestRecord, start: real) {
    && r.dispatchedAt.Some? && r.dispatchedAt.value < start
    && (r.finishedAt.None? || r.finishedAt.value >= start)
  }

  /** In flight at the instant `t`. */
  predicate OpenAt(r: RequestRecord, t: real) {
    && r.dispatchedAt.Some? && r.dispatchedAt.value <= t
    && (r.finishedAt.None? || t < r.finishedAt.value)
  }

  predicate EndsAfterDispatch(r: RequestRecord) {
    r.dispatchedAt.Some? && r.finishedAt.Some? ==> r.dispatchedAt.value <= r.finishedAt.value
  }

  function CountBefore(records: seq<RequestRecord>, start: real): nat {
    if records == [] then 0
    else (if OpenBefore(records[0], start) then 1 else 0) + CountBefore(records[1..], start)
  }

  function CountAt(records: seq<RequestRecord>, t: real): nat {
    if records == [] then 0
    else (if OpenAt(records[0], t) then 1 else 0) + CountAt(records[1..], t)
  }

  // ----- Events -----

  function EventsOf(r: RequestRecord, start: real, end: real): seq<Event> {
    (if Within(r.dispatchedAt, start, end) then [Event(r.dispatchedAt.value, 1)] else [])
    + (if r.dispatchedAt.Some? && Within(r.finishedAt, start, end) then [Event(r.finishedAt.value, -1)] else [])
  }

  function Events(records: seq<RequestRecord>, start: real, end: real): seq<Event> {
    if records == [] then [] else EventsOf(records[0], start, end) + Events(records[1..], start, end)
  }

  /** Pairs sort by time first; at one instant departures come before arrivals. */
  predicate Before(a: Event, b: Event) {
    a.time < b.time || (a.time == b.time && a.delta <= b.delta)
  }

  /** The sum of the changes, and of those up to and including an instant. */
  function Net(es: seq<Event>): int {
    if es == [] then 0 else es[0].delta + Net(es[1..])
  }

  function NetUpTo(es: seq<Event>, t: real): int {
    if es == [] then 0 else (if es[0].time <= t then es[0].delta else 0) + NetUpTo(es[1..], t)
  }

  lemma {:induction false} InsertSums(e: Event, es: seq<Event>, t: real)
    ensures multiset(Insert(Before, e, es)) == multiset(es) + multiset{e}
    ensures NetUpTo(Insert(Before, e, es), t) == NetUpTo(es, t) + if e.time <= t then e.delta else 0
    ensures Net(Insert(Before, e, es)) == Net(es) + e.delta
  {
    if es == [] || Before(e, es[0]) {
    } else {
      InsertSums(e, es[1..], t);
      assert es == [es[0]] + es[1..];
    }
  }

  lemma {:induction false} SortSums(es: seq<Event>, t: real)
    ensures multiset(Sort(Before, es)) == multiset(es)
    ensures NetUpTo(Sort(Before, es), t) == NetUpTo(es, t) && Net(Sort(Before, es)) == Net(es)
  {
    if es == [] {
    } else {
      SortSums(es[1..], t);
      InsertSums(es[0], Sort(Before, es[1..]), t);
      assert multiset([es[0]] + es[1..]) == multiset(es[1..]) + multiset{es[0]};
      assert es == [es[0]] + es[1..];
    }
  }

  /** Sorting orders the events and changes no sum. */
  lemma SortFacts(es: seq<Event>, t: real)
    ensures Sorted(Before, Sort(Before, es)) && multiset(Sort(Before, es)) == multiset(es)
    ensures NetUpTo(Sort(Before, es), t) == NetUpTo(es, t) && Net(Sort(Before, es)) == Net(es)
  {
    SortSorted(Before, es);
    SortSums(es, t);
  }

  lemma {:induction false} NetAppend(a: seq<Event>, b: seq<Event>, t: real)
    ensures Net(a + b) == Net(a) + Net(b) && NetUpTo(a + b, t) == NetUpTo(a, t) + NetUpTo(b, t)
  {
    if a == [] {
      assert a + b == b;
    } else {
      assert (a + b)[1..] == a[1..] + b;
      NetAppend(a[1..], b, t);
    }
  }

  // ----- Events account for the requests in flight -----

  lemma {:induction false} EventsCountAt(records: seq<RequestRecord>, start: real, end: real, t: real)
    requires forall r <- records :: EndsAfterDispatch(r)
    requires start <= t < end
    ensures CountBefore(records, start) + NetUpTo(Events(records, start, end), t) == CountAt(records, t)
  {
    if records == [] {
    } else {
      var r := records[0];
      assert EndsAfterDispatch(r);
      EventsCountAt(records[1..], start, end, t);
      NetAppend(EventsOf(r, start, end), Events(records[1..], start, end), t);
      OneRecordAt(r, start, end, t);
    }
  }

  lemma OneRecordAt(r: RequestRecord, start: real, end: real, t: real)
    requires EndsAfterDispatch(r) && start <= t < end
    ensures (if OpenBefore(r, start) then 1 else 0) + NetUpTo(EventsOf(r, start, end), t)
      == if OpenAt(r, t) then 1 else 0
  {
    TwoEvents(r, start, end, t);
  }

  lemma TwoEvents(r: RequestRecord, start: real, end: real, t: real)
    ensures NetUpTo(EventsOf(r, start, end), t)
         == (if Within(r.dispatchedAt, start, end) && r.dispatchedAt.value <= t then 1 else 0)
          - (if r.dispatchedAt.Some? && Within(r.finishedAt, start, end) && r.finishedAt.value <= t then 1 else 0)
    ensures Net(EventsOf(r, start, end))
         == (if Within(r.dispatchedAt, start, end) then 1 else 0)
          - (if r.dispatchedAt.Some? && Within(r.finishedAt, start, end) then 1 else 0)
  {
    var a := if Within(r.dispatchedAt, start, end) then [Event(r.dispatchedAt.value, 1)] else [];
    var b := if r.dispatchedAt.Some? && Within(r.finishedAt, start, end) then [Event(r.finishedAt.value, -1)] else [];
    NetAppend(a, b, t);
  }

  /** What is still open when the window ends is what was open before it plus the net change. */
  lemma {:induction false} EventsCountEnd(records: seq<RequestRecord>, start: real, end: real)
    requires forall r <- records :: EndsAfterDispatch(r)
    ensures CountBefore(records, start) + Net(Events(records, start, end))
      == CountBefore(records, if start <= end then end else start)
  {
    if records == [] {
    } else {
      var r := records[0];
      assert EndsAfterDispatch(r);
      EventsCountEnd(records[1..], start, end);
      NetAppend(EventsOf(r, start, end), Events(records[1..], start, end), start);
      TwoEvents(r, start, end, start);
    }
  }

  lemma {:induction false} EventsWithin(records: seq<RequestRecord>, start: real, end: real, e: Event)
    requires e in Events(records, start, end)
    ensures start <= e.time < end && (e.delta == 1 || e.delta == -1)
  {
    if e in EventsOf(records[0], start, end) {
    } else {
      EventsWithin(records[1..], start, end, e);
    }
  }

  // ----- The sweep -----

  /** Some instant at or before which the running sum was reached or exceeded. */
  lemma {:induction false} PrefixBelowInstant(es: seq<Event>, i: nat) returns (at: Option<real>)
    requires Sorted(Before, es) && i <= |es| && forall e <- es :: e.delta == 1 || e.delta == -1
    ensures at.None? ==> Net(es[..i]) <= 0
    ensures at.Some? ==> Net(es[..i]) <= NetUpTo(es, at.value) && exists k | 0 <= k < |es| :: es[k].time == at.value
    decreases i
  {
    if i == 0 {
      at := None;
    } else {
      assert es[..i] == es[..i - 1] + [es[i - 1]];
      NetAppend(es[..i - 1], [es[i - 1]], 0.0);
      at := PrefixBelowInstant(es, i - 1);
      if es[i - 1].delta == 1 {
        at := Some(es[i - 1].time);
        ArrivalsLast(es, i);
      }
    }
  }

  /** Once an arrival has been counted, the rest of its instant only adds arrivals. */
  lemma ArrivalsLast(es: seq<Event>, i: nat)
    requires Sorted(Before, es) && 0 < i <= |es| && es[i - 1].delta == 1
    requires forall e <- es :: e.delta == 1 || e.delta == -1
    ensures Net(es[..i]) <= NetUpTo(es, es[i - 1].time)
  {
    var t := es[i - 1].time;
    assert es == es[..i] + es[i..];
    NetAppend(es[..i], es[i..], t);
    AllUpTo(es[..i], t);
    forall e <- es[i..] | e.time <= t ensures e.delta == 1 {
      var k :| i <= k < |es| && es[k] == e;
      assert Before(es[i - 1], es[k]);
    }
    OnlyArrivals(es[i..], t);
  }

  lemma {:induction false} AllUpTo(es: seq<Event>, t: real)
    requires forall e <- es :: e.time <= t
    ensures NetUpTo(es, t) == Net(es)
  {
    if es == [] {
    } else {
      AllUpTo(es[1..], t);
    }
  }

  lemma {:induction false} NoneUpTo(es: seq<Event>, t: real)
    requires forall e <- es :: e.time > t
    ensures NetUpTo(es, t) == 0
  {
    if es == [] {
    } else {
      NoneUpTo(es[1..], t);
    }
  }

  lemma {:induction false} OnlyArrivals(es: seq<Event>, t: real)
    requires forall e <- es :: e.time <= t ==> e.delta == 1
    ensures NetUpTo(es, t) >= 0
  {
    if es == [] {
    } else {
      OnlyArrivals(es[1..], t);
    }
  }

  /** The count at an instant is one of the running sums. */
  lemma {:induction false} InstantIsPrefix(es: seq<Event>, t: real, n: nat) returns (i: nat)
    requires Sorted(Before, es) && n <= |es| && forall k | n <= k < |es| :: es[k].time > t
    ensures i <= |es| && NetUpTo(es, t) == Net(es[..i])
    decreases n
  {
    if n == 0 || es[n - 1].time <= t {
      i := n;
      assert es == es[..n] + es[n..];
      NetAppend(es[..n], es[n..], t);
      forall e <- es[..n] ensures e.time <= t {
        var k :| 0 <= k < n && es[k] == e;
        if k < n - 1 { assert Before(es[k], es[n - 1]); }
      }
      AllUpTo(es[..n], t);
      NoneUpTo(es[n..], t);
    } else {
      i := InstantIsPrefix(es, t, n - 1);
    }
  }

  /** `peak` is the largest number of requests in flight just before the window or at any instant in it. */
  ghost predicate IsPeak(records: seq<RequestRecord>, start: real, end: real, peak: int) {
    && peak >= CountBefore(records, start)
    && (forall t: real | start <= t < end :: peak >= CountAt(records, t))
    && (peak == CountBefore(records, start) || exists t: real :: start <= t < end && peak == CountAt(records, t))
  }

  /** `peak` is the largest running sum. */
  ghost predicate IsPrefixMax(es: seq<Event>, n: nat, first: int, peak: int)
    requires n <= |es|
  {
    && (forall i | 0 <= i <= n :: peak >= first + Net(es[..i]))
    && exists i :: 0 <= i <= n && peak == first + Net(es[..i])
  }

  method Sweep(records: seq<RequestRecord>, start: real, end: real) returns (peak: int, current: int)
    requires forall r <- records :: EndsAfterDispatch(r)
    ensures IsPeak(records, start, end, peak)
    ensures current == CountBefore(records, if start <= end then end else start)
  {
    current := CountBefore(records, start);
    var events := CollectEvents(records, start, end);
    var sorted := Sort(Before, events);
    peak, current := RunningPeak(sorted, current);
    SortFacts(events, start);
    EventsCountEnd(records, start, end);
    PrefixMaxIsPeak(records, start, end, peak);
  }

  method CollectEvents(records: seq<RequestRecord>, start: real, end: real) returns (events: seq<Event>)
    ensures events == Events(records, start, end)
  {
    events := [];
    for i := 0 to |records|
      invariant events == Events(records[..i], start, end)
    {
      var r := records[i];
      EventsSnoc(records[..i], r, start, end);
      assert records[..i + 1] == records[..i] + [r];
      if Within(r.dispatchedAt, start, end) {
        events := events + [Event(r.dispatchedAt.value, 1)];
      }
      if r.dispatchedAt.Some? && Within(r.finishedAt, start, end) {
        events := events + [Event(r.finishedAt.value, -1)];
      }
    }
    assert records[..|records|] == records;
  }

  lemma {:induction false} EventsSnoc(records: seq<RequestRecord>, r: RequestRecord, start: real, end: real)
    ensures Events(records + [r], start, end) == Events(records, start, end) + EventsOf(r, start, end)
  {
    var mine := EventsOf(r, start, end);
    if records == [] {
      assert records + [r] == [r] && [r][1..] == [];
      assert Events([r], start, end) == mine + [];
    } else {
      assert (records + [r])[0] == records[0] && (records + [r])[1..] == records[1..] + [r];
      EventsSnoc(records[1..], r, start, end);
      Associate(EventsOf(records[0], start, end), Events(records[1..], start, end), mine);
    }
  }

  lemma Associate(a: seq<Event>, b: seq<Event>, c: seq<Event>)
    ensures a + (b + c) == a + b + c
  {
  }

  method RunningPeak(sorted: seq<Event>, first: int) returns (peak: int, current: int)
    ensures IsPrefixMax(sorted, |sorted|, first, peak) && current == first + Net(sorted)
  {
    current, peak := first, first;
    for i := 0 to |sorted|
      invariant current == first + Net(sorted[..i])
      invariant IsPrefixMax(sorted, i, first, peak)
    {
      assert sorted[..i + 1] == sorted[..i] + [sorted[i]];
      NetAppend(sorted[..i], [sorted[i]], 0.0);
      current := current + sorted[i].delta;
      if current > peak {
        peak := current;
      }
      assert current == first + Net(sorted[..i + 1]);
    }
    assert sorted[..|sorted|] == sorted;
  }

  lemma PrefixMaxIsPeak(records: seq<RequestRecord>, start: real, end: real, peak: int)
    requires forall r <- records :: EndsAfterDispatch(r)
    requires var sorted := Sort(Before, Events(records, start, end));
      IsPrefixMax(sorted, |sorted|, CountBefore(records, start), peak)
    ensures IsPeak(records, start, end, peak)
  {
    var events := Events(records, start, end);
    var sorted, first := Sort(Before, events), CountBefore(records, start);
    SortFacts(events, start);
    forall e <- sorted ensures start <= e.time < end && (e.delta == 1 || e.delta == -1) {
      assert e in multiset(sorted);
      EventsWithin(records, start, end, e);
    }
    assert sorted[..0] == [];
    forall t: real | start <= t < end ensures peak >= CountAt(records, t) {
      SortFacts(events, t);
      EventsCountAt(records, start, end, t);
      var i := InstantIsPrefix(sorted, t, |sorted|);
    }
    var i :| 0 <= i <= |sorted| && peak == first + Net(sorted[..i]);
    var at := PrefixBelowInstant(sorted, i);
    if at.Some? {
      SortFacts(events, at.value);
      EventsCountAt(records, start, end, at.value);
      assert peak == CountAt(records, at.value);
    }
  }

  /** Adjacent windows hand over exactly: what one ends with is what the next starts from. */
  lemma WindowsHandOver(records: seq<RequestRecord>, start: real, middle: real, end: real)
    requires start <= middle <= end && forall r <- records :: EndsAfterDispatch(r)
    ensures CountBefore(records, start) + Net(Events(records, start, middle)) == CountBefore(records, middle)
    ensures CountBefore(records, middle) + Net(Events(records, middle, end)) == CountBefore(records, end)
  {
    EventsCountEnd(records, start, middle);
    EventsCountEnd(records, middle, end);
  }
}
