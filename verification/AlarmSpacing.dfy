/**
 When repeated alarms are too close, by the alarms sent and the clocks of the
 flushes after them; and alarms raised without a time, which bear the time of
 the call.
 */
module AlarmSpacing {
  import opened Bytes
  import opened Batching
  import opened BatchingRuns
  import opened AlarmRuns

  /** The event is an alarm that is sent. */
  predicate SentAt(s: Settings, evs: seq<Event>, i: nat)
    requires i < |evs|
  {
    evs[i].Raise? && Run(s, evs[..i + 1]).b.emitted == Run(s, evs[..i]).b.emitted + [evs[i].alarm]
  }

  predicate FlushesAt(s: Settings, evs: seq<Event>, i: nat)
    requires i < |evs|
  {
    Flushes(Run(s, evs[..i]).b, s, evs[i])
  }

  /**
   An alarm is sent at i, the clock of a flush at f lags it, and it is raised again at j within its cooldown. (The
   unsigned age of a lagging alarm is past any cooldown unless they are almost 2^64 apart.)
   */
  predicate AgainAfterLag(s: Settings, evs: seq<Event>, i: nat, f: nat, j: nat) {
    && i < f < j < |evs|
    && SentAt(s, evs, i) && FlushesAt(s, evs, f)
    && evs[f].clock < evs[i].alarm.timestamp && Minus(evs[f].clock, evs[i].alarm.timestamp) > s.cooldown
    && evs[j].Raise? && Same(evs[j].alarm, evs[i].alarm)
    && evs[j].alarm.timestamp <= evs[i].alarm.timestamp + s.cooldown
  }

  // ---------- a run as a list of moments ----------

  /** What there is before an event: the buffers, the alarms dropped so far, and the latest time seen. */
  datatype Moment = Moment(b: Buffers, dropped: set<Alarm>, latest: Uint64)

  function Next(m: Moment, s: Settings, ev: Event): Moment {
    var b := Apply(m.b, s, ev);
    if ev.Raise? then Moment(b, m.dropped, Later(ev.alarm.timestamp, m.latest))
    else if Flushes(m.b, s, ev)
    then Moment(b, m.dropped + Ahead(m.b.alarms, ev.clock, s.cooldown), Later(ev.clock, m.latest))
    else Moment(b, m.dropped, m.latest)
  }

  function MomentOf(s: Settings, evs: seq<Event>): Moment {
    Moment(Run(s, evs).b, Dropped(s, evs), Latest(s, evs))
  }

  /** A moment before each event and one after the last. */
  function Moments(s: Settings, evs: seq<Event>): (ms: seq<Moment>)
    ensures |ms| == |evs| + 1
  {
    seq(|evs| + 1, n requires 0 <= n <= |evs| => MomentOf(s, evs[..n]))
  }

  lemma NextMoment(s: Settings, evs: seq<Event>, n: nat)
    requires n < |evs|
    ensures Moments(s, evs)[n + 1] == Next(Moments(s, evs)[n], s, evs[n])
  {
    assert evs[..n + 1][..n] == evs[..n];
  }

  /** The moments follow the events, and no alarm is behind the latest time. */
  ghost predicate Follows(ms: seq<Moment>, s: Settings, evs: seq<Event>) {
    && |ms| == |evs| + 1
    && ms[0] == Moment(EMPTY, {}, 0)
    && (forall n {:trigger evs[n]} :: 0 <= n < |evs| ==>
          ms[n + 1] == Next(ms[n], s, evs[n])
          && (evs[n].Raise? ==> evs[n].alarm.timestamp >= ms[n].latest))
  }

  lemma {:induction false} OrderedAt(s: Settings, evs: seq<Event>, n: nat)
    requires Ordered(s, evs) && n < |evs| && evs[n].Raise?
    ensures evs[n].alarm.timestamp >= Latest(s, evs[..n])
    decreases |evs|
  {
    if n < |evs| - 1 {
      assert evs[..|evs| - 1][..n] == evs[..n];
      OrderedAt(s, evs[..|evs| - 1], n);
    }
  }

  lemma MomentsFollow(s: Settings, evs: seq<Event>)
    requires Ordered(s, evs)
    ensures Follows(Moments(s, evs), s, evs)
  {
    assert evs[..0] == [];
    forall n | 0 <= n < |evs|
      ensures Moments(s, evs)[n + 1] == Next(Moments(s, evs)[n], s, evs[n])
      ensures evs[n].Raise? ==> evs[n].alarm.timestamp >= Moments(s, evs)[n].latest
    {
      NextMoment(s, evs, n);
      if evs[n].Raise? {
        OrderedAt(s, evs, n);
      }
    }
  }

  // ---------- the fate of an alarm that was sent ----------

  predicate Sends(m: Moment, s: Settings, ev: Event) {
    ev.Raise? && Next(m, s, ev).b.emitted == m.b.emitted + [ev.alarm]
  }

  /** The flush has a clock that lags the alarm, which it drops if it is buffered. */
  predicate Lags(m: Moment, s: Settings, ev: Event, a: Alarm) {
    Flushes(m.b, s, ev) && ev.clock < a.timestamp && Minus(ev.clock, a.timestamp) > s.cooldown
  }

  predicate KeptOrDropped(m: Moment, a: Alarm) {
    (a in m.b.alarms || a in m.dropped) && a.timestamp <= m.latest
  }

  lemma SentIsKept(m: Moment, s: Settings, ev: Event)
    requires Sends(m, s, ev)
    ensures KeptOrDropped(Next(m, s, ev), ev.alarm)
  {
    SentUnlessBuffered(m.b, s, ev.alarm);
  }

  /** Within its cooldown an alarm stays buffered or on record as dropped; a flush that lags it leaves it dropped. */
  lemma NextKeepsOrDrops(m: Moment, s: Settings, ev: Event, a: Alarm)
    requires KeptOrDropped(m, a) && (ev.Raise? ==> ev.alarm.timestamp >= m.latest)
    requires Next(m, s, ev).latest <= a.timestamp + s.cooldown
    ensures KeptOrDropped(Next(m, s, ev), a)
    ensures Lags(m, s, ev, a) ==> a in Next(m, s, ev).dropped
  {
    if a in m.b.alarms {
      if ev.Raise? {
        SentUnlessBuffered(m.b, s, ev.alarm);
      } else if Flushes(m.b, s, ev) {
        FlushKeepsOrDrops(m.b.alarms, ev.clock, s.cooldown, a);
      }
    }
  }

  lemma FlushKeepsOrDrops(alarms: seq<Alarm>, clock: Uint64, cooldown: Uint32, a: Alarm)
    requires a in alarms && clock <= a.timestamp + cooldown
    ensures a in Prune(alarms, clock, cooldown) || a in Ahead(alarms, clock, cooldown)
    ensures clock < a.timestamp && Minus(clock, a.timestamp) > cooldown ==> a in Ahead(alarms, clock, cooldown)
  {
    PruneFacts(alarms, clock, cooldown);
    if a.timestamp <= clock {
      assert Minus(clock, a.timestamp) == clock - a.timestamp;
    }
  }

  lemma NextGrows(m: Moment, s: Settings, ev: Event)
    ensures m.latest <= Next(m, s, ev).latest && m.dropped <= Next(m, s, ev).dropped
  {
  }

  lemma {:induction false} Grows(ms: seq<Moment>, s: Settings, evs: seq<Event>, n: nat, k: nat)
    requires Follows(ms, s, evs) && n <= k <= |evs|
    ensures ms[n].latest <= ms[k].latest && ms[n].dropped <= ms[k].dropped
    decreases k
  {
    if n < k {
      Grows(ms, s, evs, n, k - 1);
      NextGrows(ms[k - 1], s, evs[k - 1]);
    }
  }

  lemma {:induction false} StaysKeptOrDropped(ms: seq<Moment>, s: Settings, evs: seq<Event>, i: nat, n: nat)
    requires Follows(ms, s, evs) && i < n <= |evs| && Sends(ms[i], s, evs[i])
    requires ms[n].latest <= evs[i].alarm.timestamp + s.cooldown
    ensures KeptOrDropped(ms[n], evs[i].alarm)
    decreases n
  {
    if n == i + 1 {
      SentIsKept(ms[i], s, evs[i]);
    } else {
      NextGrows(ms[n - 1], s, evs[n - 1]);
      StaysKeptOrDropped(ms, s, evs, i, n - 1);
      NextKeepsOrDrops(ms[n - 1], s, evs[n - 1], evs[i].alarm);
    }
  }

  /** An alarm that was sent counts as dropped once a flush has lagged it, as long as it is in its cooldown. */
  lemma LagDrops(ms: seq<Moment>, s: Settings, evs: seq<Event>, i: nat, f: nat, j: nat)
    requires Follows(ms, s, evs) && i < f < j <= |evs| && Sends(ms[i], s, evs[i])
    requires Lags(ms[f], s, evs[f], evs[i].alarm)
    requires ms[j].latest <= evs[i].alarm.timestamp + s.cooldown
    ensures evs[i].alarm in ms[j].dropped
  {
    Grows(ms, s, evs, f, j);
    Grows(ms, s, evs, f + 1, j);
    StaysKeptOrDropped(ms, s, evs, i, f);
    NextKeepsOrDrops(ms[f], s, evs[f], evs[i].alarm);
  }

  lemma NewlyDropped(m: Moment, s: Settings, ev: Event, a: Alarm)
    requires a in Next(m, s, ev).dropped && a !in m.dropped
    ensures Lags(m, s, ev, a) && a in m.b.alarms
  {
  }

  /** What was dropped was buffered at some flush that lagged it. */
  lemma {:induction false} DroppedWhen(ms: seq<Moment>, s: Settings, evs: seq<Event>, n: nat, a: Alarm) returns (f: nat)
    requires Follows(ms, s, evs) && n <= |evs| && a in ms[n].dropped
    ensures f < n && Lags(ms[f], s, evs[f], a) && a in ms[f].b.alarms
    decreases n
  {
    var ev := evs[n - 1];
    f := n - 1;
    if a in ms[n - 1].dropped {
      f := DroppedWhen(ms, s, evs, n - 1, a);
    } else {
      NewlyDropped(ms[n - 1], s, ev, a);
    }
  }

  predicate Accountable(m: Moment) {
    forall x :: x in m.b.alarms ==> x in m.b.emitted
  }

  lemma NextAccounts(m: Moment, s: Settings, ev: Event)
    requires Accountable(m)
    ensures Accountable(Next(m, s, ev))
  {
    if ev.Raise? {
      SentUnlessBuffered(m.b, s, ev.alarm);
    } else if Flushes(m.b, s, ev) {
      PruneFacts(m.b.alarms, ev.clock, s.cooldown);
    }
  }

  lemma {:induction false} AllAccount(ms: seq<Moment>, s: Settings, evs: seq<Event>, n: nat)
    requires Follows(ms, s, evs) && n <= |evs|
    ensures Accountable(ms[n])
    decreases n
  {
    if n > 0 {
      AllAccount(ms, s, evs, n - 1);
      NextAccounts(ms[n - 1], s, evs[n - 1]);
    }
  }

  lemma NewlySent(m: Moment, s: Settings, ev: Event, a: Alarm)
    requires a in Next(m, s, ev).b.emitted && a !in m.b.emitted
    ensures Sends(m, s, ev) && ev.alarm == a
  {
    if ev.Raise? {
      SentUnlessBuffered(m.b, s, ev.alarm);
    }
  }

  lemma {:induction false} SentWhen(ms: seq<Moment>, s: Settings, evs: seq<Event>, n: nat, a: Alarm) returns (i: nat)
    requires Follows(ms, s, evs) && n <= |evs| && a in ms[n].b.emitted
    ensures i < n && Sends(ms[i], s, evs[i]) && evs[i].alarm == a
    decreases n
  {
    var ev := evs[n - 1];
    i := n - 1;
    if a in ms[n - 1].b.emitted {
      i := SentWhen(ms, s, evs, n - 1, a);
    } else {
      NewlySent(ms[n - 1], s, ev, a);
    }
  }

  // ---------- the exact condition ----------

  predicate EarlyAt(ms: seq<Moment>, s: Settings, evs: seq<Event>, j: nat)
    requires |ms| == |evs| + 1
  {
    j < |evs| && evs[j].Raise? && Early(ms[j].dropped, evs[j].alarm, s.cooldown)
  }

  lemma EarlyShorter(s: Settings, evs: seq<Event>, j: nat)
    requires j < |evs| - 1
    ensures EarlyAt(Moments(s, evs[..|evs| - 1]), s, evs[..|evs| - 1], j) <==> EarlyAt(Moments(s, evs), s, evs, j)
  {
    assert evs[..|evs| - 1][..j] == evs[..j];
  }

  lemma RaisedAgainStep(s: Settings, evs: seq<Event>)
    requires evs != []
    ensures RaisedAgain(s, evs) <==>
            RaisedAgain(s, evs[..|evs| - 1]) || EarlyAt(Moments(s, evs), s, evs, |evs| - 1)
  {
  }

  lemma {:induction false} RaisedAgainIff(s: Settings, evs: seq<Event>)
    ensures RaisedAgain(s, evs) <==> exists j: nat :: EarlyAt(Moments(s, evs), s, evs, j)
  {
    if evs != [] {
      var init := evs[..|evs| - 1];
      RaisedAgainIff(s, init);
      RaisedAgainStep(s, evs);
      if j: nat :| EarlyAt(Moments(s, init), s, init, j) {
        EarlyShorter(s, evs, j);
      }
      if j: nat :| EarlyAt(Moments(s, evs), s, evs, j) && j < |evs| - 1 {
        EarlyShorter(s, evs, j);
      }
    }
  }

  /** The same condition on the moments. */
  predicate AfterLag(ms: seq<Moment>, s: Settings, evs: seq<Event>, i: nat, f: nat, j: nat)
    requires |ms| == |evs| + 1
  {
    && i < f < j < |evs|
    && Sends(ms[i], s, evs[i]) && Lags(ms[f], s, evs[f], evs[i].alarm)
    && evs[j].Raise? && Same(evs[j].alarm, evs[i].alarm)
    && evs[j].alarm.timestamp <= evs[i].alarm.timestamp + s.cooldown
  }

  lemma AfterLagIff(s: Settings, evs: seq<Event>, i: nat, f: nat, j: nat)
    ensures AgainAfterLag(s, evs, i, f, j) <==> AfterLag(Moments(s, evs), s, evs, i, f, j)
  {
    if i < |evs| {
      NextMoment(s, evs, i);
    }
  }

  lemma LagMakesEarly(ms: seq<Moment>, s: Settings, evs: seq<Event>, i: nat, f: nat, j: nat)
    requires Follows(ms, s, evs) && AfterLag(ms, s, evs, i, f, j)
    ensures EarlyAt(ms, s, evs, j)
  {
    assert ms[j].latest <= evs[j].alarm.timestamp;
    LagDrops(ms, s, evs, i, f, j);
  }

  lemma EarlyHasLag(ms: seq<Moment>, s: Settings, evs: seq<Event>, j: nat) returns (i: nat, f: nat)
    requires Follows(ms, s, evs) && EarlyAt(ms, s, evs, j)
    ensures AfterLag(ms, s, evs, i, f, j)
  {
    var a := evs[j].alarm;
    var d :| d in ms[j].dropped && Same(d, a) && a.timestamp <= d.timestamp + s.cooldown;
    f := DroppedWhen(ms, s, evs, j, d);
    AllAccount(ms, s, evs, f);
    i := SentWhen(ms, s, evs, f, d);
  }

  /**
   With alarm times that never go back and no flush clock ahead of later alarms, the emissions of every alarm are
   more than the cooldown apart if and only if none that was sent is raised again within its cooldown after a flush
   whose clock lagged it.
   */
  lemma LagIff(s: Settings, evs: seq<Event>)
    requires Ordered(s, evs)
    ensures Spaced(Run(s, evs).b.emitted, s.cooldown) <==>
            !exists i: nat, f: nat, j: nat :: AgainAfterLag(s, evs, i, f, j)
  {
    var ms := Moments(s, evs);
    SpacedIff(s, evs);
    RaisedAgainIff(s, evs);
    MomentsFollow(s, evs);
    if j: nat :| EarlyAt(ms, s, evs, j) {
      var i, f := EarlyHasLag(ms, s, evs, j);
      AfterLagIff(s, evs, i, f, j);
    }
    if i: nat, f: nat, j: nat :| AgainAfterLag(s, evs, i, f, j) {
      AfterLagIff(s, evs, i, f, j);
      LagMakesEarly(ms, s, evs, i, f, j);
    }
  }

  // ---------- alarms raised without a time ----------

  /**
   The alarms bear the times of the calls, as they do when raised without a time, and the clock of a flush, which is
   cut to whole seconds, is not ahead of the time it runs at.
   */
  predicate ByClock(s: Settings, evs: seq<Event>, times: seq<Uint64>) {
    && |times| == |evs|
    && (forall m, n :: 0 <= m < n < |times| ==> times[m] <= times[n])
    && (forall i :: 0 <= i < |evs| ==>
          (evs[i].Raise? ==> evs[i].alarm.timestamp == times[i])
          && (FlushesAt(s, evs, i) ==> evs[i].clock <= times[i]))
  }

  lemma ByClockPrefix(s: Settings, evs: seq<Event>, times: seq<Uint64>)
    requires evs != [] && ByClock(s, evs, times)
    ensures ByClock(s, evs[..|evs| - 1], times[..|evs| - 1])
  {
    var init := evs[..|evs| - 1];
    forall i | 0 <= i < |init| ensures FlushesAt(s, init, i) <==> FlushesAt(s, evs, i) {
      assert init[..i] == evs[..i];
    }
  }

  lemma {:induction false} ClockOrders(s: Settings, evs: seq<Event>, times: seq<Uint64>)
    requires ByClock(s, evs, times)
    ensures Ordered(s, evs) && (evs != [] ==> Latest(s, evs) <= times[|evs| - 1])
  {
    if evs != [] {
      var n := |evs| - 1;
      ByClockPrefix(s, evs, times);
      ClockOrders(s, evs[..n], times[..n]);
      assert n > 0 ==> times[n - 1] <= times[n];
      assert FlushesAt(s, evs, n) <==> Flushes(Run(s, evs[..n]).b, s, evs[n]);
    }
  }

  /** Such runs are ordered, and so the same condition is exact for them. */
  lemma UntimedSpacedIff(s: Settings, evs: seq<Event>, times: seq<Uint64>)
    requires ByClock(s, evs, times)
    ensures Spaced(Run(s, evs).b.emitted, s.cooldown) <==>
            !exists i: nat, f: nat, j: nat :: AgainAfterLag(s, evs, i, f, j)
  {
    ClockOrders(s, evs, times);
    LagIff(s, evs);
  }

  /** Called at 10000 and 10500 without a time, with a flush in between, an alarm goes out once. */
  lemma UntimedOnce(message: string, device: string, s: Settings)
    requires s.cooldown == 1000
    ensures var first, again := Alarm(message, device, 10000), Alarm(message, device, 10500);
            Run(s, [Raise(first), Timer(10000), Raise(again)]).b.emitted == [first]
  {
    var first, again := Alarm(message, device, 10000), Alarm(message, device, 10500);
    var evs := [Raise(first), Timer(10000), Raise(again)];
    assert evs[..2] == [Raise(first), Timer(10000)] && evs[..2][..1] == [Raise(first)] && evs[..2][..1][..0] == [];
    var t1 := Run(s, [Raise(first)]);
    assert Run(s, []) == START_TRACE && t1 == Step(START_TRACE, s, Raise(first));
    assert t1.b.alarms == [first] && t1.b.emitted == [first];
    assert [first][1..] == [] && Prune([first], 10000, s.cooldown) == [first];
    assert Run(s, evs[..2]) == Step(t1, s, Timer(10000));
  }
}
