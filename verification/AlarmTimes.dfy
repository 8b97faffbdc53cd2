/**
 Alarms raised with the marker for "now()", which are buffered under the marker
 itself, and what a failed send leaves behind. All marked alarms have one time,
 so none is ever stale to another, while to the clock of a flush, far past the
 marker, all of them are out of their cooldown.
 */
module AlarmTimes {
  import opened Bytes
  import opened Batching
  import opened BatchingRuns
  import opened AlarmRuns
  import opened AlarmSpacing

  // ---------- alarms raised with the marker ----------

  /** What an event is to alarms. */
  datatype Mark = Raised(alarm: Alarm) | Flushed | Neither

  function MarkOf(b: Buffers, s: Settings, ev: Event): Mark {
    if ev.Raise? then Raised(ev.alarm) else if Flushes(b, s, ev) then Flushed else Neither
  }

  function Marks(s: Settings, evs: seq<Event>): (ms: seq<Mark>)
    ensures |ms| == |evs|
  {
    if evs == [] then [] else
      Marks(s, evs[..|evs| - 1]) + [MarkOf(Run(s, evs[..|evs| - 1]).b, s, evs[|evs| - 1])]
  }

  lemma {:induction false} MarksPrefix(s: Settings, evs: seq<Event>, n: nat)
    requires n <= |evs|
    ensures Marks(s, evs[..n]) == Marks(s, evs)[..n]
    ensures n < |evs| ==> Marks(s, evs)[n] == MarkOf(Run(s, evs[..n]).b, s, evs[n])
    decreases |evs|
  {
    if n == |evs| {
      assert evs[..n] == evs;
    } else {
      var init := evs[..|evs| - 1];
      assert n < |init| ==> init[..n] == evs[..n];
      MarksPrefix(s, init, n);
      assert init[..n] == evs[..n];
    }
  }

  /** The alarms raised since the last flush. */
  function RaisedSince(ms: seq<Mark>): seq<Alarm> {
    if ms == [] then [] else
      match ms[|ms| - 1]
      case Raised(a) => RaisedSince(ms[..|ms| - 1]) + [a]
      case Flushed => []
      case Neither => RaisedSince(ms[..|ms| - 1])
  }

  /** The event is an alarm that was not raised since the last flush. */
  predicate FirstSinceFlush(ms: seq<Mark>, i: nat)
    requires i < |ms|
  {
    ms[i].Raised? && ms[i].alarm !in RaisedSince(ms[..i])
  }

  /** The timestamp that stands for "now()", to be interpreted where the alarm arrives. */
  const NOW: Uint64 := 1

  /** Every alarm comes with the marker, and every flush clock is past the cooldown, as any real clock is. */
  predicate Marked(s: Settings, evs: seq<Event>) {
    evs == [] ||
    (Marked(s, evs[..|evs| - 1])
     && match MarkOf(Run(s, evs[..|evs| - 1]).b, s, evs[|evs| - 1])
        case Raised(a) => a.timestamp == NOW
        case Flushed => evs[|evs| - 1].clock > s.cooldown + NOW
        case Neither => true)
  }

  /** The buffer holds exactly these, once each. */
  predicate Holds(alarms: seq<Alarm>, raised: seq<Alarm>) {
    && (forall x :: x in alarms ==> x.timestamp == NOW && x in raised)
    && (forall x :: x in raised ==> x in alarms)
  }

  lemma RaiseHolds(b: Buffers, s: Settings, a: Alarm, raised: seq<Alarm>)
    requires Holds(b.alarms, raised) && a.timestamp == NOW
    ensures var b' := AlarmStep(b, s, a);
            Holds(b'.alarms, raised + [a]) && b'.emitted == (if a in raised then b.emitted else b.emitted + [a])
  {
    SentUnlessBuffered(b, s, a);
    assert forall x :: x in b.alarms && Same(x, a) ==> x == a;
    assert a in b.alarms ==> Gap(a.timestamp, a.timestamp) <= s.cooldown;
  }

  lemma {:induction false} PrunesAll(alarms: seq<Alarm>, clock: Uint64, cooldown: Uint32)
    requires clock > cooldown + NOW && forall x :: x in alarms ==> x.timestamp == NOW
    ensures Prune(alarms, clock, cooldown) == []
  {
    if alarms != [] {
      assert Minus(clock, NOW) == clock - NOW;
      PrunesAll(alarms[1..], clock, cooldown);
    }
  }

  lemma {:induction false} MarkedHolds(s: Settings, evs: seq<Event>)
    requires Marked(s, evs)
    ensures Holds(Run(s, evs).b.alarms, RaisedSince(Marks(s, evs)))
  {
    if evs != [] {
      var init, ev := evs[..|evs| - 1], evs[|evs| - 1];
      var b, ms := Run(s, init).b, Marks(s, init);
      MarkedHolds(s, init);
      SinceNext(ms, MarkOf(b, s, ev));
      if ev.Raise? {
        RaiseHolds(b, s, ev.alarm, RaisedSince(ms));
      } else if Flushes(b, s, ev) {
        PrunesAll(b.alarms, ev.clock, s.cooldown);
      }
    }
  }

  lemma SinceNext(ms: seq<Mark>, m: Mark)
    ensures RaisedSince(ms + [m]) ==
            match m
            case Raised(a) => RaisedSince(ms) + [a]
            case Flushed => []
            case Neither => RaisedSince(ms)
  {
    assert (ms + [m])[..|ms|] == ms;
  }

  lemma {:induction false} MarkedPrefix(s: Settings, evs: seq<Event>, n: nat)
    requires Marked(s, evs) && n <= |evs|
    ensures Marked(s, evs[..n])
    ensures n < |evs| && evs[n].Raise? ==> evs[n].alarm.timestamp == NOW
    decreases |evs|
  {
    if n == |evs| {
      assert evs[..n] == evs;
    } else {
      var init := evs[..|evs| - 1];
      MarkedPrefix(s, init, n);
      assert init[..n] == evs[..n];
    }
  }

  lemma RaiseRuns(s: Settings, evs: seq<Event>, i: nat)
    requires i < |evs| && evs[i].Raise?
    ensures Run(s, evs[..i + 1]).b == AlarmStep(Run(s, evs[..i]).b, s, evs[i].alarm)
  {
    assert evs[..i + 1][..i] == evs[..i];
  }

  /** In every such run an alarm is sent if and only if it was not raised since the last flush. */
  lemma MarkedSentIff(s: Settings, evs: seq<Event>, i: nat)
    requires Marked(s, evs) && i < |evs|
    ensures SentAt(s, evs, i) <==> FirstSinceFlush(Marks(s, evs), i)
  {
    MarksPrefix(s, evs, i);
    if evs[i].Raise? {
      RaiseRuns(s, evs, i);
      MarkedPrefix(s, evs, i);
      MarkedHolds(s, evs[..i]);
      RaiseHolds(Run(s, evs[..i]).b, s, evs[i].alarm, RaisedSince(Marks(s, evs[..i])));
    }
  }

  // ---------- spacing by the time of the call ----------

  lemma SinceStep(ms: seq<Mark>, n: nat)
    requires n < |ms|
    ensures RaisedSince(ms[..n + 1]) ==
            match ms[n]
            case Raised(a) => RaisedSince(ms[..n]) + [a]
            case Flushed => []
            case Neither => RaisedSince(ms[..n])
  {
    assert ms[..n + 1] == ms[..n] + [ms[n]];
    SinceNext(ms[..n], ms[n]);
  }

  /** With no flush in between, what was raised at i is still among those raised since the last flush. */
  lemma {:induction false} StaysRaised(ms: seq<Mark>, i: nat, n: nat)
    requires i < n <= |ms| && ms[i].Raised? && forall f :: i < f < n ==> !ms[f].Flushed?
    ensures ms[i].alarm in RaisedSince(ms[..n])
    decreases n
  {
    SinceStep(ms, n - 1);
    if i < n - 1 {
      StaysRaised(ms, i, n - 1);
    }
  }

  lemma NotJustFlushed(ms: seq<Mark>, n: nat, a: Alarm)
    requires n < |ms| && a in RaisedSince(ms[..n + 1])
    ensures !ms[n].Flushed?
    ensures a !in RaisedSince(ms[..n]) ==> ms[n] == Raised(a) && FirstSinceFlush(ms, n)
  {
    SinceStep(ms, n);
  }

  /** After a flush, an alarm that counts as raised since was raised first at some point after it. */
  lemma {:induction false} FirstAfter(ms: seq<Mark>, f: nat, n: nat, a: Alarm) returns (k: nat)
    requires f < n <= |ms| && ms[f].Flushed? && a in RaisedSince(ms[..n])
    ensures f < k < n && ms[k] == Raised(a) && FirstSinceFlush(ms, k)
    decreases n
  {
    NotJustFlushed(ms, n - 1, a);
    k := n - 1;
    if a in RaisedSince(ms[..n - 1]) {
      k := FirstAfter(ms, f, n - 1, a);
    }
  }

  /** An alarm is sent, a flush follows, and it is raised again within the cooldown of the call that sent it. */
  predicate AgainAcrossFlush(ms: seq<Mark>, times: seq<nat>, cooldown: Uint32, i: nat, f: nat, j: nat)
    requires |times| == |ms|
  {
    && i < f < j < |ms|
    && FirstSinceFlush(ms, i) && ms[f].Flushed? && ms[j] == ms[i]
    && times[j] <= times[i] + cooldown
  }

  /** Two events are first since their last flush to raise the same alarm, within the cooldown. */
  predicate BothFirst(ms: seq<Mark>, times: seq<nat>, cooldown: Uint32, i: nat, j: nat)
    requires |times| == |ms|
  {
    && i < j < |ms|
    && FirstSinceFlush(ms, i) && FirstSinceFlush(ms, j) && ms[j] == ms[i]
    && times[j] <= times[i] + cooldown
  }

  lemma TooSoonNeedsFlush(ms: seq<Mark>, times: seq<nat>, cooldown: Uint32, i: nat, j: nat) returns (f: nat)
    requires |times| == |ms| && BothFirst(ms, times, cooldown, i, j)
    ensures AgainAcrossFlush(ms, times, cooldown, i, f, j)
  {
    if forall f :: i < f < j ==> !ms[f].Flushed? {
      StaysRaised(ms, i, j);
      assert false;
    }
    f :| i < f < j && ms[f].Flushed?;
  }

  lemma FlushAllowsTooSoon(ms: seq<Mark>, times: seq<nat>, cooldown: Uint32, i: nat, f: nat, j: nat) returns (k: nat)
    requires |times| == |ms| && AgainAcrossFlush(ms, times, cooldown, i, f, j)
    requires forall m, n :: 0 <= m < n < |times| ==> times[m] <= times[n]
    ensures BothFirst(ms, times, cooldown, i, k)
  {
    SinceStep(ms, j);
    k := FirstAfter(ms, f, j + 1, ms[i].alarm);
    assert k < j ==> times[k] <= times[j];
  }

  /** Two events send the same alarm within the cooldown. */
  predicate SentTooSoon(s: Settings, evs: seq<Event>, times: seq<nat>, i: nat, j: nat)
    requires |times| == |evs|
  {
    && i < j < |evs|
    && SentAt(s, evs, i) && SentAt(s, evs, j) && evs[i].alarm == evs[j].alarm
    && times[j] <= times[i] + s.cooldown
  }

  lemma TooSoonIff(s: Settings, evs: seq<Event>, times: seq<nat>, i: nat, j: nat)
    requires Marked(s, evs) && |times| == |evs|
    ensures SentTooSoon(s, evs, times, i, j) <==> BothFirst(Marks(s, evs), times, s.cooldown, i, j)
  {
    if i < j < |evs| {
      MarkedSentIff(s, evs, i);
      MarkedSentIff(s, evs, j);
      MarksPrefix(s, evs, i);
      MarksPrefix(s, evs, j);
    }
  }

  /**
   With the times of the calls, which never go back: no alarm is sent again within the cooldown of a call that sent
   it, if and only if none is raised again within it after a flush in between. The cooldown itself plays no part in
   what is sent.
   */
  lemma MarkedSpacedIff(s: Settings, evs: seq<Event>, times: seq<nat>)
    requires Marked(s, evs) && |times| == |evs|
    requires forall m, n :: 0 <= m < n < |times| ==> times[m] <= times[n]
    ensures (exists i: nat, j: nat :: SentTooSoon(s, evs, times, i, j)) <==>
            (exists i: nat, f: nat, j: nat :: AgainAcrossFlush(Marks(s, evs), times, s.cooldown, i, f, j))
  {
    var ms := Marks(s, evs);
    if i: nat, j: nat :| SentTooSoon(s, evs, times, i, j) {
      TooSoonIff(s, evs, times, i, j);
      var f := TooSoonNeedsFlush(ms, times, s.cooldown, i, j);
    }
    if i: nat, f: nat, j: nat :| AgainAcrossFlush(ms, times, s.cooldown, i, f, j) {
      var k := FlushAllowsTooSoon(ms, times, s.cooldown, i, f, j);
      TooSoonIff(s, evs, times, i, k);
    }
  }

  /** What a run of such alarms has sent, with nothing dropped from ahead of a clock. */
  predicate Undropped(s: Settings, evs: seq<Event>, emitted: seq<Alarm>, marks: seq<Mark>) {
    && Run(s, evs).b.emitted == emitted && Marks(s, evs) == marks
    && Marked(s, evs) && Caught(s, evs) && Dropped(s, evs) == {}
  }

  lemma MarkedRaise(s: Settings, evs: seq<Event>, emitted: seq<Alarm>, marks: seq<Mark>, a: Alarm)
    requires Undropped(s, evs, emitted, marks) && Run(s, evs).b.alarms == [] && a.timestamp == NOW
    ensures Undropped(s, evs + [Raise(a)], emitted + [a], marks + [Raised(a)])
    ensures Run(s, evs + [Raise(a)]).b.alarms == [a]
  {
    assert (evs + [Raise(a)])[..|evs|] == evs;
    assert ScanAlarms([], a, s.cooldown) == ([], false);
  }

  lemma MarkedFlush(s: Settings, evs: seq<Event>, emitted: seq<Alarm>, marks: seq<Mark>, a: Alarm, clock: Uint64)
    requires Undropped(s, evs, emitted, marks) && Run(s, evs).b.alarms == [a] && a.timestamp == NOW
    requires clock > s.cooldown + NOW
    ensures Undropped(s, evs + [Timer(clock)], emitted, marks + [Flushed])
    ensures Run(s, evs + [Timer(clock)]).b.alarms == []
  {
    assert (evs + [Timer(clock)])[..|evs|] == evs;
    PrunesAll([a], clock, s.cooldown);
    assert Ahead([a], clock, s.cooldown) == {};
  }

  lemma StartMarked(a: Alarm, s: Settings)
    requires a.timestamp == NOW
    ensures Undropped(s, [Raise(a)], [a], [Raised(a)]) && Run(s, [Raise(a)]).b.alarms == [a]
  {
    assert Undropped(s, [], [], []);
    MarkedRaise(s, [], [], [], a);
    assert [] + [Raise(a)] == [Raise(a)] && [] + [a] == [a] && [] + [Raised(a)] == [Raised(a)];
  }

  function MarkedRun(a: Alarm): seq<Event> {
    [Raise(a)] + [Timer(10000)] + [Raise(a)]
  }

  /**
   So the cooldown fails for such alarms although none is dropped from ahead of a clock: called at 10000 and 10500
   with a flush in between, the alarm goes out twice.
   */
  lemma MarkedRepeats(a: Alarm, s: Settings)
    requires a.timestamp == NOW && s.cooldown == 1000
    ensures Undropped(s, MarkedRun(a), [a, a], [Raised(a), Flushed, Raised(a)])
    ensures AgainAcrossFlush([Raised(a), Flushed, Raised(a)], [10000, 10000, 10500], s.cooldown, 0, 1, 2)
  {
    StartMarked(a, s);
    MarkedFlush(s, [Raise(a)], [a], [Raised(a)], a, 10000);
    MarkedRaise(s, [Raise(a)] + [Timer(10000)], [a], [Raised(a)] + [Flushed], a);
    assert [a] + [a] == [a, a] && [Raised(a)] + [Flushed] + [Raised(a)] == [Raised(a), Flushed, Raised(a)];
  }

  // ---------- a send that fails ----------

  predicate NoSame(evs: seq<Event>, a: Alarm) {
    forall i :: 0 <= i < |evs| && evs[i].Raise? ==> !Same(evs[i].alarm, a)
  }

  /** Only this one of its kind is buffered, if any. */
  predicate OnlyOne(b: Buffers, a: Alarm) {
    forall x :: x in b.alarms && Same(x, a) ==> x == a
  }

  lemma StepOnlyOne(b: Buffers, s: Settings, ev: Event, a: Alarm)
    requires OnlyOne(b, a) && (ev.Raise? ==> !Same(ev.alarm, a))
    ensures OnlyOne(Apply(b, s, ev), a)
  {
    if ev.Raise? {
      SentUnlessBuffered(b, s, ev.alarm);
    } else if Flushes(b, s, ev) {
      PruneFacts(b.alarms, ev.clock, s.cooldown);
    }
  }

  lemma LastOfConcat<T>(a: seq<T>, b: seq<T>)
    requires b != []
    ensures (a + b)[..|a + b| - 1] == a + b[..|b| - 1] && (a + b)[|a + b| - 1] == b[|b| - 1]
  {
  }

  lemma RunOn(s: Settings, before: seq<Event>, between: seq<Event>)
    requires between != []
    ensures var n := |between| - 1;
            Run(s, before + between) == Step(Run(s, before + between[..n]), s, between[n])
  {
    LastOfConcat(before, between);
  }

  lemma {:induction false} StaysOnlyOne(s: Settings, before: seq<Event>, between: seq<Event>, a: Alarm)
    requires OnlyOne(Run(s, before).b, a) && NoSame(between, a)
    ensures OnlyOne(Run(s, before + between).b, a)
    decreases |between|
  {
    if between == [] {
      assert before + between == before;
    } else {
      var n := |between| - 1;
      StaysOnlyOne(s, before, between[..n], a);
      StepOnlyOne(Run(s, before + between[..n]).b, s, between[n], a);
      RunOn(s, before, between);
    }
  }

  /** An alarm that is not swallowed ends up alone of its kind, whether or not its sending succeeds. */
  lemma SentIsOnlyOne(s: Settings, before: seq<Event>, a: Alarm)
    requires !ScanAlarms(Run(s, before).b.alarms, a, s.cooldown).1
    ensures OnlyOne(Run(s, before + [Raise(a)]).b, a)
  {
    assert (before + [Raise(a)])[..|before|] == before;
    ScanFacts(Run(s, before).b.alarms, a, s.cooldown);
  }

  /**
   An alarm is buffered before it is sent, so when the send fails, a retry returns true with nothing sent if and only
   if the alarm is still buffered and the retry is within the cooldown of it; else the retry returns what its own
   send does.
   */
  lemma RetrySwallowedIff(s: Settings, before: seq<Event>, a: Alarm, between: seq<Event>, retry: Alarm, sent: bool)
    requires !AlarmResult(Run(s, before).b, s, a, false)
    requires NoSame(between, a) && Same(retry, a)
    ensures var b := Run(s, before + [Raise(a)] + between).b;
            var swallowed := a in b.alarms && Gap(retry.timestamp, a.timestamp) <= s.cooldown;
            && AlarmResult(b, s, retry, sent) == (swallowed || sent)
            && AlarmStep(b, s, retry).emitted == (if swallowed then b.emitted else b.emitted + [retry])
  {
    SentIsOnlyOne(s, before, a);
    StaysOnlyOne(s, before + [Raise(a)], between, a);
    ScanFacts(Run(s, before + [Raise(a)] + between).b.alarms, retry, s.cooldown);
  }
}
