/** The alarm buffer: what it never holds, and how far apart repeated alarms are sent. */
module AlarmRuns {
  import opened Bytes
  import opened Batching
  import opened BatchingRuns

  predicate Same(a: Alarm, b: Alarm) {
    a.device == b.device && a.message == b.message
  }

  /** The earlier alarm tolerates the later one beside it. */
  predicate Tolerates(a: Alarm, b: Alarm, cooldown: Uint32) {
    Gap(a.timestamp, b.timestamp) <= cooldown && !Same(a, b)
  }

  predicate Pairwise(alarms: seq<Alarm>, cooldown: Uint32) {
    alarms == [] ||
    ((forall x :: x in alarms[1..] ==> Tolerates(alarms[0], x, cooldown)) && Pairwise(alarms[1..], cooldown))
  }

  lemma {:induction false} PairwiseMeans(alarms: seq<Alarm>, cooldown: Uint32, i: nat, j: nat)
    requires Pairwise(alarms, cooldown) && i < j < |alarms|
    ensures Tolerates(alarms[i], alarms[j], cooldown)
  {
    if i == 0 {
      assert alarms[j] in alarms[1..];
    } else {
      PairwiseMeans(alarms[1..], cooldown, i - 1, j - 1);
    }
  }

  lemma {:induction false} ScanFacts(alarms: seq<Alarm>, a: Alarm, cooldown: Uint32)
    ensures var (kept, found) := ScanAlarms(alarms, a, cooldown);
            && (forall x :: x in kept ==> x in alarms)
            && (forall x :: x in alarms && Gap(a.timestamp, x.timestamp) <= cooldown ==> x in kept)
            && (!found ==> forall x :: x in kept ==> Tolerates(x, a, cooldown))
            && (found <==> exists x :: x in alarms && Same(x, a) && Gap(a.timestamp, x.timestamp) <= cooldown)
            && (Pairwise(alarms, cooldown) ==> Pairwise(kept, cooldown))
  {
    if alarms != [] {
      ScanFacts(alarms[1..], a, cooldown);
      var (kept, found) := ScanAlarms(alarms[1..], a, cooldown);
      assert ([alarms[0]] + kept)[1..] == kept;
      assert alarms == [alarms[0]] + alarms[1..];
    }
  }

  lemma {:induction false} PruneFacts(alarms: seq<Alarm>, clock: Uint64, cooldown: Uint32)
    ensures var kept := Prune(alarms, clock, cooldown);
            && (forall x :: x in kept <==> x in alarms && Minus(clock, x.timestamp) <= cooldown)
            && (Pairwise(alarms, cooldown) ==> Pairwise(kept, cooldown))
  {
    if alarms != [] {
      PruneFacts(alarms[1..], clock, cooldown);
      var kept := Prune(alarms[1..], clock, cooldown);
      assert ([alarms[0]] + kept)[1..] == kept;
      assert alarms == [alarms[0]] + alarms[1..];
    }
  }

  lemma {:induction false} PairwiseAppend(alarms: seq<Alarm>, a: Alarm, cooldown: Uint32)
    requires Pairwise(alarms, cooldown) && forall x :: x in alarms ==> Tolerates(x, a, cooldown)
    ensures Pairwise(alarms + [a], cooldown)
  {
    if alarms == [] {
      assert ([] + [a])[1..] == [];
    } else {
      PairwiseAppend(alarms[1..], a, cooldown);
      assert (alarms + [a])[1..] == alarms[1..] + [a];
    }
  }

  lemma {:induction false} PairwiseHolds(s: Settings, evs: seq<Event>)
    ensures Pairwise(Run(s, evs).b.alarms, s.cooldown)
  {
    if evs != [] {
      var t, ev := Run(s, evs[..|evs| - 1]), evs[|evs| - 1];
      PairwiseHolds(s, evs[..|evs| - 1]);
      if ev.Raise? {
        PairwiseAppendScan(t.b.alarms, ev.alarm, s.cooldown);
      } else if Flushes(t.b, s, ev) {
        PruneFacts(t.b.alarms, ev.clock, s.cooldown);
      }
    }
  }

  /**
   For arbitrary 64-bit timestamps and clocks, over every run no two buffered alarms are the same, and their
   timestamps are pairwise within the cooldown.
   */
  lemma AlarmsPairwise(s: Settings, evs: seq<Event>)
    ensures var alarms := Run(s, evs).b.alarms;
            forall i, j :: 0 <= i < j < |alarms| ==>
              !Same(alarms[i], alarms[j]) && Gap(alarms[i].timestamp, alarms[j].timestamp) <= s.cooldown
  {
    PairwiseHolds(s, evs);
    var alarms := Run(s, evs).b.alarms;
    forall i, j | 0 <= i < j < |alarms| ensures Tolerates(alarms[i], alarms[j], s.cooldown) {
      PairwiseMeans(alarms, s.cooldown, i, j);
    }
  }

  /**
   An alarm is swallowed exactly when the same alarm is buffered within the cooldown of it; otherwise it is sent and
   buffered. Either way buffered alarms within its cooldown stay, and no other alarm appears.
   */
  lemma SentUnlessBuffered(b: Buffers, s: Settings, a: Alarm)
    ensures var b' := AlarmStep(b, s, a);
            var swallowed := exists x :: x in b.alarms && Same(x, a) && Gap(a.timestamp, x.timestamp) <= s.cooldown;
            && b'.emitted == (if swallowed then b.emitted else b.emitted + [a])
            && (!swallowed ==> a in b'.alarms)
            && (forall x :: x in b.alarms && Gap(a.timestamp, x.timestamp) <= s.cooldown ==> x in b'.alarms)
            && (forall x :: x in b'.alarms ==> x in b.alarms || (x == a && !swallowed))
  {
    ScanFacts(b.alarms, a, s.cooldown);
  }

  lemma PairwiseAppendScan(alarms: seq<Alarm>, a: Alarm, cooldown: Uint32)
    requires Pairwise(alarms, cooldown)
    ensures var (kept, found) := ScanAlarms(alarms, a, cooldown);
            Pairwise(if found then kept else kept + [a], cooldown)
  {
    ScanFacts(alarms, a, cooldown);
    var (kept, found) := ScanAlarms(alarms, a, cooldown);
    if !found {
      PairwiseAppend(kept, a, cooldown);
    }
  }

  // ---------- pruning with a coarse clock ----------

  /**
   A prune keeps every alarm still within the cooldown of its clock if and only if none of those is ahead of the
   clock. The clock is a whole number of seconds, so alarms of the current second often are, and are dropped.
   */
  lemma PruneKeepsRecentIff(alarms: seq<Alarm>, clock: Uint64, cooldown: Uint32)
    ensures (forall x :: x in alarms && Gap(clock, x.timestamp) <= cooldown ==> x in Prune(alarms, clock, cooldown))
            <==>
            (forall x :: x in alarms && Gap(clock, x.timestamp) <= cooldown ==> x.timestamp <= clock)
  {
    PruneFacts(alarms, clock, cooldown);
    forall x | x in alarms && Gap(clock, x.timestamp) <= cooldown
      ensures x in Prune(alarms, clock, cooldown) <==> x.timestamp <= clock
    {
      AgeWithinIff(clock, x.timestamp, cooldown);
    }
  }

  /** Close by, the unsigned age is within the cooldown exactly when it does not wrap. */
  lemma AgeWithinIff(clock: Uint64, time: Uint64, cooldown: Uint32)
    requires Gap(clock, time) <= cooldown
    ensures Minus(clock, time) <= cooldown <==> time <= clock
  {
    if time <= clock {
      assert Minus(clock, time) == clock - time;
    } else {
      assert Minus(clock, time) == TWO_64 - (time - clock);
    }
  }

  /** So the cooldown is not kept unconditionally: the same alarm goes out twice within a millisecond. */
  lemma CoarseClockRepeats(a: Alarm, s: Settings)
    requires a.timestamp == 1500 && s.cooldown == 1000
    ensures var again := a.(timestamp := 1501);
            Run(s, [Raise(a), Timer(1000), Raise(again)]).b.emitted == [a, again]
  {
    var again := a.(timestamp := 1501);
    var evs := [Raise(a), Timer(1000), Raise(again)];
    assert evs[..2] == [Raise(a), Timer(1000)] && evs[..2][..1] == [Raise(a)] && evs[..2][..1][..0] == [];
    assert Run(s, []) == START_TRACE;
    var t1 := Run(s, [Raise(a)]);
    assert t1 == Step(START_TRACE, s, Raise(a));
    assert t1.b.alarms == [a] && t1.b.emitted == [a];
    var t2 := Run(s, evs[..2]);
    assert t2 == Step(t1, s, Timer(1000));
    assert [a][1..] == [] && Minus(1000, 1500) > 1000;
    assert Prune([a], 1000, s.cooldown) == [];
    assert t2.b.alarms == [] && t2.b.emitted == [a];
  }

  // ---------- spacing, for any times ----------

  /** The alarms that leave the buffer from one state to the next. */
  function Gone(b: Buffers, b': Buffers): set<Alarm> {
    set x | x in b.alarms && x !in b'.alarms
  }

  /** All that have left it so far. */
  function Erased(s: Settings, evs: seq<Event>): set<Alarm> {
    if evs == [] then {} else Erased(s, evs[..|evs| - 1]) + Gone(Run(s, evs[..|evs| - 1]).b, Run(s, evs).b)
  }

  function Members(alarms: seq<Alarm>): set<Alarm> {
    set x | x in alarms
  }

  predicate CloseTo(xs: set<Alarm>, a: Alarm, cooldown: Uint32) {
    exists x :: x in xs && Same(x, a) && Gap(a.timestamp, x.timestamp) <= cooldown
  }

  /** An alarm that the buffer no longer knows: one within its cooldown has left, and none is held. */
  predicate Forgotten(b: Buffers, erased: set<Alarm>, a: Alarm, cooldown: Uint32) {
    CloseTo(erased, a, cooldown) && !CloseTo(Members(b.alarms), a, cooldown)
  }

  predicate SomeForgotten(s: Settings, evs: seq<Event>) {
    evs != [] &&
    (SomeForgotten(s, evs[..|evs| - 1])
     || (evs[|evs| - 1].Raise?
         && Forgotten(Run(s, evs[..|evs| - 1]).b, Erased(s, evs[..|evs| - 1]), evs[|evs| - 1].alarm, s.cooldown)))
  }

  predicate Apart(emitted: seq<Alarm>, cooldown: Uint32) {
    forall i, j :: 0 <= i < j < |emitted| && Same(emitted[i], emitted[j]) ==>
      Gap(emitted[j].timestamp, emitted[i].timestamp) > cooldown
  }

  lemma ApartAppend(emitted: seq<Alarm>, a: Alarm, cooldown: Uint32)
    ensures Apart(emitted + [a], cooldown) <==>
            Apart(emitted, cooldown) && !CloseTo(Members(emitted), a, cooldown)
  {
    var all := emitted + [a];
    assert forall i :: 0 <= i < |emitted| ==> all[i] == emitted[i];
    if Apart(all, cooldown) {
      forall x | x in emitted && Same(x, a) ensures Gap(a.timestamp, x.timestamp) > cooldown {
        var i :| 0 <= i < |emitted| && emitted[i] == x;
        assert Same(all[i], all[|emitted|]);
      }
    }
  }

  /** What was sent is exactly what is buffered or has left the buffer. */
  predicate Traced(b: Buffers, erased: set<Alarm>) {
    && (forall x :: x in b.emitted ==> x in b.alarms || x in erased)
    && (forall x :: x in b.alarms ==> x in b.emitted)
    && (forall x :: x in erased ==> x in b.emitted)
  }

  lemma RaiseApart(b: Buffers, erased: set<Alarm>, s: Settings, a: Alarm)
    requires Traced(b, erased)
    ensures var b' := AlarmStep(b, s, a);
            && Traced(b', erased + Gone(b, b'))
            && (Apart(b'.emitted, s.cooldown) <==> Apart(b.emitted, s.cooldown) && !Forgotten(b, erased, a, s.cooldown))
  {
    SentUnlessBuffered(b, s, a);
    ApartAppend(b.emitted, a, s.cooldown);
    var held := Members(b.alarms);
    assert CloseTo(held, a, s.cooldown) <==>
           exists x :: x in b.alarms && Same(x, a) && Gap(a.timestamp, x.timestamp) <= s.cooldown by {
      assert forall x :: x in held <==> x in b.alarms;
    }
    assert CloseTo(Members(b.emitted), a, s.cooldown) <==>
           CloseTo(held, a, s.cooldown) || CloseTo(erased, a, s.cooldown) by {
      assert forall x :: x in Members(b.emitted) <==> x in held || x in erased;
    }
  }

  lemma QuietApart(b: Buffers, erased: set<Alarm>, s: Settings, ev: Event)
    requires Traced(b, erased) && !ev.Raise?
    ensures var b' := Apply(b, s, ev);
            Traced(b', erased + Gone(b, b')) && b'.emitted == b.emitted
  {
    if Flushes(b, s, ev) {
      PruneFacts(b.alarms, ev.clock, s.cooldown);
    }
  }

  lemma {:induction false} ApartHolds(s: Settings, evs: seq<Event>)
    ensures Traced(Run(s, evs).b, Erased(s, evs))
    ensures Apart(Run(s, evs).b.emitted, s.cooldown) <==> !SomeForgotten(s, evs)
  {
    if evs != [] {
      var init, ev := evs[..|evs| - 1], evs[|evs| - 1];
      ApartHolds(s, init);
      if ev.Raise? {
        RaiseApart(Run(s, init).b, Erased(s, init), s, ev.alarm);
      } else {
        QuietApart(Run(s, init).b, Erased(s, init), s, ev);
      }
    }
  }

  /**
   Over every run, for arbitrary timestamps and clocks: the timestamps of any two emissions of the same alarm are more
   than the cooldown apart if and only if no alarm is raised that the buffer no longer knows.
   */
  lemma ApartIff(s: Settings, evs: seq<Event>)
    ensures Apart(Run(s, evs).b.emitted, s.cooldown) <==> !SomeForgotten(s, evs)
  {
    ApartHolds(s, evs);
  }

  /** An alarm far off in time, as one with the marker for "now()" is, makes the buffer forget the others. */
  lemma FarAlarmErases(b: Buffers, s: Settings, a: Alarm)
    requires forall x :: x in b.alarms ==> Gap(a.timestamp, x.timestamp) > s.cooldown
    ensures AlarmStep(b, s, a) == b.(alarms := [a], emitted := b.emitted + [a])
  {
    ScansAway(b.alarms, a, s.cooldown);
  }

  lemma {:induction false} ScansAway(alarms: seq<Alarm>, a: Alarm, cooldown: Uint32)
    requires forall x :: x in alarms ==> Gap(a.timestamp, x.timestamp) > cooldown
    ensures ScanAlarms(alarms, a, cooldown) == ([], false)
  {
    if alarms != [] {
      ScansAway(alarms[1..], a, cooldown);
    }
  }

  // ---------- spacing, for times that never go back ----------

  /** The latest time the run has seen, of an alarm or of a flush. */
  function Latest(s: Settings, evs: seq<Event>): Uint64 {
    if evs == [] then 0 else
      var b, ev, latest := Run(s, evs[..|evs| - 1]).b, evs[|evs| - 1], Latest(s, evs[..|evs| - 1]);
      if ev.Raise? then Later(ev.alarm.timestamp, latest)
      else if Flushes(b, s, ev) then Later(ev.clock, latest)
      else latest
  }

  function Later(a: Uint64, b: Uint64): Uint64 {
    if a > b then a else b
  }

  /** Alarm times never go back, and no flush clock was ahead of an alarm raised after it. */
  predicate Ordered(s: Settings, evs: seq<Event>) {
    evs == [] ||
    (Ordered(s, evs[..|evs| - 1])
     && (evs[|evs| - 1].Raise? ==> evs[|evs| - 1].alarm.timestamp >= Latest(s, evs[..|evs| - 1])))
  }

  /** No flush clock lags an alarm buffered at the time. */
  predicate Caught(s: Settings, evs: seq<Event>) {
    evs == [] ||
    (Caught(s, evs[..|evs| - 1])
     && var b, ev := Run(s, evs[..|evs| - 1]).b, evs[|evs| - 1];
        Flushes(b, s, ev) ==> forall x :: x in b.alarms ==> x.timestamp <= ev.clock)
  }

  /** The alarms that a flush drops although they are ahead of its clock. */
  function Ahead(alarms: seq<Alarm>, clock: Uint64, cooldown: Uint32): set<Alarm> {
    set x | x in alarms && x.timestamp > clock && Minus(clock, x.timestamp) > cooldown
  }

  /** All those that flushes have dropped so far. */
  function Dropped(s: Settings, evs: seq<Event>): set<Alarm> {
    if evs == [] then {} else
      var b, ev := Run(s, evs[..|evs| - 1]).b, evs[|evs| - 1];
      Dropped(s, evs[..|evs| - 1]) + if Flushes(b, s, ev) then Ahead(b.alarms, ev.clock, s.cooldown) else {}
  }

  /** The alarm comes within the cooldown of one that was dropped. */
  predicate Early(dropped: set<Alarm>, a: Alarm, cooldown: Uint32) {
    exists d :: d in dropped && Same(d, a) && a.timestamp <= d.timestamp + cooldown
  }

  /** Some dropped alarm was raised again within its cooldown. */
  predicate RaisedAgain(s: Settings, evs: seq<Event>) {
    evs != [] &&
    (RaisedAgain(s, evs[..|evs| - 1])
     || (evs[|evs| - 1].Raise? && Early(Dropped(s, evs[..|evs| - 1]), evs[|evs| - 1].alarm, s.cooldown)))
  }

  predicate Spaced(emitted: seq<Alarm>, cooldown: Uint32) {
    forall i, j :: 0 <= i < j < |emitted| && Same(emitted[i], emitted[j]) ==>
      emitted[j].timestamp > emitted[i].timestamp + cooldown
  }

  /** What is buffered or was dropped has been sent, and nothing is from after the latest time. */
  predicate Accounted(b: Buffers, dropped: set<Alarm>, latest: Uint64) {
    && (forall x :: x in b.alarms ==> x in b.emitted)
    && (forall x :: x in dropped ==> x in b.emitted)
    && (forall x :: x in b.emitted ==> x.timestamp <= latest)
  }

  /** While alarms are spaced, each one sent is buffered, out of its cooldown, or dropped and not buffered. */
  predicate SpacingInv(b: Buffers, dropped: set<Alarm>, latest: Uint64, cooldown: Uint32) {
    Accounted(b, dropped, latest) &&
    (Spaced(b.emitted, cooldown) ==>
       && (forall x :: x in b.emitted ==> x in b.alarms || x in dropped || latest - x.timestamp > cooldown)
       && (forall x :: x in dropped ==> x !in b.alarms))
  }

  lemma SpacedAppend(emitted: seq<Alarm>, a: Alarm, cooldown: Uint32)
    ensures Spaced(emitted + [a], cooldown) <==>
            Spaced(emitted, cooldown)
            && forall x :: x in emitted && Same(x, a) ==> a.timestamp > x.timestamp + cooldown
  {
    var all := emitted + [a];
    assert forall i :: 0 <= i < |emitted| ==> all[i] == emitted[i];
    if Spaced(all, cooldown) {
      forall x | x in emitted && Same(x, a) ensures a.timestamp > x.timestamp + cooldown {
        var i :| 0 <= i < |emitted| && emitted[i] == x;
        assert Same(all[i], all[|emitted|]);
      }
    }
  }

  /** Two different sent alarms that are the same but for times close by cannot be spaced. */
  lemma SpacedApart(emitted: seq<Alarm>, x: Alarm, y: Alarm, cooldown: Uint32)
    requires Spaced(emitted, cooldown) && x in emitted && y in emitted && Same(x, y) && x != y
    ensures Gap(x.timestamp, y.timestamp) > cooldown
  {
    var i :| 0 <= i < |emitted| && emitted[i] == x;
    var j :| 0 <= j < |emitted| && emitted[j] == y;
    assert if i < j then Same(emitted[i], emitted[j]) else Same(emitted[j], emitted[i]);
  }

  /** An alarm that is swallowed was not raised early: the buffered copy would itself have been sent too soon. */
  lemma SwallowedNotEarly(b: Buffers, dropped: set<Alarm>, a: Alarm, x: Alarm, latest: Uint64, cooldown: Uint32)
    requires SpacingInv(b, dropped, latest, cooldown) && Spaced(b.emitted, cooldown) && a.timestamp >= latest
    requires x in b.alarms && Same(x, a) && Gap(a.timestamp, x.timestamp) <= cooldown
    ensures !Early(dropped, a, cooldown)
  {
    forall d | d in dropped && Same(d, a) ensures a.timestamp > d.timestamp + cooldown {
      SpacedApart(b.emitted, x, d, cooldown);
    }
  }

  lemma SwallowKeepsSpacing(b: Buffers, dropped: set<Alarm>, s: Settings, a: Alarm, latest: Uint64)
    requires SpacingInv(b, dropped, latest, s.cooldown) && a.timestamp >= latest
    requires ScanAlarms(b.alarms, a, s.cooldown).1
    ensures SpacingInv(AlarmStep(b, s, a), dropped, a.timestamp, s.cooldown)
    ensures Spaced(b.emitted, s.cooldown) ==> !Early(dropped, a, s.cooldown)
  {
    ScanFacts(b.alarms, a, s.cooldown);
    var x :| x in b.alarms && Same(x, a) && Gap(a.timestamp, x.timestamp) <= s.cooldown;
    if Spaced(b.emitted, s.cooldown) {
      SwallowedNotEarly(b, dropped, a, x, latest, s.cooldown);
    }
  }

  lemma SendSpacedIff(b: Buffers, dropped: set<Alarm>, s: Settings, a: Alarm, latest: Uint64)
    requires SpacingInv(b, dropped, latest, s.cooldown) && a.timestamp >= latest
    requires !ScanAlarms(b.alarms, a, s.cooldown).1
    ensures Spaced(b.emitted + [a], s.cooldown) <==> Spaced(b.emitted, s.cooldown) && !Early(dropped, a, s.cooldown)
  {
    SpacedAppend(b.emitted, a, s.cooldown);
    if Spaced(b.emitted, s.cooldown) {
      SentOnTime(b, dropped, s, a, latest);
    }
  }

  lemma SendKeepsSpacing(b: Buffers, dropped: set<Alarm>, s: Settings, a: Alarm, latest: Uint64)
    requires SpacingInv(b, dropped, latest, s.cooldown) && a.timestamp >= latest
    requires !ScanAlarms(b.alarms, a, s.cooldown).1
    ensures SpacingInv(AlarmStep(b, s, a), dropped, a.timestamp, s.cooldown)
    ensures Spaced(b.emitted + [a], s.cooldown) <==> Spaced(b.emitted, s.cooldown) && !Early(dropped, a, s.cooldown)
  {
    SendSpacedIff(b, dropped, s, a, latest);
    SpacedAppend(b.emitted, a, s.cooldown);
    ScanFacts(b.alarms, a, s.cooldown);
  }

  lemma RaiseKeepsSpacing(b: Buffers, dropped: set<Alarm>, s: Settings, a: Alarm, latest: Uint64)
    requires SpacingInv(b, dropped, latest, s.cooldown) && a.timestamp >= latest
    ensures var b' := AlarmStep(b, s, a);
            && SpacingInv(b', dropped, a.timestamp, s.cooldown)
            && (Spaced(b'.emitted, s.cooldown) <==> Spaced(b.emitted, s.cooldown) && !Early(dropped, a, s.cooldown))
  {
    if ScanAlarms(b.alarms, a, s.cooldown).1 {
      SwallowKeepsSpacing(b, dropped, s, a, latest);
    } else {
      SendKeepsSpacing(b, dropped, s, a, latest);
    }
  }

  /** An alarm that is not swallowed comes after the cooldown of all the same ones sent, exactly when it is not early. */
  lemma SentOnTime(b: Buffers, dropped: set<Alarm>, s: Settings, a: Alarm, latest: Uint64)
    requires SpacingInv(b, dropped, latest, s.cooldown) && a.timestamp >= latest && Spaced(b.emitted, s.cooldown)
    requires !ScanAlarms(b.alarms, a, s.cooldown).1
    ensures (forall x :: x in b.emitted && Same(x, a) ==> a.timestamp > x.timestamp + s.cooldown)
            <==> !Early(dropped, a, s.cooldown)
  {
    ScanFacts(b.alarms, a, s.cooldown);
    forall x | x in b.emitted && Same(x, a) && x !in dropped ensures a.timestamp > x.timestamp + s.cooldown {
      if x in b.alarms {
        assert Gap(a.timestamp, x.timestamp) > s.cooldown;
      }
    }
  }

  lemma PruneKeepsSpacing(b: Buffers, b': Buffers, dropped: set<Alarm>, s: Settings, clock: Uint64, latest: Uint64)
    requires SpacingInv(b, dropped, latest, s.cooldown)
    requires b'.alarms == Prune(b.alarms, clock, s.cooldown) && b'.emitted == b.emitted
    ensures SpacingInv(b', dropped + Ahead(b.alarms, clock, s.cooldown), Later(clock, latest), s.cooldown)
  {
    PruneFacts(b.alarms, clock, s.cooldown);
    forall x | x in b.alarms && x !in b'.alarms && x.timestamp <= clock ensures clock - x.timestamp > s.cooldown {
      assert Minus(clock, x.timestamp) == clock - x.timestamp;
    }
  }

  lemma AlarmsUntouched(b: Buffers, s: Settings, ev: Event)
    requires !ev.Raise? && !Flushes(b, s, ev)
    ensures Apply(b, s, ev).alarms == b.alarms && Apply(b, s, ev).emitted == b.emitted
  {
  }

  lemma {:induction false} SpacingHolds(s: Settings, evs: seq<Event>)
    requires Ordered(s, evs)
    ensures SpacingInv(Run(s, evs).b, Dropped(s, evs), Latest(s, evs), s.cooldown)
    ensures Spaced(Run(s, evs).b.emitted, s.cooldown) <==> !RaisedAgain(s, evs)
  {
    if evs != [] {
      var init, ev := evs[..|evs| - 1], evs[|evs| - 1];
      SpacingHolds(s, init);
      var b, b', dropped, latest := Run(s, init).b, Run(s, evs).b, Dropped(s, init), Latest(s, init);
      if ev.Raise? {
        RaiseKeepsSpacing(b, dropped, s, ev.alarm, latest);
        assert Dropped(s, evs) == dropped;
      } else if Flushes(b, s, ev) {
        PruneKeepsSpacing(b, b', dropped, s, ev.clock, latest);
      } else {
        AlarmsUntouched(b, s, ev);
        assert Dropped(s, evs) == dropped;
      }
    }
  }

  /**
   With alarm times that never go back and no flush clock ahead of later alarms, the emissions of every alarm are
   more than the cooldown apart if and only if no alarm that a flush dropped from ahead of its clock was raised again
   within its cooldown.
   */
  lemma SpacedIff(s: Settings, evs: seq<Event>)
    requires Ordered(s, evs)
    ensures Spaced(Run(s, evs).b.emitted, s.cooldown) <==> !RaisedAgain(s, evs)
  {
    SpacingHolds(s, evs);
  }

  lemma {:induction false} NoneDropped(s: Settings, evs: seq<Event>)
    requires Caught(s, evs)
    ensures Dropped(s, evs) == {} && !RaisedAgain(s, evs)
  {
    if evs != [] {
      NoneDropped(s, evs[..|evs| - 1]);
    }
  }

  /** In particular they are when no flush clock lags an alarm buffered at the time. */
  lemma AlarmsSpaced(s: Settings, evs: seq<Event>)
    requires Ordered(s, evs) && Caught(s, evs)
    ensures Spaced(Run(s, evs).b.emitted, s.cooldown)
  {
    SpacedIff(s, evs);
    NoneDropped(s, evs);
  }

  /** The flush clock may lag an alarm that was swallowed, as only the first one is buffered. */
  lemma MayLagSwallowed(a: Alarm, s: Settings)
    requires a.timestamp == 900 && s.cooldown == 1000
    ensures var evs := [Raise(a), Raise(a.(timestamp := 1500)), Timer(1000)];
            Ordered(s, evs) && Caught(s, evs) && Latest(s, evs) == 1500
  {
    var again := a.(timestamp := 1500);
    var evs := [Raise(a), Raise(again), Timer(1000)];
    assert evs[..2] == [Raise(a), Raise(again)] && evs[..2][..1] == [Raise(a)] && evs[..2][..1][..0] == [];
    assert Run(s, []) == START_TRACE && Latest(s, []) == 0 && Ordered(s, []) && Caught(s, []);
    var t1 := Run(s, [Raise(a)]);
    assert t1 == Step(START_TRACE, s, Raise(a)) && t1.b.alarms == [a];
    assert Latest(s, [Raise(a)]) == 900 && Ordered(s, [Raise(a)]) && Caught(s, [Raise(a)]);
    var t2 := Run(s, evs[..2]);
    assert t2 == Step(t1, s, Raise(again)) && t2.b.alarms == [a];
    assert Latest(s, evs[..2]) == 1500 && Ordered(s, evs[..2]) && Caught(s, evs[..2]);
  }
}
