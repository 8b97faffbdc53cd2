/** The monitoring buffer refines "the first submission of each key since the last flush". */
module MonitoringRuns {
  import opened Bytes
  import opened CompressBound
  import opened Batching
  import opened BatchingRuns

  function KeyOf(e: MonEntry): string {
    e.device + e.subject
  }

  function FirstWins(es: seq<MonEntry>): map<string, MonEntry> {
    if es == [] then map[] else PutNew(FirstWins(es[..|es| - 1]), KeyOf(es[|es| - 1]), es[|es| - 1])
  }

  /** For each key exactly the earliest entry bearing it. */
  lemma {:induction false} FirstWinsMeans(es: seq<MonEntry>, k: string)
    ensures k in FirstWins(es) <==> exists i :: 0 <= i < |es| && KeyOf(es[i]) == k
    ensures k in FirstWins(es) ==>
              (exists i :: 0 <= i < |es| && KeyOf(es[i]) == k && FirstWins(es)[k] == es[i]
                           && forall j :: 0 <= j < i ==> KeyOf(es[j]) != k)
  {
    if es != [] {
      var init, e := es[..|es| - 1], es[|es| - 1];
      FirstWinsMeans(init, k);
      assert forall j :: 0 <= j < |init| ==> init[j] == es[j];
      if k in FirstWins(init) {
        var i :| 0 <= i < |init| && KeyOf(init[i]) == k && FirstWins(init)[k] == init[i]
                 && forall j :: 0 <= j < i ==> KeyOf(init[j]) != k;
        assert KeyOf(es[i]) == k && FirstWins(es)[k] == es[i];
      } else if KeyOf(e) == k {
        assert KeyOf(es[|es| - 1]) == k;
      }
    }
  }

  function SumMon(es: seq<MonEntry>): nat {
    if es == [] then 0 else SumMon(es[..|es| - 1]) + Bound(MonSize(es[|es| - 1]))
  }

  ghost function SumMap(m: map<string, MonEntry>): nat {
    if m == map[] then 0 else
      var k :| k in m;
      Bound(MonSize(m[k])) + SumMap(m - {k})
  }

  lemma {:induction false} SumMapRemove(m: map<string, MonEntry>, k: string)
    requires k in m
    ensures SumMap(m) == Bound(MonSize(m[k])) + SumMap(m - {k})
    decreases |m|
  {
    var p :| p in m && SumMap(m) == Bound(MonSize(m[p])) + SumMap(m - {p});
    if p != k {
      SumMapRemove(m - {p}, k);
      SumMapRemove(m - {k}, p);
      assert m - {p} - {k} == m - {k} - {p};
    }
  }

  lemma {:induction false} FirstWinsCosts(es: seq<MonEntry>)
    ensures SumMap(FirstWins(es)) <= SumMon(es)
  {
    if es != [] {
      var init, e := es[..|es| - 1], es[|es| - 1];
      FirstWinsCosts(init);
      if KeyOf(e) !in FirstWins(init) {
        SumMapRemove(FirstWins(es), KeyOf(e));
        assert FirstWins(es) - {KeyOf(e)} == FirstWins(init);
      }
    }
  }

  function Concat(ess: seq<seq<MonEntry>>): seq<MonEntry> {
    if ess == [] then [] else Concat(ess[..|ess| - 1]) + ess[|ess| - 1]
  }

  /** When each key's entry was submitted. */
  function Times(m: map<string, MonEntry>): map<string, Uint64> {
    map k | k in m :: m[k].timestamp
  }

  /** The submissions of one batch: each was accepted, and they are within the budget unless they share a key. */
  predicate GoodMon(es: seq<MonEntry>, s: Settings) {
    (forall i :: 0 <= i < |es| ==> !TooLong(MonSize(es[i]))) && (SumMon(es) <= s.mss || |FirstWins(es)| == 1)
  }

  predicate MonInv(t: Trace, s: Settings) {
    && GoodMon(t.open, s) && (forall i :: 0 <= i < |t.closed| ==> GoodMon(t.closed[i], s))
    && t.b.mon == FirstWins(t.open) && t.b.monBytes == SumMon(t.open)
    && (t.b.mon == map[] <==> t.open == [])
    && t.b.mon.Keys <= t.b.monSent.Keys && t.b.monSent == Times(FirstWins(t.listed))
    && (t.b.monBytes <= s.mss || |t.b.mon| == 1)
    && Concat(t.closed) + t.open == t.unsuppressed
    && |t.closed| == |t.b.monBatches|
    && (forall i :: 0 <= i < |t.closed| ==> t.closed[i] != [] && t.b.monBatches[i] == FirstWins(t.closed[i]))
  }

  /** The trace after a flush of the monitoring buffer. */
  function Cut(t: Trace, b': Buffers, monLock: bool): Trace {
    if t.b.mon == map[] then t.(b := b')
    else t.(b := b', closed := t.closed + [t.open], open := [], listed := if monLock then [] else t.listed)
  }

  lemma FlushCuts(t: Trace, s: Settings, monLock: bool, clock: Uint64)
    requires MonInv(t, s)
    ensures var t' := Cut(t, Flush(t.b, s, monLock, clock), monLock); MonInv(t', s) && t'.open == [] && t'.b.monBytes == 0
  {
    if t.b.mon != map[] {
      assert (t.closed + [t.open])[..|t.closed|] == t.closed;
      assert Concat(t.closed + [t.open]) + [] == t.unsuppressed;
    }
  }

  lemma MonAppends(t: Trace, s: Settings, e: MonEntry, b': Buffers)
    requires MonInv(t, s) && !TooLong(MonSize(e)) && (t.open == [] || t.b.monBytes + Bound(MonSize(e)) <= s.mss)
    requires b'.mon == PutNew(t.b.mon, KeyOf(e), e) && b'.monSent == PutNew(t.b.monSent, KeyOf(e), e.timestamp)
    requires b'.monBytes == t.b.monBytes + Bound(MonSize(e)) && b'.monBatches == t.b.monBatches
    ensures MonInv(t.(b := b', open := t.open + [e], unsuppressed := t.unsuppressed + [e], listed := t.listed + [e]), s)
  {
    GoodMonSnoc(t.open, e, s);
    FirstWinsSnoc(t.open, e);
    FirstWinsSnoc(t.listed, e);
    assert KeyOf(e) in b'.mon;
    assert Concat(t.closed) + (t.open + [e]) == t.unsuppressed + [e];
  }

  lemma GoodMonSnoc(es: seq<MonEntry>, e: MonEntry, s: Settings)
    requires GoodMon(es, s) && !TooLong(MonSize(e)) && (es == [] || SumMon(es) + Bound(MonSize(e)) <= s.mss)
    ensures GoodMon(es + [e], s)
  {
    FirstWinsSnoc(es, e);
    if es == [] {
      assert FirstWins(es + [e]) == map[KeyOf(e) := e];
    }
  }

  lemma FirstWinsSnoc(es: seq<MonEntry>, e: MonEntry)
    ensures FirstWins(es + [e]) == PutNew(FirstWins(es), KeyOf(e), e)
    ensures Times(FirstWins(es + [e])) == PutNew(Times(FirstWins(es)), KeyOf(e), e.timestamp)
    ensures SumMon(es + [e]) == SumMon(es) + Bound(MonSize(e))
  {
    assert (es + [e])[..|es|] == es;
  }

  /** A trace that differs only in what the invariant does not look at. */
  lemma SameMonitoring(t: Trace, t': Trace, s: Settings)
    requires MonInv(t, s)
    requires t'.b.mon == t.b.mon && t'.b.monBytes == t.b.monBytes && t'.b.monSent == t.b.monSent
    requires t'.b.monBatches == t.b.monBatches
    requires t'.open == t.open && t'.closed == t.closed && t'.unsuppressed == t.unsuppressed && t'.listed == t.listed
    ensures MonInv(t', s)
  {
  }

  /** The trace after the event's flush, if it has one. */
  function Flushed(t: Trace, s: Settings, ev: Event): Trace {
    if Flushes(t.b, s, ev) then Cut(t, Flush(t.b, s, !ev.Mon?, ev.clock), !ev.Mon?) else t
  }

  lemma SubmitKeeps(t: Trace, s: Settings, ev: Event)
    requires MonInv(t, s) && Submits(t.b, s, ev)
    ensures MonInv(Step(t, s, ev), s)
  {
    var t1, b' := Flushed(t, s, ev), Apply(t.b, s, ev);
    if Flushes(t.b, s, ev) {
      FlushCuts(t, s, false, ev.clock);
    }
    MonAppends(t1, s, ev.entry, b');
  }

  lemma OtherKeeps(t: Trace, s: Settings, ev: Event)
    requires MonInv(t, s) && !Submits(t.b, s, ev)
    ensures MonInv(Step(t, s, ev), s)
  {
    var t1, t' := Flushed(t, s, ev), Step(t, s, ev);
    if Flushes(t.b, s, ev) {
      FlushCuts(t, s, true, ev.clock);
    }
    assert t'.open == t1.open && t'.unsuppressed == t1.unsuppressed && t'.closed == t1.closed && t'.listed == t1.listed;
    SameMonitoring(t1, t', s);
  }

  lemma {:induction false} MonInvHolds(s: Settings, evs: seq<Event>)
    ensures MonInv(Run(s, evs), s)
  {
    if evs == [] {
      assert Concat([]) + [] == [];
      return;
    }
    MonInvHolds(s, evs[..|evs| - 1]);
    var t, ev := Run(s, evs[..|evs| - 1]), evs[|evs| - 1];
    if Submits(t.b, s, ev) {
      SubmitKeeps(t, s, ev);
    } else {
      OtherKeeps(t, s, ev);
    }
  }

  /**
   Over every run: the buffer keeps, for each key, the first unsuppressed submission since the last
   flush, each batch handed over did so at its flush, and together they account for every unsuppressed submission
   in order. The running byte count is zero when empty, covers the entries held, and stays within MSS_SIZE unless
   exactly one entry is held.
   */
  lemma MonitoringFirstWins(s: Settings, evs: seq<Event>)
    ensures var t := Run(s, evs);
            && t.b.mon == FirstWins(t.open)
            && |t.b.monBatches| == |t.closed|
            && (forall i :: 0 <= i < |t.closed| ==> t.b.monBatches[i] == FirstWins(t.closed[i]))
            && Concat(t.closed) + t.open == t.unsuppressed
            && t.b.mon.Keys <= t.b.monSent.Keys
            && (t.b.mon == map[] ==> t.b.monBytes == 0)
            && SumMap(t.b.mon) <= t.b.monBytes
            && (t.b.monBytes <= s.mss || |t.b.mon| == 1)
  {
    MonInvHolds(s, evs);
    FirstWinsCosts(Run(s, evs).open);
  }

  /**
   In every run a submission is suppressed exactly when its key was submitted since the suppression map was last
   cleared and it comes within the merge period of the first such submission, in unsigned arithmetic.
   */
  lemma SuppressedIff(s: Settings, evs: seq<Event>, e: MonEntry)
    ensures var t := Run(s, evs);
            Suppressed(t.b, s, e) <==>
            exists i :: 0 <= i < |t.listed| && KeyOf(t.listed[i]) == KeyOf(e)
                        && (forall j :: 0 <= j < i ==> KeyOf(t.listed[j]) != KeyOf(e))
                        && Minus(e.timestamp, t.listed[i].timestamp) < s.mergePeriod
  {
    MonInvHolds(s, evs);
    FirstOfKey(Run(s, evs).listed, e, s.mergePeriod);
  }

  lemma FirstOfKey(listed: seq<MonEntry>, e: MonEntry, period: Uint32)
    ensures (KeyOf(e) in Times(FirstWins(listed))
             && Minus(e.timestamp, Times(FirstWins(listed))[KeyOf(e)]) < period) <==>
            exists i :: 0 <= i < |listed| && KeyOf(listed[i]) == KeyOf(e)
                        && (forall j :: 0 <= j < i ==> KeyOf(listed[j]) != KeyOf(e))
                        && Minus(e.timestamp, listed[i].timestamp) < period
  {
    var k := KeyOf(e);
    FirstWinsMeans(listed, k);
    if k in FirstWins(listed) {
      var i :| 0 <= i < |listed| && KeyOf(listed[i]) == k && FirstWins(listed)[k] == listed[i]
               && forall j :: 0 <= j < i ==> KeyOf(listed[j]) != k;
      forall m | 0 <= m < |listed| && KeyOf(listed[m]) == k && (forall j :: 0 <= j < m ==> KeyOf(listed[j]) != k)
        ensures m == i
      {
      }
    }
  }

  // ---------- which submissions share a key ----------

  /**
   The key is the device followed by the subject, so two submissions share it exactly when the longer device is the
   other one with the start of the other's subject.
   */
  lemma SameKeyIff(e: MonEntry, f: MonEntry)
    requires |e.device| <= |f.device|
    ensures KeyOf(e) == KeyOf(f) <==> e.device <= f.device && e.subject == f.device[|e.device|..] + f.subject
  {
    var n := |e.device|;
    if KeyOf(e) == KeyOf(f) {
      assert e.device == KeyOf(e)[..n] == f.device[..n];
      assert e.subject == KeyOf(e)[n..] == KeyOf(f)[n..] == f.device[n..] + f.subject;
    } else if e.device <= f.device {
      assert f.device == e.device + f.device[n..];
      assert KeyOf(f) == e.device + (f.device[n..] + f.subject);
    }
  }

  /** Different streams with one key: within the merge period the first one accepted suppresses the other. */
  lemma StreamsCollide(s: Settings, data: string, other: string, time: Uint64, clock: Uint64)
    requires !TooLong(|data| + 3) && s.mergePeriod > 0
    ensures var e, f := MonEntry(data, "bc", "a", time), MonEntry(other, "c", "ab", time);
            var b := Run(s, [Mon(e, clock)]).b;
            Submits(EMPTY, s, Mon(e, clock)) && Suppressed(b, s, f) && MonStep(b, s, f, clock) == b
  {
    var e, f := MonEntry(data, "bc", "a", time), MonEntry(other, "c", "ab", time);
    SameKeyIff(e, f);
    assert [Mon(e, clock)][..0] == [] && Run(s, []) == START_TRACE;
    assert Run(s, [Mon(e, clock)]) == Step(START_TRACE, s, Mon(e, clock));
    assert MonRoom(EMPTY, s, e, clock).monSent == map[];
    assert Minus(time, time) == 0;
  }

  // ---------- what fits ----------

  lemma MonFlushes(b: Buffers, s: Settings, e: MonEntry, clock: Uint64)
    requires !Suppressed(b, s, e) && !TooLong(MonSize(e)) && b.mon != map[]
    ensures var b' := MonStep(b, s, e, clock);
            && (b.monBytes + Bound(MonSize(e)) <= s.mss ==> b'.mon == PutNew(b.mon, KeyOf(e), e))
            && (b.monBytes + Bound(MonSize(e)) > s.mss ==>
                b'.mon == map[KeyOf(e) := e] && b'.monBatches == b.monBatches + [b.mon])
  {
  }

  /** In every run an accepted submission leaves the buffer in place exactly when the budget covers it too. */
  lemma MonFlushesIff(s: Settings, evs: seq<Event>, e: MonEntry, clock: Uint64)
    requires !Suppressed(Run(s, evs).b, s, e) && |e.data| + |e.device| + |e.subject| <= 65121
    requires Run(s, evs).open != []
    ensures var t := Run(s, evs);
            && (SumMon(t.open + [e]) <= s.mss ==> MonStep(t.b, s, e, clock).mon == FirstWins(t.open + [e]))
            && (SumMon(t.open + [e]) > s.mss ==>
                MonStep(t.b, s, e, clock).mon == map[KeyOf(e) := e]
                && MonStep(t.b, s, e, clock).monBatches == t.b.monBatches + [FirstWins(t.open)])
  {
    MonInvHolds(s, evs);
    TooLongIff(MonSize(e));
    FirstWinsSnoc(Run(s, evs).open, e);
    MonFlushes(Run(s, evs).b, s, e, clock);
  }

  /** The bytes that count for a batch, in the order it is listed in. */
  function BytesOf(order: seq<string>, m: map<string, MonEntry>): string
    requires forall k :: k in order ==> k in m
  {
    if order == [] then "" else
      var e := m[order[|order| - 1]];
      BytesOf(order[..|order| - 1], m) + e.device + e.subject + e.data
  }

  function Sizes(order: seq<string>, m: map<string, MonEntry>): (ns: seq<nat>)
    requires forall k :: k in order ==> k in m
    ensures |ns| == |order|
  {
    seq(|order|, i requires 0 <= i < |order| => MonSize(m[order[i]]))
  }

  lemma {:induction false} BytesCounted(order: seq<string>, m: map<string, MonEntry>)
    requires forall k :: k in order ==> k in m
    ensures |BytesOf(order, m)| == Sum(Sizes(order, m))
  {
    if order != [] {
      var init := order[..|order| - 1];
      BytesCounted(init, m);
      assert Sizes(order, m)[..|init|] == Sizes(init, m);
    }
  }

  lemma ListsInit(order: seq<string>, m: map<string, MonEntry>)
    requires order != [] && Lists(order, m.Keys)
    ensures var init, k := order[..|order| - 1], order[|order| - 1];
            k in m && Lists(init, (m - {k}).Keys) && |m| == |m - {k}| + 1
  {
    var init, k := order[..|order| - 1], order[|order| - 1];
    assert forall j :: j in order <==> j in init || j == k;
    assert (m - {k}).Keys == m.Keys - {k};
  }

  lemma SizesWithout(order: seq<string>, m: map<string, MonEntry>, k: string)
    requires k !in order && forall j :: j in order ==> j in m
    ensures forall j :: j in order ==> j in m - {k}
    ensures Sizes(order, m - {k}) == Sizes(order, m)
  {
  }

  lemma SizesSnoc(order: seq<string>, m: map<string, MonEntry>)
    requires order != [] && forall j :: j in order ==> j in m
    ensures Sizes(order, m) == Sizes(order[..|order| - 1], m) + [MonSize(m[order[|order| - 1]])]
  {
  }

  lemma BoundsSnoc(ns: seq<nat>, n: nat)
    ensures SumOfBounds(ns + [n]) == SumOfBounds(ns) + Bound(n)
  {
    assert (ns + [n])[..|ns|] == ns;
  }

  /** Listing a map adds up the same bounds as the map does. */
  lemma {:induction false} SumsAgree(order: seq<string>, m: map<string, MonEntry>)
    requires Lists(order, m.Keys)
    ensures SumOfBounds(Sizes(order, m)) == SumMap(m) && |m| == |order|
    decreases |order|
  {
    if order == [] {
      assert m == map[];
    } else {
      var init, k := order[..|order| - 1], order[|order| - 1];
      ListsInit(order, m);
      SizesSnoc(order, m);
      SizesWithout(init, m, k);
      SumsAgree(init, m - {k});
      SumMapRemove(m, k);
      BoundsSnoc(Sizes(init, m - {k}), MonSize(m[k]));
    }
  }

  lemma {:induction false} SumWithin(ns: seq<nat>)
    requires forall i :: 0 <= i < |ns| ==> ns[i] < MAX_INPUT
    ensures Sum(ns) <= SumOfBounds(ns)
  {
    if ns != [] {
      SumWithin(ns[..|ns| - 1]);
      AtLeast(ns[|ns| - 1]);
    }
  }

  /** What the map holds was submitted. */
  lemma {:induction false} FromSubmissions(es: seq<MonEntry>, s: Settings, k: string)
    requires GoodMon(es, s) && k in FirstWins(es)
    ensures !TooLong(MonSize(FirstWins(es)[k]))
  {
    FirstWinsMeans(es, k);
  }

  lemma ListedFits(order: seq<string>, es: seq<MonEntry>, s: Settings)
    requires s.mss < KB128 && es != [] && GoodMon(es, s) && Lists(order, FirstWins(es).Keys)
    ensures Bound(|BytesOf(order, FirstWins(es))|) <= if |order| == 1 then MAX_MSG_SIZE else s.mss
  {
    var m := FirstWins(es);
    var ns := Sizes(order, m);
    forall i | 0 <= i < |ns| ensures !TooLong(ns[i]) {
      FromSubmissions(es, s, order[i]);
    }
    BytesCounted(order, m);
    SumsAgree(order, m);
    FirstWinsCosts(es);
    assert order != [] by {
      assert KeyOf(es[|es| - 1]) in m.Keys;
    }
    if |order| == 1 {
      assert ns[..0] == [] && Sum(ns) == ns[0];
    } else {
      SumWithin(ns);
      BatchCovered(ns);
    }
  }

  /**
   For budgets below 128 KiB, the compressed size of the device, subject and data bytes of every monitoring batch
   handed over fits the budget they were admitted under, in whatever order they are listed.
   */
  lemma MonitoringBatchesFit(s: Settings, evs: seq<Event>, i: nat, order: seq<string>)
    requires s.mss < KB128 && i < |Run(s, evs).b.monBatches| && Lists(order, Run(s, evs).b.monBatches[i].Keys)
    ensures Bound(|BytesOf(order, Run(s, evs).b.monBatches[i])|) <= if |order| == 1 then MAX_MSG_SIZE else s.mss
  {
    MonInvHolds(s, evs);
    ListedFits(order, Run(s, evs).closed[i], s);
  }
}
