/** What holds of the buffers over every run of calls and flushes. */
module BatchingRuns {
  import opened Bytes
  import opened CompressBound
  import opened JsonText
  import opened BatchText
  import opened Batching

  datatype Event =
    | Log(message: string, severity: nat, device: string, timestamp: Uint64, clock: Uint64)
    | Mon(entry: MonEntry, clock: Uint64)
    | Raise(alarm: Alarm)
    | Timer(clock: Uint64)

  type Call = (string, string)   // device and message of a SendLog call

  /** The buffers and the history of the run. */
  datatype Trace = Trace(
    b: Buffers,
    accepted: seq<Call>,             // SendLog calls that returned true
    begun: seq<LogEntry>,            // the entries of those that were not merged into the one before
    wraps: nat,                      // how often a repeat counter wrapped
    unsuppressed: seq<MonEntry>,     // monitoring submissions neither suppressed nor rejected
    closed: seq<seq<MonEntry>>,      // the same, cut at the flushes of the monitoring buffer
    open: seq<MonEntry>,             // and those since the last flush
    listed: seq<MonEntry>)           // those since the suppression map was last cleared

  const START_TRACE: Trace := Trace(EMPTY, [], [], 0, [], [], [], [])

  function EntryOf(ev: Event): LogEntry
    requires ev.Log?
  {
    LogEntry(ev.message, ev.severity, ev.device, ev.timestamp, 0)
  }

  function Apply(b: Buffers, s: Settings, ev: Event): Buffers {
    match ev
    case Log(_, _, _, _, clock) => LogStep(b, s, EntryOf(ev), clock)
    case Mon(e, clock) => MonStep(b, s, e, clock)
    case Raise(a) => AlarmStep(b, s, a)
    case Timer(clock) => Flush(b, s, true, clock)
  }

  predicate Submits(b: Buffers, s: Settings, ev: Event) {
    ev.Mon? && !Suppressed(b, s, ev.entry) && !TooLong(MonSize(ev.entry))
  }

  /** The event runs a flush: the timer always, a call when its message may not fit. */
  predicate Flushes(b: Buffers, s: Settings, ev: Event) {
    match ev
    case Log(_, _, _, _, _) =>
      var e := EntryOf(ev);
      !Merges(b, e) && !TooLong(LogSize(e)) && Bound(LogSize(e)) + b.logBytes > s.mss
    case Mon(e, _) => Submits(b, s, ev) && Bound(MonSize(e)) + b.monBytes > s.mss
    case Raise(_) => false
    case Timer(_) => true
  }

  predicate WrapsAt(b: Buffers, ev: Event) {
    ev.Log? && Merges(b, EntryOf(ev)) && b.log[|b.log| - 1].repeats == TWO_32 - 1
  }

  function Step(t: Trace, s: Settings, ev: Event): Trace {
    var cut := Flushes(t.b, s, ev) && t.b.mon != map[];
    var added := if Submits(t.b, s, ev) then [ev.entry] else [];
    Trace(Apply(t.b, s, ev),
          if ev.Log? && LogAccepted(t.b, EntryOf(ev)) then t.accepted + [(ev.device, ev.message)] else t.accepted,
          if ev.Log? && !Merges(t.b, EntryOf(ev)) && !TooLong(LogSize(EntryOf(ev)))
          then t.begun + [EntryOf(ev)] else t.begun,
          if WrapsAt(t.b, ev) then t.wraps + 1 else t.wraps,
          t.unsuppressed + added,
          if cut then t.closed + [t.open] else t.closed,
          (if cut then [] else t.open) + added,
          (if cut && !ev.Mon? then [] else t.listed) + added)
  }

  function Run(s: Settings, evs: seq<Event>): Trace {
    if evs == [] then START_TRACE else Step(Run(s, evs[..|evs| - 1]), s, evs[|evs| - 1])
  }

  // ---------- logging ----------

  function SumLog(es: seq<LogEntry>): nat {
    if es == [] then 0 else SumLog(es[..|es| - 1]) + Bound(LogSize(es[|es| - 1]))
  }

  function Copies(c: Call, n: nat): (cs: seq<Call>)
    ensures |cs| == n
  {
    seq(n, i => c)
  }

  function Expand(es: seq<LogEntry>): seq<Call> {
    if es == [] then [] else
      var e := es[|es| - 1];
      Expand(es[..|es| - 1]) + Copies((e.device, e.message), e.repeats + 1)
  }

  function ExpandAll(bs: seq<seq<LogEntry>>): seq<Call> {
    if bs == [] then [] else ExpandAll(bs[..|bs| - 1]) + Expand(bs[|bs| - 1])
  }

  /** Everything handed over and still held, each entry as many times as it was logged. */
  function Expanded(b: Buffers): seq<Call> {
    ExpandAll(b.logBatches) + Expand(b.log)
  }

  predicate AdjacentDiffer(es: seq<LogEntry>) {
    forall i :: 0 <= i < |es| - 1 ==> es[i].device != es[i + 1].device || es[i].message != es[i + 1].message
  }

  /** What a log buffer satisfies, and every batch made of one. */
  predicate GoodLog(es: seq<LogEntry>, s: Settings) {
    && AdjacentDiffer(es)
    && (forall i :: 0 <= i < |es| ==> !TooLong(LogSize(es[i])))
    && (SumLog(es) <= s.mss || |es| == 1)
  }

  predicate LogInv(t: Trace, s: Settings) {
    && GoodLog(t.b.log, s) && t.b.logBytes == SumLog(t.b.log)
    && (forall i :: 0 <= i < |t.b.logBatches| ==> t.b.logBatches[i] != [] && GoodLog(t.b.logBatches[i], s))
    && |Expanded(t.b)| + TWO_32 * t.wraps == |t.accepted|
    && (t.wraps == 0 ==> Expanded(t.b) == t.accepted)
  }

  lemma ExpandSnoc(es: seq<LogEntry>, e: LogEntry)
    ensures Expand(es + [e]) == Expand(es) + Copies((e.device, e.message), e.repeats + 1)
    ensures SumLog(es + [e]) == SumLog(es) + Bound(LogSize(e))
  {
    assert (es + [e])[..|es|] == es;
  }

  lemma ExpandBump(es: seq<LogEntry>)
    requires es != []
    ensures var e := es[|es| - 1]; var es' := es[|es| - 1 := Bump(e)];
            && SumLog(es') == SumLog(es)
            && if e.repeats == TWO_32 - 1 then |Expand(es')| + TWO_32 == |Expand(es)| + 1
               else Expand(es') == Expand(es) + [(e.device, e.message)]
  {
    var e := es[|es| - 1];
    var es' := es[|es| - 1 := Bump(e)];
    assert es'[..|es'| - 1] == es[..|es| - 1];
    if e.repeats < TWO_32 - 1 {
      assert Copies((e.device, e.message), e.repeats + 2) ==
             Copies((e.device, e.message), e.repeats + 1) + [(e.device, e.message)];
    }
  }

  /** A flush moves the log buffer to the batches and changes nothing about what they expand to. */
  lemma FlushConserves(b: Buffers, s: Settings, monLock: bool, clock: Uint64)
    ensures var b' := Flush(b, s, monLock, clock);
            && Expanded(b') == Expanded(b) && b'.log == []
            && b'.logBatches == (if b.log == [] then b.logBatches else b.logBatches + [b.log])
            && (b'.logBytes == if b.log == [] then b.logBytes else 0)
  {
    if b.log != [] {
      assert (b.logBatches + [b.log])[..|b.logBatches|] == b.logBatches;
      assert Expanded(b) == ExpandAll(b.logBatches + [b.log]) + [];
    }
  }

  lemma GoodAppend(es: seq<LogEntry>, e: LogEntry, s: Settings)
    requires GoodLog(es, s) && !TooLong(LogSize(e))
    requires es != [] ==> es[|es| - 1].device != e.device || es[|es| - 1].message != e.message
    requires es == [] || SumLog(es) + Bound(LogSize(e)) <= s.mss
    ensures GoodLog(es + [e], s)
  {
    var es' := es + [e];
    ExpandSnoc(es, e);
    forall i | 0 <= i < |es'| - 1 ensures es'[i].device != es'[i + 1].device || es'[i].message != es'[i + 1].message {
      if i < |es| - 1 {
        assert es'[i] == es[i] && es'[i + 1] == es[i + 1];
      } else {
        assert es'[i] == es[|es| - 1] && es'[i + 1] == e;
      }
    }
  }

  lemma FlushKeepsLog(t: Trace, s: Settings, monLock: bool, clock: Uint64)
    requires LogInv(t, s)
    ensures var b1 := Flush(t.b, s, monLock, clock); LogInv(t.(b := b1), s) && b1.log == []
  {
    FlushConserves(t.b, s, monLock, clock);
  }

  lemma RoomKeeps(t: Trace, s: Settings, e: LogEntry, clock: Uint64)
    requires LogInv(t, s) && !Merges(t.b, e) && !TooLong(LogSize(e))
    ensures var b1 := Room(t.b, s, e, clock);
            && LogInv(t.(b := b1), s) && GoodLog(b1.log + [e], s)
  {
    FlushKeepsLog(t, s, true, clock);
    GoodAppend(Room(t.b, s, e, clock).log, e, s);
  }

  lemma LogAppends(t: Trace, s: Settings, ev: Event)
    requires ev.Log? && LogInv(t, s) && !Merges(t.b, EntryOf(ev)) && !TooLong(LogSize(EntryOf(ev)))
    ensures LogInv(Step(t, s, ev), s)
  {
    var e := EntryOf(ev);
    var b1, b' := Room(t.b, s, e, ev.clock), Apply(t.b, s, ev);
    RoomKeeps(t, s, e, ev.clock);
    ExpandSnoc(b1.log, e);
    assert Copies((e.device, e.message), 1) == [(e.device, e.message)];
    assert b'.log == b1.log + [e] && b'.logBatches == b1.logBatches;
    assert Expanded(b') == Expanded(b1) + [(e.device, e.message)];
  }

  lemma LogMerges(t: Trace, s: Settings, ev: Event)
    requires ev.Log? && LogInv(t, s) && Merges(t.b, EntryOf(ev))
    ensures LogInv(Step(t, s, ev), s)
  {
    GoodBump(t.b.log, s);
    MergeExpands(t.b);
  }

  lemma MergeExpands(b: Buffers)
    requires b.log != []
    ensures var e := b.log[|b.log| - 1];
            var b' := b.(log := b.log[|b.log| - 1 := Bump(e)]);
            && SumLog(b'.log) == SumLog(b.log)
            && if e.repeats == TWO_32 - 1 then |Expanded(b')| + TWO_32 == |Expanded(b)| + 1
               else Expanded(b') == Expanded(b) + [(e.device, e.message)]
  {
    ExpandBump(b.log);
  }

  lemma GoodBump(es: seq<LogEntry>, s: Settings)
    requires es != [] && GoodLog(es, s)
    ensures GoodLog(es[|es| - 1 := Bump(es[|es| - 1])], s)
  {
    var es' := es[|es| - 1 := Bump(es[|es| - 1])];
    ExpandBump(es);
    forall i | 0 <= i < |es'| ensures es'[i].device == es[i].device && es'[i].message == es[i].message {
    }
    forall i | 0 <= i < |es'| - 1 ensures es'[i].device != es'[i + 1].device || es'[i].message != es'[i + 1].message {
      assert es[i].device != es[i + 1].device || es[i].message != es[i + 1].message;
    }
    forall i | 0 <= i < |es'| ensures !TooLong(LogSize(es'[i])) {
      assert LogSize(es'[i]) == LogSize(es[i]);
    }
  }

  lemma LogUntouched(t: Trace, s: Settings, ev: Event)
    requires !ev.Log? && LogInv(t, s)
    ensures LogInv(Step(t, s, ev), s)
  {
    var t' := Step(t, s, ev);
    if Flushes(t.b, s, ev) {
      var b1 := Flush(t.b, s, ev.Timer?, ev.clock);
      FlushKeepsLog(t, s, ev.Timer?, ev.clock);
      assert t'.b.log == b1.log && t'.b.logBytes == b1.logBytes && t'.b.logBatches == b1.logBatches;
    } else {
      assert t'.b.log == t.b.log && t'.b.logBytes == t.b.logBytes && t'.b.logBatches == t.b.logBatches;
    }
  }

  lemma {:induction false} LogInvHolds(s: Settings, evs: seq<Event>)
    ensures LogInv(Run(s, evs), s)
  {
    if evs != [] {
      var t, ev := Run(s, evs[..|evs| - 1]), evs[|evs| - 1];
      LogInvHolds(s, evs[..|evs| - 1]);
      if !ev.Log? {
        LogUntouched(t, s, ev);
      } else if Merges(t.b, EntryOf(ev)) {
        LogMerges(t, s, ev);
      } else if !TooLong(LogSize(EntryOf(ev))) {
        LogAppends(t, s, ev);
      }
    } else {
      assert Expanded(EMPTY) == [];
    }
  }

  /**
   Over every run the batches handed to multicast followed by the buffer expand to exactly the accepted calls,
   in order, if and only if no 32-bit repeat counter wrapped.
   */
  lemma LogConservation(s: Settings, evs: seq<Event>)
    ensures var t := Run(s, evs); Expanded(t.b) == t.accepted <==> t.wraps == 0
  {
    LogInvHolds(s, evs);
  }

  /** A counter can wrap only in a run with more than 2^32 accepted calls. */
  lemma NoWrapInShortRuns(s: Settings, evs: seq<Event>)
    requires |Run(s, evs).accepted| <= TWO_32
    ensures Run(s, evs).wraps == 0
  {
    LogInvHolds(s, evs);
    var t := Run(s, evs);
    if t.wraps > 0 {
      assert t.wraps >= 1 && |Expanded(t.b)| == 0;
      SomethingExpanded(s, evs);
    }
  }

  lemma {:induction false} SomethingExpanded(s: Settings, evs: seq<Event>)
    requires Run(s, evs).accepted != []
    ensures Expanded(Run(s, evs).b) != []
  {
    LogInvHolds(s, evs);
    var t, ev := Run(s, evs[..|evs| - 1]), evs[|evs| - 1];
    LogInvHolds(s, evs[..|evs| - 1]);
    if ev.Log? && LogAccepted(t.b, EntryOf(ev)) {
      var log' := Apply(t.b, s, ev).log;
      assert log' != [] && |Expand(log')| > 0;
    } else {
      SomethingExpanded(s, evs[..|evs| - 1]);
      if Flushes(t.b, s, ev) {
        FlushConserves(t.b, s, ev.Timer?, ev.clock);
      }
    }
  }

  // ---------- what an entry keeps of its calls ----------

  function Joined(bs: seq<seq<LogEntry>>): seq<LogEntry> {
    if bs == [] then [] else Joined(bs[..|bs| - 1]) + bs[|bs| - 1]
  }

  /** Every entry handed over or held, in order. */
  function AllEntries(b: Buffers): seq<LogEntry> {
    Joined(b.logBatches) + b.log
  }

  /** The same entries but for their repeat counters. */
  predicate SameButRepeats(es: seq<LogEntry>, fs: seq<LogEntry>) {
    |es| == |fs| && forall i :: 0 <= i < |es| ==> es[i].(repeats := 0) == fs[i].(repeats := 0)
  }

  lemma FlushKeepsEntries(b: Buffers, s: Settings, monLock: bool, clock: Uint64)
    ensures AllEntries(Flush(b, s, monLock, clock)) == AllEntries(b)
  {
    if b.log != [] {
      assert (b.logBatches + [b.log])[..|b.logBatches|] == b.logBatches;
      assert AllEntries(b) == Joined(b.logBatches + [b.log]) + [];
    }
  }

  lemma MergeKeepsEntries(b: Buffers, es: seq<LogEntry>)
    requires b.log != [] && SameButRepeats(AllEntries(b), es)
    ensures var last := |b.log| - 1;
            SameButRepeats(AllEntries(b.(log := b.log[last := Bump(b.log[last])])), es)
  {
    var last, all := |b.log| - 1, AllEntries(b);
    assert AllEntries(b.(log := b.log[last := Bump(b.log[last])])) == all[|all| - 1 := Bump(b.log[last])];
    assert all[|all| - 1] == b.log[last];
  }

  lemma AppendKeepsEntries(b: Buffers, e: LogEntry, bytes: nat, es: seq<LogEntry>)
    requires SameButRepeats(AllEntries(b), es)
    ensures SameButRepeats(AllEntries(b.(log := b.log + [e], logBytes := bytes)), es + [e])
  {
    assert AllEntries(b.(log := b.log + [e], logBytes := bytes)) == AllEntries(b) + [e];
  }

  lemma OtherKeepsEntries(b: Buffers, s: Settings, ev: Event)
    requires !ev.Log?
    ensures AllEntries(Apply(b, s, ev)) == AllEntries(b)
  {
    if Flushes(b, s, ev) {
      FlushKeepsEntries(b, s, ev.Timer?, ev.clock);
    }
  }

  lemma StepKeepsEntries(t: Trace, s: Settings, ev: Event)
    requires SameButRepeats(AllEntries(t.b), t.begun)
    ensures SameButRepeats(AllEntries(Step(t, s, ev).b), Step(t, s, ev).begun)
  {
    if !ev.Log? {
      OtherKeepsEntries(t.b, s, ev);
    } else if Merges(t.b, EntryOf(ev)) {
      MergeKeepsEntries(t.b, t.begun);
    } else if !TooLong(LogSize(EntryOf(ev))) {
      var e := EntryOf(ev);
      var room := Room(t.b, s, e, ev.clock);
      FlushKeepsEntries(t.b, s, true, ev.clock);
      AppendKeepsEntries(room, e, room.logBytes + Bound(LogSize(e)), t.begun);
    }
  }

  /**
   Over every run the entries handed over and held are, in order, those of the accepted calls that were not merged,
   with the severity and time of that call: a repetition adds to the counter and changes nothing else.
   */
  lemma {:induction false} EntriesKeepFirst(s: Settings, evs: seq<Event>)
    ensures SameButRepeats(AllEntries(Run(s, evs).b), Run(s, evs).begun)
  {
    if evs != [] {
      EntriesKeepFirst(s, evs[..|evs| - 1]);
      StepKeepsEntries(Run(s, evs[..|evs| - 1]), s, evs[|evs| - 1]);
    } else {
      assert AllEntries(EMPTY) == [];
    }
  }

  lemma {:induction false} EntriesCost(es: seq<LogEntry>)
    requires forall i :: 0 <= i < |es| ==> !TooLong(LogSize(es[i]))
    ensures SumLog(es) >= 64 * |es|
  {
    if es != [] {
      EntriesCost(es[..|es| - 1]);
      AtLeast(LogSize(es[|es| - 1]));
    }
  }

  /**
   The running byte count is the sum of the entries' bounds; it stays within MSS_SIZE unless a single entry,
   itself at most MAX_MSG_SIZE, is held; so a buffer holds at most max(1, MSS_SIZE/64) entries.
   */
  lemma LogBufferBounded(s: Settings, evs: seq<Event>)
    ensures var b := Run(s, evs).b;
            && b.logBytes == SumLog(b.log)
            && (b.logBytes <= s.mss || (|b.log| == 1 && b.logBytes <= MAX_MSG_SIZE))
            && (|b.log| <= 1 || |b.log| <= s.mss / 64)
            && AdjacentDiffer(b.log)
  {
    LogInvHolds(s, evs);
    var b := Run(s, evs).b;
    EntriesCost(b.log);
    if |b.log| == 1 {
      assert b.log[..0] == [] && SumLog(b.log) == Bound(LogSize(b.log[0]));
    }
  }

  /** The largest message that is accepted, device included, has 65121 bytes. */
  lemma TooLongIff(n: nat)
    ensures TooLong(n) <==> n > 65121
  {
    assert Bound(65121) == MAX_MSG_SIZE && Bound(65122) == MAX_MSG_SIZE + 1;
    if n <= 65121 {
      Monotone(n, 65121);
    } else if n < MAX_INPUT {
      Monotone(65122, n);
    }
  }

  /** In every run a call that is not merged leaves the buffer in place exactly when the budget covers the entry too. */
  lemma LogFlushesIff(s: Settings, evs: seq<Event>, e: LogEntry, clock: Uint64)
    requires !Merges(Run(s, evs).b, e) && |e.message| + |e.device| <= 65121 && Run(s, evs).b.log != []
    ensures var b := Run(s, evs).b;
            && (LogStep(b, s, e, clock).log == b.log + [e] <==> SumLog(b.log + [e]) <= s.mss)
            && (LogStep(b, s, e, clock).log == [e] <==> SumLog(b.log + [e]) > s.mss)
  {
    LogInvHolds(s, evs);
    TooLongIff(LogSize(e));
    ExpandSnoc(Run(s, evs).b.log, e);
    FlushConserves(Run(s, evs).b, s, true, clock);
  }

  function Sizes(es: seq<LogEntry>): (ns: seq<nat>)
    ensures |ns| == |es|
  {
    seq(|es|, i requires 0 <= i < |es| => LogSize(es[i]))
  }

  lemma {:induction false} SumsAgree(es: seq<LogEntry>)
    ensures SumOfBounds(Sizes(es)) == SumLog(es)
  {
    if es != [] {
      SumsAgree(es[..|es| - 1]);
      assert Sizes(es)[..|es| - 1] == Sizes(es[..|es| - 1]);
    }
  }

  lemma {:induction false} SumWithinBounds(es: seq<LogEntry>)
    requires forall i :: 0 <= i < |es| ==> !TooLong(LogSize(es[i]))
    ensures Sum(Sizes(es)) <= SumLog(es)
  {
    if es != [] {
      SumWithinBounds(es[..|es| - 1]);
      assert Sizes(es)[..|es| - 1] == Sizes(es[..|es| - 1]);
      AtLeast(LogSize(es[|es| - 1]));
    }
  }

  /** The bytes that count for a batch: those of the devices and the messages. */
  function BytesOf(es: seq<LogEntry>): string {
    if es == [] then "" else BytesOf(es[..|es| - 1]) + es[|es| - 1].device + es[|es| - 1].message
  }

  lemma {:induction false} BytesCounted(es: seq<LogEntry>)
    ensures |BytesOf(es)| == Sum(Sizes(es))
  {
    if es != [] {
      BytesCounted(es[..|es| - 1]);
      assert Sizes(es)[..|es| - 1] == Sizes(es[..|es| - 1]);
    }
  }

  /**
   For budgets below 128 KiB, the compressed size of the device and message bytes of every batch handed over fits the
   budget they were admitted under.
   */
  lemma BatchesFit(s: Settings, evs: seq<Event>, i: nat)
    requires s.mss < KB128 && i < |Run(s, evs).b.logBatches|
    ensures var es := Run(s, evs).b.logBatches[i];
            Bound(|BytesOf(es)|) <= (if |es| == 1 then MAX_MSG_SIZE else s.mss)
  {
    LogInvHolds(s, evs);
    var es := Run(s, evs).b.logBatches[i];
    BytesCounted(es);
    SumsAgree(es);
    if |es| == 1 {
      assert Sizes(es)[..0] == [] && Sum(Sizes(es)) == LogSize(es[0]);
    } else {
      SumWithinBounds(es);
      BatchCovered(Sizes(es));
    }
  }

  // ---------- from calls to datagrams and back ----------

  function Normal(c: Call): Call {
    (c.0, Normalised(c.1))
  }

  function NormalAll(cs: seq<Call>): (ns: seq<Call>)
    ensures |ns| == |cs|
  {
    seq(|cs|, i requires 0 <= i < |cs| => Normal(cs[i]))
  }

  /** What a reader of one datagram makes of it: each record as many times as it says. */
  function ExpandRead(rs: seq<Option<Record>>): seq<Call> {
    if rs == [] then [] else
      var r := rs[|rs| - 1];
      ExpandRead(rs[..|rs| - 1]) +
      if r.None? || r.value.repeats < 0 then [] else Copies((r.value.device, r.value.message), r.value.repeats + 1)
  }

  function ReadAll(texts: seq<string>): seq<Call> {
    if texts == [] then [] else ReadAll(texts[..|texts| - 1]) + ExpandRead(ReadBatch(texts[|texts| - 1]))
  }

  function LogTexts(bs: seq<seq<LogEntry>>, timeText: Uint64 -> string): (ts: seq<string>)
    ensures |ts| == |bs|
  {
    seq(|bs|, i requires 0 <= i < |bs| => LogBatchText(bs[i], timeText))
  }

  lemma {:induction false} ExpandReadRecords(es: seq<LogEntry>, timeText: Uint64 -> string)
    ensures ExpandRead(RecordsOf(es, timeText)) == NormalAll(Expand(es))
  {
    if es != [] {
      var init, e, rs := es[..|es| - 1], es[|es| - 1], RecordsOf(es, timeText);
      ExpandReadRecords(init, timeText);
      RecordsSnoc(es, timeText);
      NormalCopies(e);
      NormalConcat(Expand(init), Copies((e.device, e.message), e.repeats + 1));
    }
  }

  lemma RecordsSnoc(es: seq<LogEntry>, timeText: Uint64 -> string)
    requires es != []
    ensures var rs, e := RecordsOf(es, timeText), es[|es| - 1];
            && rs[..|rs| - 1] == RecordsOf(es[..|es| - 1], timeText) && rs[|rs| - 1] == Some(RecordOf(e, timeText))
  {
  }

  lemma NormalCopies(e: LogEntry)
    ensures NormalAll(Copies((e.device, e.message), e.repeats + 1)) ==
            Copies((e.device, Normalised(e.message)), e.repeats + 1)
  {
  }

  lemma NormalConcat(a: seq<Call>, b: seq<Call>)
    ensures NormalAll(a + b) == NormalAll(a) + NormalAll(b)
  {
  }

  predicate PlainDevices(es: seq<LogEntry>) {
    forall i :: 0 <= i < |es| ==> Plain(es[i].device)
  }

  lemma {:induction false} ReadAllBatches(bs: seq<seq<LogEntry>>, timeText: Uint64 -> string)
    requires forall t: Uint64 :: Plain(timeText(t))
    requires forall i :: 0 <= i < |bs| ==> bs[i] != [] && PlainDevices(bs[i])
    ensures ReadAll(LogTexts(bs, timeText)) == NormalAll(ExpandAll(bs))
  {
    if bs != [] {
      var init, last := bs[..|bs| - 1], bs[|bs| - 1];
      ReadAllBatches(init, timeText);
      var texts := LogTexts(bs, timeText);
      assert texts[..|texts| - 1] == LogTexts(init, timeText) && texts[|texts| - 1] == LogBatchText(last, timeText);
      ReadOneBatch(last, timeText);
      NormalConcat(ExpandAll(init), Expand(last));
    }
  }

  lemma ReadOneBatch(es: seq<LogEntry>, timeText: Uint64 -> string)
    requires es != [] && PlainDevices(es) && forall t: Uint64 :: Plain(timeText(t))
    ensures ExpandRead(ReadBatch(LogBatchText(es, timeText))) == NormalAll(Expand(es))
  {
    BatchReadsBack(es, timeText);
    ExpandReadRecords(es, timeText);
  }

  predicate PlainEvent(ev: Event) {
    ev.Log? ==> Plain(ev.device)
  }

  lemma {:induction false} DevicesStayPlain(s: Settings, evs: seq<Event>)
    requires forall ev :: ev in evs ==> PlainEvent(ev)
    ensures var b := Run(s, evs).b;
            PlainDevices(b.log) && forall i :: 0 <= i < |b.logBatches| ==> PlainDevices(b.logBatches[i])
  {
    if evs != [] {
      DevicesStayPlain(s, evs[..|evs| - 1]);
      assert PlainEvent(evs[|evs| - 1]);
      StepStaysPlain(Run(s, evs[..|evs| - 1]).b, s, evs[|evs| - 1]);
    }
  }

  predicate AllPlain(b: Buffers) {
    PlainDevices(b.log) && forall i :: 0 <= i < |b.logBatches| ==> PlainDevices(b.logBatches[i])
  }

  lemma StepStaysPlain(b: Buffers, s: Settings, ev: Event)
    requires AllPlain(b) && PlainEvent(ev)
    ensures AllPlain(Apply(b, s, ev))
  {
    if Flushes(b, s, ev) {
      var b1 := Flush(b, s, !ev.Mon?, ev.clock);
      assert b1.log == [] && AllPlain(b1);
    }
  }

  /** The calls read back are those made, with the messages as far as they are kept. */
  predicate ReadsAs(read: seq<Call>, made: seq<Call>) {
    |read| == |made| && forall i :: 0 <= i < |made| ==> read[i].0 == made[i].0 && Kept(made[i].1, read[i].1)
  }

  lemma NormalReads(cs: seq<Call>)
    ensures ReadsAs(NormalAll(cs), cs)
  {
    forall i | 0 <= i < |cs| ensures Kept(cs[i].1, NormalAll(cs)[i].1) {
      TrimRightKeeps(cs[i].1);
    }
  }

  /**
   End to end: from the texts of all the logging datagrams a reader recovers, in order, every accepted call with
   its repetitions, up to the calls still buffered and what is kept of messages. Devices are printed
   unescaped, so they must have no quote or backslash; messages are arbitrary.
   */
  lemma DatagramsTellAll(s: Settings, evs: seq<Event>, timeText: Uint64 -> string)
    requires forall t: Uint64 :: Plain(timeText(t))
    requires forall ev :: ev in evs ==> PlainEvent(ev)
    requires Run(s, evs).wraps == 0
    ensures var t := Run(s, evs);
            var read := ReadAll(LogTexts(t.b.logBatches, timeText));
            && |read| <= |t.accepted| && ReadsAs(read, t.accepted[..|read|])
            && Expand(t.b.log) == t.accepted[|read|..]
  {
    LogInvHolds(s, evs);
    DevicesStayPlain(s, evs);
    var t := Run(s, evs);
    ReadAllBatches(t.b.logBatches, timeText);
    var sent := ExpandAll(t.b.logBatches);
    NormalReads(sent);
    assert t.accepted == sent + Expand(t.b.log);
    assert t.accepted[..|sent|] == sent && t.accepted[|sent|..] == Expand(t.b.log);
  }
}
