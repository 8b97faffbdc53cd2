/**
 The receive side of the socket thread over every run: what becomes of the
 frames that arrive, and what the receive counters say.
 */
module ReceiveRuns {
  import opened Framing
  import opened SocketManager
  import opened SocketRuns

  /** One message as taken off the socket. */
  datatype Message = Message(parts: seq<string>, complete: bool)

  function MessageOf(t: Taken): Message {
    Message(t.parts, t.complete)
  }

  /** The messages that n receives take off the stream. */
  function ReadOff(frames: seq<Frame>, n: nat): seq<Message>
    decreases n
  {
    if n == 0 || frames == [] then []
    else [MessageOf(TakeMessage(frames))] + ReadOff(TakeMessage(frames).rest, n - 1)
  }

  predicate Acceptable(m: Message, c: Settings) {
    m.complete && (c.expected == 0 || |m.parts| == c.expected)
  }

  function Accepted(ms: seq<Message>, c: Settings): (ps: seq<seq<string>>)
    ensures |ps| <= |ms|
  {
    if ms == [] then [] else (if Acceptable(ms[0], c) then [ms[0].parts] else []) + Accepted(ms[1..], c)
  }

  lemma {:induction false} AcceptedConcat(a: seq<Message>, b: seq<Message>, c: Settings)
    ensures Accepted(a + b, c) == Accepted(a, c) + Accepted(b, c)
  {
    if a == [] {
      assert a + b == b;
    } else {
      assert (a + b)[1..] == a[1..] + b;
      AcceptedConcat(a[1..], b, c);
    }
  }

  // ---------- one receive phase ----------

  /** One message ends up in one place, and the counter of that place's kind takes note. */
  lemma {:induction false} ReceiveCounts(s: State, c: Settings, n: nat)
    ensures var s' := ReceiveAll(s, c, n);
            && s'.numReceived - s.numReceived == |s'.received| - |s.received|
            && s'.numReceived + s'.numRecvErrors == s.numReceived + s.numRecvErrors + |ReadOff(s.inbox, n)|
            && |s'.bad| - |s.bad| == (if c.hasBad then s'.numRecvErrors - s.numRecvErrors else 0)
    decreases n
  {
    if n > 0 && s.inbox != [] {
      ReceiveCounts(ReceiveOne(s, c), c, n - 1);
    }
  }

  predicate Empty(os: seq<Obj>) {
    forall i :: 0 <= i < |os| ==> os[i].parts == []
  }

  /** What one received message comes to: as it was on the wire exactly when the object it was put in was empty. */
  lemma FilledExactlyIff(o: Obj, t: Taken)
    ensures Filled(o, t).parts == t.parts <==> o.parts == [] && t.complete
  {
    if t.complete {
      assert t.parts + [] == t.parts && (o.parts == [] ==> [] + t.parts == t.parts);
      assert |o.parts + t.parts| == |t.parts| ==> o.parts == [];
    }
  }

  /** What the bad buffer is to get: the other messages, those cut off with an empty part at the end. */
  function Refused(ms: seq<Message>, c: Settings): (ps: seq<seq<string>>)
    ensures |ps| <= |ms|
  {
    if ms == [] || !c.hasBad then []
    else
      var m := ms[0];
      (if Acceptable(m, c) then [] else if m.complete then [m.parts] else [m.parts + [""]]) + Refused(ms[1..], c)
  }

  lemma {:induction false} RefusedConcat(a: seq<Message>, b: seq<Message>, c: Settings)
    ensures Refused(a + b, c) == Refused(a, c) + Refused(b, c)
  {
    if a == [] {
      assert a + b == b;
    } else {
      assert (a + b)[1..] == a[1..] + b;
      RefusedConcat(a[1..], b, c);
    }
  }

  lemma FilledContent(o: Obj, t: Taken)
    requires o.parts == []
    ensures Filled(o, t).parts == if t.complete then t.parts else t.parts + [""]
  {
    assert [] + t.parts + [] == t.parts && [] + t.parts + [""] == t.parts + [""];
  }

  lemma ContentsSnoc(os: seq<Obj>, o: Obj)
    ensures Contents(os + [o]) == Contents(os) + [o.parts]
  {
  }

  lemma AloneDelivers(m: Message, c: Settings)
    ensures Accepted([m], c) == if Acceptable(m, c) then [m.parts] else []
    ensures Refused([m], c) ==
            if Acceptable(m, c) || !c.hasBad then [] else if m.complete then [m.parts] else [m.parts + [""]]
  {
    assert [m][1..] == [];
  }

  lemma ReceiveOneDelivers(s: State, c: Settings)
    requires Empty(s.pool) && s.inbox != []
    ensures var s', t := ReceiveOne(s, c), TakeMessage(s.inbox);
            && Empty(s'.pool) && s'.inbox == t.rest
            && Contents(s'.received) == Contents(s.received) + Accepted([MessageOf(t)], c)
            && Contents(s'.bad) == Contents(s.bad) + Refused([MessageOf(t)], c)
  {
    var t := TakeMessage(s.inbox);
    var (o, s1) := GetNew(s);
    assert o.parts == [] && Empty(s1.pool) && s1.received == s.received && s1.bad == s.bad;
    var full := Filled(o, t);
    FilledContent(o, t);
    AloneDelivers(MessageOf(t), c);
    ContentsSnoc(s.received, full);
    ContentsSnoc(s.bad, full);
    assert Contents(s.received) + [] == Contents(s.received) && Contents(s.bad) + [] == Contents(s.bad);
  }

  /**
   While the pooled objects are empty, exactly the acceptable messages are delivered, whole and in order, and the bad
   buffer, if there is one, gets the others.
   */
  lemma {:induction false} ReceiveDelivers(s: State, c: Settings, n: nat)
    requires Empty(s.pool)
    ensures var s' := ReceiveAll(s, c, n);
            && Empty(s'.pool)
            && Contents(s'.received) == Contents(s.received) + Accepted(ReadOff(s.inbox, n), c)
            && Contents(s'.bad) == Contents(s.bad) + Refused(ReadOff(s.inbox, n), c)
    decreases n
  {
    if n > 0 && s.inbox != [] {
      var m, s1 := MessageOf(TakeMessage(s.inbox)), ReceiveOne(s, c);
      var more := ReadOff(s1.inbox, n - 1);
      ReceiveOneDelivers(s, c);
      ReceiveDelivers(s1, c, n - 1);
      AcceptedConcat([m], more, c);
      RefusedConcat([m], more, c);
      Grouped(Contents(s.received), Accepted([m], c), Accepted(more, c));
      Grouped(Contents(s.bad), Refused([m], c), Refused(more, c));
    } else {
      assert Contents(s.received) + [] == Contents(s.received) && Contents(s.bad) + [] == Contents(s.bad);
    }
  }

  lemma Grouped(a: seq<seq<string>>, b: seq<seq<string>>, c: seq<seq<string>>)
    ensures a + b + c == a + (b + c)
  {
  }

  /** The frames the messages were made of: the last of each has no more flag if it is complete. */
  function WireOf(ms: seq<Message>): seq<Frame> {
    if ms == [] then [] else Flagged(ms[0].parts, !ms[0].complete) + WireOf(ms[1..])
  }

  lemma {:induction false} WireConcat(a: seq<Message>, b: seq<Message>)
    ensures WireOf(a + b) == WireOf(a) + WireOf(b)
  {
    if a == [] {
      assert a + b == b;
    } else {
      assert (a + b)[1..] == a[1..] + b;
      WireConcat(a[1..], b);
    }
  }

  lemma {:induction false} ReceiveConsumes(s: State, c: Settings, n: nat)
    ensures WireOf(ReadOff(s.inbox, n)) + ReceiveAll(s, c, n).inbox == s.inbox
    decreases n
  {
    if n > 0 && s.inbox != [] {
      var t, s1 := TakeMessage(s.inbox), ReceiveOne(s, c);
      assert s1.inbox == t.rest;
      TakenFrames(s.inbox);
      ReceiveConsumes(s1, c, n - 1);
      var rest := ReadOff(t.rest, n - 1);
      assert ([MessageOf(t)] + rest)[1..] == rest;
      Reassociate(Flagged(t.parts, !t.complete), WireOf(rest), ReceiveAll(s1, c, n - 1).inbox);
    }
  }

  // ---------- over every run ----------

  /** What the clients and the socket have seen: frames arrived, messages taken, messages and bad objects collected. */
  datatype Ledger = Ledger(
    arrived: seq<Frame>, taken: seq<Message>, collected: seq<seq<string>>, collectedBad: seq<seq<string>>)

  /** How many messages a pass may receive. */
  function Polls(s: State, c: Settings, input: Input): nat {
    if input.pollThrows || !c.hasReceive then 0 else input.readable
  }

  function Entered(l: Ledger, s: State, c: Settings, ev: Event): Ledger {
    match ev
    case DoPass(input) => l.(taken := l.taken + ReadOff(s.inbox, Polls(s, c, input)))
    case Arrive(frames) => l.(arrived := l.arrived + frames)
    case Collect => l.(collected := l.collected + Contents(s.received))
    case CollectBad => l.(collectedBad := l.collectedBad + Contents(s.bad))
    case _ => l
  }

  function LedgerOf(evs: seq<Event>, c: Settings): Ledger
    requires ValidRun(evs, c)
  {
    if evs == [] then Ledger([], [], [], [])
    else Entered(LedgerOf(evs[..|evs| - 1], c), Run(evs[..|evs| - 1], c), c, evs[|evs| - 1])
  }

  /** The receive side of a pass. */
  lemma PassReceives(s: State, c: Settings, input: Input)
    ensures var s', r := Pass(s, c, input), ReceiveAll(Swapped(s, c), c, Polls(s, c, input));
            && s'.inbox == r.inbox && s'.received == r.received && s'.bad == r.bad
            && s'.numReceived == r.numReceived && s'.numRecvErrors == r.numRecvErrors
            && (Empty(r.pool) ==> Empty(s'.pool))
  {
    var n := Polls(s, c, input);
    SendFromMoves(ReceiveAll(Swapped(s, c), c, n), 0, input.grants);
  }

  lemma TakenOnTop(taken: seq<Message>, more: seq<Message>, inbox: seq<Frame>, rest: seq<Frame>)
    requires WireOf(more) + rest == inbox
    ensures WireOf(taken + more) + rest == WireOf(taken) + inbox
  {
    WireConcat(taken, more);
    Reassociate(WireOf(taken), WireOf(more), rest);
  }

  lemma Reassociate(a: seq<Frame>, b: seq<Frame>, c: seq<Frame>)
    ensures a + b + c == a + (b + c)
  {
  }

  /** Every frame that arrived is in a message taken, in order, or still waiting. */
  lemma {:induction false} EveryFrameOnce(evs: seq<Event>, c: Settings)
    requires ValidRun(evs, c)
    ensures WireOf(LedgerOf(evs, c).taken) + Run(evs, c).inbox == LedgerOf(evs, c).arrived
  {
    if evs != [] {
      var init, ev := evs[..|evs| - 1], evs[|evs| - 1];
      EveryFrameOnce(init, c);
      var s, l := Run(init, c), LedgerOf(init, c);
      match ev
      case DoPass(input) =>
        PassReceives(s, c, input);
        ReceiveConsumes(Swapped(s, c), c, Polls(s, c, input));
        TakenOnTop(l.taken, ReadOff(s.inbox, Polls(s, c, input)), s.inbox, Pass(s, c, input).inbox);
      case Arrive(frames) =>
        Reassociate(WireOf(l.taken), s.inbox, frames);
      case _ =>
    }
  }

  lemma PassCountsReceived(s: State, c: Settings, input: Input)
    ensures var s' := Pass(s, c, input);
            && s'.numReceived - s.numReceived == |s'.received| - |s.received|
            && s'.numReceived + s'.numRecvErrors ==
               s.numReceived + s.numRecvErrors + |ReadOff(s.inbox, Polls(s, c, input))|
            && |s'.bad| - |s.bad| == (if c.hasBad then s'.numRecvErrors - s.numRecvErrors else 0)
  {
    PassReceives(s, c, input);
    ReceiveCounts(Swapped(s, c), c, Polls(s, c, input));
  }

  predicate CountersAgree(s: State, l: Ledger, c: Settings) {
    && s.numReceived == |l.collected| + |s.received|
    && s.numReceived + s.numRecvErrors == |l.taken|
    && |l.collectedBad| + |s.bad| == (if c.hasBad then s.numRecvErrors else 0)
  }

  lemma StepCounts(s: State, l: Ledger, c: Settings, ev: Event)
    requires Enabled(s, ev) && CountersAgree(s, l, c)
    ensures CountersAgree(Apply(s, c, ev), Entered(l, s, c, ev), c)
  {
    match ev
    case DoPass(input) => PassCountsReceived(s, c, input);
    case _ =>
  }

  /**
   Over every run the receive counters equal the objects routed each way: received ones are in the buffer or were
   collected, and every other message taken is an error, whose object went to the bad buffer if there is one.
   */
  lemma {:induction false} ReceiveCountersAgree(evs: seq<Event>, c: Settings)
    requires ValidRun(evs, c)
    ensures CountersAgree(Run(evs, c), LedgerOf(evs, c), c)
  {
    if evs != [] {
      var init, ev := evs[..|evs| - 1], evs[|evs| - 1];
      ReceiveCountersAgree(init, c);
      StepCounts(Run(init, c), LedgerOf(init, c), c, ev);
    }
  }

  predicate ReleasesEmpty(evs: seq<Event>) {
    forall i :: 0 <= i < |evs| && evs[i].Release? ==> evs[i].parts == []
  }

  /** The thread returns only emptied objects, so the pool's are empty as long as clients empty what they release. */
  lemma {:induction false} PoolStaysEmpty(evs: seq<Event>, c: Settings)
    requires ValidRun(evs, c) && ReleasesEmpty(evs)
    ensures Empty(Run(evs, c).pool)
  {
    if evs != [] {
      PoolStaysEmpty(evs[..|evs| - 1], c);
      var s, ev := Run(evs[..|evs| - 1], c), evs[|evs| - 1];
      if ev.DoPass? {
        ReceiveDelivers(Swapped(s, c), c, Polls(s, c, ev.input));
        PassReceives(s, c, ev.input);
      }
    }
  }

  /** What the clients collected, then the buffer, is what was acceptable, and likewise of the others. */
  predicate Delivers(s: State, l: Ledger, c: Settings) {
    && l.collected + Contents(s.received) == Accepted(l.taken, c)
    && l.collectedBad + Contents(s.bad) == Refused(l.taken, c)
  }

  lemma PassDelivers(s: State, l: Ledger, c: Settings, input: Input)
    requires Empty(s.pool) && Delivers(s, l, c)
    ensures Delivers(Pass(s, c, input), Entered(l, s, c, DoPass(input)), c)
  {
    var more := ReadOff(s.inbox, Polls(s, c, input));
    PassReceives(s, c, input);
    ReceiveDelivers(Swapped(s, c), c, Polls(s, c, input));
    AcceptedConcat(l.taken, more, c);
    RefusedConcat(l.taken, more, c);
    Grouped(l.collected, Contents(s.received), Accepted(more, c));
    Grouped(l.collectedBad, Contents(s.bad), Refused(more, c));
  }

  lemma StepDelivers(s: State, l: Ledger, c: Settings, ev: Event)
    requires Enabled(s, ev) && Empty(s.pool) && Delivers(s, l, c)
    ensures Delivers(Apply(s, c, ev), Entered(l, s, c, ev), c)
  {
    match ev
    case DoPass(input) =>
      PassDelivers(s, l, c, input);
    case Collect =>
      assert l.collected + Contents(s.received) + [] == l.collected + Contents(s.received);
    case CollectBad =>
      assert l.collectedBad + Contents(s.bad) + [] == l.collectedBad + Contents(s.bad);
    case _ =>
  }

  /**
   Over every run in which clients empty what they release, what they collected followed by what is in the buffer is
   exactly the acceptable messages taken off the socket, whole and in order; the bad buffer, if there is one, has the
   others.
   */
  lemma {:induction false} RunDelivers(evs: seq<Event>, c: Settings)
    requires ValidRun(evs, c) && ReleasesEmpty(evs)
    ensures LedgerOf(evs, c).collected + Contents(Run(evs, c).received) == Accepted(LedgerOf(evs, c).taken, c)
    ensures LedgerOf(evs, c).collectedBad + Contents(Run(evs, c).bad) == Refused(LedgerOf(evs, c).taken, c)
  {
    if evs != [] {
      var init, ev := evs[..|evs| - 1], evs[|evs| - 1];
      RunDelivers(init, c);
      PoolStaysEmpty(init, c);
      StepDelivers(Run(init, c), LedgerOf(init, c), c, ev);
    }
  }
}
