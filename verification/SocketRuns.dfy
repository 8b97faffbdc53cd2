/** Where message objects are, and what the counters say, over every run of passes and client actions. */
module SocketRuns {
  import opened Framing
  import opened SocketManager

  datatype Event =
    | DoPass(input: Input)
    | Arrive(frames: seq<Frame>)
    | Borrow                               // a client takes an object from the pool, or a new one
    | Collect                              // clients take everything received
    | CollectBad
    | Submit(k: nat, parts: seq<string>)   // a client hands over the k-th object it holds, to be sent
    | Release(k: nat, parts: seq<string>)  // or returns it to the pool, holding these parts

  predicate Enabled(s: State, ev: Event) {
    match ev
    case Submit(k, _) => k < |s.held|
    case Release(k, _) => k < |s.held|
    case _ => true
  }

  function Without(os: seq<Obj>, k: nat): seq<Obj>
    requires k < |os|
  {
    os[..k] + os[k + 1..]
  }

  function Apply(s: State, c: Settings, ev: Event): State
    requires Enabled(s, ev)
  {
    match ev
    case DoPass(input) => Pass(s, c, input)
    case Arrive(frames) => s.(inbox := s.inbox + frames)
    case Borrow => var (o, s1) := GetNew(s); s1.(held := s1.held + [o])
    case Collect => s.(held := s.held + s.received, received := [])
    case CollectBad => s.(held := s.held + s.bad, bad := [])
    case Submit(k, parts) =>
      s.(held := Without(s.held, k), toSend := s.toSend + [s.held[k].(parts := parts)])
    case Release(k, parts) =>
      s.(held := Without(s.held, k), pool := s.pool + [s.held[k].(parts := parts)])
  }

  predicate ValidRun(evs: seq<Event>, c: Settings)
    decreases |evs|, 0
  {
    evs == [] ||
    (ValidRun(evs[..|evs| - 1], c) && Enabled(Run(evs[..|evs| - 1], c), evs[|evs| - 1]))
  }

  function Run(evs: seq<Event>, c: Settings): State
    requires ValidRun(evs, c)
    decreases |evs|, 1
  {
    if evs == [] then START else Apply(Run(evs[..|evs| - 1], c), c, evs[|evs| - 1])
  }

  // ---------- every object in exactly one place ----------

  /** How often an object occurs in a list. */
  function Count(os: seq<Obj>, id: nat): nat {
    if os == [] then 0 else Count(os[..|os| - 1], id) + if os[|os| - 1].id == id then 1 else 0
  }

  /** And in all places together. */
  function Everywhere(s: State, id: nat): nat {
    Count(s.pool, id) + Count(s.received, id) + Count(s.bad, id)
    + Count(s.toSend, id) + Count(s.local, id) + Count(s.held, id)
  }

  /** Once if it was ever allocated, and otherwise not at all. */
  predicate Placed(s: State, id: nat) {
    Everywhere(s, id) == if id < s.created then 1 else 0
  }

  lemma {:induction false} CountConcat(a: seq<Obj>, b: seq<Obj>, id: nat)
    ensures Count(a + b, id) == Count(a, id) + Count(b, id)
  {
    if b == [] {
      assert a + b == a;
    } else {
      assert (a + b)[..|a + b| - 1] == a + b[..|b| - 1];
      CountConcat(a, b[..|b| - 1], id);
    }
  }

  lemma CountSnoc(a: seq<Obj>, o: Obj, id: nat)
    ensures Count(a + [o], id) == Count(a, id) + if o.id == id then 1 else 0
  {
    assert (a + [o])[..|a|] == a;
  }

  lemma CountWithout(os: seq<Obj>, k: nat, id: nat)
    requires k < |os|
    ensures Count(os, id) == Count(Without(os, k), id) + if os[k].id == id then 1 else 0
  {
    var front, back := os[..k], os[k + 1..];
    assert os == (front + [os[k]]) + back;
    CountConcat(front + [os[k]], back, id);
    CountSnoc(front, os[k], id);
    CountConcat(front, back, id);
  }

  lemma {:induction false} CountCleared(os: seq<Obj>, id: nat)
    ensures Count(Cleared(os), id) == Count(os, id)
  {
    if os != [] {
      CountCleared(os[..|os| - 1], id);
      assert Cleared(os)[..|os| - 1] == Cleared(os[..|os| - 1]);
    }
  }

  /** Taking an object for use loses none, and adds at most the next number. */
  lemma GetNewPlaces(s: State, id: nat)
    requires Placed(s, id)
    ensures var (o, s1) := GetNew(s);
            && Everywhere(s1, id) + (if o.id == id then 1 else 0) == (if id < s1.created then 1 else 0)
            && s1 == s.(pool := s1.pool, created := s1.created)
  {
  }

  lemma ReceiveOnePlaces(s: State, c: Settings, id: nat)
    requires Placed(s, id)
    ensures Placed(ReceiveOne(s, c), id)
  {
    var t := TakeMessage(s.inbox);
    var (o, s1) := GetNew(s);
    var full, s' := Filled(o, t), ReceiveOne(s, c);
    GetNewPlaces(s, id);
    if Accepts(c, full, t.complete) {
      PutBack(s1, s', s1.received, s'.received, full, id);
    } else if c.hasBad {
      PutBack(s1, s', s1.bad, s'.bad, full, id);
    } else {
      PutBack(s1, s', s1.pool, s'.pool, full.(parts := []), id);
    }
  }

  /** One list grew by the object taken out, the others stayed. */
  lemma PutBack(s1: State, s': State, before: seq<Obj>, after: seq<Obj>, o: Obj, id: nat)
    requires Everywhere(s1, id) + (if o.id == id then 1 else 0) == (if id < s1.created then 1 else 0)
    requires s'.created == s1.created && after == before + [o]
    requires Everywhere(s', id) - Count(after, id) == Everywhere(s1, id) - Count(before, id)
    ensures Placed(s', id)
  {
    CountSnoc(before, o, id);
  }

  lemma {:induction false} ReceiveAllPlaces(s: State, c: Settings, n: nat, id: nat)
    requires Placed(s, id)
    ensures Placed(ReceiveAll(s, c, n), id)
    decreases n
  {
    if n > 0 && s.inbox != [] {
      ReceiveOnePlaces(s, c, id);
      ReceiveAllPlaces(ReceiveOne(s, c), c, n - 1, id);
    }
  }

  /** Sending writes to the wire, the flags and the counters, and to nothing else. */
  lemma {:induction false} SendFromMoves(s: State, i: nat, grants: nat -> nat)
    ensures var s' := SendFrom(s, i, grants);
            && s' == s.(wire := s'.wire, outcomes := s'.outcomes, numSent := s'.numSent, numSendErrors := s'.numSendErrors)
            && s'.numSent + s'.numSendErrors - |s'.outcomes| == s.numSent + s.numSendErrors - |s.outcomes|
    decreases |s.local| - i
  {
    if i < |s.local| && s.local[i].parts != [] {
      SendFromMoves(SendOne(s, s.local[i], grants(i)), i + 1, grants);
    }
  }

  lemma SendAllPlaces(s: State, grants: nat -> nat, id: nat)
    requires Placed(s, id)
    ensures Placed(SendAll(s, grants), id)
  {
    var s' := SendFrom(s, 0, grants);
    SendFromMoves(s, 0, grants);
    CountConcat(s'.pool, Cleared(s'.local), id);
    CountCleared(s'.local, id);
  }

  lemma PassPlaces(s: State, c: Settings, input: Input, id: nat)
    requires Placed(s, id)
    ensures Placed(Pass(s, c, input), id)
  {
    var s1 := Swapped(s, c);
    var n := if c.hasReceive then input.readable else 0;
    ReceiveAllPlaces(s1, c, n, id);
    SendAllPlaces(ReceiveAll(s1, c, n), input.grants, id);
  }

  lemma StepPlaces(s: State, c: Settings, ev: Event, id: nat)
    requires Enabled(s, ev) && Placed(s, id)
    ensures Placed(Apply(s, c, ev), id)
  {
    match ev
    case DoPass(input) => PassPlaces(s, c, input, id);
    case Arrive(_) =>
    case Borrow =>
      var (o, s1) := GetNew(s);
      GetNewPlaces(s, id);
      CountSnoc(s1.held, o, id);
    case Collect => CountConcat(s.held, s.received, id);
    case CollectBad => CountConcat(s.held, s.bad, id);
    case Submit(k, parts) => SubmitPlaces(s, c, k, parts, id);
    case Release(k, parts) => ReleasePlaces(s, c, k, parts, id);
  }

  lemma SubmitPlaces(s: State, c: Settings, k: nat, parts: seq<string>, id: nat)
    requires k < |s.held| && Placed(s, id)
    ensures Placed(Apply(s, c, Submit(k, parts)), id)
  {
    CountWithout(s.held, k, id);
    CountSnoc(s.toSend, s.held[k].(parts := parts), id);
  }

  lemma ReleasePlaces(s: State, c: Settings, k: nat, parts: seq<string>, id: nat)
    requires k < |s.held| && Placed(s, id)
    ensures Placed(Apply(s, c, Release(k, parts)), id)
  {
    CountWithout(s.held, k, id);
    CountSnoc(s.pool, s.held[k].(parts := parts), id);
  }

  /** Over every run each object ever allocated is in exactly one of the six places, and nothing else is. */
  lemma {:induction false} EachInOnePlace(evs: seq<Event>, c: Settings, id: nat)
    requires ValidRun(evs, c)
    ensures Everywhere(Run(evs, c), id) == if id < Run(evs, c).created then 1 else 0
  {
    if evs != [] {
      EachInOnePlace(evs[..|evs| - 1], c, id);
      StepPlaces(Run(evs[..|evs| - 1], c), c, evs[|evs| - 1], id);
    }
  }

  /** A new object is allocated exactly when the pool is empty. */
  lemma AllocatesIff(s: State, c: Settings)
    ensures ReceiveOne(s, c).created == s.created + if s.pool == [] then 1 else 0
    ensures Apply(s, c, Borrow).created == s.created + if s.pool == [] then 1 else 0
  {
  }

  // ---------- the send side ----------

  function Contents(os: seq<Obj>): (ps: seq<seq<string>>)
    ensures |ps| == |os|
  {
    seq(|os|, i requires 0 <= i < |os| => os[i].parts)
  }

  /** How many of the send list a pass attempts: all, or up to and including the first message without parts. */
  function Attempts(os: seq<Obj>, i: nat): nat
    decreases |os| - i
  {
    if i >= |os| then 0 else if os[i].parts == [] then 1 else 1 + Attempts(os, i + 1)
  }

  /** The flags a pass writes, in order: a message is sent exactly when all its frames were taken. */
  function Flags(os: seq<Obj>, i: nat, grants: nat -> nat): seq<(nat, bool)>
    decreases |os| - i
  {
    if i >= |os| then []
    else if os[i].parts == [] then [(os[i].id, false)]
    else [(os[i].id, |os[i].parts| <= grants(i))] + Flags(os, i + 1, grants)
  }

  lemma {:induction false} FlagsWritten(s: State, i: nat, grants: nat -> nat)
    ensures SendFrom(s, i, grants).outcomes == s.outcomes + Flags(s.local, i, grants)
    ensures |Flags(s.local, i, grants)| == Attempts(s.local, i)
    decreases |s.local| - i
  {
    if i < |s.local| && s.local[i].parts != [] {
      FlagsWritten(SendOne(s, s.local[i], grants(i)), i + 1, grants);
    } else if i >= |s.local| {
      assert s.outcomes + [] == s.outcomes;
    }
  }

  /** The frames a pass puts on the wire: of each message attempted as many as are taken, or all. */
  function FramesTaken(os: seq<Obj>, i: nat, grants: nat -> nat): seq<Frame>
    decreases |os| - i
  {
    if i >= |os| || os[i].parts == [] then []
    else
      var n := |os[i].parts|;
      Flagged(os[i].parts, false)[..if grants(i) < n then grants(i) else n] + FramesTaken(os, i + 1, grants)
  }

  /** Also of a message that fails, the frames already taken stay on the wire. */
  lemma {:induction false} WireExactly(s: State, i: nat, grants: nat -> nat)
    ensures SendFrom(s, i, grants).wire == s.wire + FramesTaken(s.local, i, grants)
    decreases |s.local| - i
  {
    if i < |s.local| && s.local[i].parts != [] {
      var o, s1 := s.local[i], SendOne(s, s.local[i], grants(i));
      var n := if grants(i) < |o.parts| then grants(i) else |o.parts|;
      assert Flagged(o.parts, false)[..|o.parts|] == Flagged(o.parts, false);
      assert s1.wire == s.wire + Flagged(o.parts, false)[..n];
      WireExactly(s1, i + 1, grants);
      Regroup(s.wire, Flagged(o.parts, false)[..n], FramesTaken(s.local, i + 1, grants));
    } else {
      assert s.wire + [] == s.wire;
    }
  }

  lemma Regroup(a: seq<Frame>, b: seq<Frame>, c: seq<Frame>)
    ensures a + b + c == a + (b + c)
  {
  }

  predicate AllGranted(os: seq<Obj>, i: nat, grants: nat -> nat) {
    forall j :: i <= j < |os| ==> 0 < |os[j].parts| <= grants(j)
  }

  lemma {:induction false} WireGets(s: State, i: nat, grants: nat -> nat)
    requires i <= |s.local| && AllGranted(s.local, i, grants)
    ensures SendFrom(s, i, grants).wire == s.wire + Stream(Contents(s.local[i..]))
    decreases |s.local| - i
  {
    var rest := Contents(s.local[i..]);
    if i < |s.local| {
      var o := s.local[i];
      var s1 := SendOne(s, o, grants(i));
      assert 0 < |o.parts| <= grants(i);
      assert s1.local == s.local && s1.wire == s.wire + Flagged(o.parts, false);
      WireGets(s1, i + 1, grants);
      assert rest == [o.parts] + Contents(s.local[i + 1..]);
      StreamCons(s.wire, o.parts, Contents(s.local[i + 1..]));
    } else {
      assert s.wire + [] == s.wire;
    }
  }

  lemma StreamCons(wire: seq<Frame>, first: seq<string>, rest: seq<seq<string>>)
    ensures wire + Stream([first] + rest) == wire + Flagged(first, false) + Stream(rest)
  {
    assert ([first] + rest)[1..] == rest;
  }

  /**
   When every message has parts and the transport takes them all, the wire gets exactly the list's messages, in
   order: a receiver takes them off one by one.
   */
  lemma WireCarries(s: State, grants: nat -> nat)
    requires AllGranted(s.local, 0, grants)
    ensures var s' := SendAll(s, grants);
            && s'.wire == s.wire + Stream(Contents(s.local))
            && TakeAll(s'.wire[|s.wire|..]) == Contents(s.local)
  {
    WireGets(s, 0, grants);
    assert s.local[0..] == s.local;
    StreamRoundTrip(Contents(s.local));
    var wire := SendAll(s, grants).wire;
    assert wire[|s.wire|..] == Stream(Contents(s.local));
  }

  function SentCount(flags: seq<(nat, bool)>): nat {
    if flags == [] then 0 else SentCount(flags[..|flags| - 1]) + if flags[|flags| - 1].1 then 1 else 0
  }

  lemma {:induction false} SendCounts(s: State, i: nat, grants: nat -> nat)
    requires s.numSent == SentCount(s.outcomes)
    ensures SendFrom(s, i, grants).numSent == SentCount(SendFrom(s, i, grants).outcomes)
    decreases |s.local| - i
  {
    if i < |s.local| {
      var flag := (s.local[i].id, s.local[i].parts != [] && |s.local[i].parts| <= grants(i));
      assert (s.outcomes + [flag])[..|s.outcomes|] == s.outcomes;
      if s.local[i].parts != [] {
        SendCounts(SendOne(s, s.local[i], grants(i)), i + 1, grants);
      }
    }
  }

  lemma {:induction false} ReceiveKeepsSendSide(s: State, c: Settings, n: nat)
    ensures var s' := ReceiveAll(s, c, n);
            && s'.outcomes == s.outcomes && s'.numSent == s.numSent && s'.numSendErrors == s.numSendErrors
            && s'.local == s.local && s'.toSend == s.toSend && s'.held == s.held
    decreases n
  {
    if n > 0 && s.inbox != [] {
      ReceiveKeepsSendSide(ReceiveOne(s, c), c, n - 1);
    }
  }

  lemma PassCounts(s: State, c: Settings, input: Input)
    requires s.numSent == SentCount(s.outcomes) && s.numSent + s.numSendErrors == |s.outcomes|
    ensures var s' := Pass(s, c, input);
            s'.numSent == SentCount(s'.outcomes) && s'.numSent + s'.numSendErrors == |s'.outcomes|
  {
    var s1 := Swapped(s, c);
    var n := if c.hasReceive then input.readable else 0;
    ReceiveKeepsSendSide(s1, c, n);
    var s2 := ReceiveAll(s1, c, n);
    SendFromMoves(s2, 0, input.grants);
    SendCounts(s2, 0, input.grants);
  }

  /** Over every run the sent and send-error counters add up to the messages attempted, one flag for each. */
  lemma {:induction false} SendCountersAgree(evs: seq<Event>, c: Settings)
    requires ValidRun(evs, c)
    ensures var s := Run(evs, c);
            s.numSent == SentCount(s.outcomes) && s.numSent + s.numSendErrors == |s.outcomes|
  {
    if evs != [] {
      SendCountersAgree(evs[..|evs| - 1], c);
      var ev := evs[|evs| - 1];
      if ev.DoPass? {
        PassCounts(Run(evs[..|evs| - 1], c), c, ev.input);
      }
    }
  }

  /** A pass that can write attempts the whole send list if and only if every message in it has a part. */
  lemma {:induction false} AttemptsAllIff(os: seq<Obj>, i: nat)
    requires i <= |os|
    ensures Attempts(os, i) <= |os| - i
    ensures Attempts(os, i) == |os| - i <==> forall j :: i <= j < |os| - 1 ==> os[j].parts != []
    decreases |os| - i
  {
    if i < |os| && os[i].parts != [] {
      AttemptsAllIff(os, i + 1);
    }
  }
}
