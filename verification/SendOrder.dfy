/**
 The order in which the socket thread attempts the messages that clients submit.
 Submissions are numbered in the order they were made, and the numbers follow
 the messages through the shared buffer and the thread's own list.
 */
module SendOrder {
  import opened SocketManager
  import opened SocketRuns

  /**
   The objects submitted so far; the numbers of the messages in the shared buffer, in the list, and attempted; and of
   those that left: a list that is written leaves whole, also the part behind a message without parts.
   */
  datatype Order = Order(ids: seq<nat>, toSend: seq<nat>, local: seq<nat>, attempted: seq<nat>, left: seq<nat>)

  const NOTHING_SENT: Order := Order([], [], [], [], [])

  /** The pass gets to writing the list it swapped in. */
  predicate Writes(s: State, c: Settings, input: Input) {
    !input.pollThrows && input.writable && Swapped(s, c).local != []
  }

  /** The numbers name submissions of the objects in the same places. */
  predicate Names(ids: seq<nat>, numbers: seq<nat>, os: seq<Obj>) {
    |numbers| == |os| && forall i :: 0 <= i < |os| ==> numbers[i] < |ids| && ids[numbers[i]] == os[i].id
  }

  /** Likewise of the objects the flags were written for. */
  predicate NamesFlags(ids: seq<nat>, numbers: seq<nat>, flags: seq<(nat, bool)>) {
    |numbers| == |flags| && forall i :: 0 <= i < |flags| ==> numbers[i] < |ids| && ids[numbers[i]] == flags[i].0
  }

  predicate Aligned(q: Order, s: State) {
    Names(q.ids, q.toSend, s.toSend) && Names(q.ids, q.local, s.local) && NamesFlags(q.ids, q.attempted, s.outcomes)
  }

  function SwappedNumbers(q: Order, c: Settings): Order {
    if c.hasSend then q.(toSend := q.local, local := q.toSend) else q
  }

  function Numbered(q: Order, s: State, c: Settings, ev: Event): Order
    requires Enabled(s, ev) && Aligned(q, s)
  {
    match ev
    case Submit(k, _) => q.(ids := q.ids + [s.held[k].id], toSend := q.toSend + [|q.ids|])
    case DoPass(input) =>
      var q1, list := SwappedNumbers(q, c), Swapped(s, c).local;
      if !Writes(s, c, input) then q1 else
        AttemptsAllIff(list, 0);
        q1.(attempted := q1.attempted + q1.local[..Attempts(list, 0)], left := q1.left + q1.local, local := [])
    case _ => q
  }

  lemma {:induction false} FlagsName(os: seq<Obj>, i: nat, grants: nat -> nat)
    requires i <= |os|
    ensures |Flags(os, i, grants)| == Attempts(os, i) <= |os| - i
    ensures forall j :: 0 <= j < Attempts(os, i) ==> Flags(os, i, grants)[j].0 == os[i + j].id
    decreases |os| - i
  {
    if i < |os| && os[i].parts != [] {
      FlagsName(os, i + 1, grants);
      var rest := Flags(os, i + 1, grants);
      forall j | 0 <= j < Attempts(os, i) ensures Flags(os, i, grants)[j].0 == os[i + j].id {
        if j > 0 {
          assert rest[j - 1].0 == os[i + 1 + (j - 1)].id;
        }
      }
    }
  }

  lemma SubmitAligned(q: Order, s: State, c: Settings, k: nat, parts: seq<string>)
    requires k < |s.held| && Aligned(q, s)
    ensures Aligned(Numbered(q, s, c, Submit(k, parts)), Apply(s, c, Submit(k, parts)))
  {
    var ids := q.ids + [s.held[k].id];
    assert forall i :: 0 <= i < |q.ids| ==> ids[i] == q.ids[i];
    assert Names(ids, q.toSend + [|q.ids|], s.toSend + [s.held[k].(parts := parts)]);
  }

  /** What a pass does to the send side. */
  lemma PassSends(s: State, c: Settings, input: Input)
    ensures var s1, s' := Swapped(s, c), Pass(s, c, input);
            && s'.toSend == s1.toSend && s'.held == s.held
            && s'.local == (if Writes(s, c, input) then [] else s1.local)
            && s'.outcomes == s.outcomes + if Writes(s, c, input) then Flags(s1.local, 0, input.grants) else []
  {
    var s1, n := Swapped(s, c), if c.hasReceive then input.readable else 0;
    ReceiveKeepsSendSide(s1, c, n);
    var s2 := ReceiveAll(s1, c, n);
    SendFromMoves(s2, 0, input.grants);
    FlagsWritten(s2, 0, input.grants);
  }

  lemma PassAligned(q: Order, s: State, c: Settings, input: Input)
    requires Aligned(q, s)
    ensures Aligned(Numbered(q, s, c, DoPass(input)), Pass(s, c, input))
  {
    PassSends(s, c, input);
    FlagsName(Swapped(s, c).local, 0, input.grants);
  }

  lemma StepAligned(q: Order, s: State, c: Settings, ev: Event)
    requires Enabled(s, ev) && Aligned(q, s)
    ensures Aligned(Numbered(q, s, c, ev), Apply(s, c, ev))
  {
    match ev
    case Submit(k, parts) => SubmitAligned(q, s, c, k, parts);
    case DoPass(input) => PassAligned(q, s, c, input);
    case _ =>
  }

  function OrderOf(evs: seq<Event>, c: Settings): (q: Order)
    requires ValidRun(evs, c)
    ensures Aligned(q, Run(evs, c))
  {
    if evs == [] then NOTHING_SENT else
      var s, ev, q := Run(evs[..|evs| - 1], c), evs[|evs| - 1], OrderOf(evs[..|evs| - 1], c);
      StepAligned(q, s, c, ev);
      Numbered(q, s, c, ev)
  }

  // ---------- order ----------

  predicate Increasing(ns: seq<nat>) {
    forall i, j :: 0 <= i < j < |ns| ==> ns[i] < ns[j]
  }

  predicate AllBelow(ns: seq<nat>, ms: seq<nat>) {
    forall i, j :: 0 <= i < |ns| && 0 <= j < |ms| ==> ns[i] < ms[j]
  }

  /** Messages left in the order of their submission, and none before one that still waits but was submitted earlier. */
  predicate Orderly(q: Order) {
    Increasing(q.left) && AllBelow(q.left, q.toSend) && AllBelow(q.left, q.local)
  }

  /** The pass writes a list with a message submitted after one that was swapped back. */
  predicate Overtakes(q: Order, s: State, c: Settings, input: Input) {
    var q1 := SwappedNumbers(q, c);
    Writes(s, c, input) && exists i, j :: 0 <= i < |q1.local| && 0 <= j < |q1.toSend| && q1.local[i] > q1.toSend[j]
  }

  predicate SomeOvertake(evs: seq<Event>, c: Settings)
    requires ValidRun(evs, c)
  {
    evs != [] &&
    (SomeOvertake(evs[..|evs| - 1], c)
     || (evs[|evs| - 1].DoPass?
         && Overtakes(OrderOf(evs[..|evs| - 1], c), Run(evs[..|evs| - 1], c), c, evs[|evs| - 1].input)))
  }

  predicate OrderInv(q: Order) {
    && Increasing(q.toSend) && Increasing(q.local)
    && (forall i :: 0 <= i < |q.toSend| ==> q.toSend[i] < |q.ids|)
    && (forall i :: 0 <= i < |q.local| ==> q.local[i] < |q.ids| && q.local[i] !in q.toSend)
    && (forall i :: 0 <= i < |q.left| ==> q.left[i] < |q.ids|)
    && (forall n :: n in q.attempted ==> n in q.left)
    && (Increasing(q.left) ==> Increasing(q.attempted))
  }

  lemma IncreasingConcat(a: seq<nat>, b: seq<nat>)
    ensures Increasing(a + b) <==> Increasing(a) && Increasing(b) && AllBelow(a, b)
  {
    var all := a + b;
    assert forall i :: 0 <= i < |a| ==> all[i] == a[i];
    assert forall i :: 0 <= i < |b| ==> all[|a| + i] == b[i];
    if Increasing(all) {
      forall i, j | 0 <= i < |a| && 0 <= j < |b| ensures a[i] < b[j] {
        assert all[i] < all[|a| + j];
      }
      forall i, j | 0 <= i < j < |b| ensures b[i] < b[j] {
        assert all[|a| + i] < all[|a| + j];
      }
    }
  }

  /** A list is written: those attempted go to the attempted ones, and all of them leave. */
  lemma WriteKeeps(q: Order, n: nat)
    requires OrderInv(q) && n <= |q.local|
    ensures OrderInv(q.(attempted := q.attempted + q.local[..n], left := q.left + q.local, local := []))
  {
    IncreasingConcat(q.left, q.local);
    IncreasingConcat(q.attempted, q.local[..n]);
    forall i, j | 0 <= i < |q.attempted| && 0 <= j < n && AllBelow(q.left, q.local)
      ensures q.attempted[i] < q.local[..n][j]
    {
      assert q.attempted[i] in q.left;
    }
  }

  lemma WriteOrderlyIff(q: Order, attempted: seq<nat>)
    requires OrderInv(q)
    ensures Orderly(q.(attempted := attempted, left := q.left + q.local, local := [])) <==>
            Orderly(q) && !exists i, j :: 0 <= i < |q.local| && 0 <= j < |q.toSend| && q.local[i] > q.toSend[j]
  {
    IncreasingConcat(q.left, q.local);
    var left := q.left + q.local;
    assert AllBelow(left, q.toSend) <==> AllBelow(q.left, q.toSend) && AllBelow(q.local, q.toSend) by {
      BelowConcat(q.left, q.local, q.toSend);
    }
    assert AllBelow(q.local, q.toSend) <==>
           !exists i, j :: 0 <= i < |q.local| && 0 <= j < |q.toSend| && q.local[i] > q.toSend[j] by {
      forall i, j | 0 <= i < |q.local| && 0 <= j < |q.toSend| ensures q.local[i] != q.toSend[j] {
        assert q.local[i] !in q.toSend;
      }
    }
  }

  lemma BelowConcat(a: seq<nat>, b: seq<nat>, c: seq<nat>)
    ensures AllBelow(a + b, c) <==> AllBelow(a, c) && AllBelow(b, c)
  {
    var all := a + b;
    assert forall i :: 0 <= i < |a| ==> all[i] == a[i];
    assert forall i :: 0 <= i < |b| ==> all[|a| + i] == b[i];
  }

  lemma BelowSnoc(a: seq<nat>, b: seq<nat>, n: nat)
    ensures AllBelow(a, b + [n]) <==> AllBelow(a, b) && forall i :: 0 <= i < |a| ==> a[i] < n
  {
    var all := b + [n];
    assert forall j :: 0 <= j < |b| ==> all[j] == b[j];
    if AllBelow(a, all) {
      assert forall i :: 0 <= i < |a| ==> a[i] < all[|b|];
    }
  }

  lemma SubmitKeepsOrder(q: Order, id: nat)
    requires OrderInv(q)
    ensures var q' := q.(ids := q.ids + [id], toSend := q.toSend + [|q.ids|]);
            OrderInv(q') && (Orderly(q') <==> Orderly(q))
  {
    IncreasingConcat(q.toSend, [|q.ids|]);
    BelowSnoc(q.left, q.toSend, |q.ids|);
  }

  lemma PassOrder(q: Order, s: State, c: Settings, input: Input)
    requires Aligned(q, s) && OrderInv(q)
    ensures var q' := Numbered(q, s, c, DoPass(input));
            OrderInv(q') && (Orderly(q') <==> Orderly(q) && !Overtakes(q, s, c, input))
  {
    var q1, list := SwappedNumbers(q, c), Swapped(s, c).local;
    SwapKeeps(q, c);
    if Writes(s, c, input) {
      AttemptsAllIff(list, 0);
      WriteKeeps(q1, Attempts(list, 0));
      WriteOrderlyIff(q1, q1.attempted + q1.local[..Attempts(list, 0)]);
    }
  }

  lemma StepOrder(q: Order, s: State, c: Settings, ev: Event)
    requires Enabled(s, ev) && Aligned(q, s) && OrderInv(q)
    ensures var q' := Numbered(q, s, c, ev);
            && OrderInv(q')
            && (Orderly(q') <==> Orderly(q) && !(ev.DoPass? && Overtakes(q, s, c, ev.input)))
  {
    match ev
    case Submit(k, _) => SubmitKeepsOrder(q, s.held[k].id);
    case DoPass(input) => PassOrder(q, s, c, input);
    case _ =>
  }

  lemma SwapKeeps(q: Order, c: Settings)
    requires OrderInv(q)
    ensures OrderInv(SwappedNumbers(q, c)) && (Orderly(SwappedNumbers(q, c)) <==> Orderly(q))
  {
    forall i | 0 <= i < |q.toSend| ensures q.toSend[i] !in q.local {
    }
  }

  lemma {:induction false} OrderHolds(evs: seq<Event>, c: Settings)
    requires ValidRun(evs, c)
    ensures OrderInv(OrderOf(evs, c))
    ensures Orderly(OrderOf(evs, c)) <==> !SomeOvertake(evs, c)
  {
    if evs != [] {
      var init := evs[..|evs| - 1];
      OrderHolds(init, c);
      StepOrder(OrderOf(init, c), Run(init, c), c, evs[|evs| - 1]);
    }
  }

  /**
   Over every run messages leave in the order of their submission, overtaking none that waits, if and only if no pass
   that writes starts with a message in the shared buffer submitted after one still in the thread's list; and then
   they are attempted in that order.
   */
  lemma InOrderIff(evs: seq<Event>, c: Settings)
    requires ValidRun(evs, c)
    ensures Orderly(OrderOf(evs, c)) <==> !SomeOvertake(evs, c)
    ensures !SomeOvertake(evs, c) ==> Increasing(OrderOf(evs, c).attempted)
  {
    OrderHolds(evs, c);
  }

  predicate HaveParts(os: seq<Obj>) {
    forall i :: 0 <= i < |os| ==> os[i].parts != []
  }

  predicate SubmitsParts(evs: seq<Event>) {
    forall i :: 0 <= i < |evs| && evs[i].Submit? ==> evs[i].parts != []
  }

  lemma {:induction false} AllAttempted(evs: seq<Event>, c: Settings)
    requires ValidRun(evs, c) && SubmitsParts(evs)
    ensures HaveParts(Run(evs, c).toSend) && HaveParts(Run(evs, c).local)
    ensures OrderOf(evs, c).attempted == OrderOf(evs, c).left
  {
    if evs != [] {
      var init, ev := evs[..|evs| - 1], evs[|evs| - 1];
      AllAttempted(init, c);
      if ev.DoPass? {
        PassSends(Run(init, c), c, ev.input);
        AttemptsAllIff(Swapped(Run(init, c), c).local, 0);
        var q1 := SwappedNumbers(OrderOf(init, c), c);
        assert q1.local[..|q1.local|] == q1.local;
      }
    }
  }

  /** Once everything submitted has been attempted, and every message had parts, the attempts show which it was. */
  lemma AttemptsInOrderIff(evs: seq<Event>, c: Settings)
    requires ValidRun(evs, c) && SubmitsParts(evs)
    requires Run(evs, c).toSend == [] && Run(evs, c).local == []
    ensures Increasing(OrderOf(evs, c).attempted) <==> !SomeOvertake(evs, c)
  {
    AllAttempted(evs, c);
    OrderHolds(evs, c);
  }

  /** A thread that can always write keeps the order. */
  lemma {:induction false} PromptInOrder(evs: seq<Event>, c: Settings)
    requires ValidRun(evs, c)
    requires forall i :: 0 <= i < |evs| && evs[i].DoPass? ==> !evs[i].input.pollThrows && evs[i].input.writable
    ensures Run(evs, c).local == [] && !SomeOvertake(evs, c)
  {
    if evs != [] {
      var init, ev := evs[..|evs| - 1], evs[|evs| - 1];
      PromptInOrder(init, c);
      if ev.DoPass? {
        PassSends(Run(init, c), c, ev.input);
      }
    }
  }

  // ---------- a run that fails ----------

  lemma RunSnoc(evs: seq<Event>, ev: Event, c: Settings)
    requires ValidRun(evs, c) && Enabled(Run(evs, c), ev)
    ensures ValidRun(evs + [ev], c) && Run(evs + [ev], c) == Apply(Run(evs, c), c, ev)
    ensures OrderOf(evs + [ev], c) == Numbered(OrderOf(evs, c), Run(evs, c), c, ev)
  {
    assert (evs + [ev])[..|evs|] == evs;
  }

  function Quick(writable: bool): Event {
    DoPass(Input(false, 0, writable, (_: nat) => 1))
  }

  lemma PassOver(s: State, c: Settings, writable: bool)
    requires c.hasSend && |s.toSend| == 1 && |s.toSend[0].parts| == 1
    ensures var s', o := Apply(s, c, Quick(writable)), s.toSend[0];
            && s'.toSend == s.local && s'.held == s.held
            && s'.local == (if writable then [] else s.toSend)
            && s'.outcomes == s.outcomes + if writable then [(o.id, true)] else []
  {
    var grants := Quick(writable).input.grants;
    PassSends(s, c, Quick(writable).input);
    assert Flags(s.toSend, 1, grants) == [];
    assert Flags(s.toSend, 0, grants) == [(s.toSend[0].id, true)];
  }

  /**
   Two clients' messages: the first is swapped in but cannot be written, and is swapped back by the pass that writes
   the second.
   */
  function OvertakingRun(x: string, y: string): seq<Event> {
    [Borrow] + [Borrow] + [Submit(0, [x])] + [Quick(false)] + [Submit(0, [y])] + [Quick(true)] + [Quick(true)]
  }

  lemma BothBorrow(c: Settings)
    ensures var evs := [Borrow] + [Borrow];
            && ValidRun(evs, c) && OrderOf(evs, c) == NOTHING_SENT
            && Run(evs, c) == START.(held := [Obj(0, []), Obj(1, [])], created := 2)
  {
    assert ValidRun([], c) && Run([], c) == START && [] + [Borrow] == [Borrow];
    RunSnoc([], Borrow, c);
    RunSnoc([Borrow], Borrow, c);
  }

  lemma SubmitFirst(evs: seq<Event>, parts: seq<string>, c: Settings)
    requires ValidRun(evs, c) && Run(evs, c).held != []
    ensures var s, evs' := Run(evs, c), evs + [Submit(0, parts)];
            && ValidRun(evs', c) && OrderOf(evs', c).ids == OrderOf(evs, c).ids + [s.held[0].id]
            && Run(evs', c) == s.(held := s.held[1..], toSend := s.toSend + [s.held[0].(parts := parts)])
  {
    RunSnoc(evs, Submit(0, parts), c);
    assert Without(Run(evs, c).held, 0) == Run(evs, c).held[1..];
  }

  lemma QuickPass(evs: seq<Event>, writable: bool, c: Settings)
    requires ValidRun(evs, c) && c.hasSend
    requires |Run(evs, c).toSend| == 1 && |Run(evs, c).toSend[0].parts| == 1
    ensures var s, evs' := Run(evs, c), evs + [Quick(writable)];
            && ValidRun(evs', c) && OrderOf(evs', c).ids == OrderOf(evs, c).ids
            && var s' := Run(evs', c);
               && s'.toSend == s.local && s'.held == s.held
               && s'.local == (if writable then [] else s.toSend)
               && s'.outcomes == s.outcomes + if writable then [(s.toSend[0].id, true)] else []
  {
    RunSnoc(evs, Quick(writable), c);
    PassOver(Run(evs, c), c, writable);
  }

  /** Where a run from two submitted messages stands. */
  predicate Stands(evs: seq<Event>, c: Settings, held: seq<Obj>, toSend: seq<Obj>, local: seq<Obj>, ids: seq<nat>,
                   outcomes: seq<(nat, bool)>) {
    && ValidRun(evs, c) && OrderOf(evs, c).ids == ids
    && var s := Run(evs, c); s.held == held && s.toSend == toSend && s.local == local && s.outcomes == outcomes
  }

  lemma FirstSubmitted(x: string, c: Settings)
    ensures Stands([Borrow] + [Borrow] + [Submit(0, [x])], c, [Obj(1, [])], [Obj(0, [x])], [], [0], [])
  {
    BothBorrow(c);
    SubmitFirst([Borrow] + [Borrow], [x], c);
  }

  lemma SwappedIn(evs: seq<Event>, x: string, y: string, c: Settings)
    requires c.hasSend && Stands(evs, c, [Obj(1, [])], [Obj(0, [x])], [], [0], [])
    ensures Stands(evs + [Quick(false)] + [Submit(0, [y])], c, [], [Obj(1, [y])], [Obj(0, [x])], [0, 1], [])
  {
    QuickPass(evs, false, c);
    assert Stands(evs + [Quick(false)], c, [Obj(1, [])], [], [Obj(0, [x])], [0], []);
    SubmitFirst(evs + [Quick(false)], [y], c);
  }

  lemma BothWritten(evs: seq<Event>, x: string, y: string, c: Settings)
    requires c.hasSend && Stands(evs, c, [], [Obj(1, [y])], [Obj(0, [x])], [0, 1], [])
    ensures Stands(evs + [Quick(true)] + [Quick(true)], c, [], [], [], [0, 1], [(1, true), (0, true)])
  {
    QuickPass(evs, true, c);
    assert Stands(evs + [Quick(true)], c, [], [Obj(0, [x])], [], [0, 1], [(1, true)]);
    QuickPass(evs + [Quick(true)], true, c);
  }

  lemma AttemptedSecondFirst(evs: seq<Event>, c: Settings)
    requires Stands(evs, c, [], [], [], [0, 1], [(1, true), (0, true)])
    ensures OrderOf(evs, c).attempted == [1, 0]
  {
    assert NamesFlags([0, 1], OrderOf(evs, c).attempted, [(1, true), (0, true)]);
  }

  /** The second message submitted is attempted before the first. */
  lemma SwappedBackIsOvertaken(x: string, y: string, c: Settings)
    requires c.hasSend
    ensures ValidRun(OvertakingRun(x, y), c)
    ensures Run(OvertakingRun(x, y), c).outcomes == [(1, true), (0, true)]
    ensures OrderOf(OvertakingRun(x, y), c).attempted == [1, 0]
  {
    FirstSubmitted(x, c);
    SwappedIn([Borrow] + [Borrow] + [Submit(0, [x])], x, y, c);
    BothWritten([Borrow] + [Borrow] + [Submit(0, [x])] + [Quick(false)] + [Submit(0, [y])], x, y, c);
    AttemptedSecondFirst(OvertakingRun(x, y), c);
  }
}
