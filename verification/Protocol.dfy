/**
 Every interleaving of the client threads, the background thread and the
 network, as runs of atomic steps on the shared state. Replies may be late,
 repeated, unknown or never arrive; clients may give up at either wait.
 */
module Protocol {
  import opened Bytes
  import opened Framing
  import opened Backend

  /** How a call of SendCommand ends. */
  datatype Outcome = SendTimedOut | SendFailed(ret: int) | ReplyTimedOut | Replied(reply: Command)

  datatype Phase =
    | HasId                      // took an id, no ticket yet
    | Registered                 // ticket in waiting_recipients
    | AwaitReceipt               // queued, waiting for the send receipt
    | Leaving(why: Outcome)      // gave up or failed to send, about to erase its ticket
    | AwaitReply
    | Returned(outcome: Outcome)

  /** Numbered in the order in which they took their message id, so client i holds id `start + i + 1` modulo 2^32. */
  datatype Client = Client(id: Uint32, cmd: Command, phase: Phase)

  datatype Background =
    | Polling
    | Erasing(id: Uint32, call: nat)    // fulfilled a ticket, about to erase it
    | Sending
    | Holding(next: Queued)             // popped a command
    | Receipting(call: nat, ret: int)   // sent it, about to fulfil the receipt

  /** A message the background thread took, the id it bears and the command object decoded from it. */
  datatype Reception = Reception(message: Taken, id: Uint32, cmd: Command)

  /** The shared state, the program counters, and the history of the run. */
  datatype State = State(
    shared: Shared,
    clients: seq<Client>,
    bg: Background,
    submitted: seq<nat>,     // calls in the order their commands were queued
    popped: seq<nat>,        // calls in the order their commands were dequeued
    receipted: seq<nat>,     // calls in the order their receipts were fulfilled
    arrived: seq<Frame>,     // frames the network delivered
    received: seq<Reception>,
    served: map<nat, nat>)   // which received message fulfilled a call's ticket

  datatype Step =
    | Call(cmd: Command)
    | TakeTicket(i: nat)
    | Queue(i: nat)
    | SeeReceipt(i: nat)
    | GiveUpSend(i: nat)
    | Leave(i: nat)
    | TakeReply(i: nat)
    | GiveUpReply(i: nat)
    | NothingToRead
    | ReadReply
    | EraseAnswered
    | NothingToSend
    | Pop
    | Emit(ret: int)
    | GiveReceipt
    | Arrive(frames: seq<Frame>)

  predicate At(s: State, i: nat, phase: Phase) {
    i < |s.clients| && s.clients[i].phase == phase
  }

  function Move(s: State, i: nat, phase: Phase): State
    requires i < |s.clients|
  {
    s.(clients := s.clients[i := s.clients[i].(phase := phase)])
  }

  predicate Enabled(s: State, step: Step) {
    match step
    case Call(_) => true
    case TakeTicket(i) => At(s, i, HasId)
    case Queue(i) => At(s, i, Registered)
    case SeeReceipt(i) => At(s, i, AwaitReceipt) && i in s.shared.receipts
    case GiveUpSend(i) => At(s, i, AwaitReceipt)
    case Leave(i) => i < |s.clients| && s.clients[i].phase.Leaving?
    case TakeReply(i) => At(s, i, AwaitReply) && i in s.shared.replies
    case GiveUpReply(i) => At(s, i, AwaitReply) && i !in s.shared.replies
    case NothingToRead => s.bg == Polling
    case ReadReply => s.bg == Polling && s.shared.inbox != [] && Readable(TakeMessage(s.shared.inbox).parts)
    case EraseAnswered => s.bg.Erasing?
    case NothingToSend => s.bg == Sending && s.shared.senders == []
    case Pop => s.bg == Sending && s.shared.senders != []
    case Emit(ret) => s.bg.Holding? && -4 <= ret <= 0
    case GiveReceipt => s.bg.Receipting?
    case Arrive(_) => true
  }

  function Apply(s: State, step: Step, unzip: Codec): State
    requires Enabled(s, step)
  {
    match step
    case Call(cmd) =>
      var id := NextId(s.shared);
      s.(shared := s.shared.(msgId := id), clients := s.clients + [Client(id, cmd.(msgId := id), HasId)])
    case TakeTicket(i) =>
      Move(s.(shared := Register(s.shared, s.clients[i].id, i)), i, Registered)
    case Queue(i) =>
      Move(s.(shared := Submit(s.shared, s.clients[i].cmd, i), submitted := s.submitted + [i]), i, AwaitReceipt)
    case SeeReceipt(i) =>
      var ret := s.shared.receipts[i];
      Move(s, i, if ret == 0 then AwaitReply else Leaving(SendFailed(ret)))
    case GiveUpSend(i) => Move(s, i, Leaving(SendTimedOut))
    case Leave(i) =>
      Move(s.(shared := Deregister(s.shared, s.clients[i].id)), i, Returned(s.clients[i].phase.why))
    case TakeReply(i) => Move(s, i, Returned(Replied(s.shared.replies[i])))
    case GiveUpReply(i) => Move(s, i, Returned(ReplyTimedOut))
    case NothingToRead => s.(bg := Sending)
    case ReadReply =>
      var t := TakeMessage(s.shared.inbox);
      var id := ReadU32(t.parts[0]);
      var s' := s.(shared := Answer(s.shared, unzip), received := s.received + [Reception(t, id, DecodeReply(t.parts, t.complete, unzip))]);
      if id in s.shared.recipients
      then s'.(bg := Erasing(id, s.shared.recipients[id]), served := s.served[s.shared.recipients[id] := |s.received|])
      else s'.(bg := Sending)
    case EraseAnswered => s.(shared := Deregister(s.shared, s.bg.id), bg := Sending)
    case NothingToSend => s.(bg := Polling)
    case Pop =>
      var next := s.shared.senders[0];
      s.(shared := PopCommand(s.shared), bg := Holding(next), popped := s.popped + [next.call])
    case Emit(ret) => s.(bg := Receipting(s.bg.next.call, ret))
    case GiveReceipt =>
      s.(shared := SetReceipt(s.shared, s.bg.call, s.bg.ret), bg := Polling, receipted := s.receipted + [s.bg.call])
    case Arrive(frames) => s.(shared := s.shared.(inbox := s.shared.inbox + frames), arrived := s.arrived + frames)
  }

  function Init(start: Uint32): State {
    State(Shared(start, [], map[], map[], map[], []), [], Polling, [], [], [], [], [], map[])
  }

  // ---------- runs ----------

  predicate ValidRun(s: State, steps: seq<Step>, unzip: Codec)
    decreases |steps|
  {
    steps == [] || (Enabled(s, steps[0]) && ValidRun(Apply(s, steps[0], unzip), steps[1..], unzip))
  }

  function Run(s: State, steps: seq<Step>, unzip: Codec): State
    requires ValidRun(s, steps, unzip)
    decreases |steps|
  {
    if steps == [] then s else Run(Apply(s, steps[0], unzip), steps[1..], unzip)
  }

  // ---------- message ids ----------

  function IdOf(start: Uint32, i: nat): Uint32 {
    (start + i + 1) % TWO_32
  }

  /** The wrapping counter repeats an id exactly every 2^32 calls. */
  lemma IdsDistinct(start: Uint32, i: nat, j: nat)
    ensures IdOf(start, i) == IdOf(start, j) <==> i % TWO_32 == j % TWO_32
  {
    ModShift(start + 1, i, j);
  }

  lemma ModShift(a: nat, i: nat, j: nat)
    ensures (a + i) % TWO_32 == (a + j) % TWO_32 <==> i % TWO_32 == j % TWO_32
  {
    var qi, qj, ri, rj := i / TWO_32, j / TWO_32, i % TWO_32, j % TWO_32;
    var a' := a % TWO_32;
    assert i == qi * TWO_32 + ri && j == qj * TWO_32 + rj;
    assert (a + i) % TWO_32 == (a' + ri) % TWO_32;
    assert (a + j) % TWO_32 == (a' + rj) % TWO_32;
  }

  // ---------- invariants ----------

  ghost predicate Ids(start: Uint32, s: State) {
    && s.shared.msgId == (start + |s.clients|) % TWO_32
    && (forall i :: 0 <= i < |s.clients| ==>
          s.clients[i].id == IdOf(start, i) && s.clients[i].cmd.msgId == s.clients[i].id)
  }

  ghost predicate Distinct(s: State) {
    forall i, j :: 0 <= i < j < |s.clients| ==> s.clients[i].id != s.clients[j].id
  }

  /** Registered, and neither abandoned at the send wait nor reported as failed to send. */
  predicate Holds(phase: Phase) {
    match phase
    case HasId => false
    case Returned(why) => why.ReplyTimedOut? || why.Replied?
    case _ => true
  }

  /** Call i's ticket is on the table: registered, not deregistered, and not both answered and erased. */
  predicate OnTable(s: State, i: nat)
    requires i < |s.clients|
  {
    Holds(s.clients[i].phase) && (i in s.served ==> s.bg == Erasing(s.clients[i].id, i))
  }

  ghost predicate Table(s: State) {
    && (forall i :: 0 <= i < |s.clients| ==>
          (s.clients[i].id in s.shared.recipients <==> OnTable(s, i)))
    && (forall id :: id in s.shared.recipients ==>
          s.shared.recipients[id] < |s.clients| && s.clients[s.shared.recipients[id]].id == id)
    && (s.bg.Erasing? ==> s.bg.call in s.served && s.bg.call < |s.clients| && s.clients[s.bg.call].id == s.bg.id)
  }

  /** Message t is a reply to id, decoded as cmd. */
  predicate ReplyTo(t: Taken, id: Uint32, cmd: Command, unzip: Codec) {
    Readable(t.parts) && ReadU32(t.parts[0]) == id && cmd == DecodeReply(t.parts, t.complete, unzip)
  }

  ghost predicate Decoded(s: State, unzip: Codec) {
    forall k :: 0 <= k < |s.received| ==> ReplyTo(s.received[k].message, s.received[k].id, s.received[k].cmd, unzip)
  }

  ghost predicate Answers(s: State) {
    && s.served.Keys == s.shared.replies.Keys
    && (forall i :: i in s.served ==>
          && i < |s.clients| && !s.clients[i].phase.HasId? && s.served[i] < |s.received|
          && s.received[s.served[i]].id == s.clients[i].id && s.received[s.served[i]].cmd == s.shared.replies[i])
    && (forall i :: 0 <= i < |s.clients| && s.clients[i].phase.Returned? && s.clients[i].phase.outcome.Replied? ==>
          i in s.served && s.clients[i].phase.outcome.reply == s.shared.replies[i])
  }

  predicate Queued?(phase: Phase) {
    !phase.HasId? && !phase.Registered?
  }

  function CallsOf(q: seq<Queued>): (cs: seq<nat>)
    ensures |cs| == |q|
  {
    seq(|q|, k requires 0 <= k < |q| => q[k].call)
  }

  function Held(bg: Background): seq<nat> {
    match bg
    case Holding(next) => [next.call]
    case Receipting(call, _) => [call]
    case _ => []
  }

  ghost predicate Order(s: State) {
    && s.submitted == s.popped + CallsOf(s.shared.senders)
    && s.popped == s.receipted + Held(s.bg)
    && (forall i, j :: 0 <= i < j < |s.submitted| ==> s.submitted[i] != s.submitted[j])
    && (forall i: nat :: i in s.submitted <==> i < |s.clients| && Queued?(s.clients[i].phase))
    && (forall k :: 0 <= k < |s.shared.senders| ==>
          s.shared.senders[k].call < |s.clients|
          && s.shared.senders[k].cmd == s.clients[s.shared.senders[k].call].cmd)
    && (forall i :: i in s.shared.receipts <==> i in s.receipted)
  }

  predicate FailedAs(s: State, i: nat, why: Outcome) {
    why.SendFailed? && why.ret != 0 && i in s.shared.receipts && s.shared.receipts[i] == why.ret
  }

  /** What a call's phase says about its send receipt. */
  predicate ReceiptFits(s: State, i: nat)
    requires i < |s.clients|
  {
    match s.clients[i].phase
    case AwaitReply => i in s.shared.receipts && s.shared.receipts[i] == 0
    case Leaving(why) => why == SendTimedOut || FailedAs(s, i, why)
    case Returned(why) =>
      why == SendTimedOut || FailedAs(s, i, why)
      || (!why.SendFailed? && i in s.shared.receipts && s.shared.receipts[i] == 0)
    case _ => true
  }

  ghost predicate Receipts(s: State) {
    forall i :: 0 <= i < |s.clients| ==> ReceiptFits(s, i)
  }

  ghost predicate Inv(start: Uint32, s: State, unzip: Codec) {
    Ids(start, s) && Table(s) && Decoded(s, unzip) && Answers(s) && Order(s) && Receipts(s)
  }

  // ---------- every step keeps them ----------

  lemma DistinctFromIds(start: Uint32, s: State)
    requires Ids(start, s) && |s.clients| <= TWO_32
    ensures Distinct(s)
  {
    forall i, j | 0 <= i < j < |s.clients| ensures s.clients[i].id != s.clients[j].id {
      IdsDistinct(start, i, j);
    }
  }

  lemma StepIds(start: Uint32, s: State, step: Step, unzip: Codec)
    requires Ids(start, s) && Enabled(s, step)
    ensures Ids(start, Apply(s, step, unzip))
  {
    if step.Call? {
      var n := start + |s.clients|;
      assert (n % TWO_32 + 1) % TWO_32 == (n + 1) % TWO_32;
    }
  }

  /** Client m moved to another phase and touched no ticket but its own. */
  ghost predicate OnlyMoved(s: State, s': State, m: nat) {
    && m < |s.clients| == |s'.clients| && s'.served == s.served && s'.bg == s.bg
    && s'.clients == s.clients[m := s.clients[m].(phase := s'.clients[m].phase)]
    && (forall id :: id != s.clients[m].id ==>
          (id in s'.shared.recipients <==> id in s.shared.recipients)
          && (id in s.shared.recipients ==> s'.shared.recipients[id] == s.shared.recipients[id]))
  }

  lemma TableMoved(s: State, s': State, m: nat)
    requires Table(s) && Distinct(s) && |s'.clients| == |s.clients| && OnlyMoved(s, s', m)
    requires s.clients[m].id in s'.shared.recipients <==> OnTable(s', m)
    requires s.clients[m].id in s'.shared.recipients ==> s'.shared.recipients[s.clients[m].id] == m
    ensures Table(s')
  {
    forall i | 0 <= i < |s.clients| ensures s'.clients[i].id in s'.shared.recipients <==> OnTable(s', i) {
      if i != m {
        assert s.clients[i].id != s.clients[m].id && OnTable(s', i) == OnTable(s, i);
      }
    }
    forall id | id in s'.shared.recipients
      ensures s'.shared.recipients[id] < |s'.clients| && s'.clients[s'.shared.recipients[id]].id == id
    {
    }
  }

  /** The table names the holder of each id. */
  lemma TicketOf(s: State, i: nat)
    requires Table(s) && Distinct(s) && i < |s.clients| && s.clients[i].id in s.shared.recipients
    ensures s.shared.recipients[s.clients[i].id] == i
  {
    assert s.clients[s.shared.recipients[s.clients[i].id]].id == s.clients[i].id;
  }

  lemma StepTable(s: State, step: Step, unzip: Codec)
    requires Enabled(s, step) && Table(s) && Answers(s) && Receipts(s)
    requires Distinct(s) && Distinct(Apply(s, step, unzip))
    ensures Table(Apply(s, step, unzip))
  {
    match step
    case Call(cmd) => TableAfterCall(s, cmd, unzip);
    case TakeTicket(i) => TableAfterTicket(s, i, unzip);
    case Leave(i) => TableAfterLeave(s, i, unzip);
    case Queue(i) => TableStays(s, Apply(s, step, unzip), i);
    case SeeReceipt(i) => TableStays(s, Apply(s, step, unzip), i);
    case GiveUpSend(i) => TableStays(s, Apply(s, step, unzip), i);
    case TakeReply(i) => TableStays(s, Apply(s, step, unzip), i);
    case GiveUpReply(i) => TableStays(s, Apply(s, step, unzip), i);
    case ReadReply => TableAfterRead(s, unzip);
    case EraseAnswered => TableAfterErase(s, unzip);
    case _ => TableAfterOther(s, step, unzip);
  }

  lemma TableAfterTicket(s: State, i: nat, unzip: Codec)
    requires Enabled(s, TakeTicket(i)) && Table(s) && Answers(s) && Distinct(s)
    ensures Table(Apply(s, TakeTicket(i), unzip))
  {
    TableMoved(s, Apply(s, TakeTicket(i), unzip), i);
  }

  lemma TableAfterLeave(s: State, i: nat, unzip: Codec)
    requires Enabled(s, Leave(i)) && Table(s) && Receipts(s) && Distinct(s)
    ensures Table(Apply(s, Leave(i), unzip))
  {
    assert ReceiptFits(s, i);
    TableMoved(s, Apply(s, Leave(i), unzip), i);
  }

  lemma TableAfterOther(s: State, step: Step, unzip: Codec)
    requires Enabled(s, step) && Table(s)
    requires step.NothingToRead? || step.NothingToSend? || step.Pop? || step.Emit? || step.GiveReceipt? || step.Arrive?
    ensures Table(Apply(s, step, unzip))
  {
    TableSame(s, Apply(s, step, unzip));
  }

  lemma TableSame(s: State, s': State)
    requires Table(s) && s'.clients == s.clients && s'.served == s.served
    requires s'.shared.recipients == s.shared.recipients
    requires s'.bg == s.bg || (!s.bg.Erasing? && !s'.bg.Erasing?)
    ensures Table(s')
  {
    assert forall i :: 0 <= i < |s.clients| ==> OnTable(s', i) == OnTable(s, i);
  }

  lemma TableAfterErase(s: State, unzip: Codec)
    requires Enabled(s, EraseAnswered) && Table(s) && Distinct(s)
    ensures Table(Apply(s, EraseAnswered, unzip))
  {
    var s' := Apply(s, EraseAnswered, unzip);
    forall i | 0 <= i < |s.clients| ensures s.clients[i].id in s'.shared.recipients <==> OnTable(s', i) {
      if s.clients[i].id == s.bg.id { assert i == s.bg.call; }
    }
  }

  lemma TableStays(s: State, s': State, i: nat)
    requires Table(s) && Distinct(s) && |s'.clients| == |s.clients| && OnlyMoved(s, s', i)
    requires s'.shared.recipients == s.shared.recipients && Holds(s'.clients[i].phase) && Holds(s.clients[i].phase)
    ensures Table(s')
  {
    assert OnTable(s', i) == OnTable(s, i);
    if s.clients[i].id in s.shared.recipients {
      TicketOf(s, i);
    }
    TableMoved(s, s', i);
  }

  lemma TableAfterCall(s: State, cmd: Command, unzip: Codec)
    requires Table(s) && Answers(s) && Distinct(Apply(s, Call(cmd), unzip))
    ensures Table(Apply(s, Call(cmd), unzip))
  {
    var s', n := Apply(s, Call(cmd), unzip), |s.clients|;
    forall id | id in s.shared.recipients ensures id != s'.clients[n].id {
      assert s'.clients[s.shared.recipients[id]].id == id;
    }
    assert forall i :: 0 <= i < n ==> s'.clients[i] == s.clients[i] && OnTable(s', i) == OnTable(s, i);
  }

  lemma TableAfterRead(s: State, unzip: Codec)
    requires Enabled(s, ReadReply) && Table(s) && Distinct(s)
    ensures Table(Apply(s, ReadReply, unzip))
  {
    var s' := Apply(s, ReadReply, unzip);
    forall i | 0 <= i < |s.clients| ensures OnTable(s', i) == OnTable(s, i) {
      var id := ReadU32(TakeMessage(s.shared.inbox).parts[0]);
      if id in s.shared.recipients && s.shared.recipients[id] != i {
        assert s.clients[i].id != id;
      }
    }
  }

  /** The ticket about to be fulfilled has not been fulfilled before. */
  lemma TicketUnused(s: State, id: Uint32)
    requires Table(s) && s.bg == Polling && id in s.shared.recipients
    ensures s.shared.recipients[id] !in s.served && Holds(s.clients[s.shared.recipients[id]].phase)
  {
    assert OnTable(s, s.shared.recipients[id]);
  }

  lemma StepAnswers(s: State, step: Step, unzip: Codec)
    requires Enabled(s, step) && Table(s) && Answers(s) && Receipts(s)
    ensures Answers(Apply(s, step, unzip))
  {
    match step
    case ReadReply => AnswersAfterRead(s, unzip);
    case Leave(i) => AnswersAfterLeave(s, i, unzip);
    case TakeReply(_) => AnswersAfterEarly(s, step, unzip);
    case Call(_) => AnswersAfterEarly(s, step, unzip);
    case TakeTicket(_) => AnswersAfterEarly(s, step, unzip);
    case _ => AnswersAfterOther(s, step, unzip);
  }

  lemma AnswersAfterEarly(s: State, step: Step, unzip: Codec)
    requires Enabled(s, step) && Answers(s) && (step.TakeReply? || step.Call? || step.TakeTicket?)
    ensures Answers(Apply(s, step, unzip))
  {
    AnswersMoved(s, Apply(s, step, unzip));
  }

  lemma AnswersAfterLeave(s: State, i: nat, unzip: Codec)
    requires Enabled(s, Leave(i)) && Answers(s) && Receipts(s)
    ensures Answers(Apply(s, Leave(i), unzip))
  {
    assert ReceiptFits(s, i);
    AnswersMoved(s, Apply(s, Leave(i), unzip));
  }

  lemma AnswersAfterOther(s: State, step: Step, unzip: Codec)
    requires Enabled(s, step) && Answers(s)
    requires !step.ReadReply? && !step.Leave? && !step.TakeReply? && !step.Call? && !step.TakeTicket?
    ensures Answers(Apply(s, step, unzip))
  {
    AnswersMoved(s, Apply(s, step, unzip));
  }

  lemma AnswersMoved(s: State, s': State)
    requires Answers(s) && |s.clients| <= |s'.clients|
    requires s'.served == s.served && s'.shared.replies == s.shared.replies && s.received <= s'.received
    requires forall i :: 0 <= i < |s.clients| ==>
               s'.clients[i].id == s.clients[i].id && (s'.clients[i].phase.HasId? ==> s.clients[i].phase.HasId?)
    requires forall i :: 0 <= i < |s'.clients| && s'.clients[i].phase.Returned? && s'.clients[i].phase.outcome.Replied? ==>
               i < |s.clients|
               && (s'.clients[i] == s.clients[i]
                   || (i in s.shared.replies && s'.clients[i].phase.outcome.reply == s.shared.replies[i]))
    ensures Answers(s')
  {
  }

  lemma AnswersAfterRead(s: State, unzip: Codec)
    requires Enabled(s, ReadReply) && Table(s) && Answers(s)
    ensures Answers(Apply(s, ReadReply, unzip))
  {
    var s', id := Apply(s, ReadReply, unzip), ReadU32(TakeMessage(s.shared.inbox).parts[0]);
    if id !in s.shared.recipients {
      AnswersMoved(s, s');
    } else {
      TicketUnused(s, id);
      AnswersServed(s, s', s.shared.recipients[id], s'.received[|s.received|]);
    }
  }

  lemma AnswersServed(s: State, s': State, call: nat, r: Reception)
    requires Answers(s) && call !in s.served && call < |s.clients| && !s.clients[call].phase.HasId?
    requires r.id == s.clients[call].id && s'.received == s.received + [r]
    requires s'.clients == s.clients && s'.served == s.served[call := |s.received|]
    requires s'.shared.replies == s.shared.replies[call := r.cmd]
    ensures Answers(s')
  {
    assert s'.received[|s.received|] == r && s.received <= s'.received;
    assert forall i :: i in s'.served && i != call ==> i in s.served;
  }

  lemma StepDecoded(s: State, step: Step, unzip: Codec)
    requires Enabled(s, step) && Decoded(s, unzip)
    ensures Decoded(Apply(s, step, unzip), unzip)
  {
    var s' := Apply(s, step, unzip);
    if step.ReadReply? {
      assert ReplyTo(s'.received[|s.received|].message, s'.received[|s.received|].id, s'.received[|s.received|].cmd, unzip);
    } else {
      OnlyReadsFulfil(s, step, unzip);
    }
  }

  lemma StepOrder(s: State, step: Step, unzip: Codec)
    requires Enabled(s, step) && Order(s)
    ensures Order(Apply(s, step, unzip))
  {
    match step
    case Pop => OrderAfterPop(s, unzip);
    case Queue(m) => OrderAfterQueue(s, m, unzip);
    case Emit(_) => OrderHandedOn(s, Apply(s, step, unzip));
    case GiveReceipt => OrderHandedOn(s, Apply(s, step, unzip));
    case Call(_) => OrderMoved(s, Apply(s, step, unzip));
    case TakeTicket(_) => OrderMoved(s, Apply(s, step, unzip));
    case SeeReceipt(_) => OrderMoved(s, Apply(s, step, unzip));
    case _ => OrderAfterOther(s, step, unzip);
  }

  lemma OrderAfterOther(s: State, step: Step, unzip: Codec)
    requires Enabled(s, step) && Order(s)
    requires !step.Pop? && !step.Queue? && !step.Emit? && !step.GiveReceipt?
    requires !step.Call? && !step.TakeTicket? && !step.SeeReceipt?
    ensures Order(Apply(s, step, unzip))
  {
    OrderMoved(s, Apply(s, step, unzip));
  }

  lemma OrderAfterPop(s: State, unzip: Codec)
    requires Enabled(s, Pop) && Order(s)
    ensures Order(Apply(s, Pop, unzip))
  {
    var s' := Apply(s, Pop, unzip);
    assert CallsOf(s.shared.senders) == [s.shared.senders[0].call] + CallsOf(s'.shared.senders);
  }

  /** The command in hand goes from sent to receipted. */
  lemma OrderHandedOn(s: State, s': State)
    requires Order(s) && s'.clients == s.clients && s'.submitted == s.submitted && s'.popped == s.popped
    requires s'.shared.senders == s.shared.senders && s'.popped == s'.receipted + Held(s'.bg)
    requires (s'.receipted == s.receipted && s'.shared.receipts == s.shared.receipts)
          || (s.bg.Receipting? && s'.receipted == s.receipted + [s.bg.call]
              && s'.shared.receipts == s.shared.receipts[s.bg.call := s.bg.ret])
    ensures Order(s')
  {
  }

  lemma OrderMoved(s: State, s': State)
    requires Order(s) && |s.clients| <= |s'.clients|
    requires s'.submitted == s.submitted && s'.popped == s.popped && s'.receipted == s.receipted
    requires Held(s'.bg) == Held(s.bg)
    requires s'.shared.senders == s.shared.senders && s'.shared.receipts == s.shared.receipts
    requires forall i :: 0 <= i < |s.clients| ==>
               s'.clients[i].cmd == s.clients[i].cmd
               && Queued?(s'.clients[i].phase) == Queued?(s.clients[i].phase)
    requires forall i :: |s.clients| <= i < |s'.clients| ==> !Queued?(s'.clients[i].phase)
    ensures Order(s')
  {
  }

  lemma OrderAfterQueue(s: State, m: nat, unzip: Codec)
    requires Enabled(s, Queue(m)) && Order(s)
    ensures Order(Apply(s, Queue(m), unzip))
  {
    var s' := Apply(s, Queue(m), unzip);
    assert m !in s.submitted;
    assert CallsOf(s'.shared.senders) == CallsOf(s.shared.senders) + [m];
    forall i: nat ensures i in s'.submitted <==> i < |s'.clients| && Queued?(s'.clients[i].phase) {
      assert i in s'.submitted <==> i in s.submitted || i == m;
    }
  }

  lemma StepReceipts(s: State, step: Step, unzip: Codec)
    requires Enabled(s, step) && Order(s) && Receipts(s)
    ensures Receipts(Apply(s, step, unzip))
  {
    var s' := Apply(s, step, unzip);
    if step.GiveReceipt? {
      ReceiptUnused(s);
    }
    ReceiptsMoved(s, s', step);
  }

  /** Receipts only grow, and a client moves only to a phase its receipt fits. */
  lemma ReceiptsMoved(s: State, s': State, step: Step)
    requires Receipts(s) && |s.clients| <= |s'.clients|
    requires forall i :: i in s.shared.receipts ==> i in s'.shared.receipts && s'.shared.receipts[i] == s.shared.receipts[i]
    requires forall i :: 0 <= i < |s'.clients| ==>
               (i < |s.clients| && s'.clients[i] == s.clients[i]) || ReceiptFits(s', i)
               || (i < |s.clients| && s.clients[i].phase.Leaving? && s'.clients[i].phase == Returned(s.clients[i].phase.why))
               || (i < |s.clients| && s.clients[i].phase == AwaitReply && s'.clients[i].phase.Returned?
                   && !s'.clients[i].phase.outcome.SendFailed?)
    ensures Receipts(s')
  {
    forall i | 0 <= i < |s'.clients| ensures ReceiptFits(s', i) {
      if i < |s.clients| {
        assert ReceiptFits(s, i);
      }
    }
  }

  /** The receipt about to be fulfilled has not been fulfilled before. */
  lemma ReceiptUnused(s: State)
    requires Order(s) && s.bg.Receipting?
    ensures s.bg.call !in s.shared.receipts
  {
    var last := |s.popped| - 1;
    assert s.submitted[last] == s.bg.call;
    forall k | 0 <= k < |s.receipted| ensures s.receipted[k] != s.bg.call {
      assert s.receipted[k] == s.submitted[k];
    }
  }

  // ---------- every run ----------

  lemma {:induction false} ClientsGrow(s: State, steps: seq<Step>, unzip: Codec)
    requires ValidRun(s, steps, unzip)
    ensures |s.clients| <= |Run(s, steps, unzip).clients|
    decreases |steps|
  {
    if steps != [] {
      ClientsGrow(Apply(s, steps[0], unzip), steps[1..], unzip);
    }
  }

  lemma {:induction false} RunKeeps(start: Uint32, s: State, steps: seq<Step>, unzip: Codec)
    requires ValidRun(s, steps, unzip) && Inv(start, s, unzip)
    requires |Run(s, steps, unzip).clients| <= TWO_32
    ensures Inv(start, Run(s, steps, unzip), unzip)
    decreases |steps|
  {
    if steps != [] {
      var s' := Apply(s, steps[0], unzip);
      ClientsGrow(s', steps[1..], unzip);
      StepIds(start, s, steps[0], unzip);
      DistinctFromIds(start, s);
      DistinctFromIds(start, s');
      StepTable(s, steps[0], unzip);
      StepDecoded(s, steps[0], unzip);
      StepAnswers(s, steps[0], unzip);
      StepOrder(s, steps[0], unzip);
      StepReceipts(s, steps[0], unzip);
      RunKeeps(start, s', steps[1..], unzip);
    }
  }

  /** A state some run of at most 2^32 calls reaches, from any value of the id counter. */
  ghost predicate Reached(start: Uint32, steps: seq<Step>, unzip: Codec) {
    ValidRun(Init(start), steps, unzip) && |Run(Init(start), steps, unzip).clients| <= TWO_32
  }

  lemma ReachedKeeps(start: Uint32, steps: seq<Step>, unzip: Codec)
    requires Reached(start, steps, unzip)
    ensures Inv(start, Run(Init(start), steps, unzip), unzip) && Distinct(Run(Init(start), steps, unzip))
  {
    RunKeeps(start, Init(start), steps, unzip);
    DistinctFromIds(start, Run(Init(start), steps, unzip));
  }

  /** Call i came back with a reply. */
  predicate GotReply(s: State, i: nat) {
    i < |s.clients| && s.clients[i].phase.Returned? && s.clients[i].phase.outcome.Replied?
  }

  /**
   A call that comes back with a reply hands over one received message bearing its own id, its command went
   out, and if it reports success its results are that message's decoded parts from the third on, in order.
   */
  lemma ReplyGoesHome(start: Uint32, steps: seq<Step>, unzip: Codec, i: nat)
    requires Reached(start, steps, unzip) && GotReply(Run(Init(start), steps, unzip), i)
    ensures var s := Run(Init(start), steps, unzip);
            var reply := s.clients[i].phase.outcome.reply;
            && i in s.served && s.served[i] < |s.received|
            && i in s.shared.receipts && s.shared.receipts[i] == 0
            && var t := s.received[s.served[i]].message;
               && ReplyTo(t, IdOf(start, i), reply, unzip)
               && (reply.success != 0 ==>
                     |t.parts| >= 2 && TextsOf(t.parts[2..], reply.response, unzip)
                     && forall k :: 2 <= k < |t.parts| ==> unzip(t.parts[k]).ok)
  {
    ReachedKeeps(start, steps, unzip);
    var s := Run(Init(start), steps, unzip);
    assert ReceiptFits(s, i);
    var t := s.received[s.served[i]].message;
    SuccessMeans(t.parts, t.complete, unzip);
  }

  /** What SendCommand returns for an outcome, and the results it hands over. */
  function SendCommandResult(outcome: Outcome): (bool, seq<string>) {
    match outcome
    case Replied(reply) => (reply.success != 0, reply.response)
    case _ => (false, [])
  }

  /**
   SendCommand returns true exactly when it got a reply whose status word is not zero and whose parts all decode;
   the results are then those parts. Otherwise, short of a failed decode, the results are empty.
   */
  lemma SendCommandTrueIff(start: Uint32, steps: seq<Step>, unzip: Codec, i: nat)
    requires Reached(start, steps, unzip) && i < |Run(Init(start), steps, unzip).clients|
    requires Run(Init(start), steps, unzip).clients[i].phase.Returned?
    ensures var s := Run(Init(start), steps, unzip);
            var (ok, results) := SendCommandResult(s.clients[i].phase.outcome);
            && (ok <==>
                && GotReply(s, i) && i in s.served && s.served[i] < |s.received|
                && var parts := s.received[s.served[i]].message.parts;
                   |parts| >= 2 && |parts[1]| >= 4 && ReadU32(parts[1]) != 0
                   && forall k :: 2 <= k < |parts| ==> unzip(parts[k]).ok)
            && (ok ==> TextsOf(s.received[s.served[i]].message.parts[2..], results, unzip))
            && (!GotReply(s, i) ==> results == [])
  {
    var s := Run(Init(start), steps, unzip);
    if GotReply(s, i) {
      ReplyGoesHome(start, steps, unzip, i);
      var t := s.received[s.served[i]].message;
      SuccessMeans(t.parts, t.complete, unzip);
    }
  }

  /** No received message reaches two calls. */
  lemma NoReplyReachesTwo(start: Uint32, steps: seq<Step>, unzip: Codec, i: nat, j: nat)
    requires Reached(start, steps, unzip) && i != j
    requires i in Run(Init(start), steps, unzip).served && j in Run(Init(start), steps, unzip).served
    ensures var s := Run(Init(start), steps, unzip); s.served[i] != s.served[j]
  {
    ReachedKeeps(start, steps, unzip);
    var s := Run(Init(start), steps, unzip);
    assert s.clients[i].id != s.clients[j].id;
  }

  /** No promise is fulfilled twice: neither the response ticket about to be set nor the send receipt. */
  lemma FulfilledOnce(start: Uint32, steps: seq<Step>, unzip: Codec)
    requires Reached(start, steps, unzip)
    ensures var s := Run(Init(start), steps, unzip);
            && (Enabled(s, ReadReply) ==>
                  var id := ReadU32(TakeMessage(s.shared.inbox).parts[0]);
                  id in s.shared.recipients ==> s.shared.recipients[id] !in s.shared.replies)
            && (Enabled(s, GiveReceipt) ==> s.bg.call !in s.shared.receipts)
  {
    ReachedKeeps(start, steps, unzip);
    var s := Run(Init(start), steps, unzip);
    if Enabled(s, ReadReply) {
      var id := ReadU32(TakeMessage(s.shared.inbox).parts[0]);
      if id in s.shared.recipients {
        TicketUnused(s, id);
      }
    }
    if Enabled(s, GiveReceipt) {
      ReceiptUnused(s);
    }
  }

  /**
   The keys of the ticket table, exactly: ids whose call registered, did not deregister, and was not answered
   (an answered ticket stays only between being fulfilled and being erased). Each entry names its own call.
   */
  lemma TableExactly(start: Uint32, steps: seq<Step>, unzip: Codec, id: Uint32)
    requires Reached(start, steps, unzip)
    ensures var s := Run(Init(start), steps, unzip);
            && (id in s.shared.recipients <==>
                exists i: nat :: i < |s.clients| && s.clients[i].id == id && OnTable(s, i))
            && (id in s.shared.recipients ==>
                s.shared.recipients[id] < |s.clients| && id == IdOf(start, s.shared.recipients[id]))
  {
    ReachedKeeps(start, steps, unzip);
    var s := Run(Init(start), steps, unzip);
    if id in s.shared.recipients {
      assert OnTable(s, s.shared.recipients[id]);
    }
  }

  /** Once every call has returned, the tickets left are those of response timeouts never answered. */
  lemma LeftOver(start: Uint32, steps: seq<Step>, unzip: Codec, i: nat)
    requires Reached(start, steps, unzip) && i < |Run(Init(start), steps, unzip).clients|
    requires var s := Run(Init(start), steps, unzip);
             !s.bg.Erasing? && forall j :: 0 <= j < |s.clients| ==> s.clients[j].phase.Returned?
    ensures var s := Run(Init(start), steps, unzip);
            IdOf(start, i) in s.shared.recipients <==>
            s.clients[i].phase == Returned(ReplyTimedOut) && i !in s.shared.replies
  {
    ReachedKeeps(start, steps, unzip);
    var s := Run(Init(start), steps, unzip);
    assert s.clients[i].id in s.shared.recipients <==> OnTable(s, i);
    assert ReceiptFits(s, i);
  }

  /**
   Commands leave the queue in the order they entered it, each at most once, only after their ticket was
   registered, and every dequeued command but the one in hand has had exactly one send receipt.
   */
  lemma QueueInOrder(start: Uint32, steps: seq<Step>, unzip: Codec)
    requires Reached(start, steps, unzip)
    ensures var s := Run(Init(start), steps, unzip);
            && s.submitted == s.popped + CallsOf(s.shared.senders)
            && s.popped == s.receipted + Held(s.bg)
            && (forall i, j :: 0 <= i < j < |s.submitted| ==> s.submitted[i] != s.submitted[j])
            && (forall i: nat :: i in s.submitted <==> i < |s.clients| && Queued?(s.clients[i].phase))
            && (forall i :: i in s.shared.receipts <==> i in s.receipted)
            && (forall q :: q in s.shared.senders ==>
                  q.call < |s.clients| && q.cmd == s.clients[q.call].cmd && q.cmd.msgId == IdOf(start, q.call))
  {
    ReachedKeeps(start, steps, unzip);
  }

  /** What the background thread had done for a call that returned with `outcome`, and what is left of its ticket. */
  predicate EndsAs(s: State, i: nat, outcome: Outcome)
    requires i < |s.clients|
  {
    var receipt := if i in s.shared.receipts then s.shared.receipts[i] else -99;
    match outcome
    case SendTimedOut => s.clients[i].id !in s.shared.recipients
    case SendFailed(ret) => ret != 0 && receipt == ret && s.clients[i].id !in s.shared.recipients
    case ReplyTimedOut => receipt == 0
    case Replied(reply) => receipt == 0 && i in s.shared.replies && s.shared.replies[i] == reply
  }

  /** The four ways a call ends. */
  lemma FourEndings(start: Uint32, steps: seq<Step>, unzip: Codec, i: nat)
    requires Reached(start, steps, unzip) && i < |Run(Init(start), steps, unzip).clients|
    requires Run(Init(start), steps, unzip).clients[i].phase.Returned?
    ensures var s := Run(Init(start), steps, unzip);
            i in s.submitted && EndsAs(s, i, s.clients[i].phase.outcome)
  {
    ReachedKeeps(start, steps, unzip);
    EndingFits(start, Run(Init(start), steps, unzip), unzip, i);
  }

  lemma EndingFits(start: Uint32, s: State, unzip: Codec, i: nat)
    requires Inv(start, s, unzip) && i < |s.clients| && s.clients[i].phase.Returned?
    ensures i in s.submitted && EndsAs(s, i, s.clients[i].phase.outcome)
  {
    assert ReceiptFits(s, i);
    assert s.clients[i].id in s.shared.recipients <==> OnTable(s, i);
    assert Queued?(s.clients[i].phase);
  }

  ghost predicate Kept(s: State, s': State, i: nat) {
    && (i in s.shared.replies ==> i in s'.shared.replies && s'.shared.replies[i] == s.shared.replies[i])
    && (i in s.shared.receipts ==> i in s'.shared.receipts && s'.shared.receipts[i] == s.shared.receipts[i])
    && (i < |s.clients| && s.clients[i].phase.Returned? ==> i < |s'.clients| && s'.clients[i] == s.clients[i])
  }

  lemma StepKeepsReplies(s: State, step: Step, unzip: Codec, i: nat)
    requires Enabled(s, step) && Table(s) && Answers(s) && i in s.shared.replies
    ensures var s' := Apply(s, step, unzip); i in s'.shared.replies && s'.shared.replies[i] == s.shared.replies[i]
  {
    if step.ReadReply? {
      var id := ReadU32(TakeMessage(s.shared.inbox).parts[0]);
      if id in s.shared.recipients {
        TicketUnused(s, id);
      }
    } else {
      OnlyReadsFulfil(s, step, unzip);
    }
  }

  lemma OnlyReadsFulfil(s: State, step: Step, unzip: Codec)
    requires Enabled(s, step) && !step.ReadReply?
    ensures Apply(s, step, unzip).shared.replies == s.shared.replies && Apply(s, step, unzip).received == s.received
  {
  }

  lemma StepKeepsReceipts(s: State, step: Step, unzip: Codec, i: nat)
    requires Enabled(s, step) && Order(s) && i in s.shared.receipts
    ensures var s' := Apply(s, step, unzip); i in s'.shared.receipts && s'.shared.receipts[i] == s.shared.receipts[i]
  {
    if step.GiveReceipt? {
      ReceiptUnused(s);
    }
  }

  lemma StepKeepsReturned(s: State, step: Step, unzip: Codec, i: nat)
    requires Enabled(s, step) && i < |s.clients| && s.clients[i].phase.Returned?
    ensures var s' := Apply(s, step, unzip); i < |s'.clients| && s'.clients[i] == s.clients[i]
  {
  }

  /** Once fulfilled, a ticket and a receipt keep their value for the rest of the run, and a returned call its outcome. */
  lemma {:induction false} NothingRevised(start: Uint32, s: State, steps: seq<Step>, unzip: Codec, i: nat)
    requires ValidRun(s, steps, unzip) && Inv(start, s, unzip)
    requires |Run(s, steps, unzip).clients| <= TWO_32
    ensures Kept(s, Run(s, steps, unzip), i)
    decreases |steps|
  {
    if steps != [] {
      var s1 := Apply(s, steps[0], unzip);
      ClientsGrow(s1, steps[1..], unzip);
      RunKeeps(start, s, [steps[0]], unzip);
      assert Run(s, [steps[0]], unzip) == s1;
      if i in s.shared.replies { StepKeepsReplies(s, steps[0], unzip, i); }
      if i in s.shared.receipts { StepKeepsReceipts(s, steps[0], unzip, i); }
      if i < |s.clients| && s.clients[i].phase.Returned? { StepKeepsReturned(s, steps[0], unzip, i); }
      NothingRevised(start, s1, steps[1..], unzip, i);
    }
  }

  // ---------- what was received is what arrived ----------

  function AllFrames(rs: seq<Reception>): seq<Frame> {
    if rs == [] then [] else AllFrames(rs[..|rs| - 1]) + FramesOf(rs[|rs| - 1].message)
  }

  lemma StepAsArrived(s: State, step: Step, unzip: Codec)
    requires Enabled(s, step) && s.arrived == AllFrames(s.received) + s.shared.inbox
    ensures var s' := Apply(s, step, unzip); s'.arrived == AllFrames(s'.received) + s'.shared.inbox
  {
    if step.ReadReply? {
      FramesMoved(s.received, Apply(s, step, unzip).received[|s.received|], s.shared.inbox);
    }
    if step.Arrive? {
      assert AllFrames(s.received) + s.shared.inbox + step.frames == AllFrames(s.received) + (s.shared.inbox + step.frames);
    }
  }

  lemma FramesMoved(received: seq<Reception>, r: Reception, inbox: seq<Frame>)
    requires r.message == TakeMessage(inbox)
    ensures AllFrames(received + [r]) + r.message.rest == AllFrames(received) + inbox
  {
    TakenFrames(inbox);
    assert (received + [r])[..|received|] == received;
    assert AllFrames(received) + FramesOf(r.message) + r.message.rest ==
           AllFrames(received) + (FramesOf(r.message) + r.message.rest);
  }

  /** The messages received, then what waits, are exactly the frames the network delivered, in order. */
  lemma {:induction false} ReceivedAsArrived(s: State, steps: seq<Step>, unzip: Codec)
    requires ValidRun(s, steps, unzip) && s.arrived == AllFrames(s.received) + s.shared.inbox
    ensures var s' := Run(s, steps, unzip); s'.arrived == AllFrames(s'.received) + s'.shared.inbox
    decreases |steps|
  {
    if steps != [] {
      StepAsArrived(s, steps[0], unzip);
      ReceivedAsArrived(Apply(s, steps[0], unzip), steps[1..], unzip);
    }
  }

  // ---------- the class's sequential methods are these steps back to back ----------

  lemma GetNextResponseIsSteps(s: State, unzip: Codec)
    requires Enabled(s, ReadReply)
    ensures var id := ReadU32(TakeMessage(s.shared.inbox).parts[0]);
            var s1 := Apply(s, ReadReply, unzip);
            var s2 := if s1.bg.Erasing? then Apply(s1, EraseAnswered, unzip) else s1;
            s2.shared == Deregister(Answer(s.shared, unzip), id) && s2.bg == Sending
  {
    var id := ReadU32(TakeMessage(s.shared.inbox).parts[0]);
    if id !in s.shared.recipients {
      assert s.shared.recipients - {id} == s.shared.recipients;
    }
  }

  lemma SendNextCommandIsSteps(s: State, ret: int, unzip: Codec)
    requires Enabled(s, Pop) && -4 <= ret <= 0
    ensures ValidRun(s, [Pop, Emit(ret), GiveReceipt], unzip)
    ensures var s' := Run(s, [Pop, Emit(ret), GiveReceipt], unzip);
            s'.shared == SetReceipt(PopCommand(s.shared), s.shared.senders[0].call, ret) && s'.bg == Polling
  {
    var steps := [Pop, Emit(ret), GiveReceipt];
    assert steps[1..] == [Emit(ret), GiveReceipt] && steps[1..][1..] == [GiveReceipt] && [GiveReceipt][1..] == [];
    var s1 := Apply(s, Pop, unzip);
    var s2 := Apply(s1, Emit(ret), unzip);
    assert ValidRun(s2, [GiveReceipt], unzip);
    assert ValidRun(s1, steps[1..], unzip);
    assert Run(s2, [GiveReceipt], unzip) == Apply(s2, GiveReceipt, unzip);
    assert Run(s1, steps[1..], unzip) == Run(s2, [GiveReceipt], unzip);
  }

  // ---------- a reply does get home ----------

  lemma Prepend(s: State, step: Step, rest: seq<Step>, unzip: Codec)
    requires Enabled(s, step) && ValidRun(Apply(s, step, unzip), rest, unzip)
    ensures ValidRun(s, [step] + rest, unzip)
    ensures Run(s, [step] + rest, unzip) == Run(Apply(s, step, unzip), rest, unzip)
  {
    assert ([step] + rest)[1..] == rest;
  }

  /** The state in which a lone call has been sent and waits for its reply. */
  function Waiting(start: Uint32, cmd: Command): State {
    var id := IdOf(start, 0);
    State(Shared(id, [], map[id := 0], map[0 := 0], map[], []), [Client(id, cmd.(msgId := id), AwaitReply)],
          Polling, [0], [0], [0], [], [], map[])
  }

  /** And the state in which its command has been queued. */
  function Enqueued(start: Uint32, cmd: Command): State {
    var id := IdOf(start, 0);
    State(Shared(id, [Queued(cmd.(msgId := id), 0)], map[id := 0], map[], map[], []),
          [Client(id, cmd.(msgId := id), AwaitReceipt)], Polling, [0], [], [], [], [], map[])
  }

  lemma EnqueuedAlone(start: Uint32, cmd: Command, rest: seq<Step>, unzip: Codec) returns (steps: seq<Step>)
    requires ValidRun(Enqueued(start, cmd), rest, unzip)
    ensures ValidRun(Init(start), steps, unzip)
    ensures Run(Init(start), steps, unzip) == Run(Enqueued(start, cmd), rest, unzip)
  {
    var s0 := Init(start);
    var s1 := Apply(s0, Call(cmd), unzip);
    var s2 := Apply(s1, TakeTicket(0), unzip);
    assert Apply(s2, Queue(0), unzip) == Enqueued(start, cmd);
    Prepend(s2, Queue(0), rest, unzip); steps := [Queue(0)] + rest;
    Prepend(s1, TakeTicket(0), steps, unzip); steps := [TakeTicket(0)] + steps;
    Prepend(s0, Call(cmd), steps, unzip); steps := [Call(cmd)] + steps;
  }

  lemma SentAlone(start: Uint32, cmd: Command, rest: seq<Step>, unzip: Codec) returns (steps: seq<Step>)
    requires ValidRun(Waiting(start, cmd), rest, unzip)
    ensures ValidRun(Enqueued(start, cmd), steps, unzip)
    ensures Run(Enqueued(start, cmd), steps, unzip) == Run(Waiting(start, cmd), rest, unzip)
  {
    var s3 := Enqueued(start, cmd);
    var s4 := Apply(s3, NothingToRead, unzip);
    var s5 := Apply(s4, Pop, unzip);
    var s6 := Apply(s5, Emit(0), unzip);
    var s7 := Apply(s6, GiveReceipt, unzip);
    assert Apply(s7, SeeReceipt(0), unzip) == Waiting(start, cmd);
    Prepend(s7, SeeReceipt(0), rest, unzip); steps := [SeeReceipt(0)] + rest;
    Prepend(s6, GiveReceipt, steps, unzip); steps := [GiveReceipt] + steps;
    Prepend(s5, Emit(0), steps, unzip); steps := [Emit(0)] + steps;
    Prepend(s4, Pop, steps, unzip); steps := [Pop] + steps;
    Prepend(s3, NothingToRead, steps, unzip); steps := [NothingToRead] + steps;
  }

  function ReplyParts(id: Uint32, payload: seq<string>): seq<string> {
    [WriteU32(id), WriteU32(1)] + payload
  }

  /** Reading a reply that is the only thing waiting. */
  lemma ReadWhole(s: State, parts: seq<string>, unzip: Codec)
    requires s.bg == Polling && s.shared.inbox == Flagged(parts, false) && Readable(parts)
    requires ReadU32(parts[0]) in s.shared.recipients
    ensures Enabled(s, ReadReply)
    ensures var s', call := Apply(s, ReadReply, unzip), s.shared.recipients[ReadU32(parts[0])];
            && s'.bg == Erasing(ReadU32(parts[0]), call) && s'.clients == s.clients
            && s'.shared.replies == s.shared.replies[call := DecodeReply(parts, true, unzip)]
  {
    assert s.shared.inbox == Flagged(parts, false) + [];
    TakeFlagged(parts, []);
  }

  /** The lone call's reply is read, its ticket erased, and its promise taken up. */
  lemma ReplyTakenUp(s1: State, parts: seq<string>, unzip: Codec) returns (steps: seq<Step>)
    requires s1.bg == Polling && s1.shared.inbox == Flagged(parts, false) && Readable(parts)
    requires s1.shared.recipients == map[ReadU32(parts[0]) := 0] && s1.shared.replies == map[]
    requires |s1.clients| == 1 && s1.clients[0].phase == AwaitReply
    ensures ValidRun(s1, steps, unzip)
    ensures var s := Run(s1, steps, unzip);
            |s.clients| == 1 && s.clients[0].phase == Returned(Replied(DecodeReply(parts, true, unzip)))
  {
    ReadWhole(s1, parts, unzip);
    var s2 := Apply(s1, ReadReply, unzip);
    var s3 := Apply(s2, EraseAnswered, unzip);
    steps := [];
    Prepend(s3, TakeReply(0), steps, unzip); steps := [TakeReply(0)] + steps;
    Prepend(s2, EraseAnswered, steps, unzip); steps := [EraseAnswered] + steps;
    Prepend(s1, ReadReply, steps, unzip); steps := [ReadReply] + steps;
  }

  lemma AnsweredAlone(start: Uint32, cmd: Command, payload: seq<string>, unzip: Codec) returns (steps: seq<Step>)
    ensures var parts := ReplyParts(IdOf(start, 0), payload);
            && Readable(parts) && ValidRun(Waiting(start, cmd), steps, unzip)
            && var s := Run(Waiting(start, cmd), steps, unzip);
               |s.clients| == 1 && s.clients[0].phase == Returned(Replied(DecodeReply(parts, true, unzip)))
  {
    var s0, parts := Waiting(start, cmd), ReplyParts(IdOf(start, 0), payload);
    var frames := Flagged(parts, false);
    var s1 := Apply(s0, Arrive(frames), unzip);
    var rest := ReplyTakenUp(s1, parts, unzip);
    Prepend(s0, Arrive(frames), rest, unzip);
    steps := [Arrive(frames)] + rest;
  }

  /** From any start value, for any command and any reply parts that decode, some run hands exactly those parts back. */
  lemma ReplyCanGetHome(start: Uint32, cmd: Command, payload: seq<string>, unzip: Codec) returns (steps: seq<Step>)
    requires forall p :: p in payload ==> unzip(p).ok
    ensures Reached(start, steps, unzip)
    ensures var s := Run(Init(start), steps, unzip);
            |s.clients| == 1 && s.clients[0].phase.Returned?
            && SendCommandResult(s.clients[0].phase.outcome).0
            && TextsOf(payload, SendCommandResult(s.clients[0].phase.outcome).1, unzip)
  {
    var parts := ReplyParts(IdOf(start, 0), payload);
    var rest := AnsweredAlone(start, cmd, payload, unzip);
    var middle := SentAlone(start, cmd, rest, unzip);
    steps := EnqueuedAlone(start, cmd, middle, unzip);
    assert parts[2..] == payload;
    SuccessMeans(parts, true, unzip);
  }
}
