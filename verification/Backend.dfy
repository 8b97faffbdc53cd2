/**
 The client side of the middleman connection: the command queue, the table of
 response tickets, and the two halves of the background thread's loop.
 */
module Backend {
  import opened Bytes
  import opened Framing

  datatype Command = Command(
    command: string, response: seq<string>, kind: char, topic: string,
    success: Uint32, err: string, msgId: Uint32, timeoutMs: Uint32)

  const BLANK: Command := Command("", [], '\0', "", 0, "", 0, 0)
  const INCOMPLETE: string := "Received incomplete zmq response"

  /** Decompression of one part: the text, or the reason it failed. */
  datatype Unzipped = Unzipped(ok: bool, text: string)
  type Codec = string -> Unzipped

  datatype Queued = Queued(cmd: Command, call: nat)

  /**
   The state that the client threads and the background thread share. A promise is named by the call that made it, and
   a fulfilled one is an entry of `receipts` or `replies`.
   */
  datatype Shared = Shared(
    msgId: Uint32,
    senders: seq<Queued>,
    recipients: map<Uint32, nat>,
    receipts: map<nat, int>,
    replies: map<nat, Command>,
    inbox: seq<Frame>)

  // ---------- making a command ----------

  /** Reads and writes go out on different sockets; the first letter of the topic says which. */
  function KindOf(topic: string): (kind: char) {
    if topic == "" then '\0'
    else if topic[0] == 'R' || topic[0] == 'r' then 'r'
    else if topic[0] == 'W' || topic[0] == 'w' then 'w'
    else '\0'
  }

  /**
   What SendCommand does before it submits anything: a topic naming neither socket is refused, and a timeout of 0
   stands for the default. `zip` is the compression of the command text.
   */
  method PrepareCommand(topic: string, text: string, timeoutMs: Uint32, default: Uint32, zip: string -> string)
    returns (accepted: bool, cmd: Command)
    ensures accepted <==> topic != "" && topic[0] in "rRwW"
    ensures accepted ==> cmd == BLANK.(command := zip(text), kind := KindOf(topic), topic := topic,
                                       timeoutMs := if timeoutMs == 0 then default else timeoutMs)
    ensures accepted ==> (cmd.kind == 'r' && topic[0] in "rR") || (cmd.kind == 'w' && topic[0] in "wW")
  {
    assert forall c :: c in "rRwW" <==> c in ['r', 'R', 'w', 'W'];
    assert forall c :: (c in "rR" <==> c in ['r', 'R']) && (c in "wW" <==> c in ['w', 'W']);
    cmd := BLANK;
    if topic == "" {
      return false, cmd;
    }
    var kind := if 'A' <= topic[0] <= 'Z' then (topic[0] as int + 32) as char else topic[0];
    if kind != 'r' && kind != 'w' {
      return false, cmd;
    }
    var timeout := default;
    if timeoutMs != 0 {
      timeout := timeoutMs;
    }
    accepted := true;
    cmd := BLANK.(command := zip(text), kind := kind, topic := topic, timeoutMs := timeout);
  }

  // ---------- decoding a reply ----------

  /** The parts the code reads four raw bytes from are long enough. */
  predicate Readable(parts: seq<string>) {
    parts != [] && |parts[0]| >= 4 && (|parts| > 1 ==> |parts[1]| >= 4)
  }

  function FirstBad(parts: seq<string>, from: nat, unzip: Codec): (i: nat)
    requires from <= |parts|
    ensures from <= i <= |parts|
    ensures forall k :: from <= k < i ==> unzip(parts[k]).ok
    ensures i < |parts| ==> !unzip(parts[i]).ok
    decreases |parts| - from
  {
    if from == |parts| || !unzip(parts[from]).ok then from else FirstBad(parts, from + 1, unzip)
  }

  function PartTexts(parts: seq<string>, unzip: Codec): (ts: seq<string>)
    ensures |ts| == |parts|
  {
    seq(|parts|, i requires 0 <= i < |parts| => unzip(parts[i]).text)
  }

  /** The command object built from the parts of one reply; `complete` is the result of the receive. */
  function DecodeReply(parts: seq<string>, complete: bool, unzip: Codec): Command
    requires Readable(parts)
  {
    var note := if complete && |parts| >= 2 then "" else INCOMPLETE;
    if |parts| < 2 then BLANK.(err := note) else
      var status, bad := ReadU32(parts[1]), FirstBad(parts, 2, unzip);
      var last := if bad < |parts| then bad else |parts| - 1;
      var err := if |parts| == 2 then note
                 else if status == 0 || bad < |parts| then unzip(parts[last]).text
                 else "";
      BLANK.(success := if bad < |parts| then 0 else status,
             response := if status == 0 then [] else PartTexts(parts[2..bad], unzip),
             err := err)
  }

  /** The decoding loop. */
  method Decode(parts: seq<string>, complete: bool, unzip: Codec) returns (cmd: Command)
    requires Readable(parts)
    ensures cmd == DecodeReply(parts, complete, unzip)
  {
    cmd := BLANK;
    if !complete || |parts| < 2 {
      cmd := cmd.(success := 0, err := INCOMPLETE);
    }
    if |parts| > 1 {
      cmd := cmd.(success := ReadU32(parts[1]));
    }
    ghost var note, status := cmd.err, cmd.success;
    var i := 2;
    while i < |parts|
      invariant 2 <= i && (|parts| >= 2 ==> i <= |parts|)
      invariant |parts| >= 2 ==> FirstBad(parts, 2, unzip) == FirstBad(parts, i, unzip)
      invariant |parts| < 2 ==> cmd == BLANK.(err := note)
      invariant |parts| >= 2 ==>
          cmd == BLANK.(success := status,
                        response := if status == 0 then [] else PartTexts(parts[2..i], unzip),
                        err := if i == 2 then note else if status == 0 then unzip(parts[i - 1]).text else "")
    {
      var z := unzip(parts[i]);
      cmd := cmd.(err := z.text);
      if !z.ok {
        cmd := cmd.(success := 0);
        break;
      } else if cmd.success != 0 {
        cmd := cmd.(response := cmd.response + [cmd.err], err := "");
      }
      assert parts[2..i + 1] == parts[2..i] + [parts[i]];
      i := i + 1;
    }
  }

  /** The texts are what the parts decompress to, in order. */
  predicate TextsOf(parts: seq<string>, texts: seq<string>, unzip: Codec) {
    |texts| == |parts| && forall k :: 0 <= k < |parts| ==> texts[k] == unzip(parts[k]).text
  }

  /**
   What a caller sees as success. Completeness of the receive plays no part:
   a truncated reply whose parts so far decode is handed over as a success.
   */
  lemma SuccessMeans(parts: seq<string>, complete: bool, unzip: Codec)
    requires Readable(parts)
    ensures var cmd := DecodeReply(parts, complete, unzip);
            && (cmd.success != 0 <==>
                |parts| >= 2 && ReadU32(parts[1]) != 0 && forall k :: 2 <= k < |parts| ==> unzip(parts[k]).ok)
            && (cmd.success != 0 ==> cmd.success == ReadU32(parts[1]) && TextsOf(parts[2..], cmd.response, unzip))
  {
    if |parts| >= 2 {
      var bad := FirstBad(parts, 2, unzip);
      if bad == |parts| {
        assert parts[2..bad] == parts[2..];
      }
    }
  }

  /** Every part is decompressed. */
  predicate AllDecode(parts: seq<string>, unzip: Codec) {
    forall k :: 2 <= k < |parts| ==> unzip(parts[k]).ok
  }

  /**
   The error text: of a reply without further parts, whether it was cut off; of a refused command the last part, which
   is the only one such a reply should have; of one that cannot be decompressed, what the codec says of the first bad
   part. A success has none.
   */
  lemma ErrorMeans(parts: seq<string>, complete: bool, unzip: Codec)
    requires Readable(parts)
    ensures var cmd := DecodeReply(parts, complete, unzip);
            && (|parts| == 1 || (|parts| == 2 && !complete) ==> cmd.err == "Received incomplete zmq response")
            && (|parts| == 2 && complete ==> cmd.err == "")
            && (|parts| > 2 && AllDecode(parts, unzip) ==>
                cmd.err == if ReadU32(parts[1]) == 0 then unzip(parts[|parts| - 1]).text else "")
            && (cmd.success == 0 && AllDecode(parts, unzip) ==> cmd.response == [])
            && (forall k :: 2 <= k < |parts| && !unzip(parts[k]).ok && AllDecode(parts[..k], unzip) ==>
                  cmd.success == 0 && cmd.err == unzip(parts[k]).text)
  {
    if |parts| >= 2 {
      var bad := FirstBad(parts, 2, unzip);
      if AllDecode(parts, unzip) {
        assert bad == |parts|;
      }
      forall k | 2 <= k < |parts| && !unzip(parts[k]).ok && AllDecode(parts[..k], unzip) ensures k == bad {
        assert forall j :: 0 <= j < k ==> parts[..k][j] == parts[j];
      }
    }
  }

  /** "An incomplete reply is reported as failed" is false: the first three parts of a longer reply. */
  lemma IncompleteCanSucceed(id: Uint32, text: string, unzip: Codec)
    requires unzip(text).ok
    ensures var frames := [Frame(WriteU32(id), true), Frame(WriteU32(1), true), Frame(text, true)];
            var t := TakeMessage(frames);
            && !t.complete && Readable(t.parts)
            && DecodeReply(t.parts, t.complete, unzip).success == 1
            && DecodeReply(t.parts, t.complete, unzip).response == [unzip(text).text]
  {
    var frames := [Frame(WriteU32(id), true), Frame(WriteU32(1), true), Frame(text, true)];
    assert TakeMessage(frames[3..]) == Taken([], [], false);
    assert frames[2..][1..] == frames[3..] && frames[1..][1..] == frames[2..];
    assert TakeMessage(frames[2..]).parts == [text];
    assert TakeMessage(frames[1..]).parts == [WriteU32(1), text];
    var parts := TakeMessage(frames).parts;
    assert parts == [WriteU32(id)] + [WriteU32(1), text];
    assert FirstBad(parts, 3, unzip) == 3;
    SuccessMeans(parts, false, unzip);
    assert PartTexts(parts[2..], unzip) == [unzip(text).text];
  }

  // ---------- atomic steps on the shared state ----------

  function NextId(sh: Shared): Uint32 {
    (sh.msgId + 1) % TWO_32
  }

  /** `emplace`: a key already present keeps its ticket. */
  function Register(sh: Shared, id: Uint32, call: nat): Shared {
    if id in sh.recipients then sh else sh.(recipients := sh.recipients[id := call])
  }

  function Submit(sh: Shared, cmd: Command, call: nat): Shared {
    sh.(senders := sh.senders + [Queued(cmd, call)])
  }

  function Deregister(sh: Shared, id: Uint32): Shared {
    sh.(recipients := sh.recipients - {id})
  }

  /** Takes the next message and fulfils the ticket of the id it bears, if there is one. */
  function Answer(sh: Shared, unzip: Codec): Shared
    requires Readable(TakeMessage(sh.inbox).parts)
  {
    var t := TakeMessage(sh.inbox);
    var id := ReadU32(t.parts[0]);
    if id in sh.recipients
    then sh.(inbox := t.rest, replies := sh.replies[sh.recipients[id] := DecodeReply(t.parts, t.complete, unzip)])
    else sh.(inbox := t.rest)
  }

  function PopCommand(sh: Shared): Shared
    requires sh.senders != []
  {
    sh.(senders := sh.senders[1..])
  }

  function SetReceipt(sh: Shared, call: nat, ret: int): Shared {
    sh.(receipts := sh.receipts[call := ret])
  }

  // ---------- the class ----------

  datatype OutPoll = PollError | NothingReady | Writable | NotWritable
  datatype InPoll = InError | NoMessage | HasMessage

  /** Writes carry the client's identity; for reads the dealer socket prepends it. */
  function PartsToSend(cmd: Command, clientId: string): (parts: seq<string>)
    ensures parts != []
  {
    if cmd.kind == 'w' then [cmd.topic, clientId, WriteU32(cmd.msgId), cmd.command]
    else [cmd.topic, WriteU32(cmd.msgId), cmd.command]
  }

  function ItemsToSend(cmd: Command, clientId: string): (items: seq<Item>)
    ensures items != [] && Sendable(items) == items && Flatten(items) == PartsToSend(cmd, clientId)
  {
    AllOnes(PartsToSend(cmd, clientId));
    Ones(PartsToSend(cmd, clientId))
  }

  /** How PollAndSend ends: with a status, or with the error the transport raised on a frame it refused. */
  datatype Attempt = Status(code: int) | Raised

  method PollAndSend(sock: Socket, poll: OutPoll, raises: bool, items: seq<Item>) returns (r: Attempt)
    requires items != [] && Sendable(items) == items
    modifies sock
    ensures r == Status(0) <==> poll == Writable && |Flatten(items)| <= old(sock.credit)
    ensures r == Status(-1) <==> poll == Writable && |Flatten(items)| > old(sock.credit) && !raises
    ensures r == Raised <==> poll == Writable && |Flatten(items)| > old(sock.credit) && raises
    ensures r == Status(-2) <==> poll == NotWritable
    ensures r == Status(-3) <==> poll == PollError
    ensures r == Status(-4) <==> poll == NothingReady
    ensures if poll == Writable
            then Delivered(old(sock.frames), old(sock.credit), sock.frames, sock.credit, Flatten(items), false)
            else sock.frames == old(sock.frames)
  {
    match poll {
      case PollError => r := Status(-3);
      case NothingReady => r := Status(-4);
      case NotWritable => r := Status(-2);
      case Writable =>
        var sent := Send(sock, false, items);
        r := if sent == Sent then Status(0) else if raises then Raised else Status(-1);
    }
  }

  /** All the frames were appended exactly when the socket was writable and took them. */
  lemma WholeIff(f0: seq<Frame>, c0: nat, f1: seq<Frame>, c1: nat, parts: seq<string>, poll: OutPoll)
    requires parts != [] && if poll == Writable then Delivered(f0, c0, f1, c1, parts, false) else f1 == f0
    ensures poll == Writable && |parts| <= c0 <==> f1 == f0 + Flagged(parts, false)
  {
    assert Flagged(parts, false)[..|parts|] == Flagged(parts, false);
  }

  class ServicesBackend {
    var msgId: Uint32
    var waitingSenders: seq<Queued>
    var waitingRecipients: map<Uint32, nat>
    var receipts: map<nat, int>
    var replies: map<nat, Command>
    const dealerIn: Socket
    const dealerOut: Socket
    const pub: Socket
    const clientId: string
    const unzip: Codec

    /** The id counter starts from the clock, so at any value. */
    constructor (clock: Uint32, dealerIn: Socket, dealerOut: Socket, pub: Socket, clientId: string, unzip: Codec)
      requires dealerIn != dealerOut && dealerIn != pub && dealerOut != pub
      ensures Apart() && this.unzip == unzip && this.clientId == clientId
      ensures this.dealerIn == dealerIn && this.dealerOut == dealerOut && this.pub == pub
      ensures Abs() == Shared(clock, [], map[], map[], map[], dealerIn.frames)
    {
      msgId := clock;
      waitingSenders, waitingRecipients, receipts, replies := [], map[], map[], map[];
      this.dealerIn, this.dealerOut, this.pub := dealerIn, dealerOut, pub;
      this.clientId, this.unzip := clientId, unzip;
    }

    ghost predicate Apart() {
      dealerIn != dealerOut && dealerIn != pub && dealerOut != pub
    }

    ghost function Abs(): Shared
      reads this, dealerIn
    {
      Shared(msgId, waitingSenders, waitingRecipients, receipts, replies, dealerIn.frames)
    }

    method TakeId() returns (id: Uint32)
      modifies this`msgId
      ensures id == NextId(old(Abs())) && Abs() == old(Abs()).(msgId := id)
    {
      msgId := (msgId + 1) % TWO_32;
      id := msgId;
    }

    method RegisterTicket(id: Uint32, call: nat)
      modifies this`waitingRecipients
      ensures Abs() == Register(old(Abs()), id, call)
      ensures waitingRecipients.Keys == old(waitingRecipients).Keys + {id}
      ensures forall k :: k in old(waitingRecipients) ==> waitingRecipients[k] == old(waitingRecipients)[k]
      ensures id !in old(waitingRecipients) ==> waitingRecipients[id] == call
    {
      if id !in waitingRecipients {
        waitingRecipients := waitingRecipients[id := call];
      }
    }

    method SubmitCommand(cmd: Command, call: nat)
      modifies this`waitingSenders
      ensures Abs() == Submit(old(Abs()), cmd, call)
    {
      waitingSenders := waitingSenders + [Queued(cmd, call)];
    }

    method EraseTicket(id: Uint32)
      modifies this`waitingRecipients
      ensures Abs() == Deregister(old(Abs()), id)
    {
      waitingRecipients := waitingRecipients - {id};
    }

    /** First half of the loop; false means no client got anything although a message or an error came in. */
    method GetNextResponse(poll: InPoll) returns (r: bool)
      requires Apart()
      requires poll == HasMessage ==> dealerIn.frames != [] && Readable(TakeMessage(dealerIn.frames).parts)
      modifies this, dealerIn`frames
      ensures match poll
              case InError => !r && Abs() == old(Abs())
              case NoMessage => r && Abs() == old(Abs())
              case HasMessage =>
                var id := ReadU32(TakeMessage(old(dealerIn.frames)).parts[0]);
                && r == (id in old(waitingRecipients))
                && Abs() == Deregister(Answer(old(Abs()), unzip), id)
    {
      match poll {
        case InError => return false;
        case NoMessage => return true;
        case HasMessage =>
      }
      var response, ok := Receive(dealerIn);
      var cmd := Decode(response, ok, unzip);
      var id := ReadU32(response[0]);
      if id in waitingRecipients {
        replies := replies[waitingRecipients[id] := cmd];
        EraseTicket(id);
        r := true;
      } else {
        assert waitingRecipients - {id} == waitingRecipients;
        r := false;
      }
    }

    /**
     Second half of the loop: sends the oldest command and fulfils its send receipt. The receipt of an error raised
     while sending is false, that is 0, as if the command had been sent.
     */
    method SendNextCommand(poll: OutPoll, raises: bool)
      requires Apart()
      modifies this, dealerOut, pub
      ensures old(waitingSenders) == [] ==>
                Abs() == old(Abs()) && dealerOut.frames == old(dealerOut.frames) && pub.frames == old(pub.frames)
      ensures old(waitingSenders) != [] ==>
                var next := old(waitingSenders)[0];
                var sock, other := if next.cmd.kind == 'w' then pub else dealerOut,
                                   if next.cmd.kind == 'w' then dealerOut else pub;
                && next.call in receipts
                && Abs() == SetReceipt(PopCommand(old(Abs())), next.call, receipts[next.call])
                && other.frames == old(other.frames)
                && if poll == Writable
                   then Delivered(old(sock.frames), old(sock.credit), sock.frames, sock.credit,
                                  PartsToSend(next.cmd, clientId), false)
                   else sock.frames == old(sock.frames)
      ensures old(waitingSenders) != [] ==>
                var next := old(waitingSenders)[0];
                var sock := if next.cmd.kind == 'w' then pub else dealerOut;
                var whole := sock.frames == old(sock.frames) + Flagged(PartsToSend(next.cmd, clientId), false);
                && next.call in receipts
                && (receipts[next.call] == 0 <==> whole || (poll == Writable && raises))
                && (receipts[next.call] == -1 <==> poll == Writable && !whole && !raises)
                && (receipts[next.call] == -2 <==> poll == NotWritable)
                && (receipts[next.call] == -3 <==> poll == PollError)
                && (receipts[next.call] == -4 <==> poll == NothingReady)
    {
      if waitingSenders == [] {
        return;
      }
      var next := waitingSenders[0];
      waitingSenders := waitingSenders[1..];
      var sock := if next.cmd.kind == 'w' then pub else dealerOut;
      var r := PollAndSend(sock, poll, raises, ItemsToSend(next.cmd, clientId));
      receipts := receipts[next.call := if r.Raised? then 0 else r.code];
      WholeIff(old(sock.frames), old(sock.credit), sock.frames, sock.credit, PartsToSend(next.cmd, clientId), poll);
    }
  }

  /** Once all its frames are on the wire, the message a receiver takes off carries the command under its own id. */
  lemma CommandOnTheWire(cmd: Command, clientId: string, f0: seq<Frame>, f1: seq<Frame>)
    requires f1 == f0 + Flagged(PartsToSend(cmd, clientId), false)
    ensures var t := TakeMessage(f1[|f0|..]);
            && t.complete && t.rest == []
            && |t.parts| == (if cmd.kind == 'w' then 4 else 3) && (cmd.kind == 'w' ==> t.parts[1] == clientId)
            && t.parts[0] == cmd.topic && t.parts[|t.parts| - 1] == cmd.command
            && |t.parts[|t.parts| - 2]| >= 4 && ReadU32(t.parts[|t.parts| - 2]) == cmd.msgId
  {
    var parts := PartsToSend(cmd, clientId);
    TakeFlagged(parts, []);
    assert f1[|f0|..] == Flagged(parts, false) + [];
  }
}
