/**
 Multipart messages: the recursive Send over message parts, and Receive.
 A socket is a queue of frames, each carrying zmq's more flag.
 */
module Framing {

  datatype Frame = Frame(data: string, more: bool)

  /** One argument of Send: a single part, or a vector of parts. */
  datatype Item = One(part: string) | Vector(parts: seq<string>)

  /** Sent: every part went out; Failed: the socket refused a part; OutOfRange: `at` threw on an empty vector. */
  datatype SendResult = Sent | Failed | OutOfRange

  datatype Taken = Taken(parts: seq<string>, rest: seq<Frame>, complete: bool)

  // ---------- specification ----------

  function PartsOf(item: Item): seq<string> {
    match item
    case One(part) => [part]
    case Vector(parts) => parts
  }

  function Flatten(items: seq<Item>): seq<string> {
    if items == [] then [] else PartsOf(items[0]) + Flatten(items[1..])
  }

  /** The items before the first empty vector. */
  function Sendable(items: seq<Item>): seq<Item> {
    if items == [] || PartsOf(items[0]) == [] then [] else [items[0]] + Sendable(items[1..])
  }

  /** The frames of one message, or of the head of one when `more` follows. */
  function Flagged(parts: seq<string>, more: bool): (fs: seq<Frame>)
    ensures |fs| == |parts|
  {
    seq(|parts|, i requires 0 <= i < |parts| => Frame(parts[i], i < |parts| - 1 || more))
  }

  /** The frames up to and including the first without the more flag; incomplete when there is none. */
  function TakeMessage(frames: seq<Frame>): (t: Taken)
    ensures |t.parts| + |t.rest| == |frames|
  {
    if frames == [] then Taken([], [], false)
    else if !frames[0].more then Taken([frames[0].data], frames[1..], true)
    else
      var t := TakeMessage(frames[1..]);
      t.(parts := [frames[0].data] + t.parts)
  }

  function TakeAll(frames: seq<Frame>): seq<seq<string>>
    decreases |frames|
  {
    if frames == [] then [] else
      var t := TakeMessage(frames);
      if t.parts == [] then [] else [t.parts] + TakeAll(t.rest)
  }

  function Stream(messages: seq<seq<string>>): seq<Frame> {
    if messages == [] then [] else Flagged(messages[0], false) + Stream(messages[1..])
  }

  // ---------- sockets ----------

  /** `credit` is the number of sends the transport will still accept. */
  class Socket {
    var frames: seq<Frame>
    var credit: nat

    constructor (frames: seq<Frame>, credit: nat)
      ensures this.frames == frames && this.credit == credit
    {
      this.frames, this.credit := frames, credit;
    }

    method Put(data: string, more: bool) returns (ok: bool)
      modifies this
      ensures ok == (old(credit) > 0)
      ensures frames == if ok then old(frames) + [Frame(data, more)] else old(frames)
      ensures credit == if ok then old(credit) - 1 else old(credit)
    {
      ok := credit > 0;
      if ok {
        frames := frames + [Frame(data, more)];
        credit := credit - 1;
      }
    }

    method Take() returns (ok: bool, frame: Frame)
      modifies this`frames
      ensures ok == (old(frames) != [])
      ensures ok ==> old(frames) == [frame] + frames
      ensures !ok ==> frames == []
    {
      ok := frames != [];
      frame := Frame("", false);
      if ok {
        frame := frames[0];
        frames := frames[1..];
      }
    }
  }

  /** `parts` were offered to a socket holding `f0` with credit `c0`, and it now holds `f1` with `c1`. */
  ghost predicate Delivered(f0: seq<Frame>, c0: nat, f1: seq<Frame>, c1: nat, parts: seq<string>, more: bool) {
    var n := if |parts| <= c0 then |parts| else c0;
    f1 == f0 + Flagged(parts, more)[..n] && c1 == c0 - n
  }

  method SendVector(sock: Socket, more: bool, messages: seq<string>) returns (r: SendResult)
    modifies sock
    ensures r == if messages == [] then OutOfRange else if |messages| <= old(sock.credit) then Sent else Failed
    ensures Delivered(old(sock.frames), old(sock.credit), sock.frames, sock.credit, messages, more)
  {
    if messages == [] {
      return OutOfRange;
    }
    ghost var all := Flagged(messages, more);
    var i := 0;
    while i < |messages| - 1
      invariant 0 <= i <= |messages| - 1
      invariant i <= old(sock.credit) && sock.credit == old(sock.credit) - i
      invariant sock.frames == old(sock.frames) + all[..i]
    {
      var ok := sock.Put(messages[i], true);
      if !ok {
        return Failed;
      }
      assert all[..i + 1] == all[..i] + [Frame(messages[i], true)];
      i := i + 1;
    }
    var ok := sock.Put(messages[|messages| - 1], more);
    assert all == all[..i] + [Frame(messages[i], more)];
    r := if ok then Sent else Failed;
  }

  /** Any other argument is one frame. */
  method SendItem(sock: Socket, more: bool, item: Item) returns (r: SendResult)
    modifies sock
    ensures r == if PartsOf(item) == [] then OutOfRange
                 else if |PartsOf(item)| <= old(sock.credit) then Sent else Failed
    ensures Delivered(old(sock.frames), old(sock.credit), sock.frames, sock.credit, PartsOf(item), more)
  {
    match item {
      case One(part) =>
        var ok := sock.Put(part, more);
        r := if ok then Sent else Failed;
      case Vector(parts) =>
        r := SendVector(sock, more, parts);
    }
  }

  method Send(sock: Socket, more: bool, items: seq<Item>) returns (r: SendResult)
    requires items != []
    modifies sock
    ensures var parts := Flatten(Sendable(items));
            var whole := Sendable(items) == items;
            && Delivered(old(sock.frames), old(sock.credit), sock.frames, sock.credit, parts, more || !whole)
            && r == if |parts| > old(sock.credit) then Failed else if whole then Sent else OutOfRange
    decreases |items|
  {
    var head, tail := PartsOf(items[0]), items[1..];
    assert items == [items[0]] + tail;
    if tail == [] {
      r := SendItem(sock, more, items[0]);
      assert Sendable(tail) == [] && Flatten([]) == [] && head + [] == head;
      return;
    }
    ghost var f0, c0 := sock.frames, sock.credit;
    r := SendItem(sock, true, items[0]);
    if r == OutOfRange {
      return;
    }
    assert Sendable(items) == [items[0]] + Sendable(tail);
    ghost var rest, m := Flatten(Sendable(tail)), more || Sendable(tail) != tail;
    assert Sendable(items)[1..] == Sendable(tail);
    if r == Failed {
      DeliverFail(f0, c0, sock.frames, sock.credit, head, rest, m);
      return;
    }
    ghost var f1, c1 := sock.frames, sock.credit;
    r := Send(sock, more, tail);
    SendableEmptyTail(tail);
    DeliverBoth(f0, c0, f1, c1, sock.frames, sock.credit, head, rest, m);
  }

  /** When nothing of the tail can be sent, some vector of it is empty. */
  lemma SendableEmptyTail(items: seq<Item>)
    requires items != []
    ensures Flatten(Sendable(items)) == [] ==> Sendable(items) != items
  {
  }

  lemma DeliverFail(f0: seq<Frame>, c0: nat, f1: seq<Frame>, c1: nat,
                    head: seq<string>, rest: seq<string>, more: bool)
    requires Delivered(f0, c0, f1, c1, head, true) && c0 < |head|
    ensures Delivered(f0, c0, f1, c1, head + rest, more)
  {
    assert Flagged(head + rest, more)[..c0] == Flagged(head, true)[..c0];
  }

  lemma DeliverBoth(f0: seq<Frame>, c0: nat, f1: seq<Frame>, c1: nat, f2: seq<Frame>, c2: nat,
                    head: seq<string>, rest: seq<string>, more: bool)
    requires |head| <= c0 && Delivered(f0, c0, f1, c1, head, true)
    requires Delivered(f1, c1, f2, c2, rest, more) && (rest == [] ==> more)
    ensures Delivered(f0, c0, f2, c2, head + rest, more)
  {
    var n := if |head| + |rest| <= c0 then |head| + |rest| else c0;
    assert Flagged(head, true)[..|head|] == Flagged(head, true);
    assert Flagged(head + rest, more)[..n] == Flagged(head, true) + Flagged(rest, more)[..n - |head|];
  }

  /** The receive loop: false when the stream ended while more parts were promised. */
  method Receive(sock: Socket) returns (outputs: seq<string>, ok: bool)
    requires sock.frames != []
    modifies sock`frames
    ensures Taken(outputs, sock.frames, ok) == TakeMessage(old(sock.frames))
  {
    outputs := [];
    var lastMore := true;
    var got, tmp := sock.Take();
    while got
      invariant got ==> TakeMessage(old(sock.frames)) ==
                        (var t := TakeMessage([tmp] + sock.frames); t.(parts := outputs + t.parts))
      invariant !got ==> sock.frames == [] && lastMore && TakeMessage(old(sock.frames)) == Taken(outputs, [], false)
      decreases got, |sock.frames|
    {
      assert ([tmp] + sock.frames)[1..] == sock.frames;
      outputs := outputs + [tmp.data];
      lastMore := tmp.more;
      if !lastMore {
        break;
      }
      got, tmp := sock.Take();
    }
    ok := !lastMore;
  }

  // ---------- properties ----------

  function Ones(parts: seq<string>): (items: seq<Item>)
    ensures |items| == |parts|
  {
    seq(|parts|, i requires 0 <= i < |parts| => One(parts[i]))
  }

  lemma {:induction false} AllOnes(parts: seq<string>)
    ensures Sendable(Ones(parts)) == Ones(parts) && Flatten(Ones(parts)) == parts
  {
    if parts != [] {
      AllOnes(parts[1..]);
      assert Ones(parts)[1..] == Ones(parts[1..]);
      assert [One(parts[0])] + Ones(parts)[1..] == Ones(parts) && [parts[0]] + parts[1..] == parts;
    }
  }

  lemma {:induction false} FlattenConcat(a: seq<Item>, b: seq<Item>)
    ensures Flatten(a + b) == Flatten(a) + Flatten(b)
  {
    if a == [] {
      assert a + b == b;
    } else {
      assert (a + b)[1..] == a[1..] + b;
      FlattenConcat(a[1..], b);
    }
  }

  /** A vector, wherever it stands, counts as its parts sent one by one. */
  lemma VectorIsItsParts(a: seq<Item>, parts: seq<string>, b: seq<Item>)
    ensures Flatten(a + [Vector(parts)] + b) == Flatten(a + Ones(parts) + b)
  {
    FlattenThree(a, [Vector(parts)], b);
    FlattenThree(a, Ones(parts), b);
    AllOnes(parts);
    assert Flatten([Vector(parts)]) == parts + Flatten([]);
  }

  lemma FlattenThree(a: seq<Item>, m: seq<Item>, b: seq<Item>)
    ensures Flatten(a + m + b) == Flatten(a) + Flatten(m) + Flatten(b)
  {
    FlattenConcat(a + m, b);
    FlattenConcat(a, m);
  }

  /** What can be sent is everything before the first empty vector. */
  lemma {:induction false} SendableStops(items: seq<Item>)
    ensures var n := |Sendable(items)|;
            && n <= |items| && Sendable(items) == items[..n]
            && (forall i :: 0 <= i < n ==> items[i] != Vector([]))
            && (n < |items| ==> items[n] == Vector([]))
  {
    if items != [] && PartsOf(items[0]) != [] {
      SendableStops(items[1..]);
      var n := |Sendable(items)|;
      assert items[..n] == [items[0]] + items[1..][..n - 1];
    }
  }

  lemma {:induction false} TakeFlagged(parts: seq<string>, rest: seq<Frame>)
    requires parts != []
    ensures TakeMessage(Flagged(parts, false) + rest) == Taken(parts, rest, true)
  {
    var fs := Flagged(parts, false);
    if |parts| == 1 {
      assert (fs + rest)[1..] == rest;
    } else {
      TakeFlagged(parts[1..], rest);
      assert (fs + rest)[1..] == Flagged(parts[1..], false) + rest;
      assert [parts[0]] + parts[1..] == parts;
    }
  }

  /** What one complete Send put on the wire, Receive takes off again, and nothing else with it. */
  lemma {:induction false} SendThenReceive(items: seq<Item>, rest: seq<Frame>)
    requires items != [] && Sendable(items) == items
    ensures TakeMessage(Flagged(Flatten(items), false) + rest) == Taken(Flatten(items), rest, true)
  {
    assert PartsOf(items[0]) != [];
    TakeFlagged(Flatten(items), rest);
  }

  /** Conversely, a complete receive consumed exactly the frames of the parts it returned. */
  lemma {:induction false} ReceivedWasSent(frames: seq<Frame>)
    requires TakeMessage(frames).complete
    ensures var t := TakeMessage(frames);
            t.parts != [] && frames == Flagged(t.parts, false) + t.rest
  {
    if !frames[0].more {
      assert frames == [frames[0]] + frames[1..];
    } else {
      ReceivedWasSent(frames[1..]);
      var t := TakeMessage(frames[1..]);
      assert Flagged([frames[0].data] + t.parts, false) == [frames[0]] + Flagged(t.parts, false);
      assert frames == [frames[0]] + frames[1..];
    }
  }

  /** The frames a received message took; a truncated one still promises more. */
  function FramesOf(t: Taken): seq<Frame> {
    Flagged(t.parts, !t.complete)
  }

  /** Complete or not, a receive takes exactly those frames and leaves the rest. */
  lemma {:induction false} TakenFrames(frames: seq<Frame>)
    ensures frames == FramesOf(TakeMessage(frames)) + TakeMessage(frames).rest
  {
    if frames != [] {
      assert frames == [frames[0]] + frames[1..];
      if frames[0].more {
        var t := TakeMessage(frames[1..]);
        TakenFrames(frames[1..]);
        FlaggedCons(frames[0], t);
        assert [frames[0]] + (FramesOf(t) + t.rest) == [frames[0]] + FramesOf(t) + t.rest;
      }
    }
  }

  lemma FlaggedCons(first: Frame, t: Taken)
    requires first.more && (t.parts == [] ==> !t.complete)
    ensures Flagged([first.data] + t.parts, !t.complete) == [first] + FramesOf(t)
  {
  }

  /** Repeated receives on a stream of messages return those messages in order. */
  lemma {:induction false} StreamRoundTrip(messages: seq<seq<string>>)
    requires [] !in messages
    ensures TakeAll(Stream(messages)) == messages
  {
    if messages != [] {
      TakeFlagged(messages[0], Stream(messages[1..]));
      StreamRoundTrip(messages[1..]);
      assert [messages[0]] + messages[1..] == messages;
    }
  }
}
