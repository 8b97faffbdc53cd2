/**
 One pass of the socket thread with unshared buffers: message objects
 move between the pool, the received and bad buffers, the shared send buffer
 and the thread's own send list. An object is named by its number; `created`
 counts the objects allocated so far. What the polls report and how many frames
 the transport takes are inputs.
 */
module SocketManager {
  import opened Framing

  datatype Obj = Obj(id: nat, parts: seq<string>)

  /** `expected` 0 accepts any number of parts; buffers may be absent. */
  datatype Settings = Settings(expected: nat, hasReceive: bool, hasBad: bool, hasSend: bool)

  /** Whether polling threw, how many polls in a row report a message, whether writing is possible, frames taken per message. */
  datatype Input = Input(pollThrows: bool, readable: nat, writable: bool, grants: nat -> nat)

  datatype State = State(
    pool: seq<Obj>, received: seq<Obj>, bad: seq<Obj>, toSend: seq<Obj>, local: seq<Obj>,
    held: seq<Obj>,                       // with the clients
    created: nat,
    inbox: seq<Frame>, wire: seq<Frame>,
    outcomes: seq<(nat, bool)>,           // the sent flag written for each message attempted
    numReceived: nat, numRecvErrors: nat, numSent: nat, numSendErrors: nat)

  const START: State := State([], [], [], [], [], [], 0, [], [], [], 0, 0, 0, 0)

  // ---------- receiving ----------

  /** An object from the pool if it has one, else a new one. */
  function GetNew(s: State): (Obj, State) {
    if s.pool != [] then (s.pool[|s.pool| - 1], s.(pool := s.pool[..|s.pool| - 1]))
    else (Obj(s.created, []), s.(created := s.created + 1))
  }

  /** The parts received are appended to whatever the object still held; a failed receive leaves an empty part. */
  function Filled(o: Obj, t: Taken): Obj {
    o.(parts := o.parts + t.parts + if t.complete then [] else [""])
  }

  predicate Accepts(c: Settings, o: Obj, complete: bool) {
    complete && (c.expected == 0 || |o.parts| == c.expected)
  }

  /** Where an object goes once filled. */
  function RoutedTo(s: State, c: Settings, o: Obj, complete: bool): State {
    if Accepts(c, o, complete) then s.(received := s.received + [o], numReceived := s.numReceived + 1)
    else if c.hasBad then s.(bad := s.bad + [o], numRecvErrors := s.numRecvErrors + 1)
    else s.(pool := s.pool + [o.(parts := [])], numRecvErrors := s.numRecvErrors + 1)
  }

  function ReceiveOne(s: State, c: Settings): State {
    var t := TakeMessage(s.inbox);
    var (o, s1) := GetNew(s);
    RoutedTo(s1.(inbox := t.rest), c, Filled(o, t), t.complete)
  }

  function ReceiveAll(s: State, c: Settings, n: nat): State
    decreases n
  {
    if n == 0 || s.inbox == [] then s else ReceiveAll(ReceiveOne(s, c), c, n - 1)
  }

  // ---------- sending ----------

  /** One message: some of its frames may go out even when it fails. */
  function SendOne(s: State, o: Obj, grant: nat): State {
    var ok := |o.parts| <= grant;
    var frames := Flagged(o.parts, false);
    var s1 := s.(wire := s.wire + (if ok then frames else frames[..grant]), outcomes := s.outcomes + [(o.id, ok)]);
    if ok then s1.(numSent := s1.numSent + 1) else s1.(numSendErrors := s1.numSendErrors + 1)
  }

  /** A message without parts throws out of the loop: it counts as an error and those after it are not attempted. */
  function SendFrom(s: State, i: nat, grants: nat -> nat): State
    decreases |s.local| - i
  {
    if i >= |s.local| then s
    else if s.local[i].parts == [] then
      s.(numSendErrors := s.numSendErrors + 1, outcomes := s.outcomes + [(s.local[i].id, false)])
    else SendFrom(SendOne(s, s.local[i], grants(i)), i + 1, grants)
  }

  function Cleared(os: seq<Obj>): (cs: seq<Obj>)
    ensures |cs| == |os|
  {
    seq(|os|, i requires 0 <= i < |os| => os[i].(parts := []))
  }

  function SendAll(s: State, grants: nat -> nat): State {
    var s1 := SendFrom(s, 0, grants);
    s1.(pool := s1.pool + Cleared(s1.local), local := [])
  }

  // ---------- one pass ----------

  function Swapped(s: State, c: Settings): State {
    if c.hasSend then s.(toSend := s.local, local := s.toSend) else s
  }

  function Pass(s: State, c: Settings, i: Input): State {
    var s1 := Swapped(s, c);
    if i.pollThrows || (s1.local == [] && !c.hasReceive) then s1
    else
      var s2 := ReceiveAll(s1, c, if c.hasReceive then i.readable else 0);
      if i.writable && s2.local != [] then SendAll(s2, i.grants) else s2
  }

  class SocketManager {
    const settings: Settings
    const sock: Socket       // inbound frames
    const out: Socket        // outbound frames
    var pool: seq<Obj>
    var received: seq<Obj>
    var bad: seq<Obj>
    var toSend: seq<Obj>
    var local: seq<Obj>
    var created: nat
    var outcomes: seq<(nat, bool)>
    var numReceived: nat
    var numRecvErrors: nat
    var numSent: nat
    var numSendErrors: nat

    constructor (settings: Settings, sock: Socket, out: Socket)
      requires sock != out
      ensures this.sock == sock && this.out == out && this.settings == settings
      ensures Abs([]) == START.(inbox := sock.frames, wire := out.frames)
    {
      this.settings, this.sock, this.out := settings, sock, out;
      pool, received, bad, toSend, local, created, outcomes := [], [], [], [], [], 0, [];
      numReceived, numRecvErrors, numSent, numSendErrors := 0, 0, 0, 0;
    }

    ghost function Abs(held: seq<Obj>): State
      reads this, sock, out
    {
      State(pool, received, bad, toSend, local, held, created, sock.frames, out.frames, outcomes,
            numReceived, numRecvErrors, numSent, numSendErrors)
    }

    method ReceiveMessage(ghost held: seq<Obj>)
      requires sock.frames != [] && sock != out
      modifies this, sock`frames
      ensures Abs(held) == ReceiveOne(old(Abs(held)), settings)
    {
      var o := TakeFromPool(held);
      var parts, ok := Receive(sock);
      o := o.(parts := o.parts + parts + if ok then [] else [""]);
      Route(o, ok, held);
    }

    method TakeFromPool(ghost held: seq<Obj>) returns (o: Obj)
      modifies this`pool, this`created
      ensures (o, Abs(held)) == GetNew(old(Abs(held)))
    {
      if pool != [] {
        o, pool := pool[|pool| - 1], pool[..|pool| - 1];
      } else {
        o, created := Obj(created, []), created + 1;
      }
    }

    method Route(o: Obj, ok: bool, ghost held: seq<Obj>)
      modifies this`pool, this`bad, this`received, this`numReceived, this`numRecvErrors
      ensures Abs(held) == RoutedTo(old(Abs(held)), settings, o, ok)
    {
      if !ok || (|o.parts| != settings.expected && settings.expected > 0) {
        if !settings.hasBad {
          pool := pool + [o.(parts := [])];
        } else {
          bad := bad + [o];
        }
        numRecvErrors := numRecvErrors + 1;
      } else {
        received := received + [o];
        numReceived := numReceived + 1;
      }
    }

    method SendMessage(o: Obj, grant: nat, ghost held: seq<Obj>)
      requires o.parts != [] && sock != out
      modifies this`outcomes, this`numSent, this`numSendErrors, out
      ensures Abs(held) == SendOne(old(Abs(held)), o, grant)
    {
      out.credit := grant;
      var r := SendVector(out, false, o.parts);
      assert Flagged(o.parts, false)[..|o.parts|] == Flagged(o.parts, false);
      if r == Sent {
        numSent := numSent + 1;
      } else {
        numSendErrors := numSendErrors + 1;
      }
      outcomes := outcomes + [(o.id, r == Sent)];
    }

    method SendReplies(grants: nat -> nat, ghost held: seq<Obj>)
      requires sock != out
      modifies this, out
      ensures Abs(held) == SendAll(old(Abs(held)), grants)
    {
      var i := 0;
      while i < |local|
        invariant 0 <= i <= |local| && local == old(local)
        invariant SendFrom(old(Abs(held)), 0, grants) == SendFrom(Abs(held), i, grants)
        decreases |local| - i
      {
        if local[i].parts == [] {
          numSendErrors := numSendErrors + 1;
          outcomes := outcomes + [(local[i].id, false)];
          break;
        }
        SendMessage(local[i], grants(i), held);
        i := i + 1;
      }
      assert SendFrom(old(Abs(held)), 0, grants) == Abs(held);
      ReturnToPool();
    }

    method ReturnToPool()
      modifies this`pool, this`local
      ensures pool == old(pool) + Cleared(old(local)) && local == []
    {
      for j := 0 to |local|
        invariant local == old(local) && pool == old(pool) + Cleared(local)[..j]
      {
        pool := pool + [local[j].(parts := [])];
        assert Cleared(local)[..j + 1] == Cleared(local)[..j] + [local[j].(parts := [])];
      }
      assert Cleared(local)[..|local|] == Cleared(local);
      local := [];
    }

    method Thread(input: Input, ghost held: seq<Obj>)
      requires sock != out
      modifies this, sock, out
      ensures Abs(held) == Pass(old(Abs(held)), settings, input)
    {
      if settings.hasSend {
        toSend, local := local, toSend;
      }
      if input.pollThrows || (local == [] && !settings.hasReceive) {
        return;
      }
      var left: nat := if settings.hasReceive then input.readable else 0;
      ghost var s1, n := Abs(held), left;
      while left > 0 && sock.frames != []
        invariant ReceiveAll(s1, settings, n) == ReceiveAll(Abs(held), settings, left)
        decreases left
      {
        ReceiveMessage(held);
        left := left - 1;
      }
      if input.writable && |local| > 0 {
        SendReplies(input.grants, held);
      }
    }
  }
}
