/**
 The service listing: the listen thread answers "All" with a count and one
 frame per known service; UpdateConnections and GetServices read it back.
 */
module Listing {
  import opened Bytes
  import opened Framing
  import opened JsonText

  type Record = map<string, string>

  /**
   Store's text form of a record. How it is written and parsed again belongs to Store, which is not part of this model;
   it is assumed to be undone by parsing.
   */
  datatype Codec = Codec(show: Record -> string, read: string -> Record)

  ghost predicate Faithful(c: Codec) {
    forall r: Record :: c.read(c.show(r)) == r
  }

  function Shown(services: seq<Record>, c: Codec): (ts: seq<string>)
    ensures |ts| == |services|
  {
    seq(|services|, i requires 0 <= i < |services| => c.show(services[i]))
  }

  /** The count is sent as a signed int. */
  const INT_LIMIT: nat := 0x8000_0000

  /** The parts of one reply. */
  function Reply(services: seq<Record>, c: Codec): (parts: seq<string>)
    requires |services| < INT_LIMIT
    ensures parts != []
  {
    [WriteU32(|services|)] + Shown(services, c)
  }

  /**
   The listen thread's answer, with the services in the order of its map. Whether a frame was taken is not looked at:
   a socket that stops taking frames is left with the head of the reply.
   */
  method AnswerAll(sock: Socket, services: seq<Record>, c: Codec)
    requires |services| < INT_LIMIT
    modifies sock
    ensures Delivered(old(sock.frames), old(sock.credit), sock.frames, sock.credit, Reply(services, c), false)
  {
    ghost var all, c0 := Flagged(Reply(services, c), false), sock.credit;
    var ok := sock.Put(WriteU32(|services|), |services| != 0);
    assert c0 > 0 ==> all[..1] == [Frame(WriteU32(|services|), |services| != 0)];
    for i := 0 to |services|
      invariant sock.credit == if i + 1 <= c0 then c0 - (i + 1) else 0
      invariant sock.frames == old(sock.frames) + all[..if i + 1 <= c0 then i + 1 else c0]
    {
      ok := sock.Put(c.show(services[i]), i + 1 != |services|);
      assert all[..i + 2] == all[..i + 1] + [Frame(c.show(services[i]), i + 1 != |services|)];
    }
  }

  /** The socket's queue starts with a listing: a count, and at least that many frames. */
  predicate HasListing(frames: seq<Frame>) {
    frames != [] && |frames[0].data| >= 4 && ReadU32(frames[0].data) < |frames| && ReadU32(frames[0].data) < INT_LIMIT
  }

  function Listed(frames: seq<Frame>, c: Codec): (rs: seq<Record>)
    requires HasListing(frames)
    ensures |rs| == ReadU32(frames[0].data)
  {
    seq(ReadU32(frames[0].data), i requires 0 <= i < ReadU32(frames[0].data) => c.read(frames[1 + i].data))
  }

  function AfterListing(frames: seq<Frame>): seq<Frame>
    requires HasListing(frames)
  {
    frames[1 + ReadU32(frames[0].data)..]
  }

  /** Reading a listing takes exactly the frames the server wrote for it, and leaves the next message aligned. */
  lemma ListingAligned(services: seq<Record>, rest: seq<Frame>, c: Codec)
    requires |services| < INT_LIMIT && Faithful(c)
    ensures var frames := Flagged(Reply(services, c), false) + rest;
            && HasListing(frames) && Listed(frames, c) == services && AfterListing(frames) == rest
            && TakeMessage(frames) == Taken(Reply(services, c), rest, true)
  {
    var frames := Flagged(Reply(services, c), false) + rest;
    assert frames[0].data == WriteU32(|services|);
    TakeFlagged(Reply(services, c), rest);
    forall i | 0 <= i < |services| ensures c.read(frames[1 + i].data) == services[i] {
      assert frames[1 + i].data == Shown(services, c)[i];
    }
  }

  method GetServices(sock: Socket, c: Codec) returns (services: seq<Record>)
    requires HasListing(sock.frames)
    modifies sock`frames
    ensures services == Listed(old(sock.frames), c) && sock.frames == AfterListing(old(sock.frames))
  {
    services := [];
    ghost var f0 := sock.frames;
    var ok, receive := sock.Take();
    var size := ReadU32(receive.data);
    for i := 0 to size
      invariant sock.frames == f0[1 + i..]
      invariant services == Listed(f0, c)[..i]
    {
      var got, servicem := sock.Take();
      assert servicem == f0[1 + i];
      services := services + [c.read(servicem.data)];
    }
  }

  // ---------- connecting ----------

  datatype Wanted = Wanted(serviceName: string, port: string, portName: string)

  /** Store's Get leaves the caller's value when the key is missing. */
  function GetOr(r: Record, key: string, default: string): string {
    if key in r then r[key] else default
  }

  function RemotePort(r: Record, w: Wanted): string {
    if w.port == "" && w.portName == "" then GetOr(r, "remote_port", w.port)
    else if w.portName != "" then GetOr(r, w.portName, w.port)
    else w.port
  }

  /** The endpoint a record offers that the caller wants, if any. */
  function Endpoint(r: Record, w: Wanted): Option<string> {
    var port := RemotePort(r, w);
    if port == "" || !(HasPrefix(GetOr(r, "msg_value", ""), w.serviceName) || w.serviceName == "") then None
    else Some(GetOr(r, "ip", "") + ":" + port)
  }

  datatype State = State(connections: map<string, Record>, connected: seq<string>)

  function Connect(s: State, r: Record, w: Wanted): State {
    var e := Endpoint(r, w);
    if e.None? || e.value in s.connections then s
    else State(s.connections[e.value := r], s.connected + ["tcp://" + e.value])
  }

  function ConnectAll(s: State, rs: seq<Record>, w: Wanted): State {
    if rs == [] then s else Connect(ConnectAll(s, rs[..|rs| - 1], w), rs[|rs| - 1], w)
  }

  class Connections {
    var connections: map<string, Record>
    var connected: seq<string>

    constructor ()
      ensures Abs() == State(map[], [])
    {
      connections, connected := map[], [];
    }

    ghost function Abs(): State
      reads this
    {
      State(connections, connected)
    }

    method ConnectTo(service: Record, w: Wanted)
      modifies this
      ensures Abs() == Connect(old(Abs()), service, w)
    {
      var port := w.port;
      if w.port == "" && w.portName == "" {
        port := if "remote_port" in service then service["remote_port"] else port;
      } else if w.portName != "" {
        port := if w.portName in service then service[w.portName] else port;
      }
      if port == "" {
        return;
      }
      var kind, ip := GetOr(service, "msg_value", ""), GetOr(service, "ip", "");
      var endpoint := ip + ":" + port;
      if (HasPrefix(kind, w.serviceName) || w.serviceName == "") && endpoint !in connections {
        connections := connections[endpoint := service];
        connected := connected + ["tcp://" + endpoint];
      }
    }

    method UpdateConnections(sock: Socket, w: Wanted, c: Codec) returns (n: nat)
      requires HasListing(sock.frames)
      modifies this, sock`frames
      ensures Abs() == ConnectAll(old(Abs()), Listed(old(sock.frames), c), w) && n == |connections|
      ensures sock.frames == AfterListing(old(sock.frames))
      ensures OnceEach(old(Abs())) ==> OnceEach(Abs()) && Connected(old(Abs()), Listed(old(sock.frames), c), w, Abs())
    {
      ghost var f0 := sock.frames;
      ghost var rs := Listed(f0, c);
      var ok, receive := sock.Take();
      var size := ReadU32(receive.data);
      for i := 0 to size
        invariant sock.frames == f0[1 + i..]
        invariant Abs() == ConnectAll(old(Abs()), rs[..i], w)
      {
        var got, servicem := sock.Take();
        assert servicem == f0[1 + i] && rs[..i + 1][..i] == rs[..i];
        ConnectTo(c.read(servicem.data), w);
      }
      assert rs[..|rs|] == rs;
      n := |connections|;
      if OnceEach(old(Abs())) {
        ConnectsExactly(old(Abs()), rs, w);
      }
    }
  }

  // ---------- over any number of calls ----------

  /** No endpoint connected twice, and the map's keys are exactly the endpoints connected. */
  ghost predicate OnceEach(s: State) {
    && (forall i, j :: 0 <= i < j < |s.connected| ==> s.connected[i] != s.connected[j])
    && (forall e: string :: "tcp://" + e in s.connected <==> e in s.connections)
    && (forall i :: 0 <= i < |s.connected| ==> HasPrefix(s.connected[i], "tcp://"))
  }

  lemma SameEndpoint(e: string, f: string)
    ensures "tcp://" + e == "tcp://" + f <==> e == f
  {
    assert ("tcp://" + e)[6..] == e && ("tcp://" + f)[6..] == f;
  }

  lemma ConnectOnce(s: State, r: Record, w: Wanted)
    requires OnceEach(s)
    ensures OnceEach(Connect(s, r, w))
  {
    var s' := Connect(s, r, w);
    if s' != s {
      var e := Endpoint(r, w).value;
      assert "tcp://" + e !in s.connected;
      forall f: string ensures "tcp://" + f in s'.connected <==> f in s'.connections {
        SameEndpoint(e, f);
      }
    }
  }

  lemma {:induction false} ConnectAllOnce(s: State, rs: seq<Record>, w: Wanted)
    requires OnceEach(s)
    ensures OnceEach(ConnectAll(s, rs, w))
  {
    if rs != [] {
      ConnectAllOnce(s, rs[..|rs| - 1], w);
      ConnectOnce(ConnectAll(s, rs[..|rs| - 1], w), rs[|rs| - 1], w);
    }
  }

  datatype Round = Round(services: seq<Record>, wanted: Wanted)

  function Rounds(rounds: seq<Round>): State {
    if rounds == [] then State(map[], []) else
      var last := rounds[|rounds| - 1];
      ConnectAll(Rounds(rounds[..|rounds| - 1]), last.services, last.wanted)
  }

  /** Over any calls with one map, with any listings and wishes, each endpoint is connected at most once. */
  lemma {:induction false} ConnectedOnce(rounds: seq<Round>)
    ensures OnceEach(Rounds(rounds))
  {
    if rounds != [] {
      var last := rounds[|rounds| - 1];
      ConnectedOnce(rounds[..|rounds| - 1]);
      ConnectAllOnce(Rounds(rounds[..|rounds| - 1]), last.services, last.wanted);
    }
  }

  /** A call connects exactly the wanted endpoints not connected before, and forgets none. */
  lemma {:induction false} KeysAfter(s: State, rs: seq<Record>, w: Wanted, e: string)
    ensures e in ConnectAll(s, rs, w).connections <==>
            e in s.connections || exists i :: 0 <= i < |rs| && Endpoint(rs[i], w) == Some(e)
    ensures e in s.connections ==> ConnectAll(s, rs, w).connections[e] == s.connections[e]
  {
    if rs != [] {
      var init := rs[..|rs| - 1];
      KeysAfter(s, init, w, e);
      if exists i :: 0 <= i < |rs| && Endpoint(rs[i], w) == Some(e) {
        var i :| 0 <= i < |rs| && Endpoint(rs[i], w) == Some(e);
        assert i < |init| ==> init[i] == rs[i];
      }
      if exists i :: 0 <= i < |init| && Endpoint(init[i], w) == Some(e) {
        var i :| 0 <= i < |init| && Endpoint(init[i], w) == Some(e);
        assert Endpoint(rs[i], w) == Some(e);
      }
    }
  }

  /** A call changes nothing exactly when every wanted endpoint listed is connected already. */
  lemma {:induction false} NothingNewIff(s: State, rs: seq<Record>, w: Wanted)
    ensures ConnectAll(s, rs, w) == s <==>
            forall i :: 0 <= i < |rs| && Endpoint(rs[i], w).Some? ==> Endpoint(rs[i], w).value in s.connections
  {
    forall i | 0 <= i < |rs| && Endpoint(rs[i], w).Some?
      ensures Endpoint(rs[i], w).value in ConnectAll(s, rs, w).connections
    {
      KeysAfter(s, rs, w, Endpoint(rs[i], w).value);
    }
    if forall i :: 0 <= i < |rs| && Endpoint(rs[i], w).Some? ==> Endpoint(rs[i], w).value in s.connections {
      AllConnected(s, rs, w);
    }
  }

  lemma {:induction false} AllConnected(s: State, rs: seq<Record>, w: Wanted)
    requires forall i :: 0 <= i < |rs| && Endpoint(rs[i], w).Some? ==> Endpoint(rs[i], w).value in s.connections
    ensures ConnectAll(s, rs, w) == s
  {
    if rs != [] {
      AllConnected(s, rs[..|rs| - 1], w);
      assert Endpoint(rs[|rs| - 1], w).Some? ==> Endpoint(rs[|rs| - 1], w).value in s.connections;
    }
  }

  /** So a repeated call with the same listing changes nothing. */
  lemma RepeatIsIdle(s: State, rs: seq<Record>, w: Wanted)
    ensures ConnectAll(ConnectAll(s, rs, w), rs, w) == ConnectAll(s, rs, w)
  {
    NothingNewIff(ConnectAll(s, rs, w), rs, w);
    forall i | 0 <= i < |rs| && Endpoint(rs[i], w).Some?
      ensures Endpoint(rs[i], w).value in ConnectAll(s, rs, w).connections
    {
      KeysAfter(s, rs, w, Endpoint(rs[i], w).value);
    }
  }

  // ---------- what is connected ----------

  /**
   The record is wanted, and offers this port: its kind begins with the name asked for, if any; the port is the
   record's own if none was asked for, else the field named by the port name, else the one given, also when the record
   has no such field.
   */
  predicate Offers(r: Record, w: Wanted, port: string) {
    && (w.serviceName == "" || ("msg_value" in r && w.serviceName <= r["msg_value"]))
    && port != ""
    && (w.portName == "" && w.port == "" ==> "remote_port" in r && port == r["remote_port"])
    && (w.portName == "" && w.port != "" ==> port == w.port)
    && (w.portName != "" && w.portName in r ==> port == r[w.portName])
    && (w.portName != "" && w.portName !in r ==> port == w.port)
  }

  function IpOf(r: Record): string {
    if "ip" in r then r["ip"] else ""
  }

  /** Some record of the listing offers the endpoint. */
  ghost predicate Offered(rs: seq<Record>, w: Wanted, e: string) {
    exists i, port :: 0 <= i < |rs| && Offers(rs[i], w, port) && e == IpOf(rs[i]) + ":" + port
  }

  /** The earliest record of the listing that offers the endpoint. */
  ghost predicate FirstOffer(rs: seq<Record>, w: Wanted, e: string, r: Record) {
    exists i, port ::
      && 0 <= i < |rs| && Offers(rs[i], w, port) && e == IpOf(rs[i]) + ":" + port && r == rs[i]
      && !Offered(rs[..i], w, e)
  }

  lemma EndpointOffers(r: Record, w: Wanted, port: string)
    ensures Offers(r, w, port) ==> Endpoint(r, w) == Some(IpOf(r) + ":" + port)
    ensures Endpoint(r, w).Some? ==>
              Offers(r, w, RemotePort(r, w)) && Endpoint(r, w).value == IpOf(r) + ":" + RemotePort(r, w)
  {
    var kind := GetOr(r, "msg_value", "");
    assert HasPrefix(kind, w.serviceName) <==> w.serviceName <= kind;
    assert "" <= kind;
  }

  lemma OfferedIff(rs: seq<Record>, w: Wanted, e: string)
    ensures Offered(rs, w, e) <==> exists i :: 0 <= i < |rs| && Endpoint(rs[i], w) == Some(e)
  {
    if i, port :| 0 <= i < |rs| && Offers(rs[i], w, port) && e == IpOf(rs[i]) + ":" + port {
      EndpointOffers(rs[i], w, port);
    }
    if i :| 0 <= i < |rs| && Endpoint(rs[i], w) == Some(e) {
      EndpointOffers(rs[i], w, RemotePort(rs[i], w));
    }
  }

  /**
   A call connects every endpoint that a wanted record of the listing offers, and no other; what was connected before
   stays so, and comes first.
   */
  lemma ConnectsOffered(s: State, rs: seq<Record>, w: Wanted, e: string)
    requires OnceEach(s)
    ensures var s' := ConnectAll(s, rs, w);
            && ("tcp://" + e in s'.connected <==> "tcp://" + e in s.connected || Offered(rs, w, e))
            && s.connected <= s'.connected
  {
    ConnectAllOnce(s, rs, w);
    KeysAfter(s, rs, w, e);
    OfferedIff(rs, w, e);
    ConnectedGrows(s, rs, w);
  }

  /** What is connected now is what was, and the endpoints offered by the listing. */
  ghost predicate Connected(s: State, rs: seq<Record>, w: Wanted, s': State) {
    forall e: string :: "tcp://" + e in s'.connected <==> "tcp://" + e in s.connected || Offered(rs, w, e)
  }

  lemma ConnectsExactly(s: State, rs: seq<Record>, w: Wanted)
    requires OnceEach(s)
    ensures OnceEach(ConnectAll(s, rs, w)) && Connected(s, rs, w, ConnectAll(s, rs, w))
  {
    ConnectAllOnce(s, rs, w);
    forall e: string
      ensures "tcp://" + e in ConnectAll(s, rs, w).connected <==> "tcp://" + e in s.connected || Offered(rs, w, e)
    {
      ConnectsOffered(s, rs, w, e);
    }
  }

  lemma {:induction false} ConnectedGrows(s: State, rs: seq<Record>, w: Wanted)
    ensures s.connected <= ConnectAll(s, rs, w).connected
  {
    if rs != [] {
      ConnectedGrows(s, rs[..|rs| - 1], w);
    }
  }

  lemma FirstOfferLonger(rs: seq<Record>, w: Wanted, e: string, r: Record)
    requires rs != [] && FirstOffer(rs[..|rs| - 1], w, e, r)
    ensures FirstOffer(rs, w, e, r)
  {
    var init := rs[..|rs| - 1];
    var i, port :| 0 <= i < |init| && Offers(init[i], w, port) && e == IpOf(init[i]) + ":" + port && r == init[i]
                   && !Offered(init[..i], w, e);
    assert init[i] == rs[i] && init[..i] == rs[..i];
  }

  lemma LastOffers(rs: seq<Record>, w: Wanted, e: string)
    requires Offered(rs, w, e) && !Offered(rs[..|rs| - 1], w, e)
    ensures FirstOffer(rs, w, e, rs[|rs| - 1]) && Endpoint(rs[|rs| - 1], w) == Some(e)
  {
    var n := |rs| - 1;
    var i, port :| 0 <= i < |rs| && Offers(rs[i], w, port) && e == IpOf(rs[i]) + ":" + port;
    assert forall k :: 0 <= k < n ==> rs[..n][k] == rs[k];
    assert i == n;
    EndpointOffers(rs[i], w, port);
  }

  /** The map keeps, for an endpoint that was new, the first record of the listing that offers it. */
  lemma {:induction false} FirstOfferKept(s: State, rs: seq<Record>, w: Wanted, e: string)
    requires e !in s.connections && Offered(rs, w, e)
    ensures var m := ConnectAll(s, rs, w).connections; e in m && FirstOffer(rs, w, e, m[e])
  {
    var init := rs[..|rs| - 1];
    KeysAfter(s, init, w, e);
    OfferedIff(init, w, e);
    if Offered(init, w, e) {
      FirstOfferKept(s, init, w, e);
      FirstOfferLonger(rs, w, e, ConnectAll(s, init, w).connections[e]);
    } else {
      LastOffers(rs, w, e);
    }
  }

  /** Over any calls with one map, exactly the endpoints offered in some listing to its call are connected. */
  lemma {:induction false} ConnectedIff(rounds: seq<Round>, e: string)
    ensures "tcp://" + e in Rounds(rounds).connected <==>
            exists k :: 0 <= k < |rounds| && Offered(rounds[k].services, rounds[k].wanted, e)
  {
    if rounds != [] {
      var init, last := rounds[..|rounds| - 1], rounds[|rounds| - 1];
      ConnectedIff(init, e);
      ConnectedOnce(init);
      ConnectsOffered(Rounds(init), last.services, last.wanted, e);
      assert forall k :: 0 <= k < |init| ==> init[k] == rounds[k];
    }
  }
}
