/**
  The signalling relay of the video consultation: a WebSocket gateway that
  remembers who joined which room, tells the earliest member of a room that
  someone joined, tells a room that someone left, and forwards opaque
  signalling payloads from one connection to another.

  Everything the gateway sends is recorded in an outbox of
  `server.to(target).emit(event)` calls; delivery is the transport's concern.
 */
module Gateway {
  import opened Wrappers

  /** The id socket.io gives a connection. */
  type SocketId = string

  /** The name of a socket.io room (an appointment's access code). */
  type RoomName = string

  /** An opaque signalling payload (an SDP offer or answer, an ICE
      candidate); the relay never looks inside it. */
  type Signal = string

  /** The payload of a `join-room` message, kept per connection. */
  datatype JoinRoomPayload = JoinRoomPayload(userId: string, room: RoomName, nickname: string, socketId: SocketId)

  /** The payload of a `send-signal` or `re-send-signal` message. */
  datatype SendSignalPayload = SendSignalPayload(signal: Signal, socketId: SocketId)

  /** The events the gateway emits, by their socket.io event names:
      `other-user`, `user-leave`, `receiving-signal`, `re-receiving-signal`. */
  datatype Event =
    | OtherUser(user: JoinRoomPayload)
    | UserLeave
    | ReceivingSignal(signal: Signal, sender: SocketId)
    | ReReceivingSignal(signal: Signal, sender: SocketId)

  /** One `server.to(target).emit(event)` call. The target is a room name or
      a connection id; `None` is a call made with an undefined target. */
  datatype Emit = Emit(target: Option<string>, event: Event)

  /** No connection is listed twice. */
  predicate NoDup(s: seq<SocketId>) {
    forall i, j :: 0 <= i < j < |s| ==> s[i] != s[j]
  }

  // ---------------------------------------------------------------------------
  // Room membership: an insertion-ordered set of connections per room
  // ---------------------------------------------------------------------------

  /** The members of a room after `c` joins it: `c` is added at the end
      unless it is already there; earlier members keep their order. */
  function Join(members: seq<SocketId>, c: SocketId): (r: seq<SocketId>)
    ensures forall x :: x in r <==> x in members || x == c
    ensures members <= r && |r| <= |members| + 1
    ensures NoDup(members) ==> NoDup(r)
  {
    if c in members then members else members + [c]
  }

  /** Joining twice is joining once. */
  lemma JoinIdempotent(members: seq<SocketId>, c: SocketId)
    ensures Join(Join(members, c), c) == Join(members, c)
  {
  }

  /** After `c` joins, the room has a single member exactly when nobody but
      `c` was there before, and its earliest member is the earliest of the
      members before, or `c` itself in an empty room. */
  lemma JoinFirstMember(members: seq<SocketId>, c: SocketId)
    requires NoDup(members)
    ensures |Join(members, c)| == 1 <==> forall x :: x in members ==> x == c
    ensures Join(members, c)[0] == if members == [] then c else members[0]
  {
    var r := Join(members, c);
    if |r| == 1 {
      forall x | x in members ensures x == c {
        assert x in r && c in r;
        assert x == r[0] && c == r[0];
      }
    }
    if |members| >= 2 {
      assert members[0] in members && members[1] in members && members[0] != members[1];
    } else if |members| == 1 {
      assert members == [members[0]];
      assert members[0] in members;
    }
  }

  /** The members of a room after `c` leaves it; the others keep their
      order. */
  function Leave(members: seq<SocketId>, c: SocketId): (r: seq<SocketId>)
    ensures forall x :: x in r <==> x in members && x != c
    ensures NoDup(members) ==> NoDup(r)
    ensures NoDup(members) && c in members ==> |r| == |members| - 1
    ensures c !in members ==> r == members
    decreases |members|
  {
    if members == [] then []
    else
      var rest := Leave(members[1..], c);
      assert members == [members[0]] + members[1..];
      assert NoDup(members) ==> members[0] !in members[1..] && NoDup(members[1..]);
      if members[0] == c then rest else [members[0]] + rest
  }

  /** Leaving keeps the relative order of the members that stay. */
  lemma {:induction false} LeaveAppend(s: seq<SocketId>, t: seq<SocketId>, c: SocketId)
    ensures Leave(s + t, c) == Leave(s, c) + Leave(t, c)
  {
    if s != [] {
      var st := s + t;
      assert st != [] && st[0] == s[0] && st[1..] == s[1..] + t;
      LeaveAppend(s[1..], t, c);
      var head := if s[0] == c then [] else [s[0]];
      assert Leave(s, c) == head + Leave(s[1..], c);
      assert Leave(st, c) == head + Leave(s[1..] + t, c);
    } else {
      assert s + t == t;
    }
  }

  /** The rooms after connection `c` has gone: `c` is removed from every
      room, and a room left empty is dropped. */
  function LeaveAll(rooms: map<RoomName, seq<SocketId>>, c: SocketId): (r: map<RoomName, seq<SocketId>>)
    ensures forall n :: n in r ==> n in rooms && r[n] != [] && c !in r[n]
    ensures forall n, x :: n in rooms && x in rooms[n] && x != c ==> n in r && x in r[n]
    ensures forall n :: n in r ==> forall x :: x in r[n] ==> x in rooms[n]
    ensures forall n :: n in rooms && NoDup(rooms[n]) && n in r ==> NoDup(r[n])
  {
    map n | n in rooms && Leave(rooms[n], c) != [] :: Leave(rooms[n], c)
  }

  /** With a single room, going away only changes that room. */
  lemma LeaveAllOneRoom(n: RoomName, members: seq<SocketId>, c: SocketId)
    requires Leave(members, c) != []
    ensures LeaveAll(map[n := members], c) == map[n := Leave(members, c)]
  {
  }

  // ---------------------------------------------------------------------------
  // The gateway
  // ---------------------------------------------------------------------------

  /** The gateway's state: the `users` map (connection id to its last join
      payload), the room membership held by the socket.io adapter, and the
      events emitted so far. */
  class AppGateway {
    var users: map<SocketId, JoinRoomPayload>
    var rooms: map<RoomName, seq<SocketId>>
    var outbox: seq<Emit>

    /** Every room has members, none listed twice, and every connection with
        a join payload is a member of the room that payload names. */
    ghost predicate Valid()
      reads this
    {
      && (forall n :: n in rooms ==> rooms[n] != [] && NoDup(rooms[n]))
      && (forall c :: c in users ==> users[c].room in rooms && c in rooms[users[c].room])
    }

    /** The members of room `n`, earliest first. On a valid gateway they
        list no one twice, are empty only for a room nobody is in, and hold
        every connection whose join payload names `n`. */
    function Members(n: RoomName): (r: seq<SocketId>)
      reads this
      ensures Valid() ==> NoDup(r)
      ensures Valid() ==> (r == [] <==> n !in rooms)
      ensures Valid() ==> forall c :: c in users && users[c].room == n ==> c in r
    {
      if n in rooms then rooms[n] else []
    }

    /** A gateway that has seen no connection yet. */
    constructor ()
      ensures Valid()
      ensures users == map[] && rooms == map[] && outbox == []
    {
      users := map[];
      rooms := map[];
      outbox := [];
    }

    /** `join-room`: the connection joins the room named in `payload` and its
        payload is recorded. When the room then holds more than one member,
        its earliest member is sent `other-user` with `payload`; there is no
        limit on the number of members. */
    method JoinRoom(client: SocketId, payload: JoinRoomPayload)
      requires Valid()
      modifies this
      ensures Valid()
      ensures users == old(users)[client := payload]
      ensures rooms == old(rooms)[payload.room := Join(old(Members(payload.room)), client)]
      ensures client in rooms[payload.room]
      ensures |rooms[payload.room]| == 1 ==> outbox == old(outbox)
      ensures |rooms[payload.room]| > 1 ==>
                outbox == old(outbox) + [Emit(Some(rooms[payload.room][0]), OtherUser(payload))]
    {
      var members := Join(Members(payload.room), client);
      rooms := rooms[payload.room := members];
      users := users[client := payload];
      if |members| == 1 {
        return;
      }
      outbox := outbox + [Emit(Some(members[0]), OtherUser(payload))];
    }

    /** A connection has closed. The transport has already taken it out of
        every room; the room named in its join payload is sent `user-leave`
        (with an undefined target when it never joined), and its payload is
        forgotten. */
    method HandleDisconnect(client: SocketId)
      requires Valid()
      modifies this
      ensures Valid()
      ensures rooms == LeaveAll(old(rooms), client)
      ensures users == old(users) - {client}
      ensures client in old(users) ==> outbox == old(outbox) + [Emit(Some(old(users)[client].room), UserLeave)]
      ensures client !in old(users) ==> outbox == old(outbox) + [Emit(None, UserLeave)]
    {
      rooms := LeaveAll(rooms, client);
      var target := if client in users then Some(users[client].room) else None;
      outbox := outbox + [Emit(target, UserLeave)];
      users := users - {client};
    }

    /** `send-signal`: forwards the signal, untouched, to the connection the
        payload names, tagged with the sender's id. */
    method SendSignal(socket: SocketId, payload: SendSignalPayload)
      requires Valid()
      modifies this`outbox
      ensures Valid()
      ensures outbox == old(outbox) + [Emit(Some(payload.socketId), ReceivingSignal(payload.signal, socket))]
    {
      outbox := outbox + [Emit(Some(payload.socketId), ReceivingSignal(payload.signal, socket))];
    }

    /** `re-send-signal`: as `send-signal`, under the event name of a
        renegotiation. */
    method ReSendSignal(socket: SocketId, payload: SendSignalPayload)
      requires Valid()
      modifies this`outbox
      ensures Valid()
      ensures outbox == old(outbox) + [Emit(Some(payload.socketId), ReReceivingSignal(payload.signal, socket))]
    {
      outbox := outbox + [Emit(Some(payload.socketId), ReReceivingSignal(payload.signal, socket))];
    }
  }

  // ---------------------------------------------------------------------------
  // Consultations, from a fresh gateway
  // ---------------------------------------------------------------------------

  /** The first connection into a room waits: nothing is emitted. */
  method FirstJoinerWaits(a: SocketId, pa: JoinRoomPayload) returns (events: seq<Emit>, members: seq<SocketId>)
    ensures events == [] && members == [a]
  {
    var g := Opened(a, pa);
    events, members := g.outbox, g.Members(pa.room);
  }

  /** A fresh gateway after one connection has joined a room. */
  method Opened(a: SocketId, pa: JoinRoomPayload) returns (g: AppGateway)
    ensures fresh(g) && g.Valid()
    ensures g.rooms == map[pa.room := [a]] && g.users == map[a := pa] && g.outbox == []
  {
    g := new AppGateway();
    assert g.Members(pa.room) == [] && Join([], a) == [a];
    g.JoinRoom(a, pa);
  }

  /** A fresh gateway after two distinct connections have joined one room. */
  method Paired(a: SocketId, b: SocketId, pa: JoinRoomPayload, pb: JoinRoomPayload) returns (g: AppGateway)
    requires a != b && pa.room == pb.room
    ensures fresh(g) && g.Valid()
    ensures g.rooms == map[pa.room := [a, b]] && g.users == map[a := pa, b := pb]
    ensures g.outbox == [Emit(Some(a), OtherUser(pb))]
  {
    g := Opened(a, pa);
    assert g.Members(pb.room) == [a] && Join([a], b) == [a, b];
    g.JoinRoom(b, pb);
  }

  /** The second connection into a room makes the gateway tell the first one
      who joined. */
  method SecondJoinerNotifiesFirst(a: SocketId, b: SocketId, pa: JoinRoomPayload, pb: JoinRoomPayload)
    returns (events: seq<Emit>, members: seq<SocketId>)
    requires a != b && pa.room == pb.room
    ensures events == [Emit(Some(a), OtherUser(pb))] && members == [a, b]
  {
    var g := Paired(a, b, pa, pb);
    events, members := g.outbox, g.Members(pa.room);
  }

  /** A third connection is let into the same room too, and again the
      earliest member is the one told. */
  method ThirdJoinerAdmitted(a: SocketId, b: SocketId, c: SocketId, pa: JoinRoomPayload, pb: JoinRoomPayload, pc: JoinRoomPayload)
    returns (events: seq<Emit>, members: seq<SocketId>)
    requires a != b && a != c && b != c
    requires pa.room == pb.room == pc.room
    ensures events == [Emit(Some(a), OtherUser(pb)), Emit(Some(a), OtherUser(pc))]
    ensures members == [a, b, c]
  {
    var g := Paired(a, b, pa, pb);
    assert g.Members(pc.room) == [a, b] && Join([a, b], c) == [a, b, c];
    g.JoinRoom(c, pc);
    events, members := g.outbox, g.Members(pa.room);
  }

  /** When the first of two paired connections closes, the room is told, the
      other stays in it alone and only its payload is remembered. */
  method PeerLeaves(a: SocketId, b: SocketId, pa: JoinRoomPayload, pb: JoinRoomPayload)
    returns (events: seq<Emit>, members: seq<SocketId>, users: map<SocketId, JoinRoomPayload>)
    requires a != b && pa.room == pb.room
    ensures events == [Emit(Some(a), OtherUser(pb)), Emit(Some(pa.room), UserLeave)]
    ensures members == [b] && users == map[b := pb]
  {
    var g := Paired(a, b, pa, pb);
    ghost var before := g.users;
    assert Leave([a, b], a) == [b] by {
      assert [a, b][1..] == [b] && [b][1..] == [];
    }
    LeaveAllOneRoom(pa.room, [a, b], a);
    assert before[a] == pa && before - {a} == map[b := pb];
    g.HandleDisconnect(a);
    events, members, users := g.outbox, g.rooms[pa.room], g.users;
  }

  /** An offer and its answer: each side's signal reaches the other tagged
      with its sender, and the payloads are passed on unchanged. */
  method SignalExchange(a: SocketId, b: SocketId, offer: Signal, answer: Signal)
    returns (events: seq<Emit>)
    ensures events == [Emit(Some(b), ReceivingSignal(offer, a)), Emit(Some(a), ReceivingSignal(answer, b))]
  {
    var g := new AppGateway();
    g.SendSignal(a, SendSignalPayload(offer, b));
    g.SendSignal(b, SendSignalPayload(answer, a));
    events := g.outbox;
  }
}
