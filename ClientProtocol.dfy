/**
 * The connection logic of ConnectedClient as functions on a value: the
 * Connected/Synchronized flags, the inbound and outbound queues, packet
 * dispatch, the login handshake, ping-id allocation and the latency
 * history. Threads and locks are gone: each worker loop body is one step.
 *
 * The server, the Packet class's encoding and the socket are collaborators
 * whose answers are parameters (`Env`). The packets handed to the server's
 * own dispatch are recorded, in order, in `offered`; every other call the
 * connection makes on the server is recorded, in order, in `calls`; every
 * packet the socket accepted in full is recorded in `wire`.
 */
module ClientProtocol {
  import opened Wrappers
  import opened Packets
  import PacketBuffers

  /** ConnectedClient::ProcessPacket disconnects a client of another build with this message. */
  const VersionMismatch: string := "Version mismatch.  Make sure all players have the latest build."

  /** PingTimes keeps this many samples at most. */
  const MaxPingTimes: nat := 120

  /** A ping older than this many milliseconds may have its id reclaimed. */
  const StalePingMs: int := 3000

  /** What Packet::Type and the Next* readers make of an inbound packet. */
  datatype Incoming =
    | PingPacket(pingId: byte)
    | PongPacket(pongId: byte)
    | PaddingPacket
    | LoginPacket(game: string, version: string, name: string, password: string)
    | DisconnectPacket(message: string)
    | OtherPacket

  /** The Packet class's encoding, not part of this model: decoding and the packets the connection builds. */
  datatype Codec = Codec(
    decode: Packet -> Incoming,
    ping: byte -> Packet,
    pong: byte -> Packet,
    accept: nat -> Packet,
    disconnect: string -> Packet)

  /** The answers of the global server. */
  datatype Server = Server(
    handles: Packet -> bool,
    game: string,
    version: string,
    validLogin: (string, string) -> bool,
    newPlayerId: nat)

  /** The collaborators: the server, the packet encoding and how many bytes the socket takes of a packet. */
  datatype Env = Env(server: Server, codec: Codec, written: Packet -> int)

  /** A call the connection makes on the server, other than offering it a packet. */
  datatype Call =
    | ValidatedLogin(name: string, password: string)
    | AddedPlayer
    | NamedPlayer(id: nat, playerName: string)
    | AcceptedClient
    | DroppedClient

  /** The fields of a ConnectedClient that its logic reads and writes. */
  datatype Conn = Conn(
    connected: bool,
    synchronized: bool,
    useOutThread: bool,
    playerId: nat,
    bytesSent: nat,
    bytesReceived: nat,
    inBuffer: seq<Packet>,
    outBuffer: seq<Packet>,
    sentPings: map<byte, int>,
    pingTimes: seq<int>,
    socketOpen: bool,
    wire: seq<Packet>,
    offered: seq<Packet>,
    calls: seq<Call>)

  /**
   * The constructor's flags: the connection is up unless the inbound worker
   * could not be started, and it sends through the outbound worker only when
   * asked to and that worker could be started.
   */
  function Initial(useOutThread: bool, inThreadStarted: bool, outThreadStarted: bool): (c: Conn)
    ensures c.connected <==> inThreadStarted
    ensures c.useOutThread <==> useOutThread && outThreadStarted
    ensures !c.synchronized && c.inBuffer == [] && c.outBuffer == [] && c.sentPings == map[] && c.pingTimes == []
  {
    var connected := inThreadStarted;
    var out := if useOutThread && !outThreadStarted then false else useOutThread;
    Conn(connected, false, out, 0, 0, 0, [], [], map[], [], true, [], [], [])
  }

  // ---------------------------------------------------------------------
  // Disconnecting and sending.

  /** ConnectedClient::Disconnect. */
  function Disconnect(c: Conn): (r: Conn)
    ensures !r.connected && !r.synchronized
    ensures r.inBuffer == c.inBuffer && r.offered == c.offered
  {
    var c' := c.(synchronized := false);
    if c.connected then c'.(connected := false, calls := c.calls + [DroppedClient]) else c'
  }

  /** The number of times `e` occurs in `s`. */
  function Count(s: seq<Call>, e: Call): nat
  {
    if s == [] then 0 else Count(s[..|s| - 1], e) + (if s[|s| - 1] == e then 1 else 0)
  }

  lemma CountAppend(s: seq<Call>, e: Call, x: Call)
    ensures Count(s + [x], e) == Count(s, e) + (if x == e then 1 else 0)
  {
    assert (s + [x])[..|s|] == s;
  }

  /**
   * Disconnect is idempotent and tells the server at most once: the drop is
   * reported exactly when the connection was up.
   */
  lemma DisconnectOnce(c: Conn)
    ensures Disconnect(Disconnect(c)) == Disconnect(c)
    ensures Count(Disconnect(Disconnect(c)).calls, DroppedClient) == Count(c.calls, DroppedClient) + (if c.connected then 1 else 0)
  {
    if c.connected {
      CountAppend(c.calls, DroppedClient, DroppedClient);
    }
  }

  /** Everything apart from the flags and the call log is left alone by Disconnect. */
  predicate SameData(a: Conn, b: Conn)
  {
    && a.useOutThread == b.useOutThread && a.playerId == b.playerId
    && a.bytesSent == b.bytesSent && a.bytesReceived == b.bytesReceived
    && a.inBuffer == b.inBuffer && a.outBuffer == b.outBuffer
    && a.sentPings == b.sentPings && a.pingTimes == b.pingTimes
    && a.socketOpen == b.socketOpen && a.wire == b.wire && a.offered == b.offered
  }

  lemma DisconnectKeepsData(c: Conn)
    ensures SameData(Disconnect(c), c)
    ensures Disconnect(c).calls == c.calls + (if c.connected then [DroppedClient] else [])
  {
  }

  /**
   * ConnectedClient::SendNow: nothing is sent on a closed connection; a
   * short write disconnects; a full write adds the packet's size to the
   * byte count.
   */
  function SendNow(env: Env, c: Conn, p: Packet): (r: (Conn, bool))
    ensures r.1 <==> c.connected && env.written(p) >= p.Size()
    ensures r.1 ==> r.0 == c.(bytesSent := c.bytesSent + p.Size(), wire := c.wire + [p])
    ensures !r.1 ==> r.0.wire == c.wire && r.0.bytesSent == c.bytesSent && r.0.outBuffer == c.outBuffer
    ensures !r.1 && c.connected ==> !r.0.connected
    ensures r.0.inBuffer == c.inBuffer && r.0.offered == c.offered && r.0.useOutThread == c.useOutThread
    ensures r.0.playerId == c.playerId
    ensures r.0.calls == c.calls || r.0.calls == c.calls + [DroppedClient]
  {
    if !c.connected then
      (c, false)
    else if env.written(p) < p.Size() then
      (Disconnect(c), false)
    else
      (c.(bytesSent := c.bytesSent + p.Size(), wire := c.wire + [p]), true)
  }

  /** ConnectedClient::SendToOutBuffer: a copy goes to the back of the outbound queue, only when connected. */
  function SendToOutBuffer(c: Conn, p: Packet): (r: Conn)
    ensures r.outBuffer == if c.connected then c.outBuffer + [p] else c.outBuffer
    ensures r.(outBuffer := c.outBuffer) == c
  {
    if c.connected then c.(outBuffer := c.outBuffer + [p]) else c
  }

  /** ConnectedClient::Send: through the outbound queue when there is an outbound worker, directly otherwise. */
  function Send(env: Env, c: Conn, p: Packet): (r: (Conn, bool))
    ensures r.0.inBuffer == c.inBuffer && r.0.offered == c.offered && r.0.playerId == c.playerId
    ensures r.0.calls == c.calls || r.0.calls == c.calls + [DroppedClient]
  {
    if c.useOutThread then (SendToOutBuffer(c, p), true) else SendNow(env, c, p)
  }

  /** Where a sent packet ends up: queued, or on the wire, or nowhere when the connection is down or the write is short. */
  lemma SendDelivers(env: Env, c: Conn, p: Packet)
    ensures var r := Send(env, c, p).0;
            && (c.connected && c.useOutThread ==> r.outBuffer == c.outBuffer + [p] && r.wire == c.wire)
            && (c.connected && !c.useOutThread && env.written(p) >= p.Size() ==> r.wire == c.wire + [p])
            && (!c.connected ==> r == c)
  {
  }

  /** ConnectedClient::DisconnectNice: a DISCONNECT packet with the message (or "") is sent first when connected. */
  function DisconnectNice(env: Env, c: Conn, message: Option<string>): (r: Conn)
    ensures !r.connected && !r.synchronized
    ensures r.inBuffer == c.inBuffer && r.offered == c.offered && r.playerId == c.playerId
    ensures r.calls == c.calls + (if c.connected then [DroppedClient] else [])
    ensures var d := env.codec.disconnect(message.GetOr(""));
            && (c.connected && c.useOutThread ==> r.outBuffer == c.outBuffer + [d] && r.wire == c.wire)
            && (c.connected && !c.useOutThread && env.written(d) >= d.Size() ==> r.wire == c.wire + [d] && r.outBuffer == c.outBuffer)
            && (c.connected && !c.useOutThread && env.written(d) < d.Size() ==> r.wire == c.wire && r.outBuffer == c.outBuffer)
    ensures !c.connected ==> r == Disconnect(c)
  {
    var c1 := if c.connected then Send(env, c, env.codec.disconnect(message.GetOr(""))).0 else c;
    Disconnect(c1)
  }

  // ---------------------------------------------------------------------
  // Login.

  /**
   * The first half of ConnectedClient::Login: the player id is cleared, the
   * server validates the credentials, and a valid login obtains an id from
   * AddPlayer (0 meaning refused).
   */
  function Admit(env: Env, c: Conn, name: string, password: string): (r: Conn)
    ensures var valid := env.server.validLogin(name, password);
            && r.playerId == (if valid then env.server.newPlayerId else 0)
            && r.calls == c.calls + [ValidatedLogin(name, password)] + (if valid then [AddedPlayer] else [])
            && r == c.(playerId := r.playerId, calls := r.calls)
  {
    var c1 := c.(playerId := 0, calls := c.calls + [ValidatedLogin(name, password)]);
    if env.server.validLogin(name, password) then
      c1.(playerId := env.server.newPlayerId, calls := c1.calls + [AddedPlayer])
    else
      c1
  }

  /** The second half, for a non-zero id: the player is named, the acceptance sent, and the server told. */
  function Welcome(env: Env, c: Conn, name: string): (r: Conn)
    ensures var named := c.calls + [NamedPlayer(c.playerId, name)];
            r.calls == named + [AcceptedClient] || r.calls == named + [DroppedClient, AcceptedClient]
    ensures r.playerId == c.playerId && r.inBuffer == c.inBuffer && r.offered == c.offered
  {
    var c3 := c.(calls := c.calls + [NamedPlayer(c.playerId, name)]);
    var c4 := Send(env, c3, env.codec.accept(c.playerId)).0;
    c4.(calls := c4.calls + [AcceptedClient])
  }

  /** ConnectedClient::Login: a client without a non-zero id is disconnected. */
  function Login(env: Env, c: Conn, name: string, password: string): (r: Conn)
    ensures r.inBuffer == c.inBuffer && r.offered == c.offered
  {
    var c2 := Admit(env, c, name, password);
    if c2.playerId != 0 then Welcome(env, c2, name) else Disconnect(c2)
  }

  /**
   * The server accepts the client exactly when the login is valid and
   * AddPlayer gave a non-zero id; the acceptance carries that id and is
   * sent like any packet. A refused client is disconnected with no id and
   * nothing sent.
   */
  lemma LoginAcceptance(env: Env, c: Conn, name: string, password: string)
    ensures var r := Login(env, c, name, password);
            var ok := env.server.validLogin(name, password) && env.server.newPlayerId != 0;
            && |r.calls| > |c.calls| && r.calls[..|c.calls|] == c.calls
            && r.calls[|c.calls|] == ValidatedLogin(name, password)
            && (AcceptedClient in r.calls[|c.calls|..] <==> ok)
            && (env.server.validLogin(name, password) <==> AddedPlayer in r.calls[|c.calls|..])
            && (ok ==> r.playerId == env.server.newPlayerId && NamedPlayer(r.playerId, name) in r.calls[|c.calls|..])
            && (!ok ==> !r.connected && r.playerId == 0 && r.outBuffer == c.outBuffer && r.wire == c.wire)
  {
    var r := Login(env, c, name, password);
    var c2 := Admit(env, c, name, password);
    var k := |c.calls|;
    var admitted := [ValidatedLogin(name, password)] + (if env.server.validLogin(name, password) then [AddedPlayer] else []);
    assert c2.calls[k..] == admitted;
    if c2.playerId != 0 {
      var named := c2.calls + [NamedPlayer(c2.playerId, name)];
      if r.calls == named + [AcceptedClient] {
        assert r.calls[k..] == admitted + [NamedPlayer(c2.playerId, name), AcceptedClient];
      } else {
        assert r.calls[k..] == admitted + [NamedPlayer(c2.playerId, name), DroppedClient, AcceptedClient];
      }
    } else {
      DisconnectKeepsData(c2);
      if c2.connected {
        assert r.calls[k..] == admitted + [DroppedClient];
      } else {
        assert r.calls[k..] == admitted;
      }
    }
  }

  /** An accepted login on a live connection queues or transmits the acceptance with the new id. */
  lemma LoginSendsAcceptance(env: Env, c: Conn, name: string, password: string)
    requires env.server.validLogin(name, password) && env.server.newPlayerId != 0 && c.connected
    ensures var r := Login(env, c, name, password);
            var accept := env.codec.accept(env.server.newPlayerId);
            && (c.useOutThread ==> r.outBuffer == c.outBuffer + [accept])
            && (!c.useOutThread && env.written(accept) >= accept.Size() ==> r.wire == c.wire + [accept])
  {
  }

  // ---------------------------------------------------------------------
  // Latency history and ping ids.

  /** The `while( PingTimes.size() > 120 ) PingTimes.pop_front()` loop. */
  function Trim(s: seq<int>): (r: seq<int>)
    ensures |r| == if |s| > MaxPingTimes then MaxPingTimes else |s|
    ensures r == s[|s| - |r|..]
    decreases |s|
  {
    if |s| > MaxPingTimes then Trim(s[1..]) else s
  }

  /** The PONG branch: a known id is erased and its round trip recorded; an unknown one changes nothing. */
  function RecordPong(c: Conn, id: byte, now: int): (r: Conn)
    ensures r.(sentPings := c.sentPings, pingTimes := c.pingTimes) == c
    ensures id in c.sentPings ==> |r.pingTimes| <= MaxPingTimes && id !in r.sentPings
  {
    if id in c.sentPings then
      c.(sentPings := c.sentPings - {id}, pingTimes := Trim(c.pingTimes + [now - c.sentPings[id]]))
    else
      c
  }

  /**
   * A matched PONG erases its id, appends its elapsed time as the newest
   * sample and evicts the oldest beyond 120; the other samples keep their
   * order.
   */
  lemma PongRecorded(c: Conn, id: byte, now: int)
    ensures var r := RecordPong(c, id, now);
            && (id in c.sentPings ==>
                  && r.sentPings.Keys == c.sentPings.Keys - {id}
                  && |r.pingTimes| == (if |c.pingTimes| + 1 > MaxPingTimes then MaxPingTimes else |c.pingTimes| + 1)
                  && r.pingTimes[|r.pingTimes| - 1] == now - c.sentPings[id]
                  && r.pingTimes[..|r.pingTimes| - 1] == c.pingTimes[|c.pingTimes| + 1 - |r.pingTimes|..])
            && (id !in c.sentPings ==> r == c)
  {
    if id in c.sentPings {
      TrimAppend(c.pingTimes, now - c.sentPings[id]);
    }
  }

  /** Appending a sample and trimming keeps the newest samples of the old history, then the new one. */
  lemma TrimAppend(s: seq<int>, x: int)
    ensures var t := Trim(s + [x]);
            && |t| == (if |s| + 1 > MaxPingTimes then MaxPingTimes else |s| + 1)
            && t[|t| - 1] == x
            && t[..|t| - 1] == s[|s| + 1 - |t|..]
  {
    var a := s + [x];
    var t := Trim(a);
    assert t == a[|a| - |t|..];
    assert t[..|t| - 1] == s[|s| + 1 - |t|..];
  }

  /** The first id from `i` on that is not in use. */
  function FirstFree(m: map<byte, int>, i: nat): (r: Option<byte>)
    requires i <= 256
    ensures r.Some? ==> i <= r.value as int && r.value !in m && forall j: byte :: i <= j < r.value ==> j in m
    ensures r.None? ==> forall j: byte :: i <= j ==> j in m
    decreases 256 - i
  {
    if i == 256 then None
    else if (i as byte) !in m then Some(i as byte)
    else FirstFree(m, i + 1)
  }

  /** The id's ping was sent more than three seconds before `now`. */
  predicate Stale(m: map<byte, int>, now: int, id: byte)
  {
    id in m && now - m[id] > StalePingMs
  }

  /** The lowest-keyed stale id from `i` on (the map iterates in key order). */
  function FirstStale(m: map<byte, int>, now: int, i: nat): (r: Option<byte>)
    requires i <= 256
    ensures r.Some? ==> i <= r.value as int && Stale(m, now, r.value) && forall j: byte :: i <= j < r.value ==> !Stale(m, now, j)
    ensures r.None? ==> forall j: byte :: i <= j ==> !Stale(m, now, j)
    decreases 256 - i
  {
    if i == 256 then None
    else if Stale(m, now, i as byte) then Some(i as byte)
    else FirstStale(m, now, i + 1)
  }

  /** The id SendPing uses: the lowest free id, else the lowest stale one, else none. */
  function PingSlot(m: map<byte, int>, now: int): (r: Option<byte>)
    ensures r.Some? ==> r.value !in m || Stale(m, now, r.value)
  {
    match FirstFree(m, 0)
    case Some(id) => Some(id)
    case None => FirstStale(m, now, 0)
  }

  /**
   * The slot is the lowest free id when one exists; when all 256 are taken
   * it is the lowest stale id; there is none exactly when every id is taken
   * and none is stale. An id whose ping is younger than three seconds is
   * never reused.
   */
  lemma PingSlotChoice(m: map<byte, int>, now: int)
    ensures var r := PingSlot(m, now);
            && ((exists j: byte :: j !in m) ==> r.Some? && r.value !in m && forall j: byte :: j < r.value ==> j in m)
            && ((forall j: byte :: j in m) && r.Some? ==> Stale(m, now, r.value) && forall j: byte :: j < r.value ==> !Stale(m, now, j))
            && (r.None? <==> forall j: byte :: j in m && !Stale(m, now, j))
            && (r.Some? ==> r.value !in m || Stale(m, now, r.value))
  {
    var f := FirstFree(m, 0);
    if f.None? {
      var s := FirstStale(m, now, 0);
    }
  }

  /** ConnectedClient::SendPing: the slot's timestamp is reset to now and a PING with that id is sent. */
  function SendPing(env: Env, c: Conn, now: int): (r: Conn)
    ensures r.inBuffer == c.inBuffer && r.offered == c.offered && r.pingTimes == c.pingTimes && r.playerId == c.playerId
  {
    match PingSlot(c.sentPings, now)
    case None => c
    case Some(id) => Send(env, c.(sentPings := c.sentPings[id := now]), env.codec.ping(id)).0
  }

  /** With no slot, SendPing sends nothing and leaves the map; otherwise the slot maps to now and nothing else changes in the map. */
  lemma SendPingEffect(env: Env, c: Conn, now: int)
    ensures var r := SendPing(env, c, now);
            var slot := PingSlot(c.sentPings, now);
            && (slot.None? ==> r == c)
            && (slot.Some? ==> r.sentPings == c.sentPings[slot.value := now] && r.pingTimes == c.pingTimes)
            && (slot.Some? && c.connected && c.useOutThread ==> r.outBuffer == c.outBuffer + [env.codec.ping(slot.value)])
            && (slot.Some? && c.connected && !c.useOutThread ==>
                  var ping := env.codec.ping(slot.value);
                  env.written(ping) >= ping.Size() ==> r.wire == c.wire + [ping])
  {
  }

  /** The ids 0 .. n-1. */
  function Ids(n: nat): (r: set<byte>)
    requires n <= 256
    ensures |r| == n && forall j: byte :: j in r <==> j < n
  {
    if n == 0 then {} else Ids(n - 1) + {(n - 1) as byte}
  }

  /** The ping map never holds more than 256 entries. */
  lemma PingMapBounded(m: map<byte, int>)
    ensures |m| <= 256
  {
    var all := Ids(256);
    assert m.Keys <= all;
    assert |all| == |all - m.Keys| + |m.Keys|;
  }

  // ---------------------------------------------------------------------
  // Dispatch.

  /**
   * ConnectedClient::ProcessPacket: the server sees the packet first and
   * the answer is true when it handled it; otherwise the transport types
   * are handled here and anything else is answered false.
   */
  function ProcessPacket(env: Env, c: Conn, p: Packet, now: int): (r: (Conn, bool))
    ensures r.0.inBuffer == c.inBuffer && r.0.offered == c.offered + [p]
  {
    var c0 := c.(offered := c.offered + [p]);
    if env.server.handles(p) then (c0, true) else Dispatch(env, c0, env.codec.decode(p), now)
  }

  /** The built-in handling of a decoded packet the server did not claim. */
  function Dispatch(env: Env, c: Conn, m: Incoming, now: int): (r: (Conn, bool))
    ensures r.0.inBuffer == c.inBuffer && r.0.offered == c.offered
    ensures !r.1 <==> m.OtherPacket?
    ensures m.OtherPacket? || m.PaddingPacket? ==> r.0 == c
  {
    match m
    case PingPacket(id) => (Send(env, c, env.codec.pong(id)).0, true)
    case PongPacket(id) => (RecordPong(c, id, now), true)
    case PaddingPacket => (c, true)
    case LoginPacket(game, version, name, password) =>
      if game == env.server.game then
        if version == env.server.version then
          (Login(env, c, name, password), true)
        else
          (DisconnectNice(env, c, Some(VersionMismatch)), true)
      else
        (Disconnect(c), true)
    case DisconnectPacket(_) => (Disconnect(c), true)
    case OtherPacket => (c, false)
  }

  /**
   * The server is asked first and its answer is final; without it, only an
   * unknown type is answered false, and that changes nothing.
   */
  lemma DispatchAnswer(env: Env, c: Conn, p: Packet, now: int)
    ensures var r := ProcessPacket(env, c, p, now);
            && (env.server.handles(p) ==> r == (c.(offered := c.offered + [p]), true))
            && (!r.1 <==> !env.server.handles(p) && env.codec.decode(p).OtherPacket?)
            && (!r.1 ==> r.0 == c.(offered := c.offered + [p]))
  {
  }

  /** A PING not claimed by the server is answered with a PONG carrying the same id. */
  lemma PingAnswered(env: Env, c: Conn, p: Packet, now: int)
    requires !env.server.handles(p) && env.codec.decode(p).PingPacket?
    ensures var r := ProcessPacket(env, c, p, now).0;
            var pong := env.codec.pong(env.codec.decode(p).pingId);
            && (c.connected && c.useOutThread ==> r.outBuffer == c.outBuffer + [pong])
            && (c.connected && !c.useOutThread && env.written(pong) >= pong.Size() ==> r.wire == c.wire + [pong])
  {
  }

  /** The calls `r` adds to those of `c` are only drop reports. */
  predicate OnlyDrops(c: Conn, r: Conn)
  {
    && |r.calls| >= |c.calls| && r.calls[..|c.calls|] == c.calls
    && forall i :: |c.calls| <= i < |r.calls| ==> r.calls[i] == DroppedClient
  }

  /**
   * A LOGIN for another game disconnects without asking the server to
   * validate anything; one for this game but another version is sent the
   * version-mismatch DISCONNECT and dropped, again without a login attempt.
   */
  lemma LoginMismatch(env: Env, c: Conn, p: Packet, now: int)
    requires !env.server.handles(p) && env.codec.decode(p).LoginPacket?
    requires env.codec.decode(p).game != env.server.game || env.codec.decode(p).version != env.server.version
    ensures var r := ProcessPacket(env, c, p, now).0;
            && !r.connected && r.playerId == c.playerId && OnlyDrops(c, r)
            && (env.codec.decode(p).game == env.server.game && c.connected && c.useOutThread ==>
                  r.outBuffer == c.outBuffer + [env.codec.disconnect(VersionMismatch)])
            && (var d := env.codec.disconnect(VersionMismatch);
                env.codec.decode(p).game == env.server.game && c.connected && !c.useOutThread && env.written(d) >= d.Size() ==>
                  r.wire == c.wire + [d])
            && (env.codec.decode(p).game != env.server.game ==> r.outBuffer == c.outBuffer && r.wire == c.wire)
  {
    var c0 := c.(offered := c.offered + [p]);
    if env.codec.decode(p).game == env.server.game {
      var c1 := if c0.connected then Send(env, c0, env.codec.disconnect(VersionMismatch)).0 else c0;
      assert c1.calls == c0.calls || c1.calls == c0.calls + [DroppedClient];
    }
  }

  /** Dispatch never touches the inbound queue, and offers the packet to the server exactly once. */
  lemma DispatchKeepsInBuffer(env: Env, c: Conn, p: Packet, now: int)
    ensures ProcessPacket(env, c, p, now).0.inBuffer == c.inBuffer
    ensures ProcessPacket(env, c, p, now).0.offered == c.offered + [p]
  {
  }

  // ---------------------------------------------------------------------
  // The inbound queue.

  /** The `while( ! InBuffer.empty() )` loop of ProcessIn: each front packet is processed, then popped. */
  function DrainAll(env: Env, c: Conn, now: int): (r: Conn)
    ensures r.inBuffer == []
    decreases |c.inBuffer|
  {
    if c.inBuffer == [] then
      c
    else
      var c1 := ProcessPacket(env, c, c.inBuffer[0], now).0;
      DrainAll(env, c1.(inBuffer := c.inBuffer[1..]), now)
  }

  /** ConnectedClient::ProcessIn: nothing when disconnected, else the whole inbound queue. */
  function ProcessIn(env: Env, c: Conn, now: int): (r: Conn)
    ensures c.connected ==> r.inBuffer == []
    ensures !c.connected ==> r == c
  {
    if !c.connected then c else DrainAll(env, c, now)
  }

  /**
   * ProcessIn empties the inbound queue and hands its packets to the
   * server in arrival order, even when one of them disconnects the client
   * part-way.
   */
  lemma {:induction false} DrainAllInOrder(env: Env, c: Conn, now: int)
    ensures DrainAll(env, c, now).inBuffer == []
    ensures DrainAll(env, c, now).offered == c.offered + c.inBuffer
    decreases |c.inBuffer|
  {
    if c.inBuffer != [] {
      var p := c.inBuffer[0];
      var c1 := ProcessPacket(env, c, p, now).0;
      DispatchKeepsInBuffer(env, c, p, now);
      var c2 := c1.(inBuffer := c.inBuffer[1..]);
      DrainAllInOrder(env, c2, now);
      assert c.inBuffer == [p] + c.inBuffer[1..];
    }
  }

  /** ConnectedClient::ProcessTop: when connected, the front packet is popped and then processed. */
  function ProcessTop(env: Env, c: Conn, now: int): (r: Conn)
    ensures c.connected && c.inBuffer != [] ==> r.inBuffer == c.inBuffer[1..]
  {
    if !c.connected || c.inBuffer == [] then c
    else ProcessPacket(env, c.(inBuffer := c.inBuffer[1..]), c.inBuffer[0], now).0
  }

  /** ProcessTop removes only the front packet and offers exactly it; disconnected, it does nothing. */
  lemma ProcessTopFront(env: Env, c: Conn, now: int)
    ensures var r := ProcessTop(env, c, now);
            && (!c.connected || c.inBuffer == [] ==> r == c)
            && (c.connected && c.inBuffer != [] ==>
                  r.inBuffer == c.inBuffer[1..] && r.offered == c.offered + [c.inBuffer[0]])
  {
    if c.connected && c.inBuffer != [] {
      DispatchKeepsInBuffer(env, c.(inBuffer := c.inBuffer[1..]), c.inBuffer[0], now);
    }
  }

  /** ConnectedClient::Cleanup, queue part: the socket is closed and both queues are emptied. */
  function Cleanup(c: Conn): (r: Conn)
    ensures r.inBuffer == [] && r.outBuffer == [] && !r.socketOpen
    ensures r.(inBuffer := c.inBuffer, outBuffer := c.outBuffer, socketOpen := c.socketOpen) == c
  {
    c.(socketOpen := false, inBuffer := [], outBuffer := [])
  }

  // ---------------------------------------------------------------------
  // The worker loop bodies.

  /**
   * One turn of ConnectedClientInThread: on a dropped client the
   * `while( Connected )` loop is over and nothing is read (with no other
   * thread, the re-check after a read fails only then); an empty read (0 or
   * an error) disconnects and stops the worker; otherwise the chunk is
   * counted, fed to the worker's framer, and every completed packet is
   * moved to the inbound queue. The answer is whether the worker goes on.
   */
  function Receive(fmt: HeaderFormat, c: Conn, buf: PacketBuffers.Framer, chunk: seq<byte>): (r: (Conn, PacketBuffers.Framer, bool))
    requires fmt.WellFormed() && PacketBuffers.Consistent(buf)
    ensures PacketBuffers.Consistent(r.1)
    ensures !c.connected ==> r == (c, buf, false)
    ensures c.connected && |chunk| == 0 ==> r == (Disconnect(c), buf, false)
    ensures c.connected && |chunk| > 0 ==>
              && r.2 && r.1.complete == []
              && r.0.inBuffer == c.inBuffer + PacketBuffers.Feed(fmt, buf, chunk).complete
  {
    if !c.connected then
      (c, buf, false)
    else if |chunk| == 0 then
      (Disconnect(c), buf, false)
    else
      var f := PacketBuffers.Feed(fmt, buf, chunk);
      (c.(bytesReceived := c.bytesReceived + |chunk|, inBuffer := c.inBuffer + f.complete), f.(complete := []), true)
  }

  /**
   * Receiving keeps every byte: what is queued inbound, followed by what the
   * framer still holds unfinished, grows by exactly the chunk, and the
   * framer is left with no completed packet.
   */
  lemma ReceiveConserves(fmt: HeaderFormat, c: Conn, buf: PacketBuffers.Framer, chunk: seq<byte>)
    requires fmt.WellFormed() && PacketBuffers.Consistent(buf)
    ensures var (r, f, _) := Receive(fmt, c, buf, chunk);
            && Flatten(r.inBuffer) + Flatten(f.complete) + PacketBuffers.Pending(f)
                 == Flatten(c.inBuffer) + Flatten(buf.complete) + PacketBuffers.Pending(buf) + (if c.connected then chunk else [])
            && (c.connected && |chunk| > 0 ==> f.complete == [] && r.bytesReceived == c.bytesReceived + |chunk|)
  {
    var (r, f, _) := Receive(fmt, c, buf, chunk);
    var a, b := Flatten(c.inBuffer), Flatten(buf.complete) + PacketBuffers.Pending(buf);
    if c.connected && |chunk| > 0 {
      var g := PacketBuffers.Feed(fmt, buf, chunk);
      assert r.inBuffer == c.inBuffer + g.complete && f.complete == [] && PacketBuffers.Pending(f) == PacketBuffers.Pending(g);
      PacketBuffers.FeedConserves(fmt, buf, chunk);
      PacketBuffers.QueueingConserves(c.inBuffer, b + chunk, g.complete, PacketBuffers.Pending(g));
      var pending := PacketBuffers.Pending(g);
      assert Flatten(f.complete) == [];
      calc {
        Flatten(r.inBuffer) + Flatten(f.complete) + PacketBuffers.Pending(f);
        { assert Flatten(r.inBuffer) + [] == Flatten(r.inBuffer); }
        Flatten(c.inBuffer + g.complete) + pending;
        a + (b + chunk);
        { PacketBuffers.Assoc(a, b, chunk); }
        a + b + chunk;
        { PacketBuffers.Assoc(a, Flatten(buf.complete), PacketBuffers.Pending(buf)); }
        a + Flatten(buf.complete) + PacketBuffers.Pending(buf) + chunk;
      }
    } else {
      assert r.inBuffer == c.inBuffer && f == buf;
      assert (if c.connected then chunk else []) == [];
      PacketBuffers.Assoc(a, Flatten(buf.complete), PacketBuffers.Pending(buf));
      assert a + b + [] == a + b;
    }
  }

  /** The inner loop of ConnectedClientOutThread: SendNow on each packet, in order. */
  function Flush(env: Env, c: Conn, ps: seq<Packet>): (r: Conn)
    ensures r.outBuffer == c.outBuffer && r.inBuffer == c.inBuffer && r.offered == c.offered
    ensures |r.wire| <= |c.wire| + |ps|
    decreases |ps|
  {
    if ps == [] then c else Flush(env, SendNow(env, c, ps[0]).0, ps[1..])
  }

  /**
   * One turn of ConnectedClientOutThread: on a dropped client the loop is
   * over and the queue is left for Cleanup; otherwise the outbound queue is
   * taken whole, emptied, and flushed.
   */
  function FlushOut(env: Env, c: Conn): (r: Conn)
    ensures c.connected ==> r.outBuffer == []
    ensures !c.connected ==> r == c
  {
    if !c.connected || c.outBuffer == [] then c else Flush(env, c.(outBuffer := []), c.outBuffer)
  }

  /** How many packets from the front of `ps` the socket takes in full, up to the first short write. */
  function Accepted(env: Env, ps: seq<Packet>): (n: nat)
    ensures n <= |ps|
    ensures forall i :: 0 <= i < n ==> env.written(ps[i]) >= ps[i].Size()
    ensures n < |ps| ==> env.written(ps[n]) < ps[n].Size()
  {
    if ps == [] then 0
    else if env.written(ps[0]) < ps[0].Size() then 0
    else 1 + Accepted(env, ps[1..])
  }

  /**
   * Flushing on a live connection transmits the packets in order up to the
   * first short write, which drops the connection; nothing after it is
   * sent. The connection stays up exactly when every write was full.
   */
  lemma {:induction false} FlushPrefix(env: Env, c: Conn, ps: seq<Packet>)
    requires c.connected
    ensures var r := Flush(env, c, ps);
            var n := Accepted(env, ps);
            && r.wire == c.wire + ps[..n]
            && (r.connected <==> n == |ps|)
            && r.outBuffer == c.outBuffer && r.inBuffer == c.inBuffer
    decreases |ps|
  {
    if ps != [] {
      var c1 := SendNow(env, c, ps[0]).0;
      assert Flush(env, c, ps) == Flush(env, c1, ps[1..]);
      if env.written(ps[0]) < ps[0].Size() {
        FlushClosed(env, c1, ps[1..]);
        assert Accepted(env, ps) == 0;
        assert ps[..0] == [];
      } else {
        FlushPrefix(env, c1, ps[1..]);
        var n := Accepted(env, ps[1..]);
        assert Accepted(env, ps) == n + 1;
        PacketBuffers.SeqAssoc(c.wire, [ps[0]], ps[1..][..n]);
        assert ps[..n + 1] == [ps[0]] + ps[1..][..n];
      }
    }
  }

  /** A closed connection sends nothing. */
  lemma {:induction false} FlushClosed(env: Env, c: Conn, ps: seq<Packet>)
    requires !c.connected
    ensures Flush(env, c, ps) == c
    decreases |ps|
  {
    if ps != [] {
      FlushClosed(env, c, ps[1..]);
    }
  }
}
