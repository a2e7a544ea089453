/**
 * The ConnectedClient class: its fields, and one method per operation, each
 * proved to leave the state that the matching function of ClientProtocol
 * computes from the old state.
 */
module ConnectedClients {
  import opened Wrappers
  import opened Packets
  import PacketBuffers
  import CP = ClientProtocol

  class ConnectedClient {
    /** The server, the packet encoding and the socket's behaviour. */
    const env: CP.Env

    var connected: bool
    var synchronized: bool
    var useOutThread: bool
    var playerId: nat
    var bytesSent: nat
    var bytesReceived: nat
    var inBuffer: seq<Packet>
    var outBuffer: seq<Packet>
    var sentPings: map<byte, int>
    var pingTimes: seq<int>
    var socketOpen: bool
    /** The packets the socket accepted in full, oldest first. */
    var wire: seq<Packet>
    /** The packets handed to the server's dispatch, oldest first. */
    var offered: seq<Packet>
    /** The other calls made on the server, oldest first. */
    var calls: seq<CP.Call>

    function State(): CP.Conn
      reads this
    {
      CP.Conn(connected, synchronized, useOutThread, playerId, bytesSent, bytesReceived,
              inBuffer, outBuffer, sentPings, pingTimes, socketOpen, wire, offered, calls)
    }

    /**
     * The constructor: Connected is raised, then lowered again when the
     * inbound worker cannot be created; UseOutThread is lowered when the
     * outbound worker cannot be created.
     */
    constructor (env: CP.Env, useOutThread: bool, inThreadStarted: bool, outThreadStarted: bool)
      ensures this.env == env
      ensures State() == CP.Initial(useOutThread, inThreadStarted, outThreadStarted)
    {
      this.env := env;
      connected := false;
      synchronized := false;
      bytesSent := 0;
      bytesReceived := 0;
      this.useOutThread := useOutThread;
      playerId := 0;
      inBuffer := [];
      outBuffer := [];
      sentPings := map[];
      pingTimes := [];
      socketOpen := true;
      wire := [];
      offered := [];
      calls := [];
      new;
      connected := true;
      if !inThreadStarted {
        connected := false;
      }
      if this.useOutThread {
        if !outThreadStarted {
          this.useOutThread := false;
        }
      }
    }

    method Disconnect()
      modifies this
      ensures State() == CP.Disconnect(old(State()))
    {
      synchronized := false;
      if connected {
        connected := false;
        calls := calls + [CP.DroppedClient];
      }
    }

    method DisconnectNice(message: Option<string>)
      modifies this
      ensures State() == CP.DisconnectNice(env, old(State()), message)
    {
      if connected {
        var _ := Send(env.codec.disconnect(message.GetOr("")));
      }
      Disconnect();
    }

    /** Cleanup, queue part: the socket is closed and both queues are popped until empty. */
    method Cleanup()
      modifies this
      ensures State() == CP.Cleanup(old(State()))
    {
      socketOpen := false;
      var q := inBuffer;
      while q != []
        decreases |q|
      {
        q := q[1..];
      }
      inBuffer := q;
      q := outBuffer;
      while q != []
        decreases |q|
      {
        q := q[1..];
      }
      outBuffer := q;
    }

    method ProcessIn(now: int)
      modifies this
      ensures State() == CP.ProcessIn(env, old(State()), now)
    {
      if !connected {
        return;
      }
      ghost var goal := CP.DrainAll(env, State(), now);
      while inBuffer != []
        invariant CP.DrainAll(env, State(), now) == goal
        decreases |inBuffer|
      {
        var packet := inBuffer[0];
        ghost var before := State();
        var _ := ProcessPacket(packet, now);
        CP.DispatchKeepsInBuffer(env, before, packet, now);
        inBuffer := inBuffer[1..];
      }
    }

    method ProcessTop(now: int)
      modifies this
      ensures State() == CP.ProcessTop(env, old(State()), now)
    {
      if !connected {
        return;
      }
      if inBuffer != [] {
        var packet := inBuffer[0];
        inBuffer := inBuffer[1..];
        var _ := ProcessPacket(packet, now);
      }
    }

    method ProcessPacket(packet: Packet, now: int) returns (handled: bool)
      modifies this
      ensures (State(), handled) == CP.ProcessPacket(env, old(State()), packet, now)
    {
      offered := offered + [packet];
      if env.server.handles(packet) {
        return true;
      }
      handled := Dispatch(env.codec.decode(packet), now);
    }

    /** The built-in handling of a packet the server did not claim. */
    method Dispatch(m: CP.Incoming, now: int) returns (handled: bool)
      modifies this
      ensures (State(), handled) == CP.Dispatch(env, old(State()), m, now)
    {
      handled := true;
      match m
      case PingPacket(id) =>
        var _ := Send(env.codec.pong(id));
      case PongPacket(id) =>
        Pong(id, now);
      case PaddingPacket =>
      case LoginPacket(game, version, name, password) =>
        if game == env.server.game {
          if version == env.server.version {
            Login(name, password);
          } else {
            DisconnectNice(Some(CP.VersionMismatch));
          }
        } else {
          Disconnect();
        }
      case DisconnectPacket(_) =>
        Disconnect();
      case OtherPacket =>
        handled := false;
    }

    /** A PONG's effect on the whole connection: only the ping map and the samples change. */
    method Pong(id: byte, now: int)
      modifies this
      ensures State() == CP.RecordPong(old(State()), id, now)
    {
      RecordPong(id, now);
    }

    /** The PONG branch of ProcessPacket. */
    method RecordPong(id: byte, now: int)
      modifies this`sentPings, this`pingTimes
      ensures id in old(sentPings) ==> sentPings == old(sentPings) - {id} && pingTimes == CP.Trim(old(pingTimes) + [now - old(sentPings)[id]])
      ensures id !in old(sentPings) ==> sentPings == old(sentPings) && pingTimes == old(pingTimes)
    {
      if id in sentPings {
        var ms := now - sentPings[id];
        var times := Evict(pingTimes + [ms]);
        sentPings, pingTimes := sentPings - {id}, times;
      }
    }

    /** The `while( PingTimes.size() > 120 ) PingTimes.pop_front()` loop. */
    static method Evict(times: seq<int>) returns (kept: seq<int>)
      ensures kept == CP.Trim(times)
    {
      kept := times;
      while |kept| > CP.MaxPingTimes
        invariant CP.Trim(kept) == CP.Trim(times)
        decreases |kept|
      {
        kept := kept[1..];
      }
    }

    method Login(name: string, password: string)
      modifies this
      ensures State() == CP.Login(env, old(State()), name, password)
    {
      Admit(name, password);
      if playerId != 0 {
        Welcome(name);
      } else {
        Disconnect();
      }
    }

    /** The credential check and AddPlayer. */
    method Admit(name: string, password: string)
      modifies this
      ensures State() == CP.Admit(env, old(State()), name, password)
    {
      playerId := 0;
      calls := calls + [CP.ValidatedLogin(name, password)];
      if env.server.validLogin(name, password) {
        playerId := env.server.newPlayerId;
        calls := calls + [CP.AddedPlayer];
      }
    }

    /** Naming the player, sending the acceptance and telling the server. */
    method Welcome(name: string)
      modifies this
      ensures State() == CP.Welcome(env, old(State()), name)
    {
      calls := calls + [CP.NamedPlayer(playerId, name)];
      var _ := Send(env.codec.accept(playerId));
      calls := calls + [CP.AcceptedClient];
    }

    method Send(packet: Packet) returns (ok: bool)
      modifies this
      ensures (State(), ok) == CP.Send(env, old(State()), packet)
    {
      if useOutThread {
        SendToOutBuffer(packet);
        return true;
      }
      ok := SendNow(packet);
    }

    method SendNow(packet: Packet) returns (ok: bool)
      modifies this
      ensures (State(), ok) == CP.SendNow(env, old(State()), packet)
    {
      if !connected {
        return false;
      }
      if env.written(packet) < packet.Size() {
        Disconnect();
        return false;
      }
      bytesSent := bytesSent + packet.Size();
      wire := wire + [packet];
      return true;
    }

    method SendToOutBuffer(packet: Packet)
      modifies this`outBuffer
      ensures State() == CP.SendToOutBuffer(old(State()), packet)
    {
      if !connected {
        return;
      }
      outBuffer := outBuffer + [packet];
    }

    /**
     * SendPing: the ids 0..255 are scanned for a free one; failing that the
     * map is walked in key order for a ping older than three seconds, whose
     * entry is erased; a found id is stamped with `now` and pinged.
     */
    method SendPing(now: int)
      modifies this
      ensures State() == CP.SendPing(env, old(State()), now)
    {
      var slot, pings := FindPingSlot(sentPings, now);
      if slot.Some? {
        sentPings := pings[slot.value := now];
        var _ := Send(env.codec.ping(slot.value));
      }
    }

    /**
     * SendPing's two searches over the ids 0..255: the first id not in the
     * map, else the first stale id, which is erased from the map.
     */
    static method FindPingSlot(m: map<byte, int>, now: int) returns (slot: Option<byte>, pings: map<byte, int>)
      ensures slot == CP.PingSlot(m, now)
      ensures slot.Some? ==> pings[slot.value := now] == m[slot.value := now]
    {
      var pingId: byte := 0;
      var found := false;
      pings := m;
      var i := 0;
      while i <= 255 && !found
        invariant 0 <= i <= 256
        invariant !found ==> CP.FirstFree(m, i) == CP.FirstFree(m, 0)
        invariant found ==> CP.FirstFree(m, 0) == Some(pingId)
        decreases 256 - i, if found then 0 else 1
      {
        if (i as byte) !in pings {
          pingId := i as byte;
          found := true;
        } else {
          i := i + 1;
        }
      }
      if !found {
        var k := 0;
        while k <= 255 && !found
          invariant 0 <= k <= 256
          invariant !found ==> pings == m && CP.FirstStale(m, now, k) == CP.FirstStale(m, now, 0)
          invariant found ==> CP.FirstStale(m, now, 0) == Some(pingId) && pings == m - {pingId}
          decreases 256 - k, if found then 0 else 1
        {
          if (k as byte) in pings && now - pings[k as byte] > CP.StalePingMs {
            pingId := k as byte;
            pings := pings - {pingId};
            found := true;
          } else {
            k := k + 1;
          }
        }
        assert found ==> pings[pingId := now] == m[pingId := now];
      }
      slot := if found then Some(pingId) else None;
    }

    /** LatestPing: the newest round-trip sample, or 0 when there is none. */
    function LatestPing(): (ms: int)
      reads this
      ensures |pingTimes| > 0 ==> ms == pingTimes[|pingTimes| - 1]
      ensures |pingTimes| == 0 ==> ms == 0
    {
      if |pingTimes| > 0 then pingTimes[|pingTimes| - 1] else 0
    }

    /**
     * One turn of ConnectedClientInThread, given what the read returned
     * (empty for 0 or an error) and the worker's own framer; a dropped
     * client reads nothing. The answer is whether the worker keeps listening.
     */
    method ReceiveStep(buffer: PacketBuffers.PacketBuffer, chunk: seq<byte>) returns (listening: bool)
      requires buffer.Valid()
      modifies this, buffer
      ensures buffer.Valid()
      ensures (State(), buffer.State(), listening) == CP.Receive(buffer.format, old(State()), old(buffer.State()), chunk)
    {
      if !connected {
        return false;
      }
      if |chunk| == 0 {
        Disconnect();
        return false;
      }
      bytesReceived := bytesReceived + |chunk|;
      buffer.AddData(chunk);
      inBuffer := DrainFramer(buffer, inBuffer);
      return true;
    }

    /** The `while( Packet *packet = Buffer.Pop() )` loop: every completed packet of the worker's framer, oldest first, moved to the inbound queue. */
    static method DrainFramer(buffer: PacketBuffers.PacketBuffer, queue: seq<Packet>) returns (drained: seq<Packet>)
      requires buffer.Valid()
      modifies buffer
      ensures buffer.Valid()
      ensures drained == queue + old(buffer.complete)
      ensures buffer.State() == old(buffer.State()).(complete := [])
    {
      drained := queue;
      var packet := buffer.Pop();
      while packet.Some?
        modifies buffer
        invariant buffer.Valid()
        invariant buffer.unfinished == old(buffer.unfinished) && buffer.unfinishedSizeRemaining == old(buffer.unfinishedSizeRemaining)
        invariant drained + (if packet.Some? then [packet.value] else []) + buffer.complete == queue + old(buffer.complete)
        invariant packet.None? ==> buffer.complete == []
        decreases |buffer.complete| + (if packet.Some? then 1 else 0)
      {
        drained := drained + [packet.value];
        packet := buffer.Pop();
      }
      assert drained + [] + [] == drained;
    }

    /** One turn of ConnectedClientOutThread: while connected, the outbound queue is taken whole, cleared, and sent in order. */
    method FlushStep()
      modifies this
      ensures State() == CP.FlushOut(env, old(State()))
    {
      if !connected || outBuffer == [] {
        return;
      }
      var pending := outBuffer;
      outBuffer := [];
      ghost var goal := CP.Flush(env, State(), pending);
      while pending != []
        invariant CP.Flush(env, State(), pending) == goal
        decreases |pending|
      {
        var packet := pending[0];
        pending := pending[1..];
        var _ := SendNow(packet);
      }
    }
  }
}
