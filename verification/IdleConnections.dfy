/**
  The server's table of connections and its idle scan. For each connection the
  table holds the time of its last frame, which is all that the timed machine of
  KeepAlive needs to know about the server.
 */
module IdleConnections {
  import opened Common
  import opened KeepAlive

  type ConnectionId = nat

  datatype ConnectionState = ConnectionState(lastActivity: int, missedHeartbeats: nat)

  class KrpcProvider {
    const config: Config
    const idleCloseThresholdMs: nat
    var connectionStates: map<ConnectionId, ConnectionState>

    /** The connection is registered and last heard of when `s` says. */
    ghost predicate Matches(conn: ConnectionId, s: State)
      reads this
    {
      && idleCloseThresholdMs == Threshold(config)
      && s.open && conn in connectionStates && connectionStates[conn].lastActivity == s.lastActivity
    }

    constructor (config: Config)
      ensures this.config == config && idleCloseThresholdMs == Threshold(config) && connectionStates == map[]
    {
      this.config := config;
      idleCloseThresholdMs := Threshold(config);
      connectionStates := map[];
    }

    method RegisterConnection(conn: ConnectionId, now: int)
      modifies this
      ensures connectionStates == old(connectionStates)[conn := ConnectionState(now, 0)]
      ensures now == 0 && idleCloseThresholdMs == Threshold(config) ==>
        forall firstWake, firstScan :: Matches(conn, Init(firstWake, firstScan))
    {
      connectionStates := connectionStates[conn := ConnectionState(now, 0)];
    }

    method RemoveConnection(conn: ConnectionId)
      modifies this
      ensures connectionStates == old(connectionStates) - {conn}
    {
      connectionStates := connectionStates - {conn};
    }

    /** A frame of a registered connection is noted; an unknown connection stays unknown. */
    method TouchConnection(conn: ConnectionId, now: int)
      modifies this
      ensures connectionStates.Keys == old(connectionStates).Keys
      ensures forall other :: other in connectionStates && other != conn ==> connectionStates[other] == old(connectionStates)[other]
      ensures conn in connectionStates ==> connectionStates[conn] == ConnectionState(now, 0)
      ensures forall s: State :: old(Matches(conn, s)) && s.now == now ==>
        Matches(conn, Effect(config, s, OtherFrame)) && (s.pings != [] ==> Matches(conn, Effect(config, s, DeliverPing)))
    {
      if conn !in connectionStates {
        return;
      }
      connectionStates := connectionStates[conn := ConnectionState(now, 0)];
    }

    /** Exactly the live connections idle for the threshold or longer are closed, each once. */
    method OnIdleScan(now: int, alive: set<ConnectionId>) returns (toClose: seq<ConnectionId>)
      ensures forall conn :: conn in toClose <==>
        conn in connectionStates && conn in alive && now - connectionStates[conn].lastActivity >= idleCloseThresholdMs
      ensures forall i, j :: 0 <= i < j < |toClose| ==> toClose[i] != toClose[j]
      ensures forall conn, s: State :: Matches(conn, s) && s.now == now && conn in alive ==>
        (conn in toClose <==> !Effect(config, s.(nextScan := now), Scan).open)
    {
      hide Threshold;
      toClose := [];
      var rest := connectionStates.Keys;
      while rest != {}
        invariant rest <= connectionStates.Keys
        invariant forall conn :: conn in toClose <==>
          conn in connectionStates.Keys - rest && conn in alive && now - connectionStates[conn].lastActivity >= idleCloseThresholdMs
        invariant forall i, j :: 0 <= i < j < |toClose| ==> toClose[i] != toClose[j]
        decreases |rest|
      {
        var conn :| conn in rest;
        rest := rest - {conn};
        if now - connectionStates[conn].lastActivity >= idleCloseThresholdMs && conn in alive {
          toClose := toClose + [conn];
        }
      }
    }
  }
}
