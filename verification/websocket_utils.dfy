/**
 * Delivery to connected clients (handlers/websocket_utils.py). The network is an
 * input: what one send to a client does is given as a `SendOutcome`, and a
 * heartbeat's successive pings as a sequence of outcomes.
 */
module WebsocketUtils {
  import opened Wrappers

  /** A client connection and the session attributes the server sets on it. */
  class Connection {
    var authenticated: bool
    var username: Option<string>

    /** A fresh connection is not authenticated and has no username. */
    constructor ()
      ensures !authenticated && username.None?
    {
      authenticated := false;
      username := None;
    }
  }

  /** The server's shared `connected_clients` set, passed around by reference. */
  class ClientSet {
    var members: set<Connection>

    constructor ()
      ensures members == {}
    {
      members := {};
    }
  }

  /** What one `ws.send(...)` does: it succeeds, finds the connection closed, or raises. */
  datatype SendOutcome = Delivered | ConnectionClosed | SendFailed(reason: string)

  /** `send_to_client`: never raises; true exactly when the send went through. */
  function SendToClient(outcome: SendOutcome): (ok: bool)
    ensures ok <==> outcome == Delivered
  {
    match outcome
    case Delivered => true
    case ConnectionClosed => false
    case SendFailed(_) => false
  }

  /** The clients of `snapshot` whose send fails. */
  ghost function Failed(snapshot: set<Connection>, outcome: Connection -> SendOutcome): set<Connection> {
    set c | c in snapshot && !SendToClient(outcome(c))
  }

  /**
   * The sending loop of `broadcast_to_all` over its copy of the set: one attempt per
   * client of the copy, in some order, none skipped after a failure; the failures are
   * collected in `disconnected`.
   */
  method SendToEach(snapshot: set<Connection>, outcome: Connection -> SendOutcome)
      returns (disconnected: set<Connection>, attempts: seq<Connection>)
    ensures |attempts| == |snapshot|
    ensures forall c :: c in snapshot <==> c in attempts
    ensures forall i, j :: 0 <= i < j < |attempts| ==> attempts[i] != attempts[j]
    ensures forall c :: c in disconnected <==> c in snapshot && !SendToClient(outcome(c))
  {
    disconnected := {};
    attempts := [];
    var todo := snapshot;
    while todo != {}
      invariant todo <= snapshot
      invariant forall c :: c in snapshot <==> c in todo || c in attempts
      invariant forall c :: c in todo ==> c !in attempts
      invariant |attempts| + |todo| == |snapshot|
      invariant forall i, j :: 0 <= i < j < |attempts| ==> attempts[i] != attempts[j]
      invariant forall c :: c in disconnected <==> c in attempts && !SendToClient(outcome(c))
      decreases |todo|
    {
      var ws :| ws in todo;
      var success := SendToClient(outcome(ws));
      if !success {
        disconnected := disconnected + {ws};
      }
      attempts := attempts + [ws];
      todo := todo - {ws};
    }
  }

  /**
   * The clean-up loop: `discard` each failed client from the live set. Works on whatever
   * the set holds now; a client already gone is no error, one not listed is untouched.
   */
  method DiscardAll(clients: ClientSet, disconnected: set<Connection>)
    modifies clients
    ensures clients.members == old(clients.members) - disconnected
  {
    var todo := disconnected;
    while todo != {}
      invariant todo <= disconnected
      invariant clients.members == old(clients.members) - (disconnected - todo)
      decreases |todo|
    {
      var ws :| ws in todo;
      clients.members := clients.members - {ws};
      todo := todo - {ws};
    }
  }

  /**
   * `broadcast_to_all`: sends to every client of a copy of the set taken on entry, then
   * removes exactly the ones whose send failed, and returns them.
   */
  method BroadcastToAll<F>(clients: ClientSet, frame: F, outcome: Connection -> SendOutcome)
      returns (disconnected: set<Connection>, attempts: seq<Connection>)
    modifies clients
    ensures forall c :: c in old(clients.members) <==> c in attempts
    ensures |attempts| == |old(clients.members)|
    ensures disconnected == Failed(old(clients.members), outcome)
    ensures clients.members == old(clients.members) - disconnected
    ensures forall c :: c in clients.members <==> c in old(clients.members) && SendToClient(outcome(c))
  {
    var snapshot := clients.members;
    disconnected, attempts := SendToEach(snapshot, outcome);
    DiscardAll(clients, disconnected);
  }

  /** Position of the first failed ping, if any. */
  function FirstFailure(pings: seq<SendOutcome>): (r: Option<nat>)
    ensures r.Some? ==> r.value < |pings| && !SendToClient(pings[r.value])
    ensures r.Some? ==> forall i :: 0 <= i < r.value ==> SendToClient(pings[i])
    ensures r.None? ==> forall i :: 0 <= i < |pings| ==> SendToClient(pings[i])
  {
    if |pings| == 0 then None
    else if !SendToClient(pings[0]) then Some(0)
    else match FirstFailure(pings[1..])
      case None => None
      case Some(i) => Some(i + 1)
  }

  /**
   * `heartbeat`: after each interval it pings; it goes on while pings succeed and stops
   * right after the first failed one. `pings` are the outcomes of the pings the task gets
   * to send before it is cancelled; `sent` counts those it sent.
   */
  method Heartbeat(pings: seq<SendOutcome>) returns (sent: nat, stoppedOnFailure: bool)
    ensures sent <= |pings|
    ensures stoppedOnFailure <==> exists i :: 0 <= i < |pings| && !SendToClient(pings[i])
    ensures stoppedOnFailure ==> sent > 0 && !SendToClient(pings[sent - 1])
    ensures forall i :: 0 <= i < sent - 1 ==> SendToClient(pings[i])
    ensures !stoppedOnFailure ==> sent == |pings|
    ensures stoppedOnFailure <==> FirstFailure(pings).Some?
    ensures stoppedOnFailure ==> sent == FirstFailure(pings).value + 1
  {
    sent := 0;
    stoppedOnFailure := false;
    while sent < |pings|
      invariant sent <= |pings|
      invariant forall i :: 0 <= i < sent ==> SendToClient(pings[i])
    {
      var ok := SendToClient(pings[sent]);
      sent := sent + 1;
      if !ok {
        stoppedOnFailure := true;
        return;
      }
    }
  }
}
