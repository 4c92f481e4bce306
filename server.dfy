/**
 * The signalling server as the source runs it: one object whose fields the
 * three event handlers update in place. `waiting` is the module-level slot,
 * `peer` holds the `other` field of every connection object, and `outbox`
 * records every `send`. Each handler is proved to perform exactly the step
 * that module `Pairing` defines, so the properties proved there hold of it.
 */
module Server {
  import opened Pairing

  class SignalingServer {
    var waiting: Option<ConnId>
    var peer: map<ConnId, ConnId>
    var open: set<ConnId>
    var accepted: set<ConnId>
    var outbox: seq<Envelope>

    /** The server's state as a value. */
    function Snapshot(): State
      reads this
    {
      State(waiting, peer, open, accepted, outbox)
    }

    ghost predicate Valid()
      reads this
    {
      Pairing.Valid(Snapshot())
    }

    /** The server as it starts listening: `let waiting = null`. */
    constructor ()
      ensures Valid() && Snapshot() == Init()
    {
      waiting := None;
      peer := map[];
      open := {};
      accepted := {};
      outbox := [];
    }

    /** The `connection` handler for the new connection `c`. */
    method OnConnection(c: ConnId)
      requires Valid() && c !in accepted
      modifies this
      ensures Valid() && Snapshot() == Connect(old(Snapshot()), c)
    {
      ghost var before := Snapshot();
      accepted := accepted + {c};
      open := open + {c};
      if waiting.Some? {
        var w := waiting.value;
        peer := peer[c := w];
        peer := peer[w := c];
        outbox := outbox + [Envelope(w, Match)];
        outbox := outbox + [Envelope(c, Match)];
        waiting := None;
      } else {
        waiting := Some(c);
        outbox := outbox + [Envelope(c, Waiting)];
      }
      assert Snapshot() == Connect(before, c);
    }

    /** The `message` handler of connection `c`, receiving `message`. */
    method OnMessage(c: ConnId, message: Payload)
      requires Valid() && c in open
      modifies this
      ensures Valid() && Snapshot() == Message(old(Snapshot()), c, message)
    {
      if c in peer && peer[c] in open {
        outbox := outbox + [Envelope(peer[c], Relayed(message))];
      }
    }

    /** The `close` handler of connection `c`. */
    method OnClose(c: ConnId)
      requires Valid() && c in open
      modifies this
      ensures Valid() && Snapshot() == Close(old(Snapshot()), c)
    {
      open := open - {c};
      if c in peer {
        var other := peer[c];
        outbox := outbox + [Envelope(other, Leave)];
        peer := peer - {other};
      }
      if waiting == Some(c) {
        waiting := None;
      }
    }
  }

  /** Scenario: A waits, B arrives, both are told `match` and the slot empties. */
  method ScenarioPairing(a: ConnId, b: ConnId)
    requires a != b
  {
    var server := new SignalingServer();
    server.OnConnection(a);
    assert server.outbox == [Envelope(a, Waiting)];
    server.OnConnection(b);
    assert server.outbox == [Envelope(a, Waiting), Envelope(a, Match), Envelope(b, Match)];
    assert server.waiting == None;
  }

  /** Scenario: A and B are paired; A's offer reaches B unchanged and nothing reaches A. */
  method ScenarioRelay(a: ConnId, b: ConnId, offer: Payload)
    requires a != b
  {
    var server := new SignalingServer();
    server.OnConnection(a);
    server.OnConnection(b);
    server.OnMessage(a, offer);
    assert server.outbox[3..] == [Envelope(b, Relayed(offer))];
  }

  /**
   * Scenario: A and B are paired and B leaves; A is told `leave` and is not
   * re-queued, so C is told to wait instead of being paired with A.
   */
  method ScenarioLeave(a: ConnId, b: ConnId, c: ConnId)
    requires a != b && b != c && a != c
  {
    var server := new SignalingServer();
    server.OnConnection(a);
    server.OnConnection(b);
    server.OnClose(b);
    assert server.outbox[3..] == [Envelope(a, Leave)];
    assert a !in server.peer && a in server.open;
    server.OnConnection(c);
    assert server.outbox[4..] == [Envelope(c, Waiting)];
    assert server.waiting == Some(c);
  }
}
