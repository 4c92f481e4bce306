# Signalling relay: pairing and relay state machine

This project models the WebSocket signalling server of a one-to-one video
chat (`server/server.js`). The server pairs anonymous clients two by two and
relays their opaque signalling frames (offer, answer, ICE candidate) between
the two members of a pair. Its state has three parts:

- the module-level `waiting` slot, which holds at most one connection;
- the `other` field of every connection object, which is its peer reference;
- the sequence of `send` calls it has made.

Three event handlers update that state.

- **connection**: with an empty slot, the newcomer takes the slot and is told
  `waiting`. Otherwise the newcomer and the waiting connection are paired both
  ways. The waiting one is told `match` first, then the newcomer. The slot is
  then emptied.
- **message**: the frame's bytes are forwarded unchanged to `other` when that
  peer is set and OPEN. Otherwise it is dropped silently.
- **close**: a peer, if any, is told `leave` and its `other` is cleared. It is
  not put back in the slot. The slot is emptied if the closing connection held
  it.

Node runs each handler to completion, so each event is one atomic step.

The project has two modules.

- `Pairing` (`pairing.dfy`) defines the state as a value (`State`). Each
  handler is a step function on it: `Connect`, `Message` and `Close`. The
  module also holds the invariant `Valid`, the event loop (`Step`, `Run`) and
  the properties proved about them.
- `Server` (`server.dfy`) holds the class `SignalingServer`. Its fields are
  the slot, the peer references, the open and accepted connections, and the
  outbox. Its handler methods update those fields in place, in the statement
  order of the source. Each method is proved to perform exactly the
  corresponding `Pairing` step and to keep `Valid`. Three client methods
  run short event sequences against the class:
  - `ScenarioPairing`: A connects and is told `waiting`; B connects, A and B
    are each told `match`, and the slot is empty.
  - `ScenarioRelay`: A and B are paired; A's frame reaches B unchanged, and
    nothing is sent to A.
  - `ScenarioLeave`: A and B are paired and B closes; A is told `leave`, has
    no peer and stays open; then C connects and is told `waiting` instead of
    being paired with A.

Connection identities are natural numbers. `accepted` records every
connection ever accepted, so "a new connection" means an identity not in it.
`open` stands for `readyState === OPEN`. A peer reference that is null or
undefined is a key missing from the `peer` map.

Three details of the handlers shape the model:

- The `leave` notification on close is sent without a readyState test
  (`server/server.js:37`), unlike the relay, which tests it
  (`server/server.js:26`). `Step` proves that in every reachable state the
  `leave` target is open anyway.
- The closing connection's own `other` is never cleared
  (`server/server.js:36-39`). The model keeps that stale entry in `peer`, so
  symmetry is stated over open connections only.
- The two `match` notifications go to the waiting connection first, then to
  the newcomer (`server/server.js:13-14`). Either order would serve the
  clients, but the model keeps the one the code uses.

## Model

| member | source | states |
|---|---|---|
| `Pairing.Init` | server/server.js:5 | The server starts with an empty slot, no connections and nothing sent, and that state satisfies the invariant. |
| `Pairing.Connect` | server/server.js:9-21 | Empty slot: the newcomer takes it, peers are unchanged, and exactly one `waiting` is sent, to the newcomer. Occupied slot: newcomer and waiting connection point at each other, no other peer reference changes, `match` goes to the waiting one and then to the newcomer, and the slot is emptied. In a valid state the invariant is kept, and afterwards the newcomer is either waiting or paired, never both. |
| `Pairing.Message` | server/server.js:23-32 | The frame's bytes are appended unchanged, addressed to the peer, exactly when the peer exists and is open. Otherwise nothing is sent. Slot, peers and connection sets never change. In a valid state a frame goes through iff the sender is paired, and never back to the sender. |
| `Pairing.Close` | server/server.js:34-45 | The closing connection leaves the open set. If it had a peer, exactly one `leave` goes to that peer, the peer's reference is cleared, and no other reference changes (the closer keeps its own). The slot is emptied iff the closer held it. In a valid state the survivor stays open and outside the slot, closing the waiting connection sends nothing, and the invariant is kept. |
| `Pairing.Step` | server/server.js:7-50 | An event is handled iff the library can emit it: fresh identity on connect, open connection on message and close. Handling keeps the invariant, only appends to the outbox, and addresses every new send to an open connection. Accepted connections stay accepted, and a closed connection never reopens. |
| `Pairing.Run` | server/server.js:7-50 | Over any sequence of events, every state reached from a valid state is valid. Pairing stays mutual among open connections, nobody is their own peer, and the slot holds at most one open, unpaired connection. Sends are never taken back. |
| `Pairing.ConnectAll` | server/server.js:9-21 | Connecting distinct new identities in order adds exactly them to the accepted and open sets, and keeps the invariant. |
| `Pairing.ConnectAfterEven` | server/server.js:17-20 | After an even number of connects, the next connection takes the slot and the existing pairs are untouched. |
| `Pairing.ConnectAfterOdd` | server/server.js:9-16 | After an odd number of connects, the next connection pairs with the last one and empties the slot, and the earlier pairs are untouched. |
| `Pairing.ConnectsPairInOrder` | server/server.js:9-21 | By induction on the arrivals: after n connects with no closes, the slot is occupied iff n is odd, and then by the last arrival. Arrivals 2k-1 and 2k are paired with each other, and no one else has a peer. |
| `Pairing.ClosedIsTerminal` | server/server.js:34-45 | From any valid state, a closed connection stays closed whatever events follow, and nothing more is ever sent to it. |
| `Pairing.ClosedWaitingNeverMatched` | server/server.js:41-44 | In any run, if the waiting connection closes, then from then on nothing is ever sent to it: in particular it is never told `match`. |
| `Pairing.StepKeepsLeaveSettled` | server/server.js:34-45 | Every handler keeps this property: only accepted connections are told `leave`, none is told twice, and one that was told has no peer and is not waiting. |
| `Pairing.RunKeepsLeaveSettled` | server/server.js:36-39 | The same property holds after any sequence of events. |
| `Pairing.LeaveAtMostOnce` | server/server.js:36-39 | In every run from the start, each connection receives at most one `leave`. After it, that connection is never paired or waiting again. |
| `Server.SignalingServer.constructor` | server/server.js:5 | The new server is in the initial state, which satisfies the invariant. |
| `Server.SignalingServer.OnConnection` | server/server.js:7-21 | Updating the fields in place performs exactly `Pairing.Connect` and keeps the invariant. |
| `Server.SignalingServer.OnMessage` | server/server.js:23-32 | Updating the fields in place performs exactly `Pairing.Message` and keeps the invariant. |
| `Server.SignalingServer.OnClose` | server/server.js:34-45 | Updating the fields in place performs exactly `Pairing.Close` and keeps the invariant. |

## Left out

- The browser client (`src/components/VideoChat.js`): React state, WebRTC
  offer/answer/ICE handling and camera capture. These are presentation and
  browser APIs with no relay state of their own.
- The `ws` library itself is not modelled: socket creation, binding port
  5000, and actual network delivery. A `send` is an append to the outbox.
- JSON encoding of the notifications. `waiting`, `match` and `leave` are
  constructors of `Msg`, and relayed frames are opaque byte sequences.
- Console logging, and the `error` handler, which only logs.
- The CONNECTING and CLOSING ready states, and real concurrency. Liveness is a
  boolean (membership in `open`). Each handler is one atomic step, as Node's
  event loop guarantees. In this model the readyState test in the message
  handler therefore succeeds whenever the sender is paired.
- Whether a relayed frame is text or binary. `ws.other.send(message)`
  (`server/server.js:27`) forwards what the library delivered. Depending on
  the library version that can be a Buffer, which is sent as a binary frame
  even when the client sent text. The model relays the same bytes and does
  not record the frame kind.
- Repeated `close` events for one connection. The close handler is not
  idempotent: a second run would find the stale `ws.other`
  (`server/server.js:36-38`) and send `leave` again. `Enabled` admits
  `close` only for an open connection, because the library emits it once per
  connection, and `LeaveAtMostOnce` rests on that guarantee.
- Object identity and aliasing of connection objects: `ws.other` is the map
  `peer` from connection identity to peer identity, not a field on separate
  heap objects.
