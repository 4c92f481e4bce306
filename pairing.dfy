/**
 * The pairing-and-relay state machine of the signalling server, on values.
 *
 * The server holds one process-wide waiting slot, a peer reference per
 * connection (`ws.other`) and, as its only output, the notifications and
 * relayed payloads it sends. Each event handler (connection, message, close)
 * runs to completion on Node's event loop, so every event is one atomic step
 * from one `State` to the next. The class in module `Server` performs these
 * steps in place and is proved to agree with the functions here.
 */
module Pairing {

  /** Identity of one accepted connection (the `ws` object in the source). */
  type ConnId = nat

  /** A signalling payload: an opaque frame the relay never inspects. */
  type Payload = seq<bv8>

  datatype Option<T> = None | Some(value: T)

  /** What the server sends: three notifications and the relayed frames. */
  datatype Msg = Waiting | Match | Leave | Relayed(payload: Payload)

  /** One `send` call: the message and the connection it is addressed to. */
  datatype Envelope = Envelope(to: ConnId, msg: Msg)

  /**
   * waiting:  the module-level `waiting` slot
   * peer:     `ws.other` for every connection where it is set (absent = null)
   * open:     connections whose readyState is OPEN
   * accepted: every connection the server has ever accepted
   * outbox:   every `send` so far, in order
   */
  datatype State = State(
    waiting: Option<ConnId>,
    peer: map<ConnId, ConnId>,
    open: set<ConnId>,
    accepted: set<ConnId>,
    outbox: seq<Envelope>)

  /** `x.other === y` */
  predicate PairedWith(s: State, x: ConnId, y: ConnId) {
    x in s.peer && s.peer[x] == y
  }

  /** The peer reference of `x` is the same in `s` and `r`. */
  predicate SamePeer(s: State, r: State, x: ConnId) {
    (x in s.peer <==> x in r.peer) && (x in s.peer ==> s.peer[x] == r.peer[x])
  }

  /**
   * The invariant of every reachable state: pairing is mutual among open
   * connections (an open connection's peer is open and points back), nobody
   * is its own peer, and the slot holds at most one connection, which is
   * open and unpaired. A closed connection keeps its stale `other`.
   */
  predicate Valid(s: State) {
    && s.open <= s.accepted
    && (forall x :: x in s.peer ==> x in s.accepted && s.peer[x] in s.accepted && s.peer[x] != x)
    && (forall x :: x in s.open && x in s.peer ==>
          s.peer[x] in s.open && PairedWith(s, s.peer[x], x))
    && (s.waiting.Some? ==> s.waiting.value in s.open && s.waiting.value !in s.peer)
  }

  /** The server as it starts: nobody waiting, nobody connected, nothing sent. */
  function Init(): (s: State)
    ensures Valid(s)
    ensures s.waiting == None && s.accepted == {} && s.outbox == []
  {
    State(None, map[], {}, {}, [])
  }

  /**
   * The `connection` handler for a newly accepted connection `c`: with an
   * empty slot `c` takes it and is told `waiting`; otherwise `c` and the
   * waiting connection `w` are paired both ways, `w` and then `c` are told
   * `match`, and the slot is emptied.
   */
  function Connect(s: State, c: ConnId): (r: State)
    requires c !in s.accepted
    ensures r.accepted == s.accepted + {c} && r.open == s.open + {c}
    ensures s.waiting.None? ==>
      && r.waiting == Some(c)
      && r.peer == s.peer
      && r.outbox == s.outbox + [Envelope(c, Waiting)]
    ensures s.waiting.Some? ==>
      && r.waiting == None
      && PairedWith(r, c, s.waiting.value)
      && PairedWith(r, s.waiting.value, c)
      && (forall x :: x != c && x != s.waiting.value ==> SamePeer(s, r, x))
      && r.outbox == s.outbox + [Envelope(s.waiting.value, Match), Envelope(c, Match)]
    // exactly one of "c is waiting" and "c is paired" holds afterwards
    ensures Valid(s) ==> Valid(r) && (r.waiting == Some(c) <==> c !in r.peer)
  {
    var s' := s.(open := s.open + {c}, accepted := s.accepted + {c});
    match s.waiting
    case None =>
      s'.(waiting := Some(c), outbox := s.outbox + [Envelope(c, Waiting)])
    case Some(w) =>
      s'.(peer := s.peer[c := w][w := c],
          outbox := s.outbox + [Envelope(w, Match), Envelope(c, Match)],
          waiting := None)
  }

  /** The relay test of the `message` handler: `ws.other` is set and OPEN. */
  predicate Delivers(s: State, c: ConnId) {
    c in s.peer && s.peer[c] in s.open
  }

  /**
   * The `message` handler: payload `p` from `c` is forwarded unchanged to
   * the peer of `c` when that peer is open, and dropped otherwise. Nothing
   * but the outbox ever changes.
   */
  function Message(s: State, c: ConnId, p: Payload): (r: State)
    requires c in s.open
    ensures r.waiting == s.waiting && r.peer == s.peer
    ensures r.open == s.open && r.accepted == s.accepted
    ensures Delivers(s, c) ==> r.outbox == s.outbox + [Envelope(s.peer[c], Relayed(p))]
    ensures !Delivers(s, c) ==> r.outbox == s.outbox
    // in a reachable state the payload goes through exactly when c is paired,
    // and never back to its sender
    ensures Valid(s) ==> Valid(r) && (Delivers(s, c) <==> c in s.peer)
    ensures Valid(s) ==> forall i :: |s.outbox| <= i < |r.outbox| ==> r.outbox[i].to != c
  {
    if c in s.peer && s.peer[c] in s.open then
      s.(outbox := s.outbox + [Envelope(s.peer[c], Relayed(p))])
    else
      s
  }

  /**
   * The `close` handler for `c`: a peer, if any, is sent `leave` (without a
   * readyState test) and its own `other` is cleared; `c` keeps its stale
   * reference; the slot is emptied if `c` held it.
   */
  function Close(s: State, c: ConnId): (r: State)
    requires c in s.open
    ensures r.open == s.open - {c} && r.accepted == s.accepted
    ensures r.waiting == if s.waiting == Some(c) then None else s.waiting
    ensures c in s.peer ==>
      && r.outbox == s.outbox + [Envelope(s.peer[c], Leave)]
      && s.peer[c] !in r.peer
      && (forall x :: x != s.peer[c] ==> SamePeer(s, r, x))
    ensures c !in s.peer ==> r.peer == s.peer && r.outbox == s.outbox
    // the survivor stays open, idle and outside the slot
    ensures Valid(s) && c in s.peer ==>
      s.peer[c] in r.open && r.waiting == s.waiting && r.waiting != Some(s.peer[c])
    // closing the waiting connection sends nothing to anyone
    ensures Valid(s) && s.waiting == Some(c) ==> r.outbox == s.outbox && r.peer == s.peer
    ensures Valid(s) ==> Valid(r)
  {
    var s' := s.(open := s.open - {c});
    var s'' :=
      if c in s.peer then
        var p := s.peer[c];
        s'.(outbox := s.outbox + [Envelope(p, Leave)], peer := s.peer - {p})
      else s';
    if s.waiting == Some(c) then s''.(waiting := None) else s''
  }

  /** The events the `ws` library delivers to the three handlers. */
  datatype Event = Connected(c: ConnId) | Received(c: ConnId, p: Payload) | Closed(c: ConnId)

  /**
   * What the library guarantees: a new connection has an identity never seen
   * before; messages and the close event come only from an open connection.
   */
  predicate Enabled(s: State, e: Event) {
    match e
    case Connected(c) => c !in s.accepted
    case Received(c, _) => c in s.open
    case Closed(c) => c in s.open
  }

  /** One event handled to completion; None for an event the library never emits. */
  function Step(s: State, e: Event): (r: Option<State>)
    ensures r.Some? <==> Enabled(s, e)
    ensures r.Some? && Valid(s) ==> Valid(r.value)
    ensures r.Some? ==> |s.outbox| <= |r.value.outbox| && r.value.outbox[..|s.outbox|] == s.outbox
    // nothing is ever sent to a connection that is not open
    ensures r.Some? && Valid(s) ==>
      forall i :: |s.outbox| <= i < |r.value.outbox| ==> r.value.outbox[i].to in r.value.open
    // accepted connections stay accepted, and a closed one never reopens
    ensures r.Some? ==> s.accepted <= r.value.accepted
    ensures r.Some? ==> forall x :: x in s.accepted && x !in s.open ==> x !in r.value.open
  {
    match e
    case Connected(c) => if c !in s.accepted then Some(Connect(s, c)) else None
    case Received(c, p) => if c in s.open then Some(Message(s, c, p)) else None
    case Closed(c) => if c in s.open then Some(Close(s, c)) else None
  }

  /** A run of the event loop: the events handled one after another. */
  function Run(s: State, es: seq<Event>): (r: Option<State>)
    // every state the server reaches from a valid one is valid, and sends
    // are never taken back
    ensures r.Some? && Valid(s) ==> Valid(r.value)
    ensures r.Some? ==> |s.outbox| <= |r.value.outbox| && r.value.outbox[..|s.outbox|] == s.outbox
    decreases |es|
  {
    if es == [] then Some(s)
    else
      match Step(s, es[0])
      case None => None
      case Some(t) => Run(t, es[1..])
  }

  /**
   * A closed connection is terminated for good: whatever events follow, it
   * never becomes open again and nothing more is ever sent to it.
   */
  lemma {:induction false} ClosedIsTerminal(s: State, es: seq<Event>, x: ConnId)
    requires Valid(s) && x in s.accepted && x !in s.open
    requires Run(s, es).Some?
    ensures x !in Run(s, es).value.open
    ensures forall i :: |s.outbox| <= i < |Run(s, es).value.outbox| ==> Run(s, es).value.outbox[i].to != x
    decreases |es|
  {
    if es != [] {
      var t := Step(s, es[0]).value;
      ClosedIsTerminal(t, es[1..], x);
      var r := Run(s, es).value;
      assert r == Run(t, es[1..]).value;
      forall i | |s.outbox| <= i < |r.outbox| ensures r.outbox[i].to != x {
        if i < |t.outbox| {
          assert r.outbox[i] == r.outbox[..|t.outbox|][i] == t.outbox[i];
        }
      }
    }
  }

  /**
   * A connection that closes while waiting is never matched: from the moment
   * it closes, whatever events follow, nothing at all is sent to it.
   */
  lemma ClosedWaitingNeverMatched(es: seq<Event>, x: ConnId, rest: seq<Event>)
    requires Run(Init(), es).Some? && Run(Init(), es).value.waiting == Some(x)
    requires Run(Close(Run(Init(), es).value, x), rest).Some?
    ensures var s := Run(Init(), es).value;
      var r := Run(Close(s, x), rest).value;
      forall i :: |s.outbox| <= i < |r.outbox| ==> r.outbox[i].to != x
  {
    var s := Run(Init(), es).value;
    ClosedIsTerminal(Close(s, x), rest, x);
  }

  /** How many `leave` notifications `out` addresses to `x`. */
  function LeaveCount(out: seq<Envelope>, x: ConnId): nat
    decreases |out|
  {
    if out == [] then 0
    else LeaveCount(out[..|out| - 1], x) + (if out[|out| - 1] == Envelope(x, Leave) then 1 else 0)
  }

  /**
   * Only accepted connections are told `leave`, and one that has been told
   * it has been told it once, has no peer and is not in the slot: it can
   * never be paired again.
   */
  ghost predicate LeaveSettled(s: State) {
    forall x :: LeaveCount(s.outbox, x) > 0 ==>
      && LeaveCount(s.outbox, x) == 1
      && x in s.accepted
      && x !in s.peer
      && s.waiting != Some(x)
  }

  lemma LeaveCountAppend(out: seq<Envelope>, e: Envelope, x: ConnId)
    ensures LeaveCount(out + [e], x) == LeaveCount(out, x) + (if e == Envelope(x, Leave) then 1 else 0)
  {
  }

  /** Every handler keeps `LeaveSettled`. */
  lemma StepKeepsLeaveSettled(s: State, e: Event)
    requires Valid(s) && LeaveSettled(s) && Enabled(s, e)
    ensures LeaveSettled(Step(s, e).value)
  {
    var r := Step(s, e).value;
    match e
    case Connected(c) =>
      if s.waiting.None? {
        forall x ensures LeaveCount(r.outbox, x) == LeaveCount(s.outbox, x) {
          LeaveCountAppend(s.outbox, Envelope(c, Waiting), x);
        }
      } else {
        var w := s.waiting.value;
        forall x ensures LeaveCount(r.outbox, x) == LeaveCount(s.outbox, x) {
          LeaveCountAppend(s.outbox, Envelope(w, Match), x);
          LeaveCountAppend(s.outbox + [Envelope(w, Match)], Envelope(c, Match), x);
          assert r.outbox == s.outbox + [Envelope(w, Match)] + [Envelope(c, Match)];
        }
        forall x | LeaveCount(r.outbox, x) > 0 ensures x !in r.peer {
          assert x != c && x != w;
          assert SamePeer(s, r, x);
        }
      }
    case Received(c, p) =>
      if Delivers(s, c) {
        forall x ensures LeaveCount(r.outbox, x) == LeaveCount(s.outbox, x) {
          LeaveCountAppend(s.outbox, Envelope(s.peer[c], Relayed(p)), x);
        }
      }
    case Closed(c) =>
      if c in s.peer {
        var q := s.peer[c];
        forall x
          ensures LeaveCount(r.outbox, x) == LeaveCount(s.outbox, x) + (if x == q then 1 else 0)
        {
          LeaveCountAppend(s.outbox, Envelope(q, Leave), x);
        }
        forall x | LeaveCount(r.outbox, x) > 0 ensures x !in r.peer {
          if x != q {
            assert SamePeer(s, r, x);
          }
        }
      }
  }

  lemma {:induction false} RunKeepsLeaveSettled(s: State, es: seq<Event>)
    requires Valid(s) && LeaveSettled(s)
    ensures Run(s, es).Some? ==> LeaveSettled(Run(s, es).value)
    decreases |es|
  {
    if es != [] && Step(s, es[0]).Some? {
      StepKeepsLeaveSettled(s, es[0]);
      RunKeepsLeaveSettled(Step(s, es[0]).value, es[1..]);
    }
  }

  /**
   * Teardown notifies exactly once: in every run of the server, no
   * connection is ever told `leave` twice, and one that has been told it
   * has no peer and is not waiting.
   */
  lemma LeaveAtMostOnce(es: seq<Event>, x: ConnId)
    requires Run(Init(), es).Some?
    ensures var t := Run(Init(), es).value;
      && LeaveCount(t.outbox, x) <= 1
      && (LeaveCount(t.outbox, x) == 1 ==> x !in t.peer && t.waiting != Some(x))
  {
    RunKeepsLeaveSettled(Init(), es);
  }

  /** The ids in `cs` are pairwise distinct and none has been accepted in `s`. */
  predicate Fresh(s: State, cs: seq<ConnId>) {
    (forall i :: 0 <= i < |cs| ==> cs[i] !in s.accepted)
    && (forall i, j :: 0 <= i < j < |cs| ==> cs[i] != cs[j])
  }

  /** The connections `cs` connect, in order, and nothing else happens. */
  function ConnectAll(s: State, cs: seq<ConnId>): (r: State)
    requires Fresh(s, cs)
    ensures r.accepted == s.accepted + set c | c in cs
    ensures r.open == s.open + set c | c in cs
    ensures Valid(s) ==> Valid(r)
    decreases |cs|
  {
    if cs == [] then s
    else
      var pre := cs[..|cs| - 1];
      assert forall c :: c in pre ==> c != cs[|cs| - 1];
      Connect(ConnectAll(s, pre), cs[|cs| - 1])
  }

  /** Position of the connection paired with the one at position `i`. */
  function Partner(i: nat): (j: nat)
    ensures j / 2 == i / 2 && j != i
  {
    if i % 2 == 0 then i + 1 else i - 1
  }

  /**
   * The shape of the server after the connections `cs` have arrived in order
   * on a fresh server with no closes: the slot is occupied exactly when their
   * number is odd, and then by the last of them; the others are paired two by
   * two in order of arrival, and nobody else has a peer.
   */
  ghost predicate PairedInOrder(r: State, cs: seq<ConnId>) {
    && (r.waiting.Some? <==> |cs| % 2 == 1)
    && (|cs| % 2 == 1 ==> r.waiting == Some(cs[|cs| - 1]) && cs[|cs| - 1] !in r.peer)
    && (forall i :: 0 <= i < |cs| - |cs| % 2 ==>
          Partner(i) < |cs| && PairedWith(r, cs[i], cs[Partner(i)]))
    && (forall x :: x in r.peer ==> x in cs[..|cs| - |cs| % 2])
  }

  /** A connection arriving after an even number of them takes the slot. */
  lemma ConnectAfterEven(r: State, pre: seq<ConnId>, c: ConnId)
    requires PairedInOrder(r, pre) && |pre| % 2 == 0
    requires c !in r.accepted && c !in pre
    ensures PairedInOrder(Connect(r, c), pre + [c])
  {
  }

  /** A connection arriving after an odd number of them pairs with the last. */
  lemma ConnectAfterOdd(r: State, pre: seq<ConnId>, c: ConnId)
    requires PairedInOrder(r, pre) && |pre| % 2 == 1
    requires forall i, j :: 0 <= i < j < |pre| ==> pre[i] != pre[j]
    requires c !in r.accepted && c !in pre
    ensures PairedInOrder(Connect(r, c), pre + [c])
  {
    var r' := Connect(r, c);
    var cs := pre + [c];
    var n := |cs|;
    var w := pre[n - 2];
    assert cs[..n - n % 2] == cs;
    forall i | 0 <= i < n
      ensures Partner(i) < n && PairedWith(r', cs[i], cs[Partner(i)])
    {
      if i < n - 2 {
        assert cs[i] == pre[i] && cs[Partner(i)] == pre[Partner(i)];
        assert SamePeer(r, r', cs[i]);
      }
    }
    forall x | x in r'.peer ensures x in cs {
      if x != c && x != w {
        assert SamePeer(r, r', x);
        assert x in pre[..n - 2];
      }
    }
  }

  /**
   * After connections c1, c2, ..., cn arrive on a fresh server with no
   * closes, the slot is occupied exactly when n is odd, and then by cn;
   * c(2k-1) and c(2k) are paired with each other.
   */
  lemma {:induction false} ConnectsPairInOrder(cs: seq<ConnId>)
    requires Fresh(Init(), cs)
    ensures var r := ConnectAll(Init(), cs);
      && (r.waiting.Some? <==> |cs| % 2 == 1)
      && (|cs| % 2 == 1 ==> r.waiting == Some(cs[|cs| - 1]) && cs[|cs| - 1] !in r.peer)
      && (forall i :: 0 <= i < |cs| - |cs| % 2 ==>
            Partner(i) < |cs| && PairedWith(r, cs[i], cs[Partner(i)]))
      && (forall x :: x in r.peer ==> x in cs[..|cs| - |cs| % 2])
  {
    if cs != [] {
      var pre, c := cs[..|cs| - 1], cs[|cs| - 1];
      LastIsFresh(Init(), cs);
      LastConnect(Init(), cs);
      ConnectsPairInOrder(pre);
      var r := ConnectAll(Init(), pre);
      assert PairedInOrder(r, pre);
      ConnectExtendsPairing(r, pre, c);
      assert PairedInOrder(Connect(r, c), cs);
    }
  }

  /** One more connection keeps the arrival-order pairing shape. */
  lemma ConnectExtendsPairing(r: State, pre: seq<ConnId>, c: ConnId)
    requires PairedInOrder(r, pre)
    requires forall i, j :: 0 <= i < j < |pre| ==> pre[i] != pre[j]
    requires c !in r.accepted && c !in pre
    ensures PairedInOrder(Connect(r, c), pre + [c])
  {
    if |pre| % 2 == 0 {
      ConnectAfterEven(r, pre, c);
    } else {
      ConnectAfterOdd(r, pre, c);
    }
  }

  /** The last of a fresh sequence of ids is fresh after the others have connected. */
  lemma LastIsFresh(s: State, cs: seq<ConnId>)
    requires Fresh(s, cs) && cs != []
    ensures Fresh(s, cs[..|cs| - 1])
    ensures cs[|cs| - 1] !in cs[..|cs| - 1]
    ensures cs[|cs| - 1] !in ConnectAll(s, cs[..|cs| - 1]).accepted
  {
  }

  /** Connecting a fresh sequence of ids is connecting all but the last, then the last. */
  lemma LastConnect(s: State, cs: seq<ConnId>)
    requires Fresh(s, cs) && cs != []
    ensures cs == cs[..|cs| - 1] + [cs[|cs| - 1]]
    ensures ConnectAll(s, cs) == Connect(ConnectAll(s, cs[..|cs| - 1]), cs[|cs| - 1])
  {
    LastIsFresh(s, cs);
  }
}
