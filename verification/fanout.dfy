/**
 * The real-time fan-out: the set of connected WebSocket clients and the
 * broadcast of one `{ type, data }` envelope to every client whose socket
 * is open at the time of sending.
 *
 * A JavaScript `Set` iterates in insertion order and ignores a second
 * insertion of the same socket, so the subscriber set is a sequence of
 * clients with distinct ids. What a send does on the wire is not
 * modelled: a broadcast yields the list of deliveries it makes.
 */
module Fanout {
  import opened Http

  /** `WebSocket.readyState`. */
  datatype ReadyState = Connecting | Open | Closing | Closed

  datatype Client = Client(id: nat, state: ReadyState)

  /** One `client.send(message)`; the envelope is serialised once per
      broadcast, so every delivery of a broadcast carries the same one. */
  datatype Delivery = Delivery(to: nat, envelope: Event)

  ghost predicate DistinctIds(hub: seq<Client>)
  {
    forall i, j :: 0 <= i < j < |hub| ==> hub[i].id != hub[j].id
  }

  ghost function Ids(hub: seq<Client>): set<nat>
  {
    set i | 0 <= i < |hub| :: hub[i].id
  }

  // ---------------------------------------------------------------------
  // The subscriber set
  // ---------------------------------------------------------------------

  /** A new connection adds its socket; adding one already there changes
      nothing. */
  function Connect(hub: seq<Client>, c: Client): (r: seq<Client>)
    ensures Ids(r) == Ids(hub) + {c.id}
    ensures DistinctIds(hub) ==> DistinctIds(r)
    ensures |hub| <= |r| <= |hub| + 1 && r[..|hub|] == hub
    ensures c.id in Ids(hub) ==> r == hub
    ensures c.id !in Ids(hub) ==> r == hub + [c]
  {
    if exists i :: 0 <= i < |hub| && hub[i].id == c.id then hub
    else
      assert hub + [c] == hub + [c];
      assert forall x :: x in Ids(hub + [c]) <==> x in Ids(hub) || x == c.id by {
        forall x | x in Ids(hub) ensures x in Ids(hub + [c]) {
          var i :| 0 <= i < |hub| && hub[i].id == x;
          assert (hub + [c])[i].id == x;
        }
        assert (hub + [c])[|hub|].id == c.id;
      }
      hub + [c]
  }

  /** A close event removes the socket and keeps the others in order. */
  function Disconnect(hub: seq<Client>, id: nat): (r: seq<Client>)
    ensures forall c :: c in r <==> c in hub && c.id != id
    ensures (forall i :: 0 <= i < |hub| ==> hub[i].id != id) ==> r == hub
    decreases |hub|
  {
    if hub == [] then []
    else
      var rest := Disconnect(hub[1..], id);
      assert hub == [hub[0]] + hub[1..];
      if hub[0].id == id then rest else [hub[0]] + rest
  }

  /** The set after a close holds every other socket. */
  lemma DisconnectIds(hub: seq<Client>, id: nat)
    ensures Ids(Disconnect(hub, id)) == Ids(hub) - {id}
  {
    var r := Disconnect(hub, id);
    forall x | x in Ids(r) ensures x in Ids(hub) - {id} {
      var i :| 0 <= i < |r| && r[i].id == x;
      assert r[i] in r;
      var j :| 0 <= j < |hub| && hub[j] == r[i];
    }
    forall x | x in Ids(hub) - {id} ensures x in Ids(r) {
      var j :| 0 <= j < |hub| && hub[j].id == x;
      assert hub[j] in hub;
      var i :| 0 <= i < |r| && r[i] == hub[j];
    }
  }

  /** A close keeps the ids of the set distinct. */
  lemma {:induction false} DisconnectKeepsDistinct(hub: seq<Client>, id: nat)
    requires DistinctIds(hub)
    ensures DistinctIds(Disconnect(hub, id))
    decreases |hub|
  {
    if hub != [] {
      var rest := Disconnect(hub[1..], id);
      DisconnectKeepsDistinct(hub[1..], id);
      if hub[0].id != id {
        var r := [hub[0]] + rest;
        forall i, j | 0 <= i < j < |r| ensures r[i].id != r[j].id {
          if i == 0 {
            assert r[j] in rest;
            var k :| 0 <= k < |hub[1..]| && hub[1..][k] == r[j];
            assert hub[k + 1] == r[j];
          } else {
            assert r[i] == rest[i - 1] && r[j] == rest[j - 1];
          }
        }
      }
    }
  }

  /** Disconnecting a socket that has just connected restores the set. */
  lemma DisconnectUndoesConnect(hub: seq<Client>, c: Client)
    requires forall i :: 0 <= i < |hub| ==> hub[i].id != c.id
    ensures Disconnect(Connect(hub, c), c.id) == hub
  {
    DisconnectOfAppended(hub, c);
  }

  lemma {:induction false} DisconnectOfAppended(hub: seq<Client>, c: Client)
    requires forall i :: 0 <= i < |hub| ==> hub[i].id != c.id
    ensures Disconnect(hub + [c], c.id) == hub
    decreases |hub|
  {
    if hub != [] {
      assert (hub + [c])[1..] == hub[1..] + [c];
      DisconnectOfAppended(hub[1..], c);
      assert hub == [hub[0]] + hub[1..];
    }
  }

  // ---------------------------------------------------------------------
  // broadcastUpdate
  // ---------------------------------------------------------------------

  /** The deliveries a broadcast makes: one per open client, in the order
      the clients connected. */
  function Deliveries(hub: seq<Client>, envelope: Event): (r: seq<Delivery>)
    ensures forall k :: 0 <= k < |r| ==> r[k].envelope == envelope
    ensures |r| <= |hub|
    decreases |hub|
  {
    if hub == [] then []
    else
      var last := hub[|hub| - 1];
      Deliveries(hub[..|hub| - 1], envelope) + (if last.state == Open then [Delivery(last.id, envelope)] else [])
  }

  /** How many of the deliveries go to the client `id`. */
  function CountTo(ds: seq<Delivery>, id: nat): nat
    decreases |ds|
  {
    if ds == [] then 0
    else CountTo(ds[..|ds| - 1], id) + (if ds[|ds| - 1].to == id then 1 else 0)
  }

  ghost predicate OpenIn(hub: seq<Client>, id: nat)
  {
    exists i :: 0 <= i < |hub| && hub[i].id == id && hub[i].state == Open
  }

  lemma CountToAppended(ds: seq<Delivery>, tail: seq<Delivery>, id: nat)
    requires |tail| <= 1
    ensures CountTo(ds + tail, id) == CountTo(ds, id) + CountTo(tail, id)
  {
    if tail != [] {
      assert (ds + tail)[..|ds + tail| - 1] == ds;
      assert tail[..0] == [];
    } else {
      assert ds + tail == ds;
    }
  }

  /** Whether `id` is open in a set is decided by its last client and the
      ones before it. */
  lemma OpenInStep(hub: seq<Client>, id: nat)
    requires DistinctIds(hub) && hub != []
    ensures var init, last := hub[..|hub| - 1], hub[|hub| - 1];
            && (OpenIn(hub, id) <==> OpenIn(init, id) || (last.id == id && last.state == Open))
            && !(OpenIn(init, id) && last.id == id)
  {
    var init, last := hub[..|hub| - 1], hub[|hub| - 1];
    if OpenIn(hub, id) {
      var i :| 0 <= i < |hub| && hub[i].id == id && hub[i].state == Open;
      if i < |hub| - 1 {
        assert init[i] == hub[i];
      }
    }
    if OpenIn(init, id) {
      var i :| 0 <= i < |init| && init[i].id == id && init[i].state == Open;
      assert hub[i] == init[i];
    }
  }

  /** Every open client receives the envelope exactly once, and no other
      client receives anything. */
  lemma {:induction false} EachOpenClientOnce(hub: seq<Client>, envelope: Event, id: nat)
    requires DistinctIds(hub)
    ensures CountTo(Deliveries(hub, envelope), id) == if OpenIn(hub, id) then 1 else 0
    decreases |hub|
  {
    if hub != [] {
      var init := hub[..|hub| - 1];
      var last := hub[|hub| - 1];
      EachOpenClientOnce(init, envelope, id);
      var tail: seq<Delivery> := if last.state == Open then [Delivery(last.id, envelope)] else [];
      CountToAppended(Deliveries(init, envelope), tail, id);
      OpenInStep(hub, id);
    }
  }

  /** With no open client a broadcast sends nothing. */
  lemma {:induction false} NoOpenClientNoDelivery(hub: seq<Client>, envelope: Event)
    requires forall i :: 0 <= i < |hub| ==> hub[i].state != Open
    ensures Deliveries(hub, envelope) == []
    decreases |hub|
  {
    if hub != [] {
      NoOpenClientNoDelivery(hub[..|hub| - 1], envelope);
    }
  }

  /** `broadcastUpdate(type, data)`: walk the subscriber set in order and
      send the envelope to each client whose socket is open. */
  method Broadcast(hub: seq<Client>, envelope: Event) returns (sent: seq<Delivery>)
    ensures sent == Deliveries(hub, envelope)
    ensures forall k :: 0 <= k < |sent| ==> sent[k].envelope == envelope
    ensures DistinctIds(hub) ==> forall id :: CountTo(sent, id) == if OpenIn(hub, id) then 1 else 0
  {
    sent := [];
    var i := 0;
    while i < |hub|
      invariant 0 <= i <= |hub|
      invariant sent == Deliveries(hub[..i], envelope)
    {
      assert hub[..i + 1][..i] == hub[..i];
      if hub[i].state == Open {
        sent := sent + [Delivery(hub[i].id, envelope)];
      }
      i := i + 1;
    }
    assert hub[..|hub|] == hub;
    if DistinctIds(hub) {
      forall id ensures CountTo(sent, id) == if OpenIn(hub, id) then 1 else 0 {
        EachOpenClientOnce(hub, envelope, id);
      }
    }
  }

  /** The deliveries of broadcasting each event in turn. */
  function AllDeliveries(hub: seq<Client>, events: seq<Event>): (r: seq<Delivery>)
    ensures forall k :: 0 <= k < |r| ==> r[k].envelope in events
    decreases |events|
  {
    if events == [] then []
    else
      var init := events[..|events| - 1];
      var r := AllDeliveries(hub, init) + Deliveries(hub, events[|events| - 1]);
      assert forall k :: 0 <= k < |r| ==> r[k].envelope in events by {
        forall k | 0 <= k < |r| ensures r[k].envelope in events {
          if k < |AllDeliveries(hub, init)| {
            var x := r[k].envelope;
            assert x in init;
            var j :| 0 <= j < |init| && init[j] == x;
            assert events[j] == x;
          }
        }
      }
      r
  }

  /** Broadcasting every event a handler produced, in order. */
  method BroadcastAll(hub: seq<Client>, events: seq<Event>) returns (sent: seq<Delivery>)
    ensures sent == AllDeliveries(hub, events)
    ensures forall k :: 0 <= k < |sent| ==> sent[k].envelope in events
  {
    sent := [];
    var j := 0;
    while j < |events|
      invariant 0 <= j <= |events|
      invariant sent == AllDeliveries(hub, events[..j])
    {
      assert events[..j + 1][..j] == events[..j];
      var one := Broadcast(hub, events[j]);
      sent := sent + one;
      j := j + 1;
    }
    assert events[..|events|] == events;
  }

  /** A write endpoint that failed reaches no client. */
  lemma FailedWriteReachesNoOne(hub: seq<Client>, h: Handled, ok: nat, failure: nat, message: string)
    requires WritePolicy(h, ok, failure, message)
    requires h.response.status == failure
    ensures AllDeliveries(hub, h.events) == []
  {
  }
}
