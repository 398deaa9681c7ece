/** The signaling hub of one instance: which local peer holds each role of each room. */
module Hub {
  import opened Rooms
  import opened Mailbox
  import Presence

  // ---------- the slot map ----------

  type Slots<P> = map<RoomId, map<Role, P>>

  function At<P>(slots: Slots<P>, room: RoomId, role: Role): Option<P> {
    if room in slots && role in slots[room] then Some(slots[room][role]) else None
  }

  /** No room is kept without an occupant. */
  ghost predicate NoEmptyRoom<P>(slots: Slots<P>) {
    forall room | room in slots :: slots[room] != map[]
  }

  /** The first critical section of Join: the newcomer takes the slot, whoever held it. */
  function Put<P>(slots: Slots<P>, room: RoomId, role: Role, p: P): Slots<P> {
    slots[room := (if room in slots then slots[room] else map[])[role := p]]
  }

  /** The critical section of Leave: the slot is freed only if `p` still holds it. */
  function Drop(slots: Slots<PeerId>, room: RoomId, role: Role, p: PeerId): Slots<PeerId> {
    if room !in slots then slots
    else
      var peers := if At(slots, room, role) == Some(p) then slots[room] - {role} else slots[room];
      if peers == map[] then slots - {room} else slots[room := peers]
  }

  lemma PutAt<P>(slots: Slots<P>, room: RoomId, role: Role, p: P)
    ensures forall r, k :: At(Put(slots, room, role, p), r, k) == if r == room && k == role then Some(p) else At(slots, r, k)
    ensures NoEmptyRoom(slots) ==> NoEmptyRoom(Put(slots, room, role, p))
  {
    assert role in Put(slots, room, role, p)[room];
  }

  /** A Leave evicts its own peer and nobody else. */
  lemma DropAt(slots: Slots<PeerId>, room: RoomId, role: Role, p: PeerId)
    ensures forall r, k ::
              At(Drop(slots, room, role, p), r, k) ==
              if r == room && k == role && At(slots, r, k) == Some(p) then None else At(slots, r, k)
    ensures NoEmptyRoom(slots) ==> NoEmptyRoom(Drop(slots, room, role, p))
  {
    var after := Drop(slots, room, role, p);
    forall r, k
      ensures At(after, r, k) == if r == room && k == role && At(slots, r, k) == Some(p) then None else At(slots, r, k)
    {
      if room in slots && r == room && k in slots[room] && !(k == role && At(slots, r, k) == Some(p)) {
        assert k in if At(slots, room, role) == Some(p) then slots[room] - {role} else slots[room];
      }
    }
  }

  // ---------- the class ----------

  /** The messages the server writes itself, and a client's message with its `from` overwritten. */
  datatype Envelope = Envelope(kind: string, from: Option<Role>, payload: string)

  const READY := Envelope("peer-ready", None, "")
  const MALFORMED := Envelope("error", None, "malformed message")

  function Bye(role: Role): Envelope {
    Envelope("bye", Some(role), "")
  }

  type Peer = WsPeer<Envelope>

  function IdsOf(slots: Slots<Peer>): Slots<PeerId> {
    map room | room in slots :: map role | role in slots[room] :: slots[room][role].id
  }

  /** Leave as the hub runs it, on peers compared by their ids. */
  function DropPeer(slots: Slots<Peer>, room: RoomId, p: Peer): Slots<Peer> {
    if room !in slots then slots
    else
      var held := p.role in slots[room] && slots[room][p.role].id == p.id;
      var peers := if held then slots[room] - {p.role} else slots[room];
      if peers == map[] then slots - {room} else slots[room := peers]
  }

  lemma IdsOfPut(slots: Slots<Peer>, room: RoomId, p: Peer)
    ensures IdsOf(Put(slots, room, p.role, p)) == Put(IdsOf(slots), room, p.role, p.id)
  {
    var left, right := IdsOf(Put(slots, room, p.role, p)), Put(IdsOf(slots), room, p.role, p.id);
    assert left.Keys == right.Keys;
    forall r | r in left ensures left[r] == right[r] {}
  }

  lemma IdsOfDrop(slots: Slots<Peer>, room: RoomId, p: Peer)
    ensures IdsOf(DropPeer(slots, room, p)) == Drop(IdsOf(slots), room, p.role, p.id)
  {
    if room in slots {
      var held := p.role in slots[room] && slots[room][p.role].id == p.id;
      var peers := if held then slots[room] - {p.role} else slots[room];
      var ids := if held then IdsOf(slots)[room] - {p.role} else IdsOf(slots)[room];
      assert ids == map role | role in peers :: peers[role].id;
      assert ids.Keys == peers.Keys;
      assert peers == map[] <==> ids == map[];
      var left, right := IdsOf(DropPeer(slots, room, p)), Drop(IdsOf(slots), room, p.role, p.id);
      assert left.Keys == right.Keys;
      forall r | r in left ensures left[r] == right[r] {}
    }
  }

  /** What a Leave keeps: no peer appears, none moves, and no room is left empty. */
  lemma DropPeerKeeps(slots: Slots<Peer>, room: RoomId, p: Peer)
    ensures NoEmptyRoom(slots) ==> NoEmptyRoom(DropPeer(slots, room, p))
    ensures forall r, k :: At(DropPeer(slots, room, p), r, k).Some? ==> At(DropPeer(slots, room, p), r, k) == At(slots, r, k)
  {
  }

  /** Join's loop over the roles already present; it stops at the counterpart. */
  method Includes(roles: seq<Role>, role: Role) returns (found: bool)
    ensures found <==> role in roles
  {
    for i := 0 to |roles|
      invariant role !in roles[..i]
    {
      if roles[i] == role {
        return true;
      }
    }
    return false;
  }

  /** A Hub with the in-process fanout and presence: Publish calls DeliverLocal directly. */
  class LocalHub {
    var rooms: Slots<Peer>
    const presence: Presence.LocalPresence
    var onRoomEnded: bool          // a callback is registered
    ghost var ended: seq<RoomId>   // the rooms it was called with
    ghost var peers: set<Peer>     // every peer a slot may hold

    ghost predicate Valid()
      reads this, presence, peers
    {
      && presence.Valid()
      && NoEmptyRoom(rooms)
      && (forall p | p in peers :: p.Valid())
      && forall room, role :: At(rooms, room, role).Some? ==>
           At(rooms, room, role).value in peers && At(rooms, room, role).value.role == role
    }

    constructor ()
      ensures Valid() && fresh(presence) && rooms == map[] && presence.rooms == map[] && peers == {} && ended == []
    {
      rooms := map[];
      presence := new Presence.LocalPresence();
      onRoomEnded := false;
      peers := {};
      ended := [];
    }

    /** Join's critical section. */
    method Register(room: RoomId, p: Peer)
      requires Valid() && p.Valid()
      modifies this`rooms, this`peers
      ensures Valid()
      ensures rooms == Put(old(rooms), room, p.role, p) && peers == old(peers) + {p}
    {
      PutAt(rooms, room, p.role, p);
      if room !in rooms {
        rooms := rooms[room := map[]];
      }
      rooms := rooms[room := rooms[room][p.role := p]];
      assert rooms == Put(old(rooms), room, p.role, p);
      peers := peers + {p};
    }

    /** Join's peer-ready frames: one to the newcomer, one published to its counterpart. */
    method SendBoth(room: RoomId, p: Peer)
      requires Valid() && p in peers && At(rooms, room, p.role) == Some(p)
      modifies peers
      ensures Valid() && p.View() == old(p.View()).Offer(READY)
      ensures forall q | q in peers && q != p ::
                q.View() == if At(rooms, room, Opposite(p.role)) == Some(q) then old(q.View()).Offer(READY) else old(q.View())
    {
      var _ := p.Send(READY);
      DeliverLocal(room, Opposite(p.role), READY);
    }

    /** Join: take the slot, count in, and when the counterpart is present tell both. */
    method Join(room: RoomId, p: Peer)
      requires Valid() && p.Valid()
      modifies this`rooms, this`peers, presence, p, peers
      ensures Valid()
      ensures rooms == Put(old(rooms), room, p.role, p) && peers == old(peers) + {p}
      ensures presence.rooms == Presence.Add(old(presence.rooms), room, p.role, 1)
      ensures var ready := Opposite(p.role) in Presence.Others(presence.rooms, room, p.role);
              && p.View() == (if ready then old(p.View()).Offer(READY) else old(p.View()))
              && forall q | q in old(peers) && q != p ::
                q.View() == if ready && At(rooms, room, Opposite(p.role)) == Some(q)
                            then old(q.View()).Offer(READY) else old(q.View())
    {
      PutAt(rooms, room, p.role, p);
      Register(room, p);
      var others := presence.Join(room, p.role);
      var ready := Includes(others, Opposite(p.role));
      assert ready <==> Opposite(p.role) in set r | r in others;
      if ready {
        SendBoth(room, p);
      }
    }

    /** Leave's critical section. */
    method Unregister(room: RoomId, p: Peer)
      modifies this`rooms
      ensures rooms == DropPeer(old(rooms), room, p)
    {
      if room in rooms {
        var peers := rooms[room];
        if p.role in peers && peers[p.role].id == p.id {
          peers := peers - {p.role};
        }
        rooms := if |peers| == 0 then rooms - {room} else rooms[room := peers];
      }
    }

    /** Leave: free the slot if it is still this peer's, count out, signal an emptied room. */
    method Leave(room: RoomId, p: Peer)
      requires Valid()
      modifies this`rooms, this`ended, presence
      ensures Valid()
      ensures rooms == DropPeer(old(rooms), room, p)
      ensures presence.rooms == Presence.LocalLeave(old(presence.rooms), room, p.role)
      ensures ended == old(ended) + if onRoomEnded && Presence.Vacant(presence.rooms, room) then [room] else []
    {
      DropPeerKeeps(rooms, room, p);
      Unregister(room, p);
      var empty := presence.Leave(room, p.role);
      if empty && onRoomEnded {
        ended := ended + [room];
      }
    }

    /** Relay: a frame goes to the opposite role of the sender's room. */
    method Relay(room: RoomId, sender: Peer, frame: Envelope)
      requires Valid()
      modifies peers
      ensures Valid()
      ensures forall q | q in peers ::
                q.View() == if At(rooms, room, Opposite(sender.role)) == Some(q) then old(q.View()).Offer(frame) else old(q.View())
    {
      DeliverLocal(room, Opposite(sender.role), frame);
    }

    method DeliverLocal(room: RoomId, target: Role, frame: Envelope)
      requires Valid()
      modifies peers
      ensures Valid()
      ensures forall q | q in peers ::
                q.View() == if At(rooms, room, target) == Some(q) then old(q.View()).Offer(frame) else old(q.View())
    {
      if room in rooms && target in rooms[room] {
        var peer := rooms[room][target];
        assert At(rooms, room, target) == Some(peer);
        var _ := peer.Send(frame);
      }
    }

    /** The gauge counts exactly the rooms in which some role is held. */
    method RoomCount() returns (n: nat)
      requires Valid()
      ensures n == |set room | room in rooms && (At(rooms, room, Agent).Some? || At(rooms, room, Phone).Some?)|
    {
      n := |rooms|;
      forall room | room in rooms
        ensures At(rooms, room, Agent).Some? || At(rooms, room, Phone).Some?
      {
        var role :| role in rooms[room];
        assert At(rooms, room, role).Some?;
      }
      assert rooms.Keys == set room | room in rooms && (At(rooms, room, Agent).Some? || At(rooms, room, Phone).Some?);
    }
  }
}
