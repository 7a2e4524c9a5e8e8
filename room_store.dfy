/** The path-keyed store under `livestream/rooms`, seen as a map from room id
    to the room node, and the room-registry decisions made over it. Like the
    real store, a node left without children is not kept: every write goes
    through `Put`, which drops an empty room. */
module RoomStore {
  import opened Signaling

  type Rooms = map<RoomId, Room>

  /** What a read of `rooms/<id>` sees: an absent node reads as empty. */
  function RoomAt(rooms: Rooms, id: RoomId): Room
  {
    if id in rooms then rooms[id] else EmptyRoom
  }

  /** Stores `room` at `id`, leaving every other room as it was. */
  function Put(rooms: Rooms, id: RoomId, room: Room): (r: Rooms)
    ensures RoomAt(r, id) == room
    ensures id in r <==> room != EmptyRoom
    ensures r - {id} == rooms - {id}
  {
    if room == EmptyRoom then rooms - {id} else rooms[id := room]
  }

  /** `set(rooms/<id>/participants/<user>, true)`. */
  function WithParticipant(rooms: Rooms, id: RoomId, user: UserId): (r: Rooms)
    ensures id in r && user in RoomAt(r, id).participants
    ensures RoomAt(r, id) == RoomAt(rooms, id).(participants := RoomAt(rooms, id).participants + {user})
    ensures r - {id} == rooms - {id}
  {
    var room := RoomAt(rooms, id);
    Put(rooms, id, room.(participants := room.participants + {user}))
  }

  /** `remove(rooms/<id>/participants/<user>)`: other participants and the
      rest of the room stay; the room node goes only if nothing is left in it. */
  function WithoutParticipant(rooms: Rooms, id: RoomId, user: UserId): (r: Rooms)
    ensures user !in RoomAt(r, id).participants
    ensures RoomAt(r, id) == RoomAt(rooms, id).(participants := RoomAt(rooms, id).participants - {user})
    ensures r - {id} == rooms - {id}
  {
    var room := RoomAt(rooms, id);
    Put(rooms, id, room.(participants := room.participants - {user}))
  }

  /** `set(rooms/<id>/offer, offer)`. */
  function WithOffer(rooms: Rooms, id: RoomId, offer: SessionDescription): (r: Rooms)
    ensures id in r && RoomAt(r, id).offer == Some(offer)
    ensures RoomAt(r, id) == RoomAt(rooms, id).(offer := Some(offer))
    ensures r - {id} == rooms - {id}
  {
    Put(rooms, id, RoomAt(rooms, id).(offer := Some(offer)))
  }

  /** `set(rooms/<id>/answer, answer)`. */
  function WithAnswer(rooms: Rooms, id: RoomId, answer: SessionDescription): (r: Rooms)
    ensures id in r && RoomAt(r, id).answer == Some(answer)
    ensures RoomAt(r, id) == RoomAt(rooms, id).(answer := Some(answer))
    ensures r - {id} == rooms - {id}
  {
    Put(rooms, id, RoomAt(rooms, id).(answer := Some(answer)))
  }

  /** `push(rooms/<id>/<log>, c)`: `c` goes to the end of that log; earlier
      entries, the other log, both descriptions and the participants stay. */
  function Appended(rooms: Rooms, id: RoomId, log: CandidateLog, c: Candidate): (r: Rooms)
    ensures id in r
    ensures RoomAt(r, id).Log(log) == RoomAt(rooms, id).Log(log) + [c]
    ensures forall other :: other != log ==> RoomAt(r, id).Log(other) == RoomAt(rooms, id).Log(other)
    ensures RoomAt(r, id).offer == RoomAt(rooms, id).offer && RoomAt(r, id).answer == RoomAt(rooms, id).answer
    ensures RoomAt(r, id).participants == RoomAt(rooms, id).participants
    ensures r - {id} == rooms - {id}
  {
    var room := RoomAt(rooms, id);
    match log
    case CallerCandidates => Put(rooms, id, room.(callerCandidates := room.callerCandidates + [c]))
    case CalleeCandidates => Put(rooms, id, room.(calleeCandidates := room.calleeCandidates + [c]))
  }

  /** `cleanupOnExit`: remove this participant, then delete the whole room
      subtree if the participants node no longer exists. */
  function AfterCleanup(rooms: Rooms, id: RoomId, user: UserId): (r: Rooms)
    ensures user !in RoomAt(r, id).participants
    ensures id in r <==> RoomAt(rooms, id).participants - {user} != {}
    ensures id in r ==> RoomAt(r, id) == RoomAt(rooms, id).(participants := RoomAt(rooms, id).participants - {user})
    ensures r - {id} == rooms - {id}
  {
    var left := WithoutParticipant(rooms, id, user);
    if RoomAt(left, id).participants == {} then left - {id} else left
  }

  /** Running the exit cleanup a second time changes nothing. */
  lemma CleanupIdempotent(rooms: Rooms, id: RoomId, user: UserId)
    ensures AfterCleanup(AfterCleanup(rooms, id, user), id, user) == AfterCleanup(rooms, id, user)
  {
    var once := AfterCleanup(rooms, id, user);
    var twice := AfterCleanup(once, id, user);
    assert twice - {id} == once - {id};
    if id in once {
      assert RoomAt(once, id).participants - {user} == RoomAt(once, id).participants;
      assert twice[id] == once[id];
    }
    assert twice.Keys == once.Keys;
  }

  /** When the two participants of a room both run the exit cleanup, one after
      the other and in either order, the room is gone entirely afterwards; the
      other rooms are untouched. */
  lemma BothLeavingDeletesRoom(rooms: Rooms, id: RoomId, a: UserId, b: UserId)
    requires RoomAt(rooms, id).participants <= {a, b}
    ensures id !in AfterCleanup(AfterCleanup(rooms, id, a), id, b)
    ensures AfterCleanup(AfterCleanup(rooms, id, a), id, b) == rooms - {id}
  {
    var first := AfterCleanup(rooms, id, a);
    var second := AfterCleanup(first, id, b);
    assert RoomAt(first, id).participants <= {b};
    assert second - {id} == rooms - {id};
  }

  /** A participant removal alone (the store's remove-on-disconnect) never
      deletes the rest of the room: once the last participant drops, whatever
      was written under the room stays behind as an orphan. */
  lemma DisconnectLeavesOrphan(rooms: Rooms, id: RoomId, user: UserId)
    requires RoomAt(rooms, id).participants == {user}
    requires RoomAt(rooms, id).offer.Some?
    ensures id in WithoutParticipant(rooms, id, user)
    ensures RoomAt(WithoutParticipant(rooms, id, user), id).participants == {}
    ensures RoomAt(WithoutParticipant(rooms, id, user), id).offer == RoomAt(rooms, id).offer
  {
  }

  /** `cleanupOnExit` as the page has it: the participant record and the room
      it removes are those of `captured`, the room the exit listener was
      registered for, but the existence read goes to `current`, whatever the
      page-wide `roomId` holds when the page exits. */
  function CleanupAsWritten(rooms: Rooms, captured: RoomId, current: RoomId, user: UserId): (r: Rooms)
    ensures user !in RoomAt(r, captured).participants
    ensures r - {captured} == rooms - {captured}
    ensures captured in r ==>
      RoomAt(r, captured) == RoomAt(rooms, captured).(participants := RoomAt(rooms, captured).participants - {user})
    ensures captured != current && RoomAt(rooms, current).participants == {} ==> captured !in r
    ensures captured != current && RoomAt(rooms, current).participants != {} ==>
      r == WithoutParticipant(rooms, captured, user)
  {
    var left := WithoutParticipant(rooms, captured, user);
    if RoomAt(left, current).participants == {} then left - {captured} else left
  }

  /** While `roomId` still names the room the listener captured, the cleanup as
      written is exactly the intended one. */
  lemma {:induction false} CleanupAsWrittenOnCapturedRoom(rooms: Rooms, id: RoomId, user: UserId)
    ensures CleanupAsWritten(rooms, id, id, user) == AfterCleanup(rooms, id, user)
  {
    var left := WithoutParticipant(rooms, id, user);
    assert RoomAt(left, id).participants == RoomAt(rooms, id).participants - {user};
  }

  /** Once `roomId` names another node, one with no participants, the cleanup
      as written deletes the captured room even though someone is still in it;
      the intended cleanup keeps that room with its remaining participants. */
  lemma {:induction false} StaleReadDeletesOccupiedRoom(rooms: Rooms, captured: RoomId, current: RoomId, user: UserId)
    requires captured != current
    requires RoomAt(rooms, captured).participants - {user} != {}
    requires RoomAt(rooms, current).participants == {}
    ensures captured !in CleanupAsWritten(rooms, captured, current, user)
    ensures captured in AfterCleanup(rooms, captured, user)
    ensures RoomAt(AfterCleanup(rooms, captured, user), captured).participants
         == RoomAt(rooms, captured).participants - {user}
  {
  }

  /** A concrete run: the creator of room "abcd1234" presses "join" and cancels
      the prompt, so `roomId` becomes null and the read goes to `rooms/null`.
      On exit the room is deleted, offer and joiner included. */
  lemma ReentryDeletesJoinersRoom(offer: SessionDescription, creator: UserId, joiner: UserId)
    requires creator != joiner
    ensures var rooms := map["abcd1234" := Room(Some(offer), None, [], [], {creator, joiner})];
      CleanupAsWritten(rooms, "abcd1234", "null", creator) == map[] &&
      AfterCleanup(rooms, "abcd1234", creator) == map["abcd1234" := Room(Some(offer), None, [], [], {joiner})]
  {
    var rooms := map["abcd1234" := Room(Some(offer), None, [], [], {creator, joiner})];
    assert {creator, joiner} - {creator} == {joiner};
    assert "abcd1234" != "null";
    StaleReadDeletesOccupiedRoom(rooms, "abcd1234", "null", creator);
    assert rooms - {"abcd1234"} == map[];
  }

  /** The signalling store (Firebase Realtime Database) as the coordinator
      uses it: point writes, ordered appends, removals, one existence read,
      and store-side removal of a participant record on disconnect. */
  class Database {
    var rooms: Rooms
    /** Participant records armed with `onDisconnect(ref).remove()`. */
    var armed: set<(RoomId, UserId)>

    constructor ()
      ensures rooms == map[] && armed == {}
    {
      rooms := map[];
      armed := {};
    }

    method SetParticipant(id: RoomId, user: UserId)
      modifies this`rooms
      ensures rooms == WithParticipant(old(rooms), id, user)
    {
      rooms := WithParticipant(rooms, id, user);
    }

    method ArmRemoveOnDisconnect(id: RoomId, user: UserId)
      modifies this`armed
      ensures armed == old(armed) + {(id, user)}
    {
      armed := armed + {(id, user)};
    }

    method SetOffer(id: RoomId, offer: SessionDescription)
      modifies this`rooms
      ensures rooms == WithOffer(old(rooms), id, offer)
    {
      rooms := WithOffer(rooms, id, offer);
    }

    method SetAnswer(id: RoomId, answer: SessionDescription)
      modifies this`rooms
      ensures rooms == WithAnswer(old(rooms), id, answer)
    {
      rooms := WithAnswer(rooms, id, answer);
    }

    method Push(id: RoomId, log: CandidateLog, c: Candidate)
      modifies this`rooms
      ensures rooms == Appended(old(rooms), id, log, c)
    {
      rooms := Appended(rooms, id, log, c);
    }

    method RemoveParticipant(id: RoomId, user: UserId)
      modifies this`rooms
      ensures rooms == WithoutParticipant(old(rooms), id, user)
    {
      rooms := WithoutParticipant(rooms, id, user);
    }

    method RemoveRoom(id: RoomId)
      modifies this`rooms
      ensures rooms == old(rooms) - {id}
    {
      rooms := rooms - {id};
    }

    /** `get(rooms/<id>/participants)` followed by `snapshot.exists()`. */
    method ParticipantsExist(id: RoomId) returns (present: bool)
      ensures present <==> RoomAt(rooms, id).participants != {}
    {
      present := RoomAt(rooms, id).participants != {};
    }

    /** The store fires an armed removal when the owning connection drops;
        the hook is consumed. Nothing else under the room is touched. */
    method Disconnect(id: RoomId, user: UserId)
      modifies this
      ensures (id, user) in old(armed) ==> rooms == WithoutParticipant(old(rooms), id, user)
      ensures (id, user) !in old(armed) ==> rooms == old(rooms)
      ensures armed == old(armed) - {(id, user)}
    {
      if (id, user) in armed {
        rooms := WithoutParticipant(rooms, id, user);
      }
      armed := armed - {(id, user)};
    }
  }
}
