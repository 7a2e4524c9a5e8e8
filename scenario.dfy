/** Two pages sharing one store: a creator and a joiner run the whole
    offer/answer/candidate exchange through the coordinator's callbacks. */
module Scenario {
  import opened Signaling
  import opened RoomStore
  import opened Coordinator

  /** The creator publishes its offer and two candidates (and the
      end-of-candidates event) before the joiner arrives. The joiner's
      candidate subscription replays the caller log first, so both candidates
      are held; its offer handler then applies the offer, publishes the answer
      and applies the held candidates in order. The creator's answer handler
      completes the exchange. Both ends have their remote description, each
      the other's, the joiner has applied exactly the creator's candidates in
      emission order, and both participants are present in the room. */
  method CreatorThenJoiner(
    creatorId: UserId, joinerId: UserId, uuid: string,
    offer: SessionDescription, answer: SessionDescription, c1: Candidate, c2: Candidate)
    returns (creatorRemote: Option<SessionDescription>, joinerRemote: Option<SessionDescription>,
             joinerApplied: seq<Candidate>, participants: set<UserId>)
    requires uuid != ""
    ensures creatorRemote == Some(answer) && joinerRemote == Some(offer)
    ensures joinerApplied == [c1, c2]
    ensures participants == {creatorId, joinerId}
  {
    var db := new Database();
    var creator := new Session(creatorId, db);
    var joiner := new Session(joinerId, db);
    var id := CreatorOpens(creator, uuid, offer, c1, c2);
    JoinerAnswers(joiner, id, answer);
    assert RoomAt(db.rooms, id).answer == Some(answer);
    creator.OnAnswer(RoomAt(db.rooms, id).answer);

    creatorRemote := creator.pc.remoteDescription;
    joinerRemote := joiner.pc.remoteDescription;
    joinerApplied := joiner.pc.applied;
    participants := RoomAt(db.rooms, id).participants;
  }

  /** The creator's side up to the joiner's arrival, on an empty store. */
  method CreatorOpens(creator: Session, uuid: string, offer: SessionDescription, c1: Candidate, c2: Candidate)
    returns (id: RoomId)
    requires creator.Valid() && creator.phase == Idle && creator.db.rooms == map[]
    requires uuid != ""
    modifies creator, creator.db
    ensures creator.Valid() && creator.phase == Connecting && creator.isCreator && creator.roomId == id
    ensures fresh(creator.pc) && creator.pc.remoteDescription == None
    ensures RoomAt(creator.db.rooms, id) == Room(Some(offer), None, [c1, c2], [], {creator.userId})
  {
    var db := creator.db;
    creator.Start(true, uuid, None, true, offer);
    id := creator.roomId;
    assert RoomAt(db.rooms, id) == Room(Some(offer), None, [], [], {creator.userId});
    creator.OnIceCandidate(Some(c1));
    creator.OnIceCandidate(Some(c2));
    creator.OnIceCandidate(None);
  }

  /** The joiner's side: it enters the room, its candidate subscription
      replays the caller log before its offer subscription fires. */
  method JoinerAnswers(joiner: Session, id: RoomId, answer: SessionDescription)
    requires joiner.Valid() && joiner.phase == Idle && id != ""
    requires RoomAt(joiner.db.rooms, id).offer.Some?
    modifies joiner, joiner.db
    ensures fresh(joiner.pc)
    ensures joiner.pc.remoteDescription == RoomAt(old(joiner.db.rooms), id).offer
    ensures joiner.pc.applied == RoomAt(old(joiner.db.rooms), id).callerCandidates
    ensures RoomAt(joiner.db.rooms, id) == RoomAt(old(joiner.db.rooms), id).(
      answer := Some(answer), participants := RoomAt(old(joiner.db.rooms), id).participants + {joiner.userId})
  {
    var db := joiner.db;
    var placeholder := SessionDescription("offer", "");
    joiner.Start(false, "", Some(id), true, placeholder);
    joiner.OnRemoteCandidates(RoomAt(db.rooms, id).Log(RemoteLog(joiner.isCreator)));
    joiner.OnOffer(RoomAt(db.rooms, id).offer, answer);
  }

  /** A joiner that submits an empty room id, or cancels the prompt, leaves
      the store exactly as it was and opens no peer connection. */
  method JoinWithoutRoomId(joinerId: UserId, reply: Option<string>, rooms: Rooms)
    returns (after: Rooms, connected: bool)
    requires reply.None? || reply == Some("")
    ensures after == rooms && !connected
  {
    var db := new Database();
    db.rooms := rooms;
    var joiner := new Session(joinerId, db);
    var offer := SessionDescription("offer", "");
    joiner.Start(false, "", reply, true, offer);
    after := db.rooms;
    connected := joiner.pc != null;
  }
}
