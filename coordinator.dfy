/** The signalling coordinator of the page: the state `start` and its
    callbacks share (room id, peer connection, `pendingCandidates`), the store
    they write to, and one method per callback. Each callback runs atomically;
    the callbacks exist only once `start` has registered them, which the
    preconditions on `phase` state. */
module Coordinator {
  import opened Signaling
  import opened RoomStore
  import opened Engine
  import Negotiation

  /** How far `start` got: not (or not successfully) started; presence written
      but screen capture refused, so no peer connection; or connected to the
      store with a peer connection and its handlers registered. */
  datatype Phase = Idle | Present | Connecting

  /** A store write issued by this page, in issue order. */
  datatype Write =
    | PresenceSet(room: RoomId, user: UserId)
    | OfferSet(room: RoomId, offer: SessionDescription)
    | AnswerSet(room: RoomId, answer: SessionDescription)
    | CandidatePushed(room: RoomId, log: CandidateLog, candidate: Candidate)
    | ParticipantRemoved(room: RoomId, user: UserId)
    | RoomRemoved(room: RoomId)

  class Session {
    /** `crypto.randomUUID()` at page load: one id per page. */
    const userId: UserId
    const db: Database
    var isCreator: bool
    var roomId: RoomId
    var phase: Phase
    var pc: PeerConnection?
    var pendingCandidates: seq<Candidate>
    /** The `beforeunload` listener that runs `cleanupOnExit`. */
    var exitHookArmed: bool
    ghost var writes: seq<Write>

    ghost function PeerView(): Negotiation.Peer
      reads this, pc
      requires pc != null
    {
      Negotiation.Peer(pc.localDescription, pc.remoteDescription, pc.applied, pendingCandidates)
    }

    ghost predicate Valid()
      reads this, pc
    {
      (phase == Idle <==> writes == []) &&
      (phase == Idle ==> pc == null && pendingCandidates == [] && !exitHookArmed) &&
      (phase != Idle ==> roomId != "" && exitHookArmed && writes[0] == PresenceSet(roomId, userId)) &&
      (phase == Connecting <==> pc != null) &&
      (phase == Present ==> pendingCandidates == []) &&
      (pc != null ==> Negotiation.Settled(PeerView())) &&
      // the creator sets its local description (the offer) in `start`; the
      // joiner sets its own (the answer) only after the remote one
      (pc != null && isCreator ==> pc.localDescription.Some?) &&
      (pc != null && !isCreator && pc.localDescription.Some? ==> pc.remoteDescription.Some?) &&
      (forall i :: 0 <= i < |writes| ==> writes[i].room == roomId) &&
      (forall i :: 1 <= i < |writes| ==> !writes[i].PresenceSet?) &&
      (forall i :: 0 <= i < |writes| && writes[i].CandidatePushed? ==> writes[i].log == OwnLog(isCreator)) &&
      (forall i :: 0 <= i < |writes| && writes[i].OfferSet? ==>
        isCreator && pc != null && pc.localDescription == Some(writes[i].offer)) &&
      (forall i :: 0 <= i < |writes| && writes[i].AnswerSet? ==>
        !isCreator && pc != null && pc.remoteDescription.Some? && pc.localDescription == Some(writes[i].answer))
    }

    /** The page's state before either button is pressed. */
    constructor (userId: UserId, db: Database)
      ensures Valid() && phase == Idle
      ensures this.userId == userId && this.db == db
    {
      this.userId := userId;
      this.db := db;
      isCreator := false;
      roomId := "";
      phase := Idle;
      pc := null;
      pendingCandidates := [];
      exitHookArmed := false;
      writes := [];
    }

    /** `start(isCreator)` up to the registration of its callbacks. `uuid` is
        the fresh `crypto.randomUUID()`, `reply` what the join prompt returned
        (None when cancelled), `mediaGranted` whether screen capture was
        allowed, and `offer` what `createOffer` produced. */
    method Start(creator: bool, uuid: string, reply: Option<string>, mediaGranted: bool, offer: SessionDescription)
      requires Valid() && phase == Idle
      modifies this, db
      ensures Valid()
      ensures ChooseRoomId(creator, uuid, reply).None? ==>
        phase == Idle && db.rooms == old(db.rooms) && db.armed == old(db.armed) && writes == []
      ensures ChooseRoomId(creator, uuid, reply).Some? ==>
        roomId == ChooseRoomId(creator, uuid, reply).value && isCreator == creator && exitHookArmed &&
        db.armed == old(db.armed) + {(roomId, userId)} &&
        (phase == Connecting <==> mediaGranted) && (phase == Present <==> !mediaGranted)
      ensures phase == Present ==>
        db.rooms == WithParticipant(old(db.rooms), roomId, userId) && writes == [PresenceSet(roomId, userId)]
      ensures phase == Connecting ==>
        fresh(pc) && pc.remoteDescription == None && pc.applied == [] && pendingCandidates == []
      ensures phase == Connecting && isCreator ==>
        pc.localDescription == Some(offer) &&
        db.rooms == WithOffer(WithParticipant(old(db.rooms), roomId, userId), roomId, offer) &&
        writes == [PresenceSet(roomId, userId), OfferSet(roomId, offer)]
      ensures phase == Connecting && !isCreator ==>
        pc.localDescription == None &&
        db.rooms == WithParticipant(old(db.rooms), roomId, userId) &&
        writes == [PresenceSet(roomId, userId)]
    {
      var chosen := ChooseRoomId(creator, uuid, reply);
      if chosen.None? {
        roomId := "";
        return;
      }
      EnterRoom(chosen.value, creator);
      if mediaGranted {
        OpenPeerConnection(offer);
      }
    }

    /** The writes `start` makes as soon as the room id is known: the presence
        marker, then its removal on disconnect, then the exit listener. */
    method EnterRoom(id: RoomId, creator: bool)
      requires Valid() && phase == Idle && id != ""
      modifies this, db
      ensures Valid() && phase == Present && pc == null
      ensures roomId == id && isCreator == creator && exitHookArmed
      ensures db.rooms == WithParticipant(old(db.rooms), id, userId)
      ensures db.armed == old(db.armed) + {(id, userId)}
      ensures writes == [PresenceSet(id, userId)]
    {
      roomId := id;
      isCreator := creator;
      db.SetParticipant(roomId, userId);
      writes := [PresenceSet(roomId, userId)];
      db.ArmRemoveOnDisconnect(roomId, userId);
      exitHookArmed := true;
      phase := Present;
    }

    /** The rest of `start` once screen capture is granted: a new peer
        connection, and for the creator the offer, set locally and then
        published. */
    method OpenPeerConnection(offer: SessionDescription)
      requires Valid() && phase == Present
      modifies this, db`rooms
      ensures Valid() && phase == Connecting
      ensures roomId == old(roomId) && isCreator == old(isCreator) && exitHookArmed
      ensures fresh(pc) && pc.remoteDescription == None && pc.applied == [] && pendingCandidates == []
      ensures isCreator ==>
        pc.localDescription == Some(offer) &&
        db.rooms == WithOffer(old(db.rooms), roomId, offer) &&
        writes == old(writes) + [OfferSet(roomId, offer)]
      ensures !isCreator ==>
        pc.localDescription == None && db.rooms == old(db.rooms) && writes == old(writes)
    {
      pc := new PeerConnection();
      phase := Connecting;
      if isCreator {
        pc.SetLocalDescription(offer);
        db.SetOffer(roomId, offer);
        writes := writes + [OfferSet(roomId, offer)];
      }
    }

    /** `onicecandidate`: a candidate goes to the end of this side's own log;
        the end-of-candidates event (null) writes nothing. */
    method OnIceCandidate(candidate: Option<Candidate>)
      requires Valid() && phase == Connecting
      modifies db`rooms, this`writes
      ensures Valid()
      ensures candidate.None? ==> db.rooms == old(db.rooms) && writes == old(writes)
      ensures candidate.Some? ==>
        db.rooms == Appended(old(db.rooms), roomId, OwnLog(isCreator), candidate.value) &&
        writes == old(writes) + [CandidatePushed(roomId, OwnLog(isCreator), candidate.value)]
    {
      if candidate.Some? {
        db.Push(roomId, OwnLog(isCreator), candidate.value);
        writes := writes + [CandidatePushed(roomId, OwnLog(isCreator), candidate.value)];
      }
    }

    /** Hands every buffered candidate to the engine, oldest first, then
        empties the buffer. */
    method DrainPending()
      requires pc != null && pc.remoteDescription.Some?
      modifies this`pendingCandidates, pc`applied
      ensures pc.applied == old(pc.applied) + old(pendingCandidates) && pendingCandidates == []
    {
      var queue := pendingCandidates;
      var i := 0;
      while i < |queue|
        invariant 0 <= i <= |queue|
        invariant pc.remoteDescription.Some?
        invariant pc.applied == old(pc.applied) + queue[..i]
      {
        pc.AddIceCandidate(queue[i]);
        i := i + 1;
      }
      assert queue[..i] == queue;
      pendingCandidates := [];
    }

    /** The creator's `onValue(answer)` handler; the callback runs atomically,
        so the snapshot is this room's `answer` slot as the store holds it. */
    method OnAnswer(snapshot: Option<SessionDescription>)
      requires Valid() && phase == Connecting && isCreator
      requires snapshot == RoomAt(db.rooms, roomId).answer
      modifies this`pendingCandidates, pc
      ensures Valid()
      ensures PeerView() == Negotiation.AcceptAnswer(old(PeerView()), snapshot)
    {
      if snapshot.Some? && pc.remoteDescription.None? {
        pc.SetRemoteDescription(snapshot.value);
        DrainPending();
      }
    }

    /** The joiner's `onValue(offer)` handler; the snapshot is this room's
        `offer` slot as the store holds it, and `answer` is what `createAnswer`
        produced. */
    method OnOffer(snapshot: Option<SessionDescription>, answer: SessionDescription)
      requires Valid() && phase == Connecting && !isCreator
      requires snapshot == RoomAt(db.rooms, roomId).offer
      modifies this`pendingCandidates, this`writes, pc, db`rooms
      ensures Valid()
      ensures PeerView() == Negotiation.AcceptOffer(old(PeerView()), snapshot, answer)
      ensures Negotiation.Admits(old(PeerView()), snapshot) ==>
        db.rooms == WithAnswer(old(db.rooms), roomId, answer) &&
        writes == old(writes) + [AnswerSet(roomId, answer)]
      ensures !Negotiation.Admits(old(PeerView()), snapshot) ==>
        db.rooms == old(db.rooms) && writes == old(writes)
    {
      if snapshot.Some? && pc.remoteDescription.None? {
        pc.SetRemoteDescription(snapshot.value);
        pc.SetLocalDescription(answer);
        db.SetAnswer(roomId, answer);
        writes := writes + [AnswerSet(roomId, answer)];
        DrainPending();
      }
    }

    /** The `onValue` handler of the other side's candidate log (the callee
        log for the creator, the caller log for the joiner); `children` is the
        whole log as the snapshot holds it. The callback runs atomically, so the
        snapshot is the log as the store holds it now. */
    method OnRemoteCandidates(children: seq<Candidate>)
      requires Valid() && phase == Connecting
      requires children == RoomAt(db.rooms, roomId).Log(RemoteLog(isCreator))
      modifies this`pendingCandidates, pc`applied
      ensures Valid()
      ensures PeerView() == Negotiation.Deliver(old(PeerView()), children)
    {
      var i := 0;
      while i < |children|
        invariant 0 <= i <= |children|
        invariant pc.remoteDescription.Some? ==>
          pc.applied == old(pc.applied) + children[..i] && pendingCandidates == old(pendingCandidates)
        invariant pc.remoteDescription.None? ==>
          pc.applied == old(pc.applied) && pendingCandidates == old(pendingCandidates) + children[..i]
      {
        if pc.remoteDescription.Some? {
          pc.AddIceCandidate(children[i]);
        } else {
          pendingCandidates := pendingCandidates + [children[i]];
        }
        assert children[..i + 1] == children[..i] + [children[i]];
        i := i + 1;
      }
      assert children[..i] == children;
    }

    /** `cleanupOnExit`, run by the `beforeunload` listener. */
    method CleanupOnExit()
      requires Valid() && exitHookArmed
      modifies db`rooms, this`writes
      ensures Valid()
      ensures db.rooms == AfterCleanup(old(db.rooms), roomId, userId)
      ensures writes == old(writes) + [ParticipantRemoved(roomId, userId)] +
        (if roomId in db.rooms then [] else [RoomRemoved(roomId)])
    {
      db.RemoveParticipant(roomId, userId);
      writes := writes + [ParticipantRemoved(roomId, userId)];
      var present := db.ParticipantsExist(roomId);
      if !present {
        db.RemoveRoom(roomId);
        writes := writes + [RoomRemoved(roomId)];
      }
    }
  }
}
