/** Values that the two peers exchange through the signalling store.
    Session descriptions and ICE candidates are opaque here: the transport
    engine (an RTCPeerConnection) produces them and consumes them, and the
    coordinator only forwards them. */
module Signaling {

  datatype Option<+T> = None | Some(value: T)

  type RoomId = string
  type UserId = string

  /** An RTCSessionDescription as stored under `offer` or `answer`. */
  datatype SessionDescription = SessionDescription(sdpType: string, sdp: string)

  /** An RTCIceCandidate as serialised by `toJSON()` and pushed to a log. */
  datatype Candidate = Candidate(candidate: string, sdpMid: string, sdpMLineIndex: int)

  /** The two append-only candidate logs of a room. */
  datatype CandidateLog = CallerCandidates | CalleeCandidates

  /** The log a side pushes its own candidates to: the creator is the caller. */
  function OwnLog(isCreator: bool): (log: CandidateLog)
    ensures log == CallerCandidates <==> isCreator
  {
    if isCreator then CallerCandidates else CalleeCandidates
  }

  /** The log a side subscribes to for the other side's candidates. */
  function RemoteLog(isCreator: bool): (log: CandidateLog)
    ensures log != OwnLog(isCreator)
    ensures log == CalleeCandidates <==> isCreator
  {
    if isCreator then CalleeCandidates else CallerCandidates
  }

  /** Everything stored under `livestream/rooms/<roomId>`. */
  datatype Room = Room(
    offer: Option<SessionDescription>,
    answer: Option<SessionDescription>,
    callerCandidates: seq<Candidate>,
    calleeCandidates: seq<Candidate>,
    participants: set<UserId>)
  {
    function Log(log: CandidateLog): seq<Candidate>
    {
      match log
      case CallerCandidates => callerCandidates
      case CalleeCandidates => calleeCandidates
    }
  }

  /** A room node with no children; the store does not keep such a node. */
  const EmptyRoom := Room(None, None, [], [], {})

  /** JavaScript's `s.slice(0, 8)`: at most the first eight characters. */
  function Slice8(s: string): (r: string)
    ensures |r| == if |s| < 8 then |s| else 8
    ensures r <= s
  {
    if |s| <= 8 then s else s[..8]
  }

  /** The room id `start` settles on, or None when it is falsy (an empty
      string, or a cancelled prompt returning null) and `start` returns. The
      creator takes the first eight characters of a fresh UUID; the joiner
      takes what it typed into the prompt. */
  function ChooseRoomId(isCreator: bool, uuid: string, reply: Option<string>): (id: Option<RoomId>)
    ensures id.Some? ==> id.value != ""
    ensures isCreator ==> (id.Some? <==> uuid != "") && (id.Some? ==> id.value <= uuid && |id.value| <= 8)
    ensures !isCreator ==> (id.Some? <==> reply.Some? && reply.value != "") && (id.Some? ==> id.value == reply.value)
  {
    var chosen := if isCreator then Slice8(uuid) else if reply.Some? then reply.value else "";
    if chosen == "" then None else Some(chosen)
  }

  predicate IsHexDigit(ch: char)
  {
    '0' <= ch <= '9' || 'a' <= ch <= 'f'
  }

  /** The shape of `crypto.randomUUID()`: 36 characters, lower-case hex digits
      with hyphens at positions 8, 13, 18 and 23. */
  predicate IsUuid(s: string)
  {
    |s| == 36 &&
    forall i :: 0 <= i < |s| ==>
      if i == 8 || i == 13 || i == 18 || i == 23 then s[i] == '-' else IsHexDigit(s[i])
  }

  /** A creator's room id is exactly eight hex digits: it is never falsy and
      holds no path separator. */
  lemma CreatorRoomIdIsEightHexDigits(uuid: string, reply: Option<string>)
    requires IsUuid(uuid)
    ensures ChooseRoomId(true, uuid, reply).Some?
    ensures var id := ChooseRoomId(true, uuid, reply).value;
      |id| == 8 && id == uuid[..8] && forall i :: 0 <= i < 8 ==> IsHexDigit(id[i])
  {
    assert IsHexDigit(uuid[0]);
  }
}
