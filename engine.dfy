/** The observable state of the transport engine (an RTCPeerConnection) that
    the coordinator reads and changes. Offer and answer creation and the ICE
    machinery are outside the model: descriptions and candidates arrive as
    opaque values. `currentRemoteDescription` and `remoteDescription` are
    both read as `remoteDescription`: the coordinator's handlers run
    atomically, and at the end of each one both are set or both are unset. */
module Engine {
  import opened Signaling

  class PeerConnection {
    var localDescription: Option<SessionDescription>
    var remoteDescription: Option<SessionDescription>
    /** Every candidate handed to `addIceCandidate`, in call order. */
    var applied: seq<Candidate>

    constructor ()
      ensures localDescription == None && remoteDescription == None && applied == []
    {
      localDescription := None;
      remoteDescription := None;
      applied := [];
    }

    method SetLocalDescription(d: SessionDescription)
      modifies this`localDescription
      ensures localDescription == Some(d)
    {
      localDescription := Some(d);
    }

    method SetRemoteDescription(d: SessionDescription)
      modifies this`remoteDescription
      ensures remoteDescription == Some(d)
    {
      remoteDescription := Some(d);
    }

    /** The engine rejects a remote candidate while it has no remote
        description, so a caller must not hand one over before that. */
    method AddIceCandidate(c: Candidate)
      requires remoteDescription.Some?
      modifies this`applied
      ensures applied == old(applied) + [c]
    {
      applied := applied + [c];
    }
  }
}
