/** What one side's handlers do to its negotiation state, as functions: the
    engine's descriptions and applied candidates together with the
    `pendingCandidates` buffer. The coordinator's callback methods are proved
    to change their state exactly as these functions say, and the lemmas
    below follow a whole sequence of store notifications. */
module Negotiation {
  import opened Signaling

  datatype Peer = Peer(
    local: Option<SessionDescription>,
    remote: Option<SessionDescription>,
    applied: seq<Candidate>,
    pending: seq<Candidate>)

  /** A side before any notification: nothing set, nothing applied or held. */
  const Initial := Peer(None, None, [], [])

  /** Between callbacks, a side that has its remote description holds no
      candidate back. */
  predicate Settled(p: Peer)
  {
    p.remote.Some? ==> p.pending == []
  }

  /** The guard of the answer and offer handlers: the snapshot carries a value
      and no remote description is set yet. */
  predicate Admits(p: Peer, v: Option<SessionDescription>)
  {
    v.Some? && p.remote.None?
  }

  /** One child of a candidate-log snapshot: applied at once when a remote
      description is set, held at the end of the buffer otherwise. */
  function Receive(p: Peer, c: Candidate): Peer
  {
    if p.remote.Some? then p.(applied := p.applied + [c]) else p.(pending := p.pending + [c])
  }

  /** A whole candidate-log snapshot, its children in snapshot order. */
  function Deliver(p: Peer, children: seq<Candidate>): (q: Peer)
    ensures q.local == p.local && q.remote == p.remote
    ensures p.remote.Some? ==> q.applied == p.applied + children && q.pending == p.pending
    ensures p.remote.None? ==> q.applied == p.applied && q.pending == p.pending + children
    decreases |children|
  {
    if children == [] then p
    else
      assert children == [children[0]] + children[1..];
      Deliver(Receive(p, children[0]), children[1..])
  }

  /** The creator's handler for the `answer` slot. When admitted, the answer
      becomes the remote description and the buffer is drained, oldest first;
      otherwise nothing changes. */
  function AcceptAnswer(p: Peer, v: Option<SessionDescription>): (q: Peer)
    ensures q.local == p.local
    ensures q.remote != p.remote <==> Admits(p, v)
    ensures q.applied + q.pending == p.applied + p.pending
    ensures Admits(p, v) ==> q.remote == v && q.applied == p.applied + p.pending && q.pending == []
    ensures !Admits(p, v) ==> q == p
  {
    if Admits(p, v) then Peer(p.local, v, p.applied + p.pending, []) else p
  }

  /** The joiner's handler for the `offer` slot. When admitted, the offer
      becomes the remote description, `answer` the local one, and the buffer
      is drained, oldest first; otherwise nothing changes. */
  function AcceptOffer(p: Peer, v: Option<SessionDescription>, answer: SessionDescription): (q: Peer)
    ensures q.remote != p.remote <==> Admits(p, v)
    ensures q.applied + q.pending == p.applied + p.pending
    ensures Admits(p, v) ==> q.remote == v && q.local == Some(answer) && q.applied == p.applied + p.pending && q.pending == []
    ensures !Admits(p, v) ==> q == p
  {
    if Admits(p, v) then Peer(Some(answer), v, p.applied + p.pending, []) else p
  }

  /** A store notification as one side's handlers receive it. */
  datatype Event =
    | Candidates(children: seq<Candidate>)
    | AnswerValue(answer: Option<SessionDescription>)
    | OfferValue(offer: Option<SessionDescription>, reply: SessionDescription)

  function Step(p: Peer, e: Event): Peer
  {
    match e
    case Candidates(children) => Deliver(p, children)
    case AnswerValue(v) => AcceptAnswer(p, v)
    case OfferValue(v, reply) => AcceptOffer(p, v, reply)
  }

  /** The state after handling `events` in order, each handler atomically. */
  function Run(p: Peer, events: seq<Event>): Peer
    decreases |events|
  {
    if events == [] then p else Run(Step(p, events[0]), events[1..])
  }

  /** Every candidate delivered by the snapshots in `events`, in delivery
      order, replays included. */
  function Delivered(events: seq<Event>): seq<Candidate>
    decreases |events|
  {
    if events == [] then []
    else (if events[0].Candidates? then events[0].children else []) + Delivered(events[1..])
  }

  /** How many times a handler in `events` calls `setRemoteDescription`. */
  function RemoteSets(p: Peer, events: seq<Event>): nat
    decreases |events|
  {
    if events == [] then 0
    else
      var e := events[0];
      var fires := match e
        case Candidates(_) => false
        case AnswerValue(v) => Admits(p, v)
        case OfferValue(v, _) => Admits(p, v);
      (if fires then 1 else 0) + RemoteSets(Step(p, e), events[1..])
  }

  lemma {:induction false} StepKeepsSettled(p: Peer, e: Event)
    requires Settled(p)
    ensures Settled(Step(p, e))
    ensures p.remote.Some? ==> Step(p, e).remote == p.remote
    ensures Step(p, e).applied + Step(p, e).pending
         == p.applied + p.pending + (if e.Candidates? then e.children else [])
  {
    match e
    case Candidates(children) =>
    case AnswerValue(v) =>
    case OfferValue(v, reply) =>
  }

  /** Nothing is lost and nothing is reordered: at any point, the candidates
      applied followed by those still held are exactly the ones delivered, in
      delivery order; and a side with a remote description holds none back. */
  lemma {:induction false} RunConserves(p: Peer, events: seq<Event>)
    requires Settled(p)
    ensures Settled(Run(p, events))
    ensures Run(p, events).applied + Run(p, events).pending == p.applied + p.pending + Delivered(events)
    decreases |events|
  {
    if events != [] {
      var q := Step(p, events[0]);
      StepKeepsSettled(p, events[0]);
      RunConserves(q, events[1..]);
    }
  }

  /** Once set, the remote description never changes again; while it is
      unset, no candidate is applied. */
  lemma {:induction false} RunRemoteStable(p: Peer, events: seq<Event>)
    ensures p.remote.Some? ==> Run(p, events).remote == p.remote
    ensures Run(p, events).remote.None? ==> Run(p, events).applied == p.applied
    decreases |events|
  {
    if events != [] {
      var e := events[0];
      var q := Step(p, e);
      assert p.remote.Some? ==> q.remote == p.remote by {
        match e
        case Candidates(children) =>
        case AnswerValue(v) =>
        case OfferValue(v, reply) =>
      }
      assert q.remote.None? ==> q.applied == p.applied by {
        match e
        case Candidates(children) =>
        case AnswerValue(v) =>
        case OfferValue(v, reply) =>
      }
      RunRemoteStable(q, events[1..]);
    }
  }

  /** `setRemoteDescription` is called at most once over any sequence of
      notifications, replayed descriptions included, and never again once a
      remote description is set. */
  lemma {:induction false} RemoteSetAtMostOnce(p: Peer, events: seq<Event>)
    ensures RemoteSets(p, events) <= (if p.remote.None? then 1 else 0)
    decreases |events|
  {
    if events != [] {
      var e := events[0];
      var q := Step(p, e);
      RemoteSetAtMostOnce(q, events[1..]);
      match e
      case Candidates(children) =>
      case AnswerValue(v) =>
      case OfferValue(v, reply) =>
    }
  }

  /** From a fresh side: once the remote description is set, every delivered
      candidate has been applied, in delivery order, and the buffer is empty;
      before that, none has been applied and all are held, in order. */
  lemma CandidatesFollowDelivery(events: seq<Event>)
    ensures var r := Run(Initial, events);
      (r.remote.Some? ==> r.applied == Delivered(events) && r.pending == []) &&
      (r.remote.None? ==> r.applied == [] && r.pending == Delivered(events))
  {
    var r := Run(Initial, events);
    assert Settled(Initial);
    RunConserves(Initial, events);
    RunRemoteStable(Initial, events);
    assert r.applied + r.pending == Delivered(events) by {
      assert Initial.applied + Initial.pending == [];
    }
    if r.remote.Some? {
      assert r.applied + [] == r.applied;
    } else {
      assert [] + r.pending == r.pending;
    }
  }

  /** The joiner's view of a notification sequence: each answer notification
      becomes an offer notification, answered with `reply`. */
  function AsJoiner(events: seq<Event>, reply: SessionDescription): (r: seq<Event>)
    ensures |r| == |events|
    decreases |events|
  {
    if events == [] then []
    else
      var e := match events[0]
        case AnswerValue(v) => OfferValue(v, reply)
        case _ => events[0];
      [e] + AsJoiner(events[1..], reply)
  }

  /** The two roles agree: fed the same notifications with the description
      slot swapped, creator and joiner end with the same remote description,
      the same applied candidates and the same buffer. */
  lemma {:induction false} RolesAgree(p: Peer, events: seq<Event>, reply: SessionDescription)
    requires forall i :: 0 <= i < |events| ==> !events[i].OfferValue?
    ensures Run(p, AsJoiner(events, reply)).remote == Run(p, events).remote
    ensures Run(p, AsJoiner(events, reply)).applied == Run(p, events).applied
    ensures Run(p, AsJoiner(events, reply)).pending == Run(p, events).pending
    decreases |events|
  {
    if events != [] {
      var a := Step(p, events[0]);
      var j := Step(p, AsJoiner(events, reply)[0]);
      assert AsJoiner(events, reply)[1..] == AsJoiner(events[1..], reply);
      assert j.remote == a.remote && j.applied == a.applied && j.pending == a.pending;
      RolesAgreeFromMirror(a, j, events[1..], reply);
    }
  }

  /** Two sides that differ at most in their local description stay in step on
      the rest when fed the same notifications, one of them in the joiner's
      view. */
  lemma {:induction false} RolesAgreeFromMirror(a: Peer, j: Peer, events: seq<Event>, reply: SessionDescription)
    requires j.remote == a.remote && j.applied == a.applied && j.pending == a.pending
    requires forall i :: 0 <= i < |events| ==> !events[i].OfferValue?
    ensures Run(j, AsJoiner(events, reply)).remote == Run(a, events).remote
    ensures Run(j, AsJoiner(events, reply)).applied == Run(a, events).applied
    ensures Run(j, AsJoiner(events, reply)).pending == Run(a, events).pending
    decreases |events|
  {
    if events != [] {
      var a' := Step(a, events[0]);
      var j' := Step(j, AsJoiner(events, reply)[0]);
      assert AsJoiner(events, reply)[1..] == AsJoiner(events[1..], reply);
      assert j'.remote == a'.remote && j'.applied == a'.applied && j'.pending == a'.pending;
      RolesAgreeFromMirror(a', j', events[1..], reply);
    }
  }

  /** Replayed snapshots are not deduplicated: the store re-delivers the whole
      log on every change, and each delivery is handled again, so a candidate
      already applied is applied a second time. */
  lemma ReplayReappliesCandidate(p: Peer, c: Candidate, d: Candidate)
    requires p.remote.Some?
    ensures Run(p, [Candidates([c]), Candidates([c, d])]).applied == p.applied + [c, c, d]
  {
    var first := Step(p, Candidates([c]));
    assert first.applied == p.applied + [c] && first.remote == p.remote;
    var second := Step(first, Candidates([c, d]));
    assert second.applied == p.applied + [c] + [c, d];
    assert Run(second, []) == second;
    assert Run(first, [Candidates([c, d])]) == Run(second, []);
  }

  /** The same holds before the remote description arrives: the buffer takes
      the replayed candidate again and the drain applies it twice. */
  lemma ReplayBuffersCandidateTwice(c: Candidate, d: Candidate, answer: SessionDescription)
    ensures Run(Initial, [Candidates([c]), Candidates([c, d]), AnswerValue(Some(answer))]).applied == [c, c, d]
  {
    var held := Step(Step(Initial, Candidates([c])), Candidates([c, d]));
    assert held.remote.None? && held.applied == [] && held.pending == [c] + [c, d];
    var done := Step(held, AnswerValue(Some(answer)));
    assert done.applied == [c, c, d];
    var events := [Candidates([c]), Candidates([c, d]), AnswerValue(Some(answer))];
    assert Run(done, []) == done;
    assert Run(held, events[2..]) == Run(done, []);
    assert Run(Step(Initial, Candidates([c])), events[1..]) == Run(held, events[2..]);
  }
}
