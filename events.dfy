/** The events the signalling server emits: the presence notifications of
    the connection and disconnect handlers, and the reshaping of the three
    signalling messages a peer sends into the message its counterpart
    receives. The offer and answer blobs are a type parameter: the server
    never looks inside them. */
module Events {
  import opened Registry

  /** Whom an emitted event is addressed to. */
  datatype Recipients =
    | Peer(id: PeerId)    // `socket.emit`: the client of this socket
    | Others(id: PeerId)  // `socket.broadcast.emit`: every client but this socket's
    | Room(id: PeerId)    // `socket.to(id).emit`: the room named by a peer's id

  /** The payload of an emitted event. */
  datatype Payload<Blob> =
    | Users(users: seq<PeerId>)
    | RemovedUser(socketId: PeerId)
    | CallMade(offer: Blob, socket: PeerId)
    | AnswerMade(socket: PeerId, answer: Blob)
    | CallRejected(socket: PeerId)

  /** One record of the outbox: recipients, event name, payload. */
  datatype Event<Blob> = Event(to: Recipients, name: string, payload: Payload<Blob>)

  /** A signalling message as a peer sends it. */
  datatype Inbound<Blob> =
    | CallUser(to: PeerId, offer: Blob)
    | MakeAnswer(to: PeerId, answer: Blob)
    | RejectCall(from: PeerId)

  /** The events one run of the connection handler emits for `id` on the
      registry `xs`: when the guard admits the id, first the roster of the
      others (taken from the registry after the push) to the new peer, then
      the new id to everybody else; otherwise nothing. */
  function ConnectEvents<Blob>(xs: seq<PeerId>, id: PeerId): (r: seq<Event<Blob>>)
    ensures r != [] <==> id !in xs || id == ""
    ensures r != [] ==>
      |r| == 2 &&
      r[0].to == Peer(id) && r[0].name == "update-user-list" && r[0].payload.Users? &&
      id !in r[0].payload.users &&
      (forall x :: x in r[0].payload.users ==> x in xs) &&
      r[1] == Event(Others(id), "update-user-list", Users([id]))
  {
    if Admits(xs, id) then
      [ Event(Peer(id), "update-user-list", Users(Without(AfterConnect(xs, id), id))),
        Event(Others(id), "update-user-list", Users([id])) ]
    else []
  }

  /** The `call-user`, `make-answer` and `reject-call` handlers of the socket
      `sender`: the message goes on under a new name to the peer it names,
      with its blob unchanged and the sender's id stamped on it. */
  function Routed<Blob>(sender: PeerId, msg: Inbound<Blob>): (e: Event<Blob>)
    ensures msg.CallUser? ==>
      e.to == Room(msg.to) && e.name == "call-made" &&
      e.payload.CallMade? && e.payload.offer == msg.offer
    ensures msg.MakeAnswer? ==>
      e.to == Room(msg.to) && e.name == "answer-made" &&
      e.payload.AnswerMade? && e.payload.answer == msg.answer
    ensures msg.RejectCall? ==>
      e.to == Room(msg.from) && e.name == "call-rejected" && e.payload.CallRejected?
    ensures e.payload.socket == sender
  {
    match msg
    case CallUser(to, offer) => Event(Room(to), "call-made", CallMade(offer, sender))
    case MakeAnswer(to, answer) => Event(Room(to), "answer-made", AnswerMade(sender, answer))
    case RejectCall(from) => Event(Room(from), "call-rejected", CallRejected(sender))
  }

  /** The message a peer sent, recovered from what the server forwarded:
      the sender is the stamped id and the target the addressed room. */
  function Unrouted<Blob>(e: Event<Blob>): Option<(PeerId, Inbound<Blob>)>
  {
    match e.payload
    case CallMade(offer, s) =>
      if e.to.Room? && e.name == "call-made" then Some((s, CallUser(e.to.id, offer))) else None
    case AnswerMade(s, answer) =>
      if e.to.Room? && e.name == "answer-made" then Some((s, MakeAnswer(e.to.id, answer))) else None
    case CallRejected(s) =>
      if e.to.Room? && e.name == "call-rejected" then Some((s, RejectCall(e.to.id))) else None
    case _ => None
  }

  // ---------------------------------------------------------------------
  // Properties of the presence events

  /** A fresh admission: the id goes at the end of the registry, every other
      entry keeps its position, the new peer is sent the registry as it was
      before, in order and without its own id, and only then is everybody
      else told the new id. */
  lemma FreshAdmission<Blob>(xs: seq<PeerId>, id: PeerId)
    requires id !in xs
    ensures AfterConnect(xs, id) == xs + [id]
    ensures |AfterConnect(xs, id)| == |xs| + 1
    ensures forall i :: 0 <= i < |xs| ==> AfterConnect(xs, id)[i] == xs[i]
    ensures ConnectEvents<Blob>(xs, id) ==
      [ Event(Peer(id), "update-user-list", Users(xs)),
        Event(Others(id), "update-user-list", Users([id])) ]
    ensures id !in ConnectEvents<Blob>(xs, id)[0].payload.users
  {
    WithoutConcat(xs, [id], id);
    WithoutAbsent(xs, id);
    assert Without([id], id) == [] by {
      assert [id][1..] == [];
    }
    assert xs + [] == xs;
    assert Without(AfterConnect(xs, id), id) == xs;
  }

  /** A repeated admission of a non-empty id changes nothing and emits
      nothing. */
  lemma DuplicateAdmission<Blob>(xs: seq<PeerId>, id: PeerId)
    requires id in xs && id != ""
    ensures AfterConnect(xs, id) == xs
    ensures ConnectEvents<Blob>(xs, id) == []
  {
  }

  /** Every connection runs the handler twice; for a non-empty id the second
      run takes the duplicate branch and emits nothing. */
  lemma SecondRunSilent<Blob>(xs: seq<PeerId>, id: PeerId)
    requires id != ""
    ensures AfterConnect(AfterConnect(xs, id), id) == AfterConnect(xs, id)
    ensures ConnectEvents<Blob>(AfterConnect(xs, id), id) == []
  {
    ConnectTwice(xs, id);
  }

  /** The empty id slips past the guard every time: a second run re-admits
      it and emits both notifications again, with a roster that leaves out
      every listed empty id. */
  lemma EmptyIdAnnouncedAgain<Blob>(xs: seq<PeerId>)
    requires "" in xs
    ensures |ConnectEvents<Blob>(xs, "")| == 2
    ensures ConnectEvents<Blob>(xs, "")[0].payload.users == Without(xs, "")
  {
    WithoutConcat(xs, [""], "");
  }

  /** The disconnect handler removes every occurrence of the id and keeps
      every other id. */
  lemma Departure<Blob>(xs: seq<PeerId>, id: PeerId)
    ensures id !in Without(xs, id)
    ensures forall x :: x != id ==> (x in Without(xs, id) <==> x in xs)
  {
  }

  // ---------------------------------------------------------------------
  // Properties of the router

  /** Nothing of the message is lost on the way: the sender and the message
      it sent are recovered from the forwarded event. */
  lemma RouteRoundTrip<Blob>(sender: PeerId, msg: Inbound<Blob>)
    ensures Unrouted(Routed(sender, msg)) == Some((sender, msg))
  {
  }

  /** A call from `a` to `b` and its outcomes: `b` receives the offer
      stamped with `a`, and when `b` answers or rejects by the stamped id,
      the reply is addressed to `a` and stamped with `b`. */
  lemma CallFlow<Blob>(a: PeerId, b: PeerId, offer: Blob, answer: Blob)
    ensures Routed(a, CallUser(b, offer)) == Event(Room(b), "call-made", CallMade(offer, a))
    ensures var caller := Routed(a, CallUser(b, offer)).payload.socket;
      Routed(b, MakeAnswer(caller, answer)) == Event(Room(a), "answer-made", AnswerMade(b, answer)) &&
      Routed<Blob>(b, RejectCall(caller)) == Event(Room(a), "call-rejected", CallRejected(b))
  {
  }
}
