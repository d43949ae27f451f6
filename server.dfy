/** The `Server` object of the signalling relay: its registry field
    `activeSockets`, updated in place by the socket handlers, and the events
    those handlers emit, kept in order in an outbox. */
module SignalingServer {
  import opened Registry
  import opened Events

  class Server<Blob> {
    /** The ids of the connected sockets, in order of admission. */
    var activeSockets: seq<PeerId>
    /** Every event emitted so far, oldest first. */
    var outbox: seq<Event<Blob>>
    /** Every handler run that changed or could have changed the registry. */
    ghost var history: seq<Op>

    /** The registry is what the handler runs so far made of it (so its
        members are the live ids, by `RunMembership`), and no non-empty
        socket id is listed twice. */
    ghost predicate Valid()
      reads this
    {
      activeSockets == Run([], history) &&
      DistinctNonEmpty(activeSockets)
    }

    /** A server before any connection. */
    constructor ()
      ensures Valid()
      ensures activeSockets == [] && outbox == [] && history == []
    {
      activeSockets := [];
      outbox := [];
      history := [];
    }

    /** One run of the `connection` handler for the socket `id`: look the id
        up; if the guard admits it, push it, send the new peer the roster of
        the others and tell everybody else the new id. */
    method Connect(id: PeerId)
      requires Valid()
      modifies this
      ensures Valid()
      ensures activeSockets == AfterConnect(old(activeSockets), id)
      ensures outbox == old(outbox) + ConnectEvents(old(activeSockets), id)
      ensures history == old(history) + [Op.Connect(id)]
    {
      ConnectKeepsDistinct(activeSockets, id);
      history := history + [Op.Connect(id)];
      assert history[..|history| - 1] == old(history);
      var existing := Find(activeSockets, id);
      if !(existing.Some? && existing.value != "") {
        activeSockets := activeSockets + [id];
        var roster := Without(activeSockets, id);
        outbox := outbox + [Event(Peer(id), "update-user-list", Users(roster))];
        outbox := outbox + [Event(Others(id), "update-user-list", Users([id]))];
      }
    }

    /** A real connection: the constructor registers the `connection`
        handler twice, so both registrations run for the same socket. For a
        non-empty id the effect is that of one run; the empty id passes the
        guard both times and is announced twice. */
    method OnConnection(id: PeerId)
      requires Valid()
      modifies this
      ensures Valid()
      ensures activeSockets == AfterConnect(AfterConnect(old(activeSockets), id), id)
      ensures id != "" ==> activeSockets == AfterConnect(old(activeSockets), id)
      ensures outbox == old(outbox) + ConnectEvents(old(activeSockets), id) +
        ConnectEvents(AfterConnect(old(activeSockets), id), id)
      ensures id != "" ==> outbox == old(outbox) + ConnectEvents(old(activeSockets), id)
      ensures id == "" ==> |outbox| == |old(outbox)| + 4
      ensures history == old(history) + [Op.Connect(id), Op.Connect(id)]
    {
      Connect(id);
      ghost var between := outbox;
      Connect(id);
      if id != "" {
        SecondRunSilent<Blob>(old(activeSockets), id);
        assert outbox == between + [];
      }
    }

    /** The `disconnect` handler of the socket `id`: filter the id out of
        the registry, then tell everybody else it left. */
    method Disconnect(id: PeerId)
      requires Valid()
      modifies this
      ensures Valid()
      ensures activeSockets == Without(old(activeSockets), id)
      ensures outbox == old(outbox) + [Event(Others(id), "remove-user", RemovedUser(id))]
      ensures history == old(history) + [Op.Disconnect(id)]
    {
      WithoutKeepsDistinct(activeSockets, id);
      history := history + [Op.Disconnect(id)];
      assert history[..|history| - 1] == old(history);
      activeSockets := Without(activeSockets, id);
      outbox := outbox + [Event(Others(id), "remove-user", RemovedUser(id))];
    }

    /** The `call-user`, `make-answer` and `reject-call` handlers of the
        socket `sender`: forward the reshaped message; the registry is not
        touched. */
    method Route(sender: PeerId, msg: Inbound<Blob>)
      modifies this`outbox
      ensures activeSockets == old(activeSockets) && history == old(history)
      ensures outbox == old(outbox) + [Routed(sender, msg)]
    {
      outbox := outbox + [Routed(sender, msg)];
    }
  }
}
