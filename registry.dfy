/** The peer registry of the signalling server: the list of connected socket
    ids (`activeSockets`) and the pure lookups the connection handler runs
    over it, together with what a whole history of connects and disconnects
    does to the list. */
module Registry {

  /** A socket id, as socket.io assigns it to each connection. */
  type PeerId = string

  /** What JavaScript's `Array.prototype.find` returns: an element, or `undefined`. */
  datatype Option<+T> = None | Some(value: T)

  /** `xs.find(s => s === id)`: the first entry equal to `id`, if any. */
  function Find(xs: seq<PeerId>, id: PeerId): (r: Option<PeerId>)
    ensures r.Some? <==> id in xs
    ensures r.Some? ==> r.value == id
  {
    if xs == [] then None
    else if xs[0] == id then Some(xs[0])
    else Find(xs[1..], id)
  }

  /** The guard `!existingSocket` of the connection handler, with JavaScript
      truthiness (`undefined` and `""` are falsy): it admits an id that is
      absent, and also the empty id, whose match is falsy. */
  predicate Admits(xs: seq<PeerId>, id: PeerId)
    ensures Admits(xs, id) <==> id !in xs || id == ""
  {
    var found := Find(xs, id);
    !(found.Some? && found.value != "")
  }

  /** `xs.filter(s => s !== id)`: every entry except those equal to `id`. */
  function Without(xs: seq<PeerId>, id: PeerId): (r: seq<PeerId>)
    ensures forall x :: x in r <==> x in xs && x != id
    ensures multiset(r) == multiset(xs)[id := 0]
  {
    if xs == [] then []
    else
      assert xs == [xs[0]] + xs[1..];
      if xs[0] == id then Without(xs[1..], id)
      else [xs[0]] + Without(xs[1..], id)
  }

  /** The registry after the connection handler has run for `id`: the id is
      pushed at the end exactly when the guard admits it. */
  function AfterConnect(xs: seq<PeerId>, id: PeerId): (r: seq<PeerId>)
    ensures id !in xs ==> r == xs + [id]
    ensures id in xs && id != "" ==> r == xs
    ensures id == "" ==> r == xs + [id]
    ensures id in r
  {
    if Admits(xs, id) then xs + [id] else xs
  }

  /** No socket id is listed twice, the empty id (which the guard cannot
      see) excepted. */
  ghost predicate DistinctNonEmpty(xs: seq<PeerId>)
  {
    forall i, j :: 0 <= i < j < |xs| && xs[i] == xs[j] ==> xs[i] == ""
  }

  /** No socket id is listed twice. */
  ghost predicate Distinct(xs: seq<PeerId>)
  {
    forall i, j :: 0 <= i < j < |xs| ==> xs[i] != xs[j]
  }

  // ---------------------------------------------------------------------
  // The filter of the disconnect handler

  /** Filtering distributes over concatenation: the entries that remain keep
      their relative order. */
  lemma {:induction false} WithoutConcat(a: seq<PeerId>, b: seq<PeerId>, id: PeerId)
    ensures Without(a + b, id) == Without(a, id) + Without(b, id)
  {
    if a == [] {
      assert a + b == b;
    } else {
      assert (a + b)[1..] == a[1..] + b;
      WithoutConcat(a[1..], b, id);
    }
  }

  /** Removing an id that is not listed leaves the list as it is. */
  lemma {:induction false} WithoutAbsent(xs: seq<PeerId>, id: PeerId)
    requires id !in xs
    ensures Without(xs, id) == xs
  {
    if xs != [] {
      WithoutAbsent(xs[1..], id);
    }
  }

  /** Disconnecting twice is the same as disconnecting once. */
  lemma {:induction false} WithoutIdempotent(xs: seq<PeerId>, id: PeerId)
    ensures Without(Without(xs, id), id) == Without(xs, id)
  {
    WithoutAbsent(Without(xs, id), id);
  }

  /** Filtering keeps a list free of duplicates. */
  lemma {:induction false} WithoutKeepsDistinct(xs: seq<PeerId>, id: PeerId)
    requires DistinctNonEmpty(xs)
    ensures DistinctNonEmpty(Without(xs, id))
  {
    if xs != [] {
      var tail := xs[1..];
      assert DistinctNonEmpty(tail) by {
        forall i, j | 0 <= i < j < |tail| && tail[i] == tail[j]
          ensures tail[i] == ""
        {
          assert xs[i + 1] == xs[j + 1];
        }
      }
      WithoutKeepsDistinct(tail, id);
      if xs[0] != id {
        var rest := Without(tail, id);
        assert xs[0] != "" ==> xs[0] !in rest;
        var r := [xs[0]] + rest;
        forall i, j | 0 <= i < j < |r| && r[i] == r[j]
          ensures r[i] == ""
        {
          if i > 0 {
            assert r[i] == rest[i - 1] && r[j] == rest[j - 1];
          } else {
            assert r[j] == rest[j - 1];
          }
        }
      }
    }
  }

  // ---------------------------------------------------------------------
  // The push of the connection handler

  /** Connecting keeps a list free of duplicates other than of the empty id. */
  lemma ConnectKeepsDistinct(xs: seq<PeerId>, id: PeerId)
    requires DistinctNonEmpty(xs)
    ensures DistinctNonEmpty(AfterConnect(xs, id))
  {
    var r := AfterConnect(xs, id);
    if id !in xs || id == "" {
      forall i, j | 0 <= i < j < |r| && r[i] == r[j]
        ensures r[i] == ""
      {
        if j == |xs| {
          assert r[i] == xs[i];
        }
      }
    }
  }

  /** The empty id is admitted again although it is already listed: it is
      the one id the truthiness guard cannot keep out. */
  lemma EmptyIdReadmitted(xs: seq<PeerId>)
    requires "" in xs
    ensures AfterConnect(xs, "") == xs + [""]
    ensures !Distinct(AfterConnect(xs, ""))
  {
    var r := AfterConnect(xs, "");
    var k :| 0 <= k < |xs| && xs[k] == "";
    assert r[k] == r[|xs|];
  }

  /** The handler runs twice per connection; for a non-empty id the second
      run finds the id and leaves the list as the first run left it. */
  lemma ConnectTwice(xs: seq<PeerId>, id: PeerId)
    requires id != ""
    ensures AfterConnect(AfterConnect(xs, id), id) == AfterConnect(xs, id)
  {
  }

  // ---------------------------------------------------------------------
  // Histories of connects and disconnects

  /** One handler invocation that changes the registry. */
  datatype Op = Connect(id: PeerId) | Disconnect(id: PeerId)

  /** The registry after one handler invocation. */
  function Apply(xs: seq<PeerId>, op: Op): seq<PeerId>
  {
    match op
    case Connect(id) => AfterConnect(xs, id)
    case Disconnect(id) => Without(xs, id)
  }

  /** The registry after a history of handler invocations, applied in order. */
  function Run(xs: seq<PeerId>, ops: seq<Op>): seq<PeerId>
    decreases |ops|
  {
    if ops == [] then xs
    else Apply(Run(xs, ops[..|ops| - 1]), ops[|ops| - 1])
  }

  /** `x` was connected at some point of the history and not disconnected
      after that. */
  ghost predicate Live(ops: seq<Op>, x: PeerId)
  {
    exists i :: 0 <= i < |ops| && ops[i] == Connect(x) &&
      forall j :: i < j < |ops| ==> ops[j] != Disconnect(x)
  }

  /** No history brings a duplicate of a non-empty id into the registry. */
  lemma {:induction false} RunKeepsDistinct(xs: seq<PeerId>, ops: seq<Op>)
    requires DistinctNonEmpty(xs)
    ensures DistinctNonEmpty(Run(xs, ops))
    decreases |ops|
  {
    if ops != [] {
      var prefix := ops[..|ops| - 1];
      RunKeepsDistinct(xs, prefix);
      match ops[|ops| - 1]
      case Connect(id) => ConnectKeepsDistinct(Run(xs, prefix), id);
      case Disconnect(id) => WithoutKeepsDistinct(Run(xs, prefix), id);
    }
  }

  /** Every id in the registry was connected at some point of the history. */
  lemma {:induction false} RunListsConnected(ops: seq<Op>, x: PeerId)
    requires x in Run([], ops)
    ensures exists i :: 0 <= i < |ops| && ops[i] == Connect(x)
    decreases |ops|
  {
    var prefix := ops[..|ops| - 1];
    var last := ops[|ops| - 1];
    if last == Connect(x) {
    } else {
      assert x in Run([], prefix);
      RunListsConnected(prefix, x);
      var i :| 0 <= i < |prefix| && prefix[i] == Connect(x);
      assert ops[i] == Connect(x);
    }
  }

  /** If no connect in the history uses the empty id, the registry never
      holds a duplicate. */
  lemma RunDistinct(ops: seq<Op>)
    requires forall i :: 0 <= i < |ops| && ops[i].Connect? ==> ops[i].id != ""
    ensures Distinct(Run([], ops))
  {
    var r := Run([], ops);
    RunKeepsDistinct([], ops);
    forall i, j | 0 <= i < j < |r|
      ensures r[i] != r[j]
    {
      if r[i] == r[j] {
        RunListsConnected(ops, r[i]);
      }
    }
  }

  /** Whether `x` is live after a non-empty history depends only on the
      last handler run and on whether it was live before it. */
  lemma LiveStep(ops: seq<Op>, x: PeerId)
    requires ops != []
    ensures Live(ops, x) <==>
      ops[|ops| - 1] == Connect(x) ||
      (ops[|ops| - 1] != Disconnect(x) && Live(ops[..|ops| - 1], x))
  {
    var n := |ops| - 1;
    var prefix := ops[..n];
    if ops[n] == Disconnect(x) {
      forall i | 0 <= i < |ops| && ops[i] == Connect(x)
        ensures exists j :: i < j < |ops| && ops[j] == Disconnect(x)
      {
        assert i < n && ops[n] == Disconnect(x);
      }
    } else if ops[n] != Connect(x) {
      if Live(prefix, x) {
        var i :| 0 <= i < |prefix| && prefix[i] == Connect(x) &&
          forall j :: i < j < |prefix| ==> prefix[j] != Disconnect(x);
        assert ops[i] == Connect(x);
        forall j | i < j < |ops|
          ensures ops[j] != Disconnect(x)
        {
          if j < n {
            assert ops[j] == prefix[j];
          }
        }
      }
      if Live(ops, x) {
        var i :| 0 <= i < |ops| && ops[i] == Connect(x) &&
          forall j :: i < j < |ops| ==> ops[j] != Disconnect(x);
        assert prefix[i] == Connect(x);
        forall j | i < j < |prefix|
          ensures prefix[j] != Disconnect(x)
        {
          assert prefix[j] == ops[j];
        }
      }
    }
  }

  /** The registry holds exactly the ids connected and not disconnected
      since: its membership is the ids admitted minus the ids removed. */
  lemma {:induction false} RunMembership(ops: seq<Op>, x: PeerId)
    ensures x in Run([], ops) <==> Live(ops, x)
    decreases |ops|
  {
    if ops != [] {
      RunMembership(ops[..|ops| - 1], x);
      LiveStep(ops, x);
    }
  }
}
