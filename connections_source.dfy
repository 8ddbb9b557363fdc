/**
 * The reversed-server connections source of the monitoring library: it
 * listens once on a reversed diagnostics server, appends every accepted
 * connection to its list, and on each query prunes the connections whose
 * transport check fails before returning the rest.
 */
module ConnectionsSource {
  import opened Common

  /** A connection accepted from the reversed server; only its identity matters. */
  type Connection = nat

  /** The connections of `cs` whose transport check passes, in order. */
  function Passing(cs: seq<Connection>, alive: set<Connection>): seq<Connection>
    decreases |cs|
  {
    if cs == [] then []
    else if cs[0] in alive then [cs[0]] + Passing(cs[1..], alive)
    else Passing(cs[1..], alive)
  }

  /** The connections of `cs` whose transport check fails, in order. */
  function Failing(cs: seq<Connection>, alive: set<Connection>): seq<Connection>
    decreases |cs|
  {
    if cs == [] then []
    else if cs[0] !in alive then [cs[0]] + Failing(cs[1..], alive)
    else Failing(cs[1..], alive)
  }

  lemma {:induction false} PassingAppend(a: seq<Connection>, b: seq<Connection>, alive: set<Connection>)
    ensures Passing(a + b, alive) == Passing(a, alive) + Passing(b, alive)
    ensures Failing(a + b, alive) == Failing(a, alive) + Failing(b, alive)
    decreases |a|
  {
    if a != [] {
      assert (a + b)[1..] == a[1..] + b;
      PassingAppend(a[1..], b, alive);
    } else {
      assert a + b == b;
    }
  }

  /** The kept connections are exactly the listed ones that pass, in their
      original order. */
  lemma {:induction false} PassingMembers(cs: seq<Connection>, alive: set<Connection>)
    ensures forall c :: c in Passing(cs, alive) <==> c in cs && c in alive
    ensures Subsequence(Passing(cs, alive), cs)
    decreases |cs|
  {
    if cs != [] {
      var x, rest := cs[0], cs[1..];
      PassingMembers(rest, alive);
      assert cs == [x] + rest;
      if x in alive {
        SubsequenceCons(x, Passing(rest, alive), rest);
      } else {
        SubsequenceSkip(x, Passing(rest, alive), rest);
      }
    }
  }

  /** The dropped connections are exactly the listed ones that fail, in
      their original order. */
  lemma {:induction false} FailingMembers(cs: seq<Connection>, alive: set<Connection>)
    ensures forall c :: c in Failing(cs, alive) <==> c in cs && c !in alive
    ensures Subsequence(Failing(cs, alive), cs)
    decreases |cs|
  {
    if cs != [] {
      var x, rest := cs[0], cs[1..];
      FailingMembers(rest, alive);
      assert cs == [x] + rest;
      if x !in alive {
        SubsequenceCons(x, Failing(rest, alive), rest);
      } else {
        SubsequenceSkip(x, Failing(rest, alive), rest);
      }
    }
  }

  /** Kept and dropped connections together account for every listed one. */
  lemma {:induction false} PassingFailingPartition(cs: seq<Connection>, alive: set<Connection>)
    ensures multiset(Passing(cs, alive)) + multiset(Failing(cs, alive)) == multiset(cs)
    decreases |cs|
  {
    if cs != [] {
      PassingFailingPartition(cs[1..], alive);
      assert cs == [cs[0]] + cs[1..];
    }
  }

  /** A second query with the same transport states drops nothing. */
  lemma {:induction false} PruneIdempotent(cs: seq<Connection>, alive: set<Connection>)
    ensures Passing(Passing(cs, alive), alive) == Passing(cs, alive)
    ensures Failing(Passing(cs, alive), alive) == []
    decreases |cs|
  {
    if cs != [] {
      PruneIdempotent(cs[1..], alive);
      if cs[0] in alive {
        assert ([cs[0]] + Passing(cs[1..], alive))[1..] == Passing(cs[1..], alive);
      }
    }
  }

  /** One step of the prune loop over the snapshot: the connection at `i`
      stays when its check passes and is otherwise removed from the list. */
  lemma PruneStep(cs: seq<Connection>, i: nat, alive: set<Connection>)
    requires Distinct(cs) && i < |cs|
    ensures var c := cs[i];
      var before := Passing(cs[..i], alive) + cs[i..];
      var after := Passing(cs[..i + 1], alive) + cs[i + 1..];
      && (c in alive ==> after == before)
      && (c !in alive ==> after == RemoveFirst(before, c))
  {
    PassingSnoc(cs, i, alive);
    assert cs[i..] == [cs[i]] + cs[i + 1..];
    if cs[i] !in alive {
      PruneDrop(cs, i, alive);
    }
  }

  lemma PassingSnoc(cs: seq<Connection>, i: nat, alive: set<Connection>)
    requires i < |cs|
    ensures Passing(cs[..i + 1], alive) == Passing(cs[..i], alive) + (if cs[i] in alive then [cs[i]] else [])
    ensures Failing(cs[..i + 1], alive) == Failing(cs[..i], alive) + (if cs[i] in alive then [] else [cs[i]])
  {
    assert cs[..i + 1] == cs[..i] + [cs[i]];
    PassingAppend(cs[..i], [cs[i]], alive);
    assert [cs[i]][1..] == [];
  }

  /** Removing a failing connection cuts out its only occurrence. */
  lemma PruneDrop(cs: seq<Connection>, i: nat, alive: set<Connection>)
    requires Distinct(cs) && i < |cs| && cs[i] !in alive
    ensures RemoveFirst(Passing(cs[..i], alive) + cs[i..], cs[i])
      == Passing(cs[..i], alive) + cs[i + 1..]
  {
    var c, p := cs[i], Passing(cs[..i], alive);
    assert c !in p by {
      assert c !in cs[..i] by {
        forall k | 0 <= k < i ensures cs[..i][k] != c {
          assert cs[..i][k] == cs[k];
        }
      }
      PassingMembers(cs[..i], alive);
    }
    assert p + cs[i..] == p + [c] + cs[i + 1..] by {
      assert cs[i..] == [c] + cs[i + 1..];
    }
    RemoveFirstAfter(p, c, cs[i + 1..]);
  }

  /** The prune loop: every connection of the snapshot whose check fails is
      removed from the list (its only occurrence) and disposed, in order. */
  method PruneConnections(cs: seq<Connection>, alive: set<Connection>)
    returns (kept: seq<Connection>, dropped: seq<Connection>)
    requires Distinct(cs)
    ensures kept == Passing(cs, alive)
    ensures dropped == Failing(cs, alive)
  {
    kept, dropped := cs, [];
    for i := 0 to |cs|
      invariant kept == Passing(cs[..i], alive) + cs[i..]
      invariant dropped == Failing(cs[..i], alive)
    {
      PruneStep(cs, i, alive);
      PassingSnoc(cs, i, alive);
      if cs[i] !in alive {
        kept := RemoveFirst(kept, cs[i]);
        dropped := dropped + [cs[i]];
      }
    }
    assert cs[..|cs|] == cs;
  }

  class ReversedServerConnectionsSource {
    /** `_server != null`; `_listenTask` is set in the same step. */
    var listening: bool
    /** `_disposed`. */
    var disposed: bool
    /** `_cancellation` has been cancelled. */
    var cancelled: bool
    /** The reversed server has been disposed. */
    var serverDisposed: bool
    /** `_connections`. */
    var connections: seq<Connection>
    /** The connections disposed by a prune, in order. */
    var released: seq<Connection>
    /** The connections passed to OnNewConnection, in order. */
    var announced: seq<Connection>

    ghost predicate Valid()
      reads this
    {
      && Distinct(connections)
      && (disposed ==> cancelled && serverDisposed == listening)
      && (serverDisposed ==> cancelled && listening)
    }

    constructor ()
      ensures Valid()
      ensures !listening && !disposed && !cancelled && !serverDisposed
      ensures connections == [] && released == [] && announced == []
    {
      listening, disposed, cancelled, serverDisposed := false, false, false, false;
      connections, released, announced := [], [], [];
    }

    method VerifyNotDisposed() returns (r: Status)
      ensures r == Ok <==> !disposed
      ensures r != Ok ==> r == Fail(ObjectDisposed)
    {
      r := if disposed then Fail(ObjectDisposed) else Ok;
    }

    /** Listen: may succeed once; a second call is an InvalidOperationException. */
    method Listen() returns (r: Status)
      requires Valid()
      modifies this
      ensures Valid()
      ensures old(disposed) ==> r == Fail(ObjectDisposed) && unchanged(this)
      ensures !old(disposed) && old(listening) ==> r == Fail(InvalidOperation) && unchanged(this)
      ensures !old(disposed) && !old(listening) ==> r == Ok && listening
      ensures connections == old(connections) && disposed == old(disposed)
    {
      r := VerifyNotDisposed();
      if r != Ok {
        return;
      }
      if listening {
        return Fail(InvalidOperation);
      }
      listening := true;
    }

    /**
     * GetConnectionsAsync: prune the connections whose transport check
     * fails (`alive` holds those whose check passes), disposing each, and
     * return the rest in their original order. A cancelled token makes the
     * wait for the list's semaphore throw before anything changes.
     */
    method GetConnections(alive: set<Connection>, tokenCancelled: bool) returns (r: Result<seq<Connection>>)
      requires Valid()
      modifies this
      ensures Valid()
      ensures old(disposed) ==> r == Failure(ObjectDisposed) && unchanged(this)
      ensures !old(disposed) && (tokenCancelled || old(cancelled)) ==> r == Failure(Cancelled) && unchanged(this)
      ensures !old(disposed) && !tokenCancelled && !old(cancelled) ==>
        && r == Success(Passing(old(connections), alive))
        && connections == Passing(old(connections), alive)
        && released == old(released) + Failing(old(connections), alive)
      ensures listening == old(listening) && disposed == old(disposed) && announced == old(announced)
    {
      var s := VerifyNotDisposed();
      if s != Ok {
        return Failure(ObjectDisposed);
      }
      if tokenCancelled || cancelled {
        return Failure(Cancelled);
      }
      var kept, dropped := PruneConnections(connections, alive);
      PassingMembers(connections, alive);
      SubsequenceDistinct(kept, connections);
      connections := kept;
      released := released + dropped;
      r := Success(connections);
    }

    /**
     * One turn of the listen loop after the server accepted `c`: append it
     * to the list, then announce it. Once the source's cancellation has been
     * requested the semaphore wait throws and the connection is not kept.
     */
    method Accept(c: Connection) returns (r: Status)
      requires Valid() && listening && c !in connections
      modifies this
      ensures Valid()
      ensures old(cancelled) ==> r == Fail(Cancelled) && unchanged(this)
      ensures !old(cancelled) ==>
        && r == Ok
        && connections == old(connections) + [c]
        && announced == old(announced) + [c]
        && released == old(released)
      ensures listening == old(listening) && disposed == old(disposed)
    {
      if cancelled {
        return Fail(Cancelled);
      }
      connections := connections + [c];
      announced := announced + [c];
      r := Ok;
    }

    /**
     * DisposeAsync: cancel, dispose the server if one was created, await the
     * listen task and mark the source disposed; a call after that does
     * nothing. `listenEnd` is how the listen task ended: a fault is rethrown
     * by the await, so the source is not marked disposed and the next call
     * goes through the same steps again. The connection list is left as it is.
     */
    method DisposeAsync(listenEnd: Status) returns (r: Status)
      requires Valid()
      modifies this
      ensures Valid()
      ensures old(disposed) ==> r == Ok && unchanged(this)
      ensures !old(disposed) ==> cancelled && serverDisposed == listening
      ensures !old(disposed) && listening && listenEnd.Fail? ==> r == listenEnd && !disposed
      ensures !old(disposed) && !(listening && listenEnd.Fail?) ==> r == Ok && disposed
      ensures listening == old(listening) && connections == old(connections)
      ensures released == old(released) && announced == old(announced)
    {
      r := Ok;
      if !disposed {
        cancelled := true;
        if listening {
          serverDisposed := true;
          if listenEnd.Fail? {
            return listenEnd;
          }
        }
        disposed := true;
      }
    }
  }
}
