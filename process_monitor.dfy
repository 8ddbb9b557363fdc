/**
 * The reconciliation step of dotnet-dtracer's process monitor: every poll
 * the monitor compares its tracked process ids with the ports currently
 * available, tracks (and announces) the new ones, and forgets the ones that
 * are gone.
 */
module ProcessMonitor {
  import opened Common

  /** The ids of `current` that are not yet tracked, each once, in the order
      of their first occurrence in `current`. */
  function Fresh(tracked: seq<int>, current: seq<int>): seq<int>
    decreases |current|
  {
    if current == [] then []
    else if current[0] in tracked then Fresh(tracked, current[1..])
    else [current[0]] + Fresh(tracked + [current[0]], current[1..])
  }

  /** The elements of `ids` that occur in `current`, in order. */
  function Present(ids: seq<int>, current: seq<int>): seq<int>
    decreases |ids|
  {
    if ids == [] then []
    else if ids[0] in current then [ids[0]] + Present(ids[1..], current)
    else Present(ids[1..], current)
  }

  // ---------------------------------------------------------------------------
  // Properties of the specification

  /** An id is fresh exactly when it is current and was not tracked, and the
      fresh ids are distinct: each new process is announced once, even when
      `current` lists it twice. */
  lemma {:induction false} FreshMembers(tracked: seq<int>, current: seq<int>)
    ensures forall x :: x in Fresh(tracked, current) <==> x in current && x !in tracked
    ensures Distinct(Fresh(tracked, current))
    decreases |current|
  {
    if current != [] {
      var x := current[0];
      if x in tracked {
        FreshMembers(tracked, current[1..]);
        assert current == [x] + current[1..];
      } else {
        FreshMembers(tracked + [x], current[1..]);
        assert current == [x] + current[1..];
        var f := Fresh(tracked + [x], current[1..]);
        assert x !in f;
        forall i, j | 0 <= i < j < |[x] + f| ensures ([x] + f)[i] != ([x] + f)[j] {
          if i > 0 {
            assert ([x] + f)[i] == f[i - 1] && ([x] + f)[j] == f[j - 1];
          } else {
            assert ([x] + f)[j] in f;
          }
        }
      }
    }
  }

  /** Appending the fresh ids keeps the tracked list free of duplicates. */
  lemma AppendFreshDistinct(tracked: seq<int>, current: seq<int>)
    requires Distinct(tracked)
    ensures Distinct(tracked + Fresh(tracked, current))
  {
    FreshMembers(tracked, current);
    var f := Fresh(tracked, current);
    forall i, j | 0 <= i < j < |tracked + f| ensures (tracked + f)[i] != (tracked + f)[j] {
      if j >= |tracked| && i < |tracked| {
        assert (tracked + f)[j] in f;
      }
    }
  }

  lemma {:induction false} PresentMembers(ids: seq<int>, current: seq<int>)
    ensures forall x :: x in Present(ids, current) <==> x in ids && x in current
    ensures Subsequence(Present(ids, current), ids)
    decreases |ids|
  {
    if ids != [] {
      PresentMembers(ids[1..], current);
      assert ids == [ids[0]] + ids[1..];
      if ids[0] in current {
        SubsequenceCons(ids[0], Present(ids[1..], current), ids[1..]);
      } else {
        SubsequenceSkip(ids[0], Present(ids[1..], current), ids[1..]);
      }
    }
  }

  lemma {:induction false} PresentAppend(a: seq<int>, b: seq<int>, current: seq<int>)
    ensures Present(a + b, current) == Present(a, current) + Present(b, current)
    decreases |a|
  {
    if a != [] {
      assert (a + b)[1..] == a[1..] + b;
      PresentAppend(a[1..], b, current);
    } else {
      assert a + b == b;
    }
  }

  lemma {:induction false} PresentAll(ids: seq<int>, current: seq<int>)
    requires forall x :: x in ids ==> x in current
    ensures Present(ids, current) == ids
    decreases |ids|
  {
    if ids != [] {
      var y := ids[0];
      assert y in ids;
      assert y in current;
      forall x | x in ids[1..] ensures x in current {
        assert x in ids;
      }
      PresentAll(ids[1..], current);
      calc {
        Present(ids, current);
        [ids[0]] + Present(ids[1..], current);
        [ids[0]] + ids[1..];
        ids;
      }
    }
  }

  /**
   * One reconciliation step, from tracked ids `t` and current ids `c`: the
   * result is the still-present old ids in their old order followed by the
   * fresh ids; it holds exactly the current ids, each once.
   */
  lemma ReconcileResult(t: seq<int>, c: seq<int>)
    requires Distinct(t)
    ensures var r := Present(t + Fresh(t, c), c);
      && r == Present(t, c) + Fresh(t, c)
      && (forall x :: x in r <==> x in c)
      && Distinct(r)
      && Subsequence(Present(t, c), t)
  {
    FreshMembers(t, c);
    PresentAppend(t, Fresh(t, c), c);
    PresentAll(Fresh(t, c), c);
    PresentMembers(t + Fresh(t, c), c);
    PresentMembers(t, c);
    AppendFreshDistinct(t, c);
    SubsequenceDistinct(Present(t + Fresh(t, c), c), t + Fresh(t, c));
  }

  /** Nothing is fresh when every current id is already tracked. */
  lemma {:induction false} FreshNone(tracked: seq<int>, current: seq<int>)
    requires forall x :: x in current ==> x in tracked
    ensures Fresh(tracked, current) == []
    decreases |current|
  {
    if current != [] {
      var y := current[0];
      assert y in current;
      forall x | x in current[1..] ensures x in tracked {
        assert x in current;
      }
      FreshNone(tracked, current[1..]);
    }
  }

  /** A second poll against the same port list changes nothing and raises
      no event. */
  lemma ReconcileStable(t: seq<int>, c: seq<int>)
    requires Distinct(t)
    ensures var r := Present(t, c) + Fresh(t, c);
      Fresh(r, c) == [] && Present(r, c) + Fresh(r, c) == r
  {
    ReconcileResult(t, c);
    PresentAppend(t, Fresh(t, c), c);
    var r := Present(t, c) + Fresh(t, c);
    PresentMembers(t, c);
    FreshMembers(t, c);
    FreshNone(r, c);
    PresentMembers(r, c);
    PresentAll(r, c);
  }

  // ---------------------------------------------------------------------------
  // The two passes of a poll

  /** The first pass: every current id not yet tracked is appended, and
      reported as started. */
  method AddFresh(ids: seq<int>, current: seq<int>) returns (r: seq<int>, added: seq<int>)
    ensures added == Fresh(ids, current)
    ensures r == ids + added
  {
    r, added := ids, [];
    for i := 0 to |current|
      invariant r == ids + added
      invariant ids + Fresh(ids, current) == r + Fresh(r, current[i..])
    {
      assert current[i..] == [current[i]] + current[i + 1..];
      if current[i] !in r {
        r, added := r + [current[i]], added + [current[i]];
      }
    }
    assert current[|current|..] == [];
    assert (ids + added)[|ids|..] == added;
    assert (ids + Fresh(ids, current))[|ids|..] == Fresh(ids, current);
  }

  /** The second pass: every tracked id that is not current is removed from
      the list (its first occurrence; the list holds each id once). */
  method RemoveAbsent(ids: seq<int>, current: seq<int>) returns (r: seq<int>)
    requires Distinct(ids)
    ensures r == Present(ids, current)
  {
    r := ids;
    for i := 0 to |ids|
      invariant r == Present(ids[..i], current) + ids[i..]
    {
      RemoveAbsentStep(ids, i, current);
      if ids[i] !in current {
        r := RemoveFirst(r, ids[i]);
      }
    }
    assert ids[..|ids|] == ids;
  }

  /** One step of the second pass: the id at `i` is kept when current and
      otherwise removed from the partly filtered list. */
  lemma RemoveAbsentStep(ids: seq<int>, i: nat, current: seq<int>)
    requires Distinct(ids) && i < |ids|
    ensures var id := ids[i];
      var before := Present(ids[..i], current) + ids[i..];
      var after := Present(ids[..i + 1], current) + ids[i + 1..];
      && (id in current ==> after == before)
      && (id !in current ==> after == RemoveFirst(before, id))
  {
    PresentSnoc(ids, i, current);
    assert ids[i..] == [ids[i]] + ids[i + 1..];
    if ids[i] !in current {
      RemoveAbsentDrop(ids, i, current);
    }
  }

  lemma PresentSnoc(ids: seq<int>, i: nat, current: seq<int>)
    requires i < |ids|
    ensures Present(ids[..i + 1], current)
      == Present(ids[..i], current) + (if ids[i] in current then [ids[i]] else [])
  {
    assert ids[..i + 1] == ids[..i] + [ids[i]];
    PresentAppend(ids[..i], [ids[i]], current);
    assert [ids[i]][1..] == [];
  }

  /** Removing an absent id cuts out its only occurrence. */
  lemma RemoveAbsentDrop(ids: seq<int>, i: nat, current: seq<int>)
    requires Distinct(ids) && i < |ids| && ids[i] !in current
    ensures RemoveFirst(Present(ids[..i], current) + ids[i..], ids[i])
      == Present(ids[..i], current) + ids[i + 1..]
  {
    var id, p := ids[i], Present(ids[..i], current);
    assert id !in p by {
      assert id !in ids[..i] by {
        forall k | 0 <= k < i ensures ids[..i][k] != id {
          assert ids[..i][k] == ids[k];
        }
      }
      PresentMembers(ids[..i], current);
    }
    assert p + ids[i..] == p + [id] + ids[i + 1..] by {
      assert ids[i..] == [id] + ids[i + 1..];
    }
    RemoveFirstAfter(p, id, ids[i + 1..]);
  }

  // ---------------------------------------------------------------------------
  // The monitor

  class ProcessMonitor {
    /** `_processIds`. */
    var processIds: seq<int>
    /** The ids the ProcessStarted event has been raised for, in order. */
    var started: seq<int>

    ghost predicate Valid()
      reads this
    {
      Distinct(processIds)
    }

    constructor ()
      ensures Valid() && processIds == [] && started == []
    {
      processIds := [];
      started := [];
    }

    /**
     * One iteration of the polling loop with the current port list: first
     * every untracked current id is appended and announced, then every
     * tracked id that is no longer current is removed.
     */
    method Reconcile(current: seq<int>)
      requires Valid()
      modifies this
      ensures processIds == Present(old(processIds), current) + Fresh(old(processIds), current)
      ensures started == old(started) + Fresh(old(processIds), current)
      ensures Valid()
    {
      var all, added := AddFresh(processIds, current);
      started := started + added;
      AppendFreshDistinct(processIds, current);
      ReconcileResult(processIds, current);
      processIds := RemoveAbsent(all, current);
    }
  }
}
