/**
 * The per-endpoint stream hand-off of the diagnostics client (BaseIpcEndpoint,
 * its StreamTarget and ServerIpcEndpoint.SetStream): callers register targets
 * in a FIFO queue; a provided stream goes to the first target that accepts
 * it, rejecting targets are disposed and dropped, a stream nobody takes is
 * kept as the endpoint's cached stream, and a superseded stream is disposed.
 *
 * A target's accept handler is a closure; here the target records its kind
 * (made by Connect or by WaitForConnectionAsync) and the handler's verdict is
 * a function of the kind and of the stream's liveness (`isLive`).
 */
module IpcTransport {
  import opened Common

  /** Which caller made the target. */
  datatype TargetKind = ConnectTarget | WaitTarget

  /** What a target's caller has been told: nothing yet, the result of its
      event or completion source (connected or not), or a cancellation. */
  datatype Signal = NotYet | Signalled(connected: bool) | Canceled

  /** An accept handler's answer: whether it accepts the stream, and whether it
      disposed the stream on its way. */
  datatype Verdict = Verdict(accept: bool, disposes: bool)

  /** Connect's handler: it sets its event and accepts any stream. */
  function ConnectVerdict(live: bool): (v: Verdict)
    ensures v.accept && !v.disposes
  {
    Verdict(true, false)
  }

  /** WaitForConnectionAsync's handler as written: a live stream is disposed
      (and rejected, so it stays cached); a dead one is accepted and kept. */
  function WaitVerdictAsWritten(live: bool): (v: Verdict)
    ensures v.accept <==> !live
    ensures v.disposes <==> live
  {
    Verdict(!live, live)
  }

  /** WaitForConnectionAsync's handler as intended: a dead stream is accepted
      so that it can be disposed; a live one is rejected and stays available. */
  function WaitVerdict(live: bool): (v: Verdict)
    ensures v.accept <==> !live
    ensures v.disposes <==> !live
  {
    Verdict(!live, !live)
  }

  /** The observable state of a target. */
  datatype TargetView = TargetView(kind: TargetKind, isDisposed: bool, stream: Option<StreamId>, signal: Signal)

  /** What SetStream does to a target and returns. */
  datatype SetResult = SetResult(view: TargetView, accepted: bool, disposes: bool)

  /**
   * StreamTarget.SetStream on a target view: a disposed target refuses and
   * nothing changes; otherwise the handler decides, the target keeps the
   * stream only if it accepts, and its caller is signalled (first signal wins).
   */
  function SetStreamSpec(v: TargetView, s: StreamId, live: bool, waitVerdict: bool -> Verdict): (r: SetResult)
    ensures v.isDisposed ==> r == SetResult(v, false, false)
    ensures !v.isDisposed ==>
      && r.view.kind == v.kind && !r.view.isDisposed
      && r.view.stream == (if r.accepted then Some(s) else None)
      && (v.signal != NotYet ==> r.view.signal == v.signal)
  {
    if v.isDisposed then SetResult(v, false, false)
    else
      var verdict := if v.kind == ConnectTarget then ConnectVerdict(live) else waitVerdict(live);
      var signal := if v.signal != NotYet then v.signal
                    else if v.kind == ConnectTarget then Signalled(true) else Signalled(live);
      SetResult(TargetView(v.kind, false, if verdict.accept then Some(s) else None, signal),
                verdict.accept, verdict.disposes)
  }

  /** The outcome of offering a stream to the queue: how many targets were
      dequeued, their views afterwards, the stream left over, and whether a
      handler disposed the offered stream. */
  datatype BindResult = BindResult(taken: nat, views: seq<TargetView>, leftover: Option<StreamId>, disposed: bool)

  /**
   * The loop of BindStreamToTarget, as intended: targets are dequeued in
   * order until one accepts the stream or the queue is empty; each rejecting
   * target is disposed.
   */
  function Offer(vs: seq<TargetView>, s: StreamId, live: bool, waitVerdict: bool -> Verdict): (r: BindResult)
    ensures |r.views| == r.taken <= |vs|
    ensures vs != [] ==> 0 < r.taken
    ensures r.leftover.Some? ==> r.leftover == Some(s) && r.taken == |vs|
    decreases |vs|
  {
    if vs == [] then BindResult(0, [], Some(s), false)
    else
      var sr := SetStreamSpec(vs[0], s, live, waitVerdict);
      var v := if sr.accepted then sr.view else sr.view.(isDisposed := true);
      if sr.accepted then BindResult(1, [v], None, sr.disposes)
      else
        var r := Offer(vs[1..], s, live, waitVerdict);
        BindResult(1 + r.taken, [v] + r.views, r.leftover, sr.disposes || r.disposed)
  }

  /**
   * The loop as written: an empty queue skips the loop and leaves the stream
   * to be cached; a non-empty one is dequeued while the stream is non-null, so
   * when every target rejects it the loop dequeues from the emptied queue and
   * throws InvalidOperationException.
   */
  function OfferAsWritten(vs: seq<TargetView>, s: StreamId, live: bool, waitVerdict: bool -> Verdict): (r: Result<BindResult>)
    ensures vs == [] ==> r == Success(BindResult(0, [], Some(s), false))
    ensures vs != [] ==> r == DequeueLoopAsWritten(vs, s, live, waitVerdict)
  {
    if vs == [] then Success(BindResult(0, [], Some(s), false))
    else DequeueLoopAsWritten(vs, s, live, waitVerdict)
  }

  /** The `while (null != stream)` loop as written: a Dequeue on an empty
      queue throws. */
  function DequeueLoopAsWritten(vs: seq<TargetView>, s: StreamId, live: bool, waitVerdict: bool -> Verdict): (r: Result<BindResult>)
    ensures r.Failure? ==> r.error == InvalidOperation
    ensures r.Success? ==> r.value.leftover.None? && 0 < r.value.taken <= |vs|
    decreases |vs|
  {
    if vs == [] then Failure(InvalidOperation)
    else
      var sr := SetStreamSpec(vs[0], s, live, waitVerdict);
      var v := if sr.accepted then sr.view else sr.view.(isDisposed := true);
      if sr.accepted then Success(BindResult(1, [v], None, sr.disposes))
      else
        match DequeueLoopAsWritten(vs[1..], s, live, waitVerdict)
        case Failure(e) => Failure(e)
        case Success(r) => Success(BindResult(1 + r.taken, [v] + r.views, r.leftover, sr.disposes || r.disposed))
  }

  /** Whether a target with view `v` takes the stream. */
  predicate Accepts(v: TargetView, live: bool, waitVerdict: bool -> Verdict) {
    !v.isDisposed && (v.kind == ConnectTarget || waitVerdict(live).accept)
  }

  /**
   * The written dequeue loop agrees with the intended one exactly when some
   * target accepts the stream; when none does it throws.
   */
  lemma {:induction false} DequeueLoopAsWrittenAgrees(vs: seq<TargetView>, s: StreamId, live: bool, waitVerdict: bool -> Verdict)
    ensures (exists i :: 0 <= i < |vs| && Accepts(vs[i], live, waitVerdict)) ==>
      DequeueLoopAsWritten(vs, s, live, waitVerdict) == Success(Offer(vs, s, live, waitVerdict))
    ensures (forall i :: 0 <= i < |vs| ==> !Accepts(vs[i], live, waitVerdict)) ==>
      DequeueLoopAsWritten(vs, s, live, waitVerdict) == Failure(InvalidOperation)
    decreases |vs|
  {
    if vs != [] {
      DequeueLoopAsWrittenAgrees(vs[1..], s, live, waitVerdict);
      if exists i :: 0 <= i < |vs| && Accepts(vs[i], live, waitVerdict) {
        var i :| 0 <= i < |vs| && Accepts(vs[i], live, waitVerdict);
        if i > 0 && !Accepts(vs[0], live, waitVerdict) {
          assert vs[1..][i - 1] == vs[i];
        }
      }
      if forall i :: 0 <= i < |vs| ==> !Accepts(vs[i], live, waitVerdict) {
        assert !Accepts(vs[0], live, waitVerdict);
        forall i | 0 <= i < |vs[1..]| ensures !Accepts(vs[1..][i], live, waitVerdict) {
          assert vs[1..][i] == vs[i + 1];
        }
      }
    }
  }

  /**
   * The written BindStreamToTarget agrees with the intended one when the
   * queue is empty or some target accepts; with a non-empty queue in which no
   * target accepts it throws instead of caching the stream.
   */
  lemma OfferAsWrittenAgrees(vs: seq<TargetView>, s: StreamId, live: bool, waitVerdict: bool -> Verdict)
    ensures (vs == [] || exists i :: 0 <= i < |vs| && Accepts(vs[i], live, waitVerdict)) ==>
      OfferAsWritten(vs, s, live, waitVerdict) == Success(Offer(vs, s, live, waitVerdict))
    ensures vs != [] && (forall i :: 0 <= i < |vs| ==> !Accepts(vs[i], live, waitVerdict)) ==>
      OfferAsWritten(vs, s, live, waitVerdict) == Failure(InvalidOperation)
  {
    DequeueLoopAsWrittenAgrees(vs, s, live, waitVerdict);
  }

  /** A queue holding one target that was already disposed (its Connect timed
      out, or its wait was cancelled) makes the written loop throw. */
  lemma DequeueFromEmptyAsWritten(s: StreamId, live: bool)
    ensures OfferAsWritten([TargetView(ConnectTarget, true, None, NotYet)], s, live, WaitVerdict).Failure?
    ensures Offer([TargetView(ConnectTarget, true, None, NotYet)], s, live, WaitVerdict).leftover == Some(s)
  {
    OfferAsWrittenAgrees([TargetView(ConnectTarget, true, None, NotYet)], s, live, WaitVerdict);
  }

  /**
   * As written, a single waiting target given a live stream disposes it and
   * rejects it, and the loop then dequeues from the emptied queue and throws;
   * the intended handler and loop leave the live stream cached and undisposed.
   */
  lemma LiveStreamDisposedAsWritten(s: StreamId)
    ensures var sr := SetStreamSpec(TargetView(WaitTarget, false, None, NotYet), s, true, WaitVerdictAsWritten);
      !sr.accepted && sr.disposes
    ensures OfferAsWritten([TargetView(WaitTarget, false, None, NotYet)], s, true, WaitVerdictAsWritten) == Failure(InvalidOperation)
    ensures var r := Offer([TargetView(WaitTarget, false, None, NotYet)], s, true, WaitVerdict);
      r.leftover == Some(s) && !r.disposed
  {
  }

  // ---------------------------------------------------------------------------
  // Properties of the intended loop

  /**
   * FIFO hand-off: when the stream is consumed, the target that took it is the
   * last one dequeued, holds the stream, and is the first in the queue that
   * accepts; when it is left over, no target in the queue accepts it.
   */
  lemma {:induction false} OfferStopsAtFirstAcceptor(vs: seq<TargetView>, s: StreamId, live: bool, waitVerdict: bool -> Verdict)
    ensures var r := Offer(vs, s, live, waitVerdict);
      && (r.leftover.None? ==>
            && 0 < r.taken && Accepts(vs[r.taken - 1], live, waitVerdict)
            && r.views[r.taken - 1].stream == Some(s)
            && forall j :: 0 <= j < r.taken - 1 ==> !Accepts(vs[j], live, waitVerdict))
      && (r.leftover.Some? ==> forall j :: 0 <= j < |vs| ==> !Accepts(vs[j], live, waitVerdict))
    decreases |vs|
  {
    if vs != [] {
      var sr := SetStreamSpec(vs[0], s, live, waitVerdict);
      assert sr.accepted <==> Accepts(vs[0], live, waitVerdict);
      if !sr.accepted {
        OfferStopsAtFirstAcceptor(vs[1..], s, live, waitVerdict);
        var r1 := Offer(vs[1..], s, live, waitVerdict);
        var r := Offer(vs, s, live, waitVerdict);
        if r.leftover.None? {
          assert r.views[r.taken - 1] == r1.views[r1.taken - 1];
          assert vs[r.taken - 1] == vs[1..][r1.taken - 1];
          forall j | 0 <= j < r.taken - 1 ensures !Accepts(vs[j], live, waitVerdict) {
            if j > 0 {
              assert vs[j] == vs[1..][j - 1];
            }
          }
        } else {
          forall j | 0 <= j < |vs| ensures !Accepts(vs[j], live, waitVerdict) {
            if j > 0 {
              assert vs[j] == vs[1..][j - 1];
            }
          }
        }
      }
    }
  }

  /** The stream is consumed exactly when some queued target accepts it. */
  lemma OfferConsumedIff(vs: seq<TargetView>, s: StreamId, live: bool, waitVerdict: bool -> Verdict)
    ensures Offer(vs, s, live, waitVerdict).leftover.None? <==> exists i :: 0 <= i < |vs| && Accepts(vs[i], live, waitVerdict)
  {
    OfferStopsAtFirstAcceptor(vs, s, live, waitVerdict);
  }

  /** Every dequeued target of `r` that did not take the stream is disposed. */
  predicate RejectersDisposed(r: BindResult)
    requires |r.views| == r.taken
  {
    forall j :: 0 <= j < r.taken && (j != r.taken - 1 || r.leftover.Some?) ==> r.views[j].isDisposed
  }

  /** Every dequeued target that rejected the stream ends up disposed. */
  lemma {:induction false} OfferDisposesRejecters(vs: seq<TargetView>, s: StreamId, live: bool, waitVerdict: bool -> Verdict)
    ensures RejectersDisposed(Offer(vs, s, live, waitVerdict))
    decreases |vs|
  {
    if vs != [] {
      var sr := SetStreamSpec(vs[0], s, live, waitVerdict);
      if !sr.accepted {
        OfferDisposesRejecters(vs[1..], s, live, waitVerdict);
        var r1 := Offer(vs[1..], s, live, waitVerdict);
        var r := Offer(vs, s, live, waitVerdict);
        assert r.views == [sr.view.(isDisposed := true)] + r1.views;
        forall j | 0 <= j < r.taken && (j != r.taken - 1 || r.leftover.Some?) ensures r.views[j].isDisposed {
          if j > 0 {
            assert r.views[j] == r1.views[j - 1];
            assert j - 1 < r1.taken && (j - 1 != r1.taken - 1 || r1.leftover.Some?);
          } else {
            assert r.views[0] == sr.view.(isDisposed := true);
          }
        }
      }
    }
  }

  /** Each dequeued target keeps its kind. */
  lemma {:induction false} OfferKeepsKinds(vs: seq<TargetView>, s: StreamId, live: bool, waitVerdict: bool -> Verdict)
    ensures var r := Offer(vs, s, live, waitVerdict);
      forall j :: 0 <= j < |r.views| && j < |vs| ==> r.views[j].kind == vs[j].kind
    decreases |vs|
  {
    if vs != [] {
      var sr := SetStreamSpec(vs[0], s, live, waitVerdict);
      if !sr.accepted {
        OfferKeepsKinds(vs[1..], s, live, waitVerdict);
        var r1 := Offer(vs[1..], s, live, waitVerdict);
        var r := Offer(vs, s, live, waitVerdict);
        forall j | 0 <= j < |r.views| && j < |vs| ensures r.views[j].kind == vs[j].kind {
          if j > 0 {
            assert r.views[j] == r1.views[j - 1] && vs[j] == vs[1..][j - 1];
          }
        }
      }
    }
  }

  /**
   * With the intended handler a live stream is never disposed by the queue,
   * and only a Connect target can take it: waits for a live stream all reject,
   * so it stays cached for the next Connect.
   */
  lemma {:induction false} OfferKeepsLiveStream(vs: seq<TargetView>, s: StreamId)
    requires forall i :: 0 <= i < |vs| ==> vs[i].kind == WaitTarget
    ensures Offer(vs, s, true, WaitVerdict).leftover == Some(s)
    ensures !Offer(vs, s, true, WaitVerdict).disposed
    decreases |vs|
  {
    if vs != [] {
      assert forall i :: 0 <= i < |vs[1..]| ==> vs[1..][i].kind == WaitTarget by {
        forall i | 0 <= i < |vs[1..]| ensures vs[1..][i].kind == WaitTarget {
          assert vs[1..][i] == vs[i + 1];
        }
      }
      OfferKeepsLiveStream(vs[1..], s);
    }
  }

  /** With the intended handler a dead stream handed to a waiting (undisposed)
      wait target is accepted there and disposed. */
  lemma OfferDisposesDeadStream(vs: seq<TargetView>, s: StreamId)
    requires vs != [] && vs[0].kind == WaitTarget && !vs[0].isDisposed
    ensures var r := Offer(vs, s, false, WaitVerdict);
      r.taken == 1 && r.leftover.None? && r.disposed && r.views[0].signal != NotYet
  {
  }

  // ---------------------------------------------------------------------------
  // StreamTarget

  class StreamTarget {
    /** `_isDisposed`. */
    var isDisposed: bool
    /** `Stream`: the stream the target accepted. */
    var stream: Option<StreamId>
    /** What the target's caller has been told (its event or completion source). */
    var signal: Signal
    /** Which caller's accept handler the target holds. */
    const kind: TargetKind

    constructor (kind: TargetKind)
      ensures !isDisposed && stream.None? && signal == NotYet && this.kind == kind
    {
      this.kind := kind;
      isDisposed := false;
      stream := None;
      signal := NotYet;
    }

    ghost function View(): TargetView
      reads this
    {
      TargetView(kind, isDisposed, stream, signal)
    }

    /** Dispose: sets the disposed flag; nothing else changes. */
    method Dispose()
      modifies this
      ensures isDisposed && stream == old(stream) && signal == old(signal)
      ensures View() == old(View()).(isDisposed := true)
    {
      if !isDisposed {
        isDisposed := true;
      }
    }

    /**
     * SetStream: a disposed target returns false and stores nothing; otherwise
     * the target keeps the stream exactly when its handler accepts it.
     */
    method SetStream(s: StreamId, live: bool, waitVerdict: bool -> Verdict) returns (accepted: bool, disposes: bool)
      modifies this
      ensures SetResult(View(), accepted, disposes) == SetStreamSpec(old(View()), s, live, waitVerdict)
    {
      if isDisposed {
        return false, false;
      }
      stream := Some(s);
      var verdict := if kind == ConnectTarget then ConnectVerdict(live) else waitVerdict(live);
      if signal == NotYet {
        signal := if kind == ConnectTarget then Signalled(true) else Signalled(live);
      }
      accepted, disposes := verdict.accept, verdict.disposes;
      if !accepted {
        stream := None;
      }
    }

    /** The token of the waiting caller fires before a stream arrived. */
    method Cancel()
      modifies this
      ensures signal == (if old(signal) == NotYet then Canceled else old(signal))
      ensures isDisposed == old(isDisposed) && stream == old(stream)
    {
      if signal == NotYet {
        signal := Canceled;
      }
    }
  }

  ghost function Views(ts: seq<StreamTarget>): (r: seq<TargetView>)
    reads set t | t in ts
    ensures |r| == |ts| && forall i :: 0 <= i < |ts| ==> r[i] == ts[i].View()
  {
    seq(|ts|, i reads set t | t in ts requires 0 <= i < |ts| => ts[i].View())
  }

  /**
   * The bookkeeping of the dequeue loop after `i` targets of the queue whose
   * views were `V`: `seen` are their views now, `gone` whether a handler
   * disposed the stream, and while the stream is still held the rest of the
   * run is Offer on the remaining targets.
   */
  ghost predicate DrainInv(V: seq<TargetView>, s: StreamId, live: bool, i: nat, seen: seq<TargetView>, gone: bool, leftover: Option<StreamId>)
  {
    && i <= |V| && |seen| == i
    && var R := Offer(V, s, live, WaitVerdict);
      if leftover.Some? then
        && leftover == Some(s)
        && var r := Offer(V[i..], s, live, WaitVerdict);
          R == BindResult(i + r.taken, seen + r.views, r.leftover, gone || r.disposed)
      else
        R == BindResult(i, seen, None, gone)
  }

  lemma DrainStart(V: seq<TargetView>, s: StreamId, live: bool)
    ensures DrainInv(V, s, live, 0, [], false, Some(s))
  {
    assert V[0..] == V;
  }

  /** Offering the stream to the next target moves the bookkeeping one step. */
  lemma DrainStep(V: seq<TargetView>, s: StreamId, live: bool, i: nat, seen: seq<TargetView>, gone: bool,
                  accepted: bool, disposes: bool, v: TargetView)
    requires DrainInv(V, s, live, i, seen, gone, Some(s)) && i < |V|
    requires var sr := SetStreamSpec(V[i], s, live, WaitVerdict);
      && accepted == sr.accepted && disposes == sr.disposes
      && v == (if accepted then sr.view else sr.view.(isDisposed := true))
    ensures DrainInv(V, s, live, i + 1, seen + [v], gone || disposes, if accepted then None else Some(s))
  {
    assert V[i..][0] == V[i] && V[i..][1..] == V[i + 1..];
    var r1 := Offer(V[i + 1..], s, live, WaitVerdict);
    assert seen + ([v] + r1.views) == (seen + [v]) + r1.views;
  }

  lemma DrainEnd(V: seq<TargetView>, s: StreamId, live: bool, seen: seq<TargetView>, gone: bool)
    requires DrainInv(V, s, live, |V|, seen, gone, Some(s))
    ensures Offer(V, s, live, WaitVerdict) == BindResult(|V|, seen, Some(s), gone)
  {
    assert V[|V|..] == [];
  }

  /** Offering a stream to a queue of one target. */
  lemma OfferOne(v: TargetView, s: StreamId, live: bool)
    ensures var sr := SetStreamSpec(v, s, live, WaitVerdict);
      Offer([v], s, live, WaitVerdict)
        == BindResult(1, [if sr.accepted then sr.view else sr.view.(isDisposed := true)],
                      if sr.accepted then None else Some(s), sr.disposes)
  {
    assert [v][1..] == [];
  }

  /** Replacing the next unseen view by its new value extends the seen ones. */
  lemma SeenUpdate(seen: seq<TargetView>, v: TargetView, V: seq<TargetView>, i: nat)
    requires |seen| == i < |V|
    ensures (seen + V[i..])[i := v] == (seen + [v]) + V[i + 1..]
  {
    var a, b := (seen + V[i..])[i := v], (seen + [v]) + V[i + 1..];
    assert |a| == |b|;
    forall j | 0 <= j < |a| ensures a[j] == b[j] {
      if j > i {
        assert (seen + V[i..])[j] == V[j];
      }
    }
  }

  /** The dequeued target `q[i]` is offered the stream, and disposed if it
      rejects it; the other targets of the queue are untouched. */
  method Present(q: seq<StreamTarget>, i: nat, ghost W: seq<TargetView>, s: StreamId, live: bool)
    returns (accepted: bool, disposes: bool)
    requires Distinct(q) && i < |q| && Views(q) == W
    modifies q[i]
    ensures var sr := SetStreamSpec(W[i], s, live, WaitVerdict);
      && accepted == sr.accepted && disposes == sr.disposes
      && Views(q) == W[i := if accepted then sr.view else sr.view.(isDisposed := true)]
  {
    var target := q[i];
    assert target.View() == W[i];
    accepted, disposes := target.SetStream(s, live, WaitVerdict);
    if !accepted {
      target.Dispose();
    }
    ghost var W' := W[i := target.View()];
    forall j | 0 <= j < |q| ensures Views(q)[j] == W'[j] {
      if j != i {
        assert q[j] != target;
      }
    }
  }

  /**
   * The dequeue loop of BindStreamToTarget: offers `s` to the targets of `q`
   * in order, disposing each one that rejects it, until one accepts or the
   * queue is exhausted; returns the rest of the queue and the stream left over.
   */
  method Drain(q: seq<StreamTarget>, ghost V: seq<TargetView>, s: StreamId, live: bool)
    returns (rest: seq<StreamTarget>, leftover: Option<StreamId>, gone: bool)
    requires Distinct(q) && Views(q) == V
    modifies set t | t in q
    ensures var R := Offer(V, s, live, WaitVerdict);
      && R.taken <= |q| && rest == q[R.taken..]
      && Views(q) == R.views + V[R.taken..]
      && leftover == R.leftover && gone == R.disposed
  {
    ghost var seen: seq<TargetView> := [];
    var i := 0;
    leftover := Some(s);
    gone := false;
    DrainStart(V, s, live);
    while leftover.Some? && i < |q|
      invariant i <= |q| && DrainInv(V, s, live, i, seen, gone, leftover)
      invariant Views(q) == seen + V[i..]
      decreases |q| - i
    {
      var accepted, disposes := Present(q, i, seen + V[i..], s, live);
      ghost var sr := SetStreamSpec(V[i], s, live, WaitVerdict);
      ghost var v := if accepted then sr.view else sr.view.(isDisposed := true);
      DrainStep(V, s, live, i, seen, gone, accepted, disposes, v);
      SeenUpdate(seen, v, V, i);
      if accepted {
        leftover := None;
      }
      gone := gone || disposes;
      seen := seen + [v];
      i := i + 1;
    }
    if leftover.Some? {
      DrainEnd(V, s, live, seen, gone);
    }
    rest := q[i..];
  }

  // ---------------------------------------------------------------------------
  // BaseIpcEndpoint / ServerIpcEndpoint

  /** The streams an optional stream stands for. */
  function StreamSet(o: Option<StreamId>): (r: set<StreamId>)
    ensures o.None? <==> r == {}
    ensures forall x :: x in r <==> o == Some(x)
  {
    if o.Some? then {o.value} else {}
  }

  /** The effect of BindStreamToTarget on the endpoint's values. */
  datatype Binding = Binding(taken: nat, views: seq<TargetView>, stream: Option<StreamId>, disposed: set<StreamId>)

  /**
   * BindStreamToTarget with queue views `vs`, cached stream `cached` and new
   * stream `s`: a non-null stream is offered to the queue, the leftover is
   * cached, and the previous stream is disposed unless it is the one bound.
   */
  function Bind(vs: seq<TargetView>, cached: Option<StreamId>, s: Option<StreamId>, isLive: StreamId -> bool): (b: Binding)
    ensures b.taken <= |vs| && |b.views| == b.taken
    ensures s.None? ==> b.taken == 0 && b.stream.None?
    ensures b.stream.Some? ==> b.stream == s && b.taken == |vs|
  {
    var R := if s.Some? then Offer(vs, s.value, isLive(s.value), WaitVerdict) else BindResult(0, [], None, false);
    var previous := if s != cached then cached else None;
    Binding(R.taken, R.views, R.leftover, (if R.disposed then StreamSet(s) else {}) + StreamSet(previous))
  }

  /** Binding disposes the previously cached stream when it is replaced, and
      disposes nothing but the new stream and the previous one. */
  lemma BindDisposes(vs: seq<TargetView>, cached: Option<StreamId>, s: Option<StreamId>, isLive: StreamId -> bool)
    ensures var b := Bind(vs, cached, s, isLive);
      && (cached.Some? && cached != s ==> cached.value in b.disposed)
      && b.disposed <= StreamSet(s) + StreamSet(cached)
      && (s == cached ==> b.disposed <= StreamSet(s))
  {
  }

  /**
   * The permits of the stream semaphore after RegisterTargetReleaseSemaphore
   * as written: it takes one, and releases one in its own `finally`, but when
   * a stream is cached it also calls BindStreamToTarget, whose `finally`
   * releases another.
   */
  function RegisterPermitsAsWritten(permits: nat, cached: Option<StreamId>): (r: nat)
    requires 0 < permits
  {
    (permits - 1) + (if cached.Some? then 1 else 0) + 1
  }

  /** Registering a target while a stream is cached leaves the semaphore of
      one permit with two, so two callers can hold it at once. */
  lemma RegisterReleasesTwiceAsWritten(s: StreamId)
    ensures RegisterPermitsAsWritten(1, Some(s)) == 2
    ensures RegisterPermitsAsWritten(1, None) == 1
  {
  }

  /** How WaitForConnectionAsync stands: it returned, its current turn is
      awaiting a stream for `target`, or (on a disposed endpoint) every turn
      fails and is retried until the token is cancelled. */
  datatype WaitOutcome = Connected | Waiting(target: StreamTarget) | Spinning

  class Endpoint {
    /** `_targets`, head first. */
    var targets: seq<StreamTarget>
    /** `_stream`: the cached stream nobody has taken. */
    var stream: Option<StreamId>
    /** `_disposed` (the stream semaphore is disposed with it). */
    var disposed: bool
    /** The free permits of `_streamSemaphore`. */
    var permits: nat
    /** Every stream disposed through this endpoint or its targets' handlers. */
    var disposedStreams: set<StreamId>
    /** The liveness probe (TestStream). */
    const isLive: StreamId -> bool

    /**
     * Between operations the queue holds distinct targets, the semaphore's
     * single permit is free, and a stream is cached only while no target
     * waits (a waiting target never misses a stream that is there) and only
     * while the endpoint is not disposed.
     */
    ghost predicate Valid()
      reads this
    {
      && Distinct(targets)
      && permits == 1
      && (stream.Some? ==> targets == [])
      && (disposed ==> stream.None?)
    }

    constructor (isLive: StreamId -> bool)
      ensures Valid() && targets == [] && stream.None? && !disposed && disposedStreams == {}
      ensures this.isLive == isLive
    {
      this.isLive := isLive;
      targets := [];
      stream := None;
      disposed := false;
      permits := 1;
      disposedStreams := {};
    }

    /** The base endpoint has no way to reacquire a stream. */
    function RefreshStream(): (r: Option<StreamId>)
      ensures r.None?
    {
      None
    }

    /** The endpoint's values after binding: the dequeued targets now look as
        `b` says, the rest of `q0` is still queued, and `b`'s streams were disposed. */
    ghost predicate BoundAs(b: Binding, q0: seq<StreamTarget>, d0: set<StreamId>)
      reads this, set t | t in q0
    {
      && b.taken <= |q0| && |b.views| == b.taken
      && targets == q0[b.taken..]
      && Views(q0)[..b.taken] == b.views
      && stream == b.stream
      && disposedStreams == d0 + b.disposed
    }

    /**
     * BindStreamToTarget, with the intended loop condition (stop when the
     * queue is empty) and without the semaphore release, which belongs to its
     * callers.
     */
    method BindStreamToTarget(s: Option<StreamId>)
      requires Distinct(targets)
      modifies this, set t | t in targets && s.Some?
      ensures BoundAs(Bind(old(Views(targets)), old(stream), s, isLive), old(targets), old(disposedStreams))
      ensures disposed == old(disposed) && permits == old(permits)
      ensures Distinct(targets) && (stream.Some? ==> targets == [])
    {
      if s.None? {
        var previous := stream;
        stream := None;
        disposedStreams := disposedStreams + StreamSet(previous);
      } else {
        BindOffered(s.value);
      }
    }

    /** BindStreamToTarget with a non-null stream: the queue is offered it. */
    method BindOffered(s: StreamId)
      requires Distinct(targets)
      modifies this, set t | t in targets
      ensures BoundAs(Bind(old(Views(targets)), old(stream), Some(s), isLive), old(targets), old(disposedStreams))
      ensures disposed == old(disposed) && permits == old(permits)
      ensures Distinct(targets) && (stream.Some? ==> targets == [])
    {
      var previous := if Some(s) != stream then stream else None;
      ghost var q0, V := targets, Views(targets);
      ghost var R := Offer(V, s, isLive(s), WaitVerdict);
      assert Bind(V, stream, Some(s), isLive)
        == Binding(R.taken, R.views, R.leftover, (if R.disposed then {s} else {}) + StreamSet(previous));
      var rest, cur, gone := Drain(targets, V, s, isLive(s));
      ghost var after := Views(q0);
      assert after[..R.taken] == R.views by {
        assert (R.views + V[R.taken..])[..R.taken] == R.views;
      }
      DistinctDrop(q0, R.taken);
      targets, stream := rest, cur;
      disposedStreams := disposedStreams + (if gone then {s} else {}) + StreamSet(previous);
      assert Views(q0) == after;
    }

    /**
     * ProvideStream (and ServerIpcEndpoint.SetStream, which calls it): takes
     * the semaphore, which throws once the endpoint is disposed, then binds
     * the stream and releases the semaphore.
     */
    method ProvideStream(s: Option<StreamId>) returns (r: Status)
      requires Valid()
      modifies this, set t | t in targets && s.Some?
      ensures old(disposed) ==> r == Fail(ObjectDisposed) && unchanged(this)
      ensures !old(disposed) ==>
        && r == Ok
        && BoundAs(Bind(old(Views(targets)), old(stream), s, isLive), old(targets), old(disposedStreams))
      ensures disposed == old(disposed)
      ensures Valid()
    {
      if disposed {
        return Fail(ObjectDisposed);
      }
      permits := permits - 1;
      BindStreamToTarget(s);
      permits := permits + 1;
      r := Ok;
    }

    /**
     * RegisterTarget: takes the semaphore (throwing once disposed), refreshes
     * a missing stream, enqueues the target and, when a stream is cached,
     * binds it; the semaphore is released once.
     */
    method RegisterTarget(t: StreamTarget) returns (r: Status)
      requires Valid() && t !in targets
      modifies this, t
      ensures old(disposed) ==> r == Fail(ObjectDisposed) && unchanged(this) && unchanged(t)
      ensures !old(disposed) && old(stream).None? ==>
        && r == Ok && targets == old(targets) + [t] && stream.None?
        && t.View() == old(t.View()) && disposedStreams == old(disposedStreams)
      ensures !old(disposed) && old(stream).Some? ==>
        && r == Ok && targets == []
        && var sr := SetStreamSpec(old(t.View()), old(stream).value, isLive(old(stream).value), WaitVerdict);
          && t.View() == (if sr.accepted then sr.view else sr.view.(isDisposed := true))
          && stream == (if sr.accepted then None else old(stream))
          && disposedStreams == old(disposedStreams) + (if sr.disposes then StreamSet(old(stream)) else {})
      ensures disposed == old(disposed)
      ensures Valid()
    {
      if disposed {
        return Fail(ObjectDisposed);
      }
      permits := permits - 1;
      if stream.None? {
        stream := RefreshStream();
      }
      targets := targets + [t];
      if stream.Some? {
        OfferOne(t.View(), stream.value, isLive(stream.value));
        BindStreamToTarget(stream);
      }
      permits := permits + 1;
      r := Ok;
    }

    /** ServerIpcEndpoint.SetStream: hands the endpoint a new stream. */
    method SetStream(s: Option<StreamId>) returns (r: Status)
      requires Valid()
      modifies this, set t | t in targets && s.Some?
      ensures old(disposed) ==> r == Fail(ObjectDisposed) && unchanged(this)
      ensures !old(disposed) ==>
        && r == Ok
        && BoundAs(Bind(old(Views(targets)), old(stream), s, isLive), old(targets), old(disposedStreams))
      ensures Valid()
    {
      r := ProvideStream(s);
    }

    /**
     * The registration half of Connect: a new target that accepts any stream
     * is registered; a cached stream goes to it at once, otherwise it waits
     * at the tail of the queue. EndConnect finishes the call.
     */
    method Connect() returns (r: Result<StreamTarget>)
      requires Valid()
      modifies this
      ensures old(disposed) ==> r == Failure(ObjectDisposed) && unchanged(this)
      ensures r.Success? ==> fresh(r.value) && r.value.kind == ConnectTarget && !r.value.isDisposed
      ensures !old(disposed) && old(stream).Some? ==>
        && r.Success? && r.value.stream == old(stream) && r.value.signal == Signalled(true)
        && stream.None? && targets == [] && disposedStreams == old(disposedStreams)
      ensures !old(disposed) && old(stream).None? ==>
        && r.Success? && r.value.stream.None? && r.value.signal == NotYet
        && stream.None? && targets == old(targets) + [r.value] && disposedStreams == old(disposedStreams)
      ensures Valid()
    {
      var t := new StreamTarget(ConnectTarget);
      var s := RegisterTarget(t);
      if s.Fail? {
        return Failure(s.error);
      }
      r := Success(t);
    }

    /**
     * The end of Connect, once its event is set or the wait timed out: it
     * returns the target's stream, if any, and the target is disposed, so a
     * stream offered later skips it.
     */
    method EndConnect(t: StreamTarget) returns (r: Option<StreamId>)
      modifies t
      ensures r == old(t.stream)
      ensures t.View() == old(t.View()).(isDisposed := true)
    {
      r := t.stream;
      t.Dispose();
    }

    /**
     * WaitForConnectionAsync from its first turn: each turn registers a target
     * whose handler probes the stream; a live stream ends the wait (and stays
     * cached for Connect), a dead one is consumed and disposed and the next
     * turn waits for a new stream.
     */
    method WaitForConnection() returns (r: WaitOutcome)
      requires Valid()
      modifies this
      ensures old(disposed) ==> r == Spinning && unchanged(this)
      ensures !old(disposed) && old(stream).Some? && isLive(old(stream).value) ==>
        && r == Connected && stream == old(stream) && targets == [] && disposedStreams == old(disposedStreams)
      ensures !old(disposed) && !(old(stream).Some? && isLive(old(stream).value)) ==>
        && r.Waiting? && fresh(r.target)
        && r.target.View() == TargetView(WaitTarget, false, None, NotYet)
        && stream.None? && targets == old(targets) + [r.target]
        && disposedStreams == old(disposedStreams) + StreamSet(old(stream))
      ensures Valid() && disposed == old(disposed)
    {
      if disposed {
        return Spinning;
      }
      ghost var s0, d0, q0 := stream, disposedStreams, targets;
      var done := false;
      r := Spinning;
      while !done
        invariant Valid() && !disposed
        invariant !done ==>
          && targets == q0
          && (|| (stream == s0 && disposedStreams == d0)
              || (s0.Some? && !isLive(s0.value) && stream.None? && disposedStreams == d0 + {s0.value}))
        invariant done && s0.Some? && isLive(s0.value) ==>
          r == Connected && stream == s0 && targets == [] && disposedStreams == d0
        invariant done && !(s0.Some? && isLive(s0.value)) ==>
          && r.Waiting? && fresh(r.target)
          && r.target.View() == TargetView(WaitTarget, false, None, NotYet)
          && stream.None? && targets == q0 + [r.target] && disposedStreams == d0 + StreamSet(s0)
        decreases if done then 0 else if stream.Some? then 2 else 1
      {
        var t := new StreamTarget(WaitTarget);
        var _ := RegisterTarget(t);
        match t.signal {
          case NotYet =>
            r, done := Waiting(t), true;
          case Signalled(connected) =>
            t.Dispose();
            if connected {
              r, done := Connected, true;
            }
          case Canceled =>
            assert false;
        }
      }
    }

    /**
     * The rest of a turn that was awaiting `t`, once its completion source is
     * set: the target is disposed; a cancellation propagates, a live stream
     * ends the wait, and a dead one (already disposed by the handler) starts
     * the next turn. While nothing was signalled the turn keeps waiting.
     */
    method ResumeWait(t: StreamTarget) returns (r: Result<WaitOutcome>)
      requires Valid() && t.kind == WaitTarget
      modifies this, t
      ensures old(t.signal) == NotYet ==> r == Success(Waiting(t)) && unchanged(this) && unchanged(t)
      ensures old(t.signal) != NotYet ==> t.isDisposed && t.signal == old(t.signal)
      ensures old(t.signal) == Canceled ==> r == Failure(Cancelled) && unchanged(this)
      ensures old(t.signal) == Signalled(true) ==> r == Success(Connected) && unchanged(this)
      ensures old(t.signal) == Signalled(false) && old(disposed) ==> r == Success(Spinning) && unchanged(this)
      ensures old(t.signal) == Signalled(false) && !old(disposed) && old(stream).Some? && isLive(old(stream).value) ==>
        && r == Success(Connected) && stream == old(stream) && targets == []
        && disposedStreams == old(disposedStreams)
      ensures old(t.signal) == Signalled(false) && !old(disposed) && !(old(stream).Some? && isLive(old(stream).value)) ==>
        && r.Success? && r.value.Waiting? && fresh(r.value.target)
        && r.value.target.View() == TargetView(WaitTarget, false, None, NotYet)
        && stream.None? && targets == old(targets) + [r.value.target]
        && disposedStreams == old(disposedStreams) + StreamSet(old(stream))
      ensures Valid() && disposed == old(disposed)
    {
      match t.signal {
        case NotYet =>
          return Success(Waiting(t));
        case Canceled =>
          t.Dispose();
          return Failure(Cancelled);
        case Signalled(connected) =>
          t.Dispose();
          if connected {
            return Success(Connected);
          }
          var w := WaitForConnection();
          r := Success(w);
      }
    }

    /**
     * The waiting caller's token fires: the completion source is cancelled
     * unless already set, the target is disposed and the turn ends. A turn
     * that saw a live stream ends connected; a cancelled wait throws
     * OperationCanceledException, and so does a turn that saw a dead stream,
     * from the delay before the next turn, which observes the same token.
     */
    method CancelWait(t: StreamTarget) returns (r: Result<WaitOutcome>)
      requires Valid() && t.kind == WaitTarget
      modifies this, t
      ensures old(t.signal) == Signalled(true) ==> r == Success(Connected)
      ensures old(t.signal) != Signalled(true) ==> r == Failure(Cancelled)
      ensures t.isDisposed && t.signal == (if old(t.signal) == NotYet then Canceled else old(t.signal))
      ensures t.stream == old(t.stream) && unchanged(this)
      ensures Valid()
    {
      t.Cancel();
      t.Dispose();
      if t.signal == Signalled(true) {
        r := Success(Connected);
      } else {
        r := Failure(Cancelled);
      }
    }

    /**
     * Dispose: the first call provides a null stream, which disposes and
     * clears the cached stream without touching the queue, and marks the
     * endpoint disposed; later calls do nothing.
     */
    method Dispose()
      requires Valid()
      modifies this
      ensures old(disposed) ==> unchanged(this)
      ensures !old(disposed) ==>
        && disposed && stream.None? && targets == old(targets)
        && disposedStreams == old(disposedStreams) + StreamSet(old(stream))
      ensures disposed && Valid()
    {
      if !disposed {
        var _ := ProvideStream(None);
        disposed := true;
      }
    }
  }
}
