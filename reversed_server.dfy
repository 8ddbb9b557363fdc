/**
 * The reversed diagnostics server: runtime instances connect inward and are
 * tracked by their runtime instance cookie. Three pieces of state are modelled:
 * the identity registry (cookie -> endpoint), the per-cookie cached stream with
 * the global list of stream handlers, and the disposed flag.
 *
 * A stream handler is a closure over locals of Connect or WaitForConnectionAsync;
 * here the handler is a datatype value naming its kind, its cookie and a slot,
 * and the slot map holds what the closure's captured locals hold. Liveness
 * probing of a stream is the parameter `isLive`.
 */
module ReversedServer {
  import opened Common

  /** The advertised process id is an unsigned 64-bit value. */
  type UInt64 = x: nat | x < 0x1_0000_0000_0000_0000

  const TwoTo31: int := 0x8000_0000
  const TwoTo32: int := 0x1_0000_0000

  /** `unchecked((int)x)`: the low 32 bits of `x` read as a two's-complement int. */
  function ToInt32(x: UInt64): (r: int)
    ensures -TwoTo31 <= r < TwoTo31
    ensures (x - r) % TwoTo32 == 0
    ensures x < TwoTo31 ==> r == x
  {
    var low := x % TwoTo32;
    if low < TwoTo31 then low else low - TwoTo32
  }

  /** What AcceptAsync hands back for a new runtime instance. */
  datatype EndpointInfo = EndpointInfo(endpoint: nat, processId: int, runtimeInstanceCookie: Guid)

  /** One turn of AcceptAsync's loop, as seen by the registry: the transport or the
      advertise parser failed, a runtime advertised itself on a stream, or the
      token was cancelled. */
  datatype Incoming =
    | Unparsed
    | Advertised(cookie: Guid, processId: UInt64, stream: StreamId)
    | CancelRequested

  /** A registered stream handler: the closure made by Connect or by one turn of
      WaitForConnectionAsync, for one runtime cookie; `slot` names its captured state. */
  datatype StreamHandler =
    | ConnectHandler(runtimeId: Guid, slot: nat)
    | WaitHandler(runtimeId: Guid, slot: nat)

  /**
   * The captured state of one handler: still waiting (`Open`); Connect's
   * `stream` local holding a captured stream; the probe result given to
   * WaitForConnectionAsync's completion source; or the `ignore` flag set after
   * the wait ended without a result.
   */
  datatype SlotState = Open | Captured(stream: StreamId) | Probed(live: bool) | Ignored

  /** One handler call: whether it is complete (and leaves the list), the `ref`
      stream afterwards, its slot afterwards, and the streams it disposed. */
  datatype Step = Step(done: bool, stream: Option<StreamId>, slot: SlotState, disposed: set<StreamId>)

  // ---------------------------------------------------------------------------
  // The cached-stream lookup

  /** `_cachedStreams[runtimeId]` as written: the indexer throws for a cookie
      the dictionary has never held. */
  function CachedAsWritten(cached: map<Guid, Option<StreamId>>, id: Guid): (r: Result<Option<StreamId>>)
    ensures r.Failure? <==> id !in cached
    ensures r.Failure? ==> r.error == KeyNotFound
    ensures id in cached ==> r.value == cached[id]
  {
    if id in cached then Success(cached[id]) else Failure(KeyNotFound)
  }

  /** The lookup the server needs: a cookie never seen has no cached stream. */
  function Cached(cached: map<Guid, Option<StreamId>>, id: Guid): (r: Option<StreamId>)
    ensures r.Some? <==> id in cached && cached[id].Some?
    ensures r.Some? ==> r == cached[id]
  {
    if id in cached then cached[id] else None
  }

  /**
   * On a freshly constructed server nothing is cached, so the very first
   * ProvideStream (from the first advertised connection) and the first
   * RegisterHandler (from the first Connect) throw KeyNotFound as written,
   * whereas the intended lookup reports that no stream is cached.
   */
  lemma FirstLookupThrowsAsWritten(id: Guid)
    ensures CachedAsWritten(map[], id) == Failure(KeyNotFound)
    ensures Cached(map[], id) == None
  {
  }

  // ---------------------------------------------------------------------------
  // The handler bodies

  /** Connect's handler: for its own cookie it takes the stream into its
      `stream` local, nulls the `ref` stream and signals its event. */
  function ConnectStep(s: StreamId): (r: Step)
    ensures r.done && r.stream.None? && r.slot == Captured(s) && r.disposed == {}
  {
    Step(true, None, Captured(s), {})
  }

  /** WaitForConnectionAsync's handler for its own cookie, as written: a stream
      that tests live is disposed and consumed; a dead one stays. */
  function WaitStepAsWritten(s: StreamId, slot: SlotState, live: bool): (r: Step)
    ensures r.done
    ensures slot == Ignored ==> r == Step(true, Some(s), slot, {})
    ensures slot != Ignored ==> r.slot == Probed(live)
    ensures slot != Ignored ==> (r.stream.None? <==> live) && (r.disposed == {} <==> !live)
  {
    if slot == Ignored then Step(true, Some(s), slot, {})
    else if live then Step(true, None, Probed(true), {s})
    else Step(true, Some(s), Probed(false), {})
  }

  /** WaitForConnectionAsync's handler as intended: a dead stream is disposed and
      consumed; a live one stays cached for the Connect that follows. */
  function WaitStep(s: StreamId, slot: SlotState, live: bool): (r: Step)
    ensures r.done
    ensures slot == Ignored ==> r == Step(true, Some(s), slot, {})
    ensures slot != Ignored ==> r.slot == Probed(live)
    ensures slot != Ignored ==> (r.stream.None? <==> !live) && (r.disposed == {} <==> live)
  {
    if slot == Ignored then Step(true, Some(s), slot, {})
    else if live then Step(true, Some(s), Probed(true), {})
    else Step(true, None, Probed(false), {s})
  }

  /**
   * As written, a runtime that is connected loses its stream to the wait: the
   * live stream is disposed and nothing is left for Connect, while a dead
   * stream is kept and probed again on the next turn. The intended handler
   * does the opposite.
   */
  lemma WaitDisposesLiveStreamAsWritten(s: StreamId)
    ensures WaitStepAsWritten(s, Open, true) == Step(true, None, Probed(true), {s})
    ensures WaitStepAsWritten(s, Open, false).stream == Some(s)
    ensures WaitStep(s, Open, true).stream == Some(s) && WaitStep(s, Open, true).disposed == {}
    ensures WaitStep(s, Open, false).stream == None && s in WaitStep(s, Open, false).disposed
  {
  }

  /** One handler call with the `ref` stream `s` for cookie `id`: a handler for
      another cookie declines and leaves everything as it was. */
  function ApplyHandler(h: StreamHandler, id: Guid, s: StreamId, slot: SlotState, isLive: StreamId -> bool): (r: Step)
    ensures h.runtimeId != id ==> r == Step(false, Some(s), slot, {})
    ensures h.runtimeId == id ==> r.done
    ensures r.disposed <= {s}
    ensures r.stream.Some? ==> r.stream == Some(s)
  {
    if h.runtimeId != id then Step(false, Some(s), slot, {})
    else match h
      case ConnectHandler(_, _) => ConnectStep(s)
      case WaitHandler(_, _) => WaitStep(s, slot, isLive(s))
  }

  /** Whether handler `h` takes the stream `s` of its own cookie away. */
  predicate Consumes(h: StreamHandler, slot: SlotState, s: StreamId, isLive: StreamId -> bool) {
    h.ConnectHandler? || (slot != Ignored && !isLive(s))
  }

  function SlotOf(slots: map<nat, SlotState>, k: nat): SlotState {
    if k in slots then slots[k] else Open
  }

  // ---------------------------------------------------------------------------
  // RunStreamHandlers, as a function

  datatype RunResult = RunResult(kept: seq<StreamHandler>, slots: map<nat, SlotState>,
                                 stream: Option<StreamId>, disposed: set<StreamId>)

  /**
   * The handlers are called in registration order while the stream is
   * non-null; each that reports completion leaves the list.
   */
  function RunHandlers(hs: seq<StreamHandler>, slots: map<nat, SlotState>, id: Guid,
                       stream: Option<StreamId>, isLive: StreamId -> bool): RunResult
    decreases |hs|
  {
    if hs == [] || stream.None? then RunResult(hs, slots, stream, {})
    else
      var h := hs[0];
      var st := ApplyHandler(h, id, stream.value, SlotOf(slots, h.slot), isLive);
      var head := if st.done then [] else [h];
      var r := RunHandlers(hs[1..], slots[h.slot := st.slot], id, st.stream, isLive);
      RunResult(head + r.kept, r.slots, r.stream, st.disposed + r.disposed)
  }

  /** No two handlers share a slot. */
  predicate DistinctSlots(hs: seq<StreamHandler>) {
    forall i, j :: 0 <= i < j < |hs| ==> hs[i].slot != hs[j].slot
  }

  /** Every handler's slot is known. */
  predicate SlotsKnown(hs: seq<StreamHandler>, slots: map<nat, SlotState>) {
    forall h :: h in hs ==> h.slot in slots
  }

  /** No handler is registered for cookie `id`. */
  predicate NoneFor(hs: seq<StreamHandler>, id: Guid) {
    forall h :: h in hs ==> h.runtimeId != id
  }

  /** The tail of a handler list keeps distinct slots. */
  lemma DistinctSlotsTail(hs: seq<StreamHandler>)
    requires hs != [] && DistinctSlots(hs)
    ensures DistinctSlots(hs[1..])
    ensures forall x :: x in hs[1..] ==> x.slot != hs[0].slot
  {
    forall i, j | 0 <= i < j < |hs[1..]| ensures hs[1..][i].slot != hs[1..][j].slot {
      assert hs[1..][i] == hs[i + 1] && hs[1..][j] == hs[j + 1];
    }
    forall x | x in hs[1..] ensures x.slot != hs[0].slot {
      var j :| 0 <= j < |hs[1..]| && hs[1..][j] == x;
      assert hs[j + 1] == x;
    }
  }

  /** Only the offered stream can be disposed, a stream that survives is the
      offered one, and with no stream nothing happens. */
  lemma {:induction false} RunStream(hs: seq<StreamHandler>, slots: map<nat, SlotState>, id: Guid,
                                     stream: Option<StreamId>, isLive: StreamId -> bool)
    ensures var r := RunHandlers(hs, slots, id, stream, isLive);
      && (stream.Some? ==> r.disposed <= {stream.value})
      && (stream.None? ==> r == RunResult(hs, slots, stream, {}))
      && (r.stream.Some? ==> r.stream == stream)
    decreases |hs|
  {
    if hs != [] && stream.Some? {
      var h := hs[0];
      var st := ApplyHandler(h, id, stream.value, SlotOf(slots, h.slot), isLive);
      RunStream(hs[1..], slots[h.slot := st.slot], id, st.stream, isLive);
    }
  }

  /** The kept handlers are handlers of the list. */
  lemma {:induction false} RunKeptFrom(hs: seq<StreamHandler>, slots: map<nat, SlotState>, id: Guid,
                                       stream: Option<StreamId>, isLive: StreamId -> bool)
    ensures forall h :: h in RunHandlers(hs, slots, id, stream, isLive).kept ==> h in hs
    decreases |hs|
  {
    if hs != [] && stream.Some? {
      var h := hs[0];
      var st := ApplyHandler(h, id, stream.value, SlotOf(slots, h.slot), isLive);
      var slots1 := slots[h.slot := st.slot];
      RunKeptFrom(hs[1..], slots1, id, st.stream, isLive);
      var r1 := RunHandlers(hs[1..], slots1, id, st.stream, isLive);
      var head := if st.done then [] else [h];
      assert RunHandlers(hs, slots, id, stream, isLive).kept == head + r1.kept;
      forall x | x in head + r1.kept ensures x in hs {
        if x !in head {
          assert x in hs[1..];
        }
      }
    }
  }

  /** Every handler of another cookie is kept. */
  lemma {:induction false} RunKeepsOthers(hs: seq<StreamHandler>, slots: map<nat, SlotState>, id: Guid,
                                          stream: Option<StreamId>, isLive: StreamId -> bool)
    ensures forall h :: h in hs && h.runtimeId != id ==> h in RunHandlers(hs, slots, id, stream, isLive).kept
    decreases |hs|
  {
    if hs != [] && stream.Some? {
      var h := hs[0];
      var st := ApplyHandler(h, id, stream.value, SlotOf(slots, h.slot), isLive);
      var slots1 := slots[h.slot := st.slot];
      RunKeepsOthers(hs[1..], slots1, id, st.stream, isLive);
      var r1 := RunHandlers(hs[1..], slots1, id, st.stream, isLive);
      var head := if st.done then [] else [h];
      assert RunHandlers(hs, slots, id, stream, isLive).kept == head + r1.kept;
      forall x | x in hs && x.runtimeId != id ensures x in head + r1.kept {
        if x != h {
          assert x in hs[1..];
        }
      }
    }
  }

  /** When the stream survives, no handler of its cookie is left: each one was
      called and is complete. */
  lemma {:induction false} RunClearsCookie(hs: seq<StreamHandler>, slots: map<nat, SlotState>, id: Guid,
                                           stream: Option<StreamId>, isLive: StreamId -> bool)
    ensures var r := RunHandlers(hs, slots, id, stream, isLive);
      r.stream.Some? && stream.Some? ==> NoneFor(r.kept, id)
    decreases |hs|
  {
    if hs != [] && stream.Some? {
      var h := hs[0];
      var st := ApplyHandler(h, id, stream.value, SlotOf(slots, h.slot), isLive);
      var slots1 := slots[h.slot := st.slot];
      RunClearsCookie(hs[1..], slots1, id, st.stream, isLive);
      var r1 := RunHandlers(hs[1..], slots1, id, st.stream, isLive);
      var r := RunHandlers(hs, slots, id, stream, isLive);
      var head := if st.done then [] else [h];
      assert r.kept == head + r1.kept;
      if r.stream.Some? {
        assert st.stream.Some?;
      }
    }
  }

  /** A run keeps the slot keys when every handler's slot is known. */
  lemma {:induction false} RunSlotKeys(hs: seq<StreamHandler>, slots: map<nat, SlotState>, id: Guid,
                                       stream: Option<StreamId>, isLive: StreamId -> bool)
    requires SlotsKnown(hs, slots)
    ensures RunHandlers(hs, slots, id, stream, isLive).slots.Keys == slots.Keys
    decreases |hs|
  {
    if hs != [] && stream.Some? {
      var h := hs[0];
      var st := ApplyHandler(h, id, stream.value, SlotOf(slots, h.slot), isLive);
      var slots1 := slots[h.slot := st.slot];
      assert h.slot in slots;
      RunSlotKeys(hs[1..], slots1, id, st.stream, isLive);
    }
  }

  /** The kept handlers still have distinct slots. */
  lemma {:induction false} RunDistinct(hs: seq<StreamHandler>, slots: map<nat, SlotState>, id: Guid,
                                       stream: Option<StreamId>, isLive: StreamId -> bool)
    requires DistinctSlots(hs)
    ensures DistinctSlots(RunHandlers(hs, slots, id, stream, isLive).kept)
    decreases |hs|
  {
    if hs != [] && stream.Some? {
      var h := hs[0];
      var st := ApplyHandler(h, id, stream.value, SlotOf(slots, h.slot), isLive);
      var slots1 := slots[h.slot := st.slot];
      DistinctSlotsTail(hs);
      RunDistinct(hs[1..], slots1, id, st.stream, isLive);
      RunKeptFrom(hs[1..], slots1, id, st.stream, isLive);
      var r1 := RunHandlers(hs[1..], slots1, id, st.stream, isLive);
      var r := RunHandlers(hs, slots, id, stream, isLive);
      var head := if st.done then [] else [h];
      assert r.kept == head + r1.kept;
      forall i, j | 0 <= i < j < |r.kept| ensures r.kept[i].slot != r.kept[j].slot {
        if |head| == 1 && i == 0 {
          assert r.kept[j] == r1.kept[j - 1];
          assert r.kept[j] in r1.kept;
        } else {
          assert r.kept[i] == r1.kept[i - |head|] && r.kept[j] == r1.kept[j - |head|];
        }
      }
    }
  }

  /** Everything the server's invariant needs from one run. */
  lemma RunFrame(hs: seq<StreamHandler>, slots: map<nat, SlotState>, id: Guid,
                 stream: Option<StreamId>, isLive: StreamId -> bool)
    requires SlotsKnown(hs, slots) && DistinctSlots(hs)
    ensures var r := RunHandlers(hs, slots, id, stream, isLive);
      && (stream.Some? ==> r.disposed <= {stream.value})
      && (r.stream.Some? ==> r.stream == stream && NoneFor(r.kept, id))
      && (forall h :: h in r.kept ==> h in hs)
      && (forall h :: h in hs && h.runtimeId != id ==> h in r.kept)
      && r.slots.Keys == slots.Keys
      && DistinctSlots(r.kept)
  {
    RunStream(hs, slots, id, stream, isLive);
    RunKeptFrom(hs, slots, id, stream, isLive);
    RunKeepsOthers(hs, slots, id, stream, isLive);
    RunClearsCookie(hs, slots, id, stream, isLive);
    RunSlotKeys(hs, slots, id, stream, isLive);
    RunDistinct(hs, slots, id, stream, isLive);
  }

  /**
   * The stream is taken away exactly when some handler of its cookie consumes
   * it: a Connect handler, or a wait that has not been abandoned and finds the
   * stream dead. The slots of the handlers are their slots before the run
   * (they are distinct, so no earlier call changed them).
   */
  lemma {:induction false} RunConsumedIff(hs: seq<StreamHandler>, slots: map<nat, SlotState>, id: Guid,
                                          s: StreamId, isLive: StreamId -> bool)
    requires DistinctSlots(hs)
    ensures RunHandlers(hs, slots, id, Some(s), isLive).stream.None? <==>
      exists i :: 0 <= i < |hs| && hs[i].runtimeId == id && Consumes(hs[i], SlotOf(slots, hs[i].slot), s, isLive)
    decreases |hs|
  {
    if hs != [] {
      var h := hs[0];
      var st := ApplyHandler(h, id, s, SlotOf(slots, h.slot), isLive);
      var slots1 := slots[h.slot := st.slot];
      assert DistinctSlots(hs[1..]) by {
        forall i, j | 0 <= i < j < |hs[1..]| ensures hs[1..][i].slot != hs[1..][j].slot {
          assert hs[1..][i] == hs[i + 1] && hs[1..][j] == hs[j + 1];
        }
      }
      var P := (i: int) => 0 <= i < |hs| && hs[i].runtimeId == id && Consumes(hs[i], SlotOf(slots, hs[i].slot), s, isLive);
      if st.stream.None? {
        assert P(0);
      } else {
        assert !(h.runtimeId == id && Consumes(h, SlotOf(slots, h.slot), s, isLive));
        RunConsumedIff(hs[1..], slots1, id, s, isLive);
        forall i | 0 <= i < |hs[1..]|
          ensures SlotOf(slots1, hs[1..][i].slot) == SlotOf(slots, hs[1..][i].slot)
        {
          assert hs[1..][i] == hs[i + 1];
        }
        if exists i :: P(i) {
          var i :| P(i);
          assert i != 0;
          assert hs[1..][i - 1] == hs[i];
        }
        if exists j :: 0 <= j < |hs[1..]| && hs[1..][j].runtimeId == id
                        && Consumes(hs[1..][j], SlotOf(slots1, hs[1..][j].slot), s, isLive) {
          var j :| 0 <= j < |hs[1..]| && hs[1..][j].runtimeId == id
                   && Consumes(hs[1..][j], SlotOf(slots1, hs[1..][j].slot), s, isLive);
          assert P(j + 1);
        }
      }
    }
  }

  /**
   * Registration order decides who gets the stream: the first Connect handler
   * of the cookie, reached with no earlier handler of that cookie consuming
   * the stream, captures it.
   */
  lemma {:induction false} RunFirstConnectCaptures(hs: seq<StreamHandler>, slots: map<nat, SlotState>, id: Guid,
                                                   s: StreamId, isLive: StreamId -> bool, k: nat)
    requires DistinctSlots(hs)
    requires k < |hs| && hs[k] == ConnectHandler(id, hs[k].slot)
    requires forall j :: 0 <= j < k && hs[j].runtimeId == id ==> !Consumes(hs[j], SlotOf(slots, hs[j].slot), s, isLive)
    ensures var r := RunHandlers(hs, slots, id, Some(s), isLive);
      r.stream.None? && hs[k].slot in r.slots && r.slots[hs[k].slot] == Captured(s)
    decreases k
  {
    var h := hs[0];
    var st := ApplyHandler(h, id, s, SlotOf(slots, h.slot), isLive);
    var slots1 := slots[h.slot := st.slot];
    if k == 0 {
      RunStream(hs[1..], slots1, id, None, isLive);
    } else {
      assert !(h.runtimeId == id && Consumes(h, SlotOf(slots, h.slot), s, isLive)) by {
        assert h == hs[0];
      }
      assert st.stream == Some(s);
      assert DistinctSlots(hs[1..]) by {
        forall i, j | 0 <= i < j < |hs[1..]| ensures hs[1..][i].slot != hs[1..][j].slot {
          assert hs[1..][i] == hs[i + 1] && hs[1..][j] == hs[j + 1];
        }
      }
      forall j | 0 <= j < k - 1 && hs[1..][j].runtimeId == id
        ensures !Consumes(hs[1..][j], SlotOf(slots1, hs[1..][j].slot), s, isLive)
      {
        assert hs[1..][j] == hs[j + 1];
        assert hs[j + 1].slot != h.slot;
      }
      assert hs[1..][k - 1] == hs[k];
      RunFirstConnectCaptures(hs[1..], slots1, id, s, isLive, k - 1);
    }
  }

  /**
   * When no handler of cookie `id` is registered and one handler `h` of that
   * cookie is added, a run with stream `s` passes over the old handlers, which
   * decline and stay, and applies `h` alone.
   */
  lemma {:induction false} RunOthersThenOne(hs: seq<StreamHandler>, h: StreamHandler, slots: map<nat, SlotState>,
                                            id: Guid, s: StreamId, isLive: StreamId -> bool)
    requires NoneFor(hs, id) && SlotsKnown(hs, slots) && h.runtimeId == id
    ensures var st := ApplyHandler(h, id, s, SlotOf(slots, h.slot), isLive);
      RunHandlers(hs + [h], slots, id, Some(s), isLive)
        == RunResult(hs, slots[h.slot := st.slot], st.stream, st.disposed)
    decreases |hs|
  {
    var st := ApplyHandler(h, id, s, SlotOf(slots, h.slot), isLive);
    if hs == [] {
      assert [h][1..] == [];
      assert hs + [h] == [h];
    } else {
      var g := hs[0];
      assert g in hs;
      assert (hs + [h])[0] == g && (hs + [h])[1..] == hs[1..] + [h];
      RunDeclines(hs + [h], slots, id, s, isLive);
      RunOthersThenOne(hs[1..], h, slots, id, s, isLive);
      assert [g] + hs[1..] == hs;
    }
  }

  /** A first handler of another cookie declines and stays; the run goes on unchanged. */
  lemma RunDeclines(hs: seq<StreamHandler>, slots: map<nat, SlotState>, id: Guid, s: StreamId, isLive: StreamId -> bool)
    requires hs != [] && hs[0].runtimeId != id && hs[0].slot in slots
    ensures var r := RunHandlers(hs[1..], slots, id, Some(s), isLive);
      RunHandlers(hs, slots, id, Some(s), isLive) == RunResult([hs[0]] + r.kept, r.slots, r.stream, r.disposed)
  {
    assert slots[hs[0].slot := slots[hs[0].slot]] == slots;
  }

  /** One step of RunHandlers, with what was already passed over in front. */
  lemma RunUnfold(seen: seq<StreamHandler>, rest: seq<StreamHandler>, slots: map<nat, SlotState>, id: Guid,
                  stream: Option<StreamId>, disposed: set<StreamId>, isLive: StreamId -> bool)
    requires rest != [] && stream.Some?
    ensures var h := rest[0];
      var st := ApplyHandler(h, id, stream.value, SlotOf(slots, h.slot), isLive);
      var head := if st.done then [] else [h];
      var r := RunHandlers(rest, slots, id, stream, isLive);
      var r1 := RunHandlers(rest[1..], slots[h.slot := st.slot], id, st.stream, isLive);
      RunResult(seen + r.kept, r.slots, r.stream, disposed + r.disposed)
        == RunResult((seen + head) + r1.kept, r1.slots, r1.stream, (disposed + st.disposed) + r1.disposed)
  {
    var h := rest[0];
    var st := ApplyHandler(h, id, stream.value, SlotOf(slots, h.slot), isLive);
    var head := if st.done then [] else [h];
    var r1 := RunHandlers(rest[1..], slots[h.slot := st.slot], id, st.stream, isLive);
    assert seen + (head + r1.kept) == (seen + head) + r1.kept;
  }

  /** The loop of RunStreamHandlers (see RunHandlers). The handler list is
      kept as `seen + rest`; `|seen|` is the source's index. */
  method RunLoop(hs: seq<StreamHandler>, slots: map<nat, SlotState>, id: Guid,
                 stream: Option<StreamId>, isLive: StreamId -> bool)
    returns (kept: seq<StreamHandler>, slots1: map<nat, SlotState>, stream1: Option<StreamId>, disposed: set<StreamId>)
    ensures RunResult(kept, slots1, stream1, disposed) == RunHandlers(hs, slots, id, stream, isLive)
  {
    ghost var R := RunHandlers(hs, slots, id, stream, isLive);
    var seen: seq<StreamHandler> := [];
    var rest := hs;
    slots1, stream1, disposed := slots, stream, {};
    while rest != [] && stream1.Some?
      invariant var r := RunHandlers(rest, slots1, id, stream1, isLive);
        R == RunResult(seen + r.kept, r.slots, r.stream, disposed + r.disposed)
      decreases |rest|
    {
      var h := rest[0];
      var st := ApplyHandler(h, id, stream1.value, SlotOf(slots1, h.slot), isLive);
      var head := if st.done then [] else [h];
      RunUnfold(seen, rest, slots1, id, stream1, disposed, isLive);
      slots1 := slots1[h.slot := st.slot];
      stream1 := st.stream;
      disposed := disposed + st.disposed;
      seen := seen + head;
      rest := rest[1..];
    }
    assert seen + [] == seen;
    kept := seen + rest;
  }

  // ---------------------------------------------------------------------------
  // The handler of a Connect that has returned

  /** The handler list without the handler whose captured state is slot `k`. */
  function Unregister(hs: seq<StreamHandler>, k: nat): (r: seq<StreamHandler>)
    ensures forall h :: h in r <==> h in hs && h.slot != k
    ensures |r| <= |hs|
    decreases |hs|
  {
    if hs == [] then []
    else
      var rest := Unregister(hs[1..], k);
      assert forall h :: h in hs <==> h == hs[0] || h in hs[1..];
      if hs[0].slot == k then rest else [hs[0]] + rest
  }

  /** Unregistering keeps the slots of the remaining handlers distinct. */
  lemma {:induction false} UnregisterDistinct(hs: seq<StreamHandler>, k: nat)
    requires DistinctSlots(hs)
    ensures DistinctSlots(Unregister(hs, k))
    decreases |hs|
  {
    if hs != [] {
      DistinctSlotsTail(hs);
      UnregisterDistinct(hs[1..], k);
      var rest := Unregister(hs[1..], k);
      if hs[0].slot != k {
        var r := [hs[0]] + rest;
        forall i, j | 0 <= i < j < |r| ensures r[i].slot != r[j].slot {
          if i == 0 {
            assert r[j] == rest[j - 1] && r[j] in hs[1..];
          } else {
            assert r[i] == rest[i - 1] && r[j] == rest[j - 1];
          }
        }
      }
    }
  }

  /** A run never changes the captured state of a slot no listed handler owns,
      so once a Connect's handler is unregistered its outcome is final. */
  lemma {:induction false} RunLeavesUnlistedSlots(hs: seq<StreamHandler>, slots: map<nat, SlotState>, id: Guid,
                                                  stream: Option<StreamId>, isLive: StreamId -> bool, k: nat)
    requires forall h :: h in hs ==> h.slot != k
    ensures SlotOf(RunHandlers(hs, slots, id, stream, isLive).slots, k) == SlotOf(slots, k)
    decreases |hs|
  {
    if hs != [] && stream.Some? {
      var h := hs[0];
      var st := ApplyHandler(h, id, stream.value, SlotOf(slots, h.slot), isLive);
      assert h in hs;
      RunLeavesUnlistedSlots(hs[1..], slots[h.slot := st.slot], id, st.stream, isLive, k);
    }
  }

  /** A run that may stop on an exception: the handlers, slots, stream and
      disposed streams when it stopped, and whether it threw. */
  datatype RunOutcome = RunOutcome(result: RunResult, thrown: bool)

  /** Whether `h` is the handler of a Connect for cookie `id` that has already
      returned (its slot is in `returned`), so its event is disposed. */
  predicate Stale(h: StreamHandler, id: Guid, returned: set<nat>) {
    h.ConnectHandler? && h.runtimeId == id && h.slot in returned
  }

  /**
   * RunStreamHandlers as written, where a Connect that has returned leaves its
   * handler registered: that handler nulls the `ref` stream and then throws
   * ObjectDisposedException from its disposed event. The exception leaves the
   * loop with the handler still listed, so the stream is neither cached nor
   * disposed.
   */
  function RunHandlersAsWritten(hs: seq<StreamHandler>, slots: map<nat, SlotState>, id: Guid,
                                stream: Option<StreamId>, isLive: StreamId -> bool, returned: set<nat>): (r: RunOutcome)
    ensures r.thrown ==> r.result.stream.None? && stream.Some?
    ensures r.thrown ==> exists h :: h in r.result.kept && Stale(h, id, returned)
    decreases |hs|
  {
    if hs == [] || stream.None? then RunOutcome(RunResult(hs, slots, stream, {}), false)
    else
      var h := hs[0];
      if Stale(h, id, returned) then
        RunOutcome(RunResult(hs, slots[h.slot := Captured(stream.value)], None, {}), true)
      else
        var st := ApplyHandler(h, id, stream.value, SlotOf(slots, h.slot), isLive);
        var head := if st.done then [] else [h];
        var r := RunHandlersAsWritten(hs[1..], slots[h.slot := st.slot], id, st.stream, isLive, returned);
        assert r.thrown ==> st.stream.Some?;
        RunOutcome(RunResult(head + r.result.kept, r.result.slots, r.result.stream, st.disposed + r.result.disposed), r.thrown)
  }

  /** Without a stale handler of the cookie the written run is RunHandlers and
      does not throw. */
  lemma {:induction false} RunAsWrittenAgrees(hs: seq<StreamHandler>, slots: map<nat, SlotState>, id: Guid,
                                              stream: Option<StreamId>, isLive: StreamId -> bool, returned: set<nat>)
    requires forall h :: h in hs ==> !Stale(h, id, returned)
    ensures RunHandlersAsWritten(hs, slots, id, stream, isLive, returned) == RunOutcome(RunHandlers(hs, slots, id, stream, isLive), false)
    decreases |hs|
  {
    if hs != [] && stream.Some? {
      var h := hs[0];
      assert h in hs;
      var st := ApplyHandler(h, id, stream.value, SlotOf(slots, h.slot), isLive);
      assert forall g :: g in hs[1..] ==> g in hs;
      RunAsWrittenAgrees(hs[1..], slots[h.slot := st.slot], id, st.stream, isLive, returned);
    }
  }

  /**
   * A Connect for cookie `id` timed out and returned, leaving its handler
   * registered: as written, the cookie's next stream throws inside the run,
   * is lost (neither cached nor disposed), and the handler stays to throw on
   * every later stream. With the handler unregistered when Connect returns,
   * the stream is cached for the next caller.
   */
  lemma StaleConnectHandlerThrowsAsWritten(id: Guid, k: nat, s: StreamId, slots: map<nat, SlotState>, isLive: StreamId -> bool)
    ensures var o := RunHandlersAsWritten([ConnectHandler(id, k)], slots, id, Some(s), isLive, {k});
      o.thrown && o.result.kept == [ConnectHandler(id, k)] && o.result.stream.None? && o.result.disposed == {}
    ensures Unregister([ConnectHandler(id, k)], k) == []
    ensures RunHandlers(Unregister([ConnectHandler(id, k)], k), slots, id, Some(s), isLive).stream == Some(s)
  {
    assert ConnectHandler(id, k) in [ConnectHandler(id, k)];
  }

  // ---------------------------------------------------------------------------
  // Connect's outcome

  /** Connect's result as written: when the event was signalled (a stream was
      captured) it throws TimeoutException; on a real timeout it returns null. */
  function ConnectOutcomeAsWritten(slot: SlotState): (r: Result<Option<StreamId>>)
    ensures slot.Captured? <==> r.Failure?
    ensures r.Failure? ==> r.error == TimeoutError
    ensures r.Success? ==> r.value.None?
  {
    if slot.Captured? then Failure(TimeoutError) else Success(None)
  }

  /** Connect's result as intended: the captured stream, or a TimeoutException. */
  function ConnectOutcome(slot: SlotState): (r: Result<StreamId>)
    ensures slot.Captured? <==> r.Success?
    ensures r.Success? ==> r.value == slot.stream
    ensures r.Failure? ==> r.error == TimeoutError
  {
    if slot.Captured? then Success(slot.stream) else Failure(TimeoutError)
  }

  /** As written, a Connect that receives its stream throws, and the stream it
      took out of the cache is lost; one that times out returns null. */
  lemma ConnectInvertedAsWritten(s: StreamId)
    ensures ConnectOutcomeAsWritten(Captured(s)) == Failure(TimeoutError)
    ensures ConnectOutcomeAsWritten(Open) == Success(None)
    ensures ConnectOutcome(Captured(s)) == Success(s)
    ensures ConnectOutcome(Open) == Failure(TimeoutError)
  {
  }

  /** How one turn of WaitForConnectionAsync ended. */
  datatype WaitOutcome =
    | Connected            // the handler found the cached stream live
    | Waiting(slot: nat)   // the handler is registered and waits for a stream

  /** Whether an AcceptAsync turn ends the call. */
  predicate Stops(e: Incoming, endpoints: map<Guid, nat>) {
    e.CancelRequested? || (e.Advertised? && e.cookie !in endpoints)
  }

  /** The turn at which AcceptAsync returns: the first cancellation or first
      advertisement of an untracked cookie (`|events|` if there is none). */
  function StopIndex(events: seq<Incoming>, endpoints: map<Guid, nat>): (k: nat)
    ensures k <= |events|
    ensures forall j :: 0 <= j < k ==> !Stops(events[j], endpoints)
    ensures k < |events| ==> Stops(events[k], endpoints)
    decreases |events|
  {
    if events == [] then 0
    else if Stops(events[0], endpoints) then 0
    else 1 + StopIndex(events[1..], endpoints)
  }

  /** The streams held by a cache. */
  function CachedStreams(cached: map<Guid, Option<StreamId>>): (r: set<StreamId>)
    ensures forall id :: id in cached && cached[id].Some? ==> cached[id].value in r
    ensures forall x :: x in r ==> exists id :: id in cached && cached[id] == Some(x)
  {
    set id | id in cached && cached[id].Some? :: cached[id].value
  }

  /** The values of a cache in the dictionary's enumeration order `order`. */
  function ValuesInOrder(order: seq<Guid>, cached: map<Guid, Option<StreamId>>): (r: seq<Option<StreamId>>)
    ensures forall v :: v in r <==> exists id :: id in order && id in cached && cached[id] == v
    decreases |order|
  {
    if order == [] then []
    else
      var rest := ValuesInOrder(order[1..], cached);
      assert forall id :: id in order <==> id == order[0] || id in order[1..];
      (if order[0] in cached then [cached[order[0]]] else []) + rest
  }

  /** How a foreach over cached values ended, and what it disposed. */
  datatype Sweep = Sweep(status: Status, disposed: set<StreamId>)

  /**
   * The foreach of Dispose as written: `s.Dispose()` on every cached value in
   * order. A null entry, left whenever a handler took the stream, throws
   * NullReferenceException after the streams before it were disposed.
   */
  function DisposeValuesAsWritten(values: seq<Option<StreamId>>): (r: Sweep)
    ensures r.status.Fail? <==> None in values
    ensures r.status.Fail? ==> r.status.error == NullReference
    ensures forall x :: x in r.disposed ==> Some(x) in values
    ensures r.status.Ok? ==> forall x :: Some(x) in values ==> x in r.disposed
    decreases |values|
  {
    if values == [] then Sweep(Ok, {})
    else if values[0].None? then Sweep(Fail(NullReference), {})
    else
      var r := DisposeValuesAsWritten(values[1..]);
      assert forall v :: v in values <==> v == values[0] || v in values[1..];
      Sweep(r.status, {values[0].value} + r.disposed)
  }

  /**
   * When the enumeration covers the cache, the written foreach fails exactly
   * when some cookie's stream was consumed, and otherwise disposes exactly the
   * cached streams, as the null-skipping Dispose does.
   */
  lemma DisposeValuesAsWrittenAgrees(order: seq<Guid>, cached: map<Guid, Option<StreamId>>)
    requires forall id :: id in cached ==> id in order
    ensures var sw := DisposeValuesAsWritten(ValuesInOrder(order, cached));
      && (sw.status.Fail? <==> exists id :: id in cached && cached[id].None?)
      && (sw.status.Ok? ==> sw.disposed == CachedStreams(cached))
  {
    var values := ValuesInOrder(order, cached);
    if exists id :: id in cached && cached[id].None? {
      var id :| id in cached && cached[id].None?;
      assert cached[id] in values;
    }
  }

  /**
   * Connect took the cookie's stream, so the cache holds null for it: as
   * written Dispose throws NullReferenceException after disposing the streams
   * enumerated before that entry, while skipping null entries disposes every
   * cached stream.
   */
  lemma DisposeNullEntryThrowsAsWritten(a: Guid, b: Guid, s: StreamId)
    requires a != b
    ensures DisposeValuesAsWritten(ValuesInOrder([a, b], map[a := Some(s), b := None])) == Sweep(Fail(NullReference), {s})
    ensures CachedStreams(map[a := Some(s), b := None]) == {s}
  {
    var m := map[a := Some(s), b := None];
    assert ValuesInOrder([a, b], m) == [Some(s), None] by {
      assert [a, b][1..] == [b] && [b][1..] == [];
      assert ValuesInOrder([b], m) == [None] + ValuesInOrder([], m);
    }
    assert DisposeValuesAsWritten([Some(s), None]) == Sweep(Fail(NullReference), {s}) by {
      assert [Some(s), None][1..] == [None];
    }
    assert m[a].Some?;
  }

  /** The parts of the server that stream hand-off changes. */
  datatype HandOff = HandOff(handlers: seq<StreamHandler>, slots: map<nat, SlotState>,
                             cached: map<Guid, Option<StreamId>>, disposedStreams: set<StreamId>)

  /** ProvideStream's effect: the handlers are run on the stream, what is left
      of it is cached, and the stream cached before is disposed. */
  function Provided(st: HandOff, id: Guid, s: StreamId, isLive: StreamId -> bool): (r: HandOff)
    ensures Cached(st.cached, id).Some? ==> Cached(st.cached, id).value in r.disposedStreams
    ensures r.cached.Keys == st.cached.Keys + {id}
  {
    var R := RunHandlers(st.handlers, st.slots, id, Some(s), isLive);
    var prev := Cached(st.cached, id);
    HandOff(R.kept, R.slots, st.cached[id := R.stream],
            st.disposedStreams + R.disposed + (if prev.Some? then {prev.value} else {}))
  }

  /** One more event extends the fold by that event's ProvideStream, if any. */
  lemma ProvideAllSnoc(st: HandOff, events: seq<Incoming>, i: nat, isLive: StreamId -> bool)
    requires i < |events|
    ensures ProvideAll(st, events[..i + 1], isLive) ==
      if events[i].Advertised? then Provided(ProvideAll(st, events[..i], isLive), events[i].cookie, events[i].stream, isLive)
      else ProvideAll(st, events[..i], isLive)
  {
    assert events[..i + 1][..i] == events[..i];
  }

  /** The effect of the ProvideStream calls of AcceptAsync over a run of incoming events. */
  function ProvideAll(st: HandOff, events: seq<Incoming>, isLive: StreamId -> bool): HandOff
    decreases |events|
  {
    if events == [] then st
    else
      var before := ProvideAll(st, events[..|events| - 1], isLive);
      match events[|events| - 1]
      case Advertised(cookie, _, stream) => Provided(before, cookie, stream, isLive)
      case _ => before
  }

  // ---------------------------------------------------------------------------
  // The server

  class Server {
    /** `_disposed`. */
    var disposed: bool
    /** `_endpoints`: each tracked cookie and the serial number of its endpoint object. */
    var endpoints: map<Guid, nat>
    /** The serial number the next endpoint object gets. */
    var nextEndpoint: nat
    /** `_handlers`, in registration order. */
    var handlers: seq<StreamHandler>
    /** `_cachedStreams`: `None` records that the last stream was consumed. */
    var cached: map<Guid, Option<StreamId>>
    /** The captured state of every handler closure ever made. */
    var slots: map<nat, SlotState>
    /** The slot the next handler gets. */
    var nextSlot: nat
    /** Every stream the server has disposed. */
    var disposedStreams: set<StreamId>
    /** The liveness probe (TestStream). */
    const isLive: StreamId -> bool

    /**
     * Besides bookkeeping, the invariant that makes the handler list work: a
     * stream is cached for a cookie only while no handler for that cookie is
     * registered, so no waiting handler misses a stream that is already there.
     */
    ghost predicate Valid()
      reads this
    {
      Bookkeeping() && forall id :: id in cached && cached[id].Some? ==> NoneFor(handlers, id)
    }

    /** Slots and endpoint serial numbers are handed out fresh; nothing is
        tracked or cached once the server is disposed. */
    ghost predicate Bookkeeping()
      reads this
    {
      && SlotsKnown(handlers, slots)
      && DistinctSlots(handlers)
      && (forall k :: k in slots ==> k < nextSlot)
      && (forall id :: id in endpoints ==> endpoints[id] < nextEndpoint)
      && (disposed ==> endpoints == map[] && cached == map[])
    }

    /** The hand-off state: handlers, their slots, the cache and the disposed streams. */
    function State(): HandOff
      reads this
    {
      HandOff(handlers, slots, cached, disposedStreams)
    }

    constructor (isLive: StreamId -> bool)
      ensures Valid() && !disposed
      ensures endpoints == map[] && handlers == [] && cached == map[] && slots == map[]
      ensures disposedStreams == {} && this.isLive == isLive
    {
      this.isLive := isLive;
      disposed := false;
      endpoints := map[];
      nextEndpoint := 0;
      handlers := [];
      cached := map[];
      slots := map[];
      nextSlot := 0;
      disposedStreams := {};
    }

    function VerifyNotDisposed(): (s: Status)
      reads this
      ensures s.Fail? <==> disposed
      ensures s.Fail? ==> s.error == ObjectDisposed
    {
      if disposed then Fail(ObjectDisposed) else Ok
    }

    /**
     * RunStreamHandlers: the handlers are called in order while the stream is
     * non-null, completed ones are removed in place, and what is left of the
     * stream (null once consumed) becomes the cached stream of the cookie.
     */
    method RunStreamHandlers(id: Guid, stream: StreamId)
      requires Bookkeeping() && !disposed
      requires forall id2 :: id2 != id && id2 in cached && cached[id2].Some? ==> NoneFor(handlers, id2)
      modifies this
      ensures var R := RunHandlers(old(handlers), old(slots), id, Some(stream), isLive);
        && handlers == R.kept && slots == R.slots
        && cached == old(cached)[id := R.stream]
        && disposedStreams == old(disposedStreams) + R.disposed
      ensures disposed == old(disposed) && endpoints == old(endpoints)
      ensures nextSlot == old(nextSlot) && nextEndpoint == old(nextEndpoint)
      ensures Valid()
    {
      RunFrame(handlers, slots, id, Some(stream), isLive);
      var kept, ss, cur, gone := RunLoop(handlers, slots, id, Some(stream), isLive);
      handlers, slots, disposedStreams := kept, ss, disposedStreams + gone;
      cached := cached[id := cur];
      forall id2 | id2 in cached && cached[id2].Some? ensures NoneFor(handlers, id2) {
        if id2 != id {
          assert old(cached)[id2] == cached[id2];
          assert NoneFor(old(handlers), id2);
        }
      }
    }

    /**
     * ProvideStream: the new stream is offered to the handlers (see
     * RunStreamHandlers) and then the stream previously cached for the cookie,
     * if any, is disposed.
     */
    method ProvideStream(id: Guid, stream: StreamId)
      requires Valid() && !disposed
      modifies this
      ensures State() == Provided(old(State()), id, stream, isLive)
      ensures Cached(old(cached), id).Some? ==> Cached(old(cached), id).value in disposedStreams
      ensures disposed == old(disposed) && endpoints == old(endpoints)
      ensures nextSlot == old(nextSlot) && nextEndpoint == old(nextEndpoint)
      ensures Valid()
    {
      var previous := Cached(cached, id);
      RunStreamHandlers(id, stream);
      if previous.Some? {
        disposedStreams := disposedStreams + {previous.value};
      }
    }

    /**
     * RegisterHandler: the handler is appended, and if a stream is cached for
     * its cookie the handlers are run on it. No other handler of that cookie
     * can be registered then, so the new handler alone acts on the stream.
     */
    method RegisterHandler(h: StreamHandler)
      requires Valid() && h.slot in slots
      requires forall g :: g in handlers ==> g.slot != h.slot
      modifies this
      ensures var c := Cached(old(cached), h.runtimeId);
        c.None? ==>
          && handlers == old(handlers) + [h] && slots == old(slots)
          && cached == old(cached) && disposedStreams == old(disposedStreams)
      ensures var c := Cached(old(cached), h.runtimeId);
        c.Some? ==>
          var st := ApplyHandler(h, h.runtimeId, c.value, old(slots)[h.slot], isLive);
          && handlers == old(handlers) && slots == old(slots)[h.slot := st.slot]
          && cached == old(cached)[h.runtimeId := st.stream]
          && disposedStreams == old(disposedStreams) + st.disposed
      ensures disposed == old(disposed) && endpoints == old(endpoints)
      ensures nextSlot == old(nextSlot) && nextEndpoint == old(nextEndpoint)
      ensures Valid()
    {
      ghost var hs0 := handlers;
      handlers := handlers + [h];
      assert DistinctSlots(handlers) by {
        forall i, j | 0 <= i < j < |handlers| ensures handlers[i].slot != handlers[j].slot {
          if j == |hs0| {
            assert handlers[i] in hs0;
          } else {
            assert handlers[i] == hs0[i] && handlers[j] == hs0[j];
          }
        }
      }
      var c := Cached(cached, h.runtimeId);
      if c.Some? {
        RunOthersThenOne(hs0, h, slots, h.runtimeId, c.value, isLive);
        RunStreamHandlers(h.runtimeId, c.value);
      } else {
        forall id | id in cached && cached[id].Some? ensures NoneFor(handlers, id) {
          assert id != h.runtimeId;
          assert NoneFor(hs0, id);
        }
      }
    }

    /** A fresh slot for a new handler closure. */
    method NewSlot() returns (slot: nat)
      requires Valid()
      modifies this
      ensures slot == old(nextSlot) && slot !in old(slots)
      ensures slots == old(slots)[slot := Open] && nextSlot == old(nextSlot) + 1
      ensures handlers == old(handlers) && cached == old(cached) && disposedStreams == old(disposedStreams)
      ensures disposed == old(disposed) && endpoints == old(endpoints) && nextEndpoint == old(nextEndpoint)
      ensures Valid()
      ensures forall g :: g in handlers ==> g.slot != slot
    {
      slot := nextSlot;
      nextSlot := nextSlot + 1;
      slots := slots[slot := Open];
    }

    /**
     * Connect registers a handler that takes the cookie's next stream. A stream
     * already cached is taken at once (and the cache is cleared); otherwise the
     * handler stays registered and a later ProvideStream may fill its slot.
     * ConnectResult reads the outcome when the wait ends.
     */
    method Connect(runtimeId: Guid) returns (slot: nat)
      requires Valid()
      modifies this
      ensures slot == old(nextSlot) && slot in slots
      ensures var c := Cached(old(cached), runtimeId);
        c.Some? ==>
          && slots[slot] == Captured(c.value) && handlers == old(handlers)
          && cached == old(cached)[runtimeId := None]
      ensures Cached(old(cached), runtimeId).None? ==>
        && slots[slot] == Open && handlers == old(handlers) + [ConnectHandler(runtimeId, slot)]
        && cached == old(cached)
      ensures disposedStreams == old(disposedStreams) && endpoints == old(endpoints) && disposed == old(disposed)
      ensures Valid()
    {
      slot := NewSlot();
      RegisterHandler(ConnectHandler(runtimeId, slot));
    }

    /** What Connect returns when its wait ends: the captured stream, or a
        TimeoutException when none was captured in time. */
    function ConnectResult(slot: nat): (r: Result<StreamId>)
      reads this
      ensures r.Success? <==> slot in slots && slots[slot].Captured?
      ensures r.Success? ==> r.value == slots[slot].stream
      ensures r.Failure? ==> r.error == TimeoutError
    {
      ConnectOutcome(SlotOf(slots, slot))
    }

    /**
     * Connect returns (its wait ended): the outcome is read from its slot and
     * its handler is unregistered, so no later stream reaches a handler whose
     * caller is gone and the outcome can no longer change (RunLeavesUnlistedSlots).
     */
    method EndConnect(slot: nat) returns (r: Result<StreamId>)
      requires Valid()
      modifies this
      ensures r == ConnectOutcome(SlotOf(old(slots), slot))
      ensures handlers == Unregister(old(handlers), slot)
      ensures forall h :: h in handlers ==> h.slot != slot
      ensures slots == old(slots) && cached == old(cached) && disposedStreams == old(disposedStreams)
      ensures endpoints == old(endpoints) && disposed == old(disposed)
      ensures nextSlot == old(nextSlot) && nextEndpoint == old(nextEndpoint)
      ensures Valid()
    {
      r := ConnectOutcome(SlotOf(slots, slot));
      UnregisterDistinct(handlers, slot);
      handlers := Unregister(handlers, slot);
    }

    /**
     * One turn of WaitForConnectionAsync: a handler is registered that probes
     * the cookie's stream. A cached stream is probed at once: a live one stays
     * cached, a dead one is disposed and the cache cleared. With nothing cached
     * the handler stays registered.
     */
    method RegisterWait(runtimeId: Guid) returns (slot: nat)
      requires Valid()
      modifies this
      ensures slot == old(nextSlot) && slot in slots
      ensures var c := Cached(old(cached), runtimeId);
        c.Some? ==>
          var live := isLive(c.value);
          && slots[slot] == Probed(live) && handlers == old(handlers)
          && cached == old(cached)[runtimeId := if live then c else None]
          && disposedStreams == old(disposedStreams) + (if live then {} else {c.value})
      ensures Cached(old(cached), runtimeId).None? ==>
        && slots[slot] == Open && handlers == old(handlers) + [WaitHandler(runtimeId, slot)]
        && cached == old(cached) && disposedStreams == old(disposedStreams)
      ensures endpoints == old(endpoints) && disposed == old(disposed)
      ensures Valid()
    {
      slot := NewSlot();
      RegisterHandler(WaitHandler(runtimeId, slot));
    }

    /**
     * WaitForConnectionAsync: turns are repeated while a turn's probe finds
     * the stream dead. It ends connected when the cached stream is live, and
     * otherwise leaves a handler waiting for the runtime's next stream.
     */
    method WaitForConnection(runtimeId: Guid) returns (r: WaitOutcome)
      requires Valid()
      modifies this
      ensures var c := Cached(old(cached), runtimeId);
        c.Some? && isLive(c.value) ==>
          && r == Connected && handlers == old(handlers)
          && cached == old(cached) && disposedStreams == old(disposedStreams)
      ensures var c := Cached(old(cached), runtimeId);
        c.Some? && !isLive(c.value) ==>
          && r.Waiting? && handlers == old(handlers) + [WaitHandler(runtimeId, r.slot)]
          && cached == old(cached)[runtimeId := None]
          && disposedStreams == old(disposedStreams) + {c.value}
      ensures Cached(old(cached), runtimeId).None? ==>
        && r.Waiting? && handlers == old(handlers) + [WaitHandler(runtimeId, r.slot)]
        && cached == old(cached) && disposedStreams == old(disposedStreams)
      ensures r.Waiting? ==> r.slot in slots && slots[r.slot] == Open
      ensures endpoints == old(endpoints) && disposed == old(disposed)
      ensures Valid()
    {
      ghost var c := Cached(cached, runtimeId);
      var isConnected := false;
      var waiting := false;
      var slot := 0;
      while !isConnected && !waiting
        invariant Valid()
        invariant endpoints == old(endpoints) && disposed == old(disposed)
        invariant !isConnected && !waiting ==>
          handlers == old(handlers) &&
          ((cached == old(cached) && disposedStreams == old(disposedStreams))
           || (c.Some? && !isLive(c.value) && Cached(cached, runtimeId).None?
               && cached == old(cached)[runtimeId := None]
               && disposedStreams == old(disposedStreams) + {c.value}))
        invariant isConnected ==>
          && !waiting && c.Some? && isLive(c.value) && handlers == old(handlers)
          && cached == old(cached) && disposedStreams == old(disposedStreams)
        invariant waiting ==>
          && slot in slots && slots[slot] == Open
          && handlers == old(handlers) + [WaitHandler(runtimeId, slot)]
          && (c.Some? ==> !isLive(c.value) && cached == old(cached)[runtimeId := None]
                          && disposedStreams == old(disposedStreams) + {c.value})
          && (c.None? ==> cached == old(cached) && disposedStreams == old(disposedStreams))
        decreases if isConnected || waiting then 0 else if Cached(cached, runtimeId).Some? then 2 else 1
      {
        slot := RegisterWait(runtimeId);
        match slots[slot]
        case Probed(live) =>
          isConnected := live;
        case _ =>
          waiting := true;
      }
      r := if isConnected then Connected else Waiting(slot);
    }

    /** The token of a waiting WaitForConnectionAsync fires: a handler that has
        not probed yet is told to ignore any later stream. */
    method CancelWait(slot: nat) returns (s: Status)
      modifies this
      requires Valid()
      ensures SlotOf(old(slots), slot) == Open && slot in old(slots) ==>
        s == Fail(Cancelled) && slots == old(slots)[slot := Ignored]
      ensures !(SlotOf(old(slots), slot) == Open && slot in old(slots)) ==> s == Ok && slots == old(slots)
      ensures handlers == old(handlers) && cached == old(cached) && disposedStreams == old(disposedStreams)
      ensures endpoints == old(endpoints) && disposed == old(disposed)
      ensures Valid()
    {
      if slot in slots && slots[slot] == Open {
        slots := slots[slot := Ignored];
        s := Fail(Cancelled);
      } else {
        s := Ok;
      }
    }

    /**
     * The registry step of AcceptAsync: every advertised stream is provided
     * for its cookie; the first advertisement of a cookie that is not tracked
     * creates an endpoint and returns its info, with the process id truncated
     * to 32 bits. A cookie already tracked produces nothing and the loop goes
     * on. `Success(None)` means the input ran out with the call still waiting.
     */
    method AcceptAsync(events: seq<Incoming>) returns (r: Result<Option<EndpointInfo>>)
      requires Valid()
      modifies this
      ensures old(disposed) ==>
        && r == Failure(ObjectDisposed) && endpoints == old(endpoints) && State() == old(State())
      ensures !old(disposed) ==>
        var k := StopIndex(events, old(endpoints));
        && (k == |events| ==>
              && r == Success(None) && endpoints == old(endpoints)
              && State() == ProvideAll(old(State()), events, isLive))
        && (k < |events| && events[k].CancelRequested? ==>
              && r == Failure(Cancelled) && endpoints == old(endpoints)
              && State() == ProvideAll(old(State()), events[..k], isLive))
        && (k < |events| && events[k].Advertised? ==>
              && r == Success(Some(EndpointInfo(old(nextEndpoint), ToInt32(events[k].processId), events[k].cookie)))
              && endpoints == old(endpoints)[events[k].cookie := old(nextEndpoint)]
              && State() == ProvideAll(old(State()), events[..k + 1], isLive))
      ensures disposed == old(disposed)
      ensures Valid()
    {
      if disposed {
        return Failure(ObjectDisposed);
      }
      ghost var st0 := State();
      ghost var k := StopIndex(events, endpoints);
      var i := 0;
      while i < |events|
        invariant 0 <= i <= k
        invariant Valid() && !disposed
        invariant endpoints == old(endpoints) && nextEndpoint == old(nextEndpoint)
        invariant State() == ProvideAll(st0, events[..i], isLive)
        decreases |events| - i
      {
        ProvideAllSnoc(st0, events, i, isLive);
        match events[i] {
          case Unparsed =>
          case CancelRequested =>
            assert i == k;
            return Failure(Cancelled);
          case Advertised(cookie, pid, stream) =>
            ProvideStream(cookie, stream);
            if cookie !in endpoints {
              assert i == k;
              r := Success(Some(EndpointInfo(nextEndpoint, ToInt32(pid), cookie)));
              endpoints := endpoints[cookie := nextEndpoint];
              nextEndpoint := nextEndpoint + 1;
              return;
            }
        }
        i := i + 1;
      }
      assert events[..i] == events;
      r := Success(None);
    }

    /** RemoveConnection: reports whether the cookie was tracked, and untracks it. */
    method RemoveConnection(cookie: Guid) returns (r: Result<bool>)
      requires Valid()
      modifies this
      ensures old(disposed) ==> r == Failure(ObjectDisposed) && endpoints == old(endpoints)
      ensures !old(disposed) ==> r == Success(cookie in old(endpoints)) && endpoints == old(endpoints) - {cookie}
      ensures State() == old(State()) && disposed == old(disposed)
      ensures nextSlot == old(nextSlot) && nextEndpoint == old(nextEndpoint)
      ensures Valid()
    {
      if disposed {
        return Failure(ObjectDisposed);
      }
      r := Success(cookie in endpoints);
      endpoints := endpoints - {cookie};
    }

    /**
     * Dispose: the first call clears the registry, disposes every cached
     * stream and clears the cache; registered handlers stay. Later calls do
     * nothing.
     */
    method Dispose()
      requires Valid()
      modifies this
      ensures disposed && Valid()
      ensures old(disposed) ==>
        && endpoints == old(endpoints) && cached == old(cached) && disposedStreams == old(disposedStreams)
      ensures !old(disposed) ==>
        && endpoints == map[] && cached == map[]
        && disposedStreams == old(disposedStreams) + CachedStreams(old(cached))
      ensures handlers == old(handlers) && slots == old(slots)
    {
      if !disposed {
        endpoints := map[];
        disposedStreams := disposedStreams + CachedStreams(cached);
        cached := map[];
        disposed := true;
      }
    }

    /**
     * Dispose as written, with `order` the enumeration order of the cache: the
     * registry is cleared, then the cached values are disposed in order. A
     * null entry throws NullReferenceException, leaving the cache as it was
     * and the server not disposed; a later call starts over.
     */
    method DisposeAsWritten(order: seq<Guid>) returns (s: Status)
      requires Valid()
      requires forall id :: id in cached ==> id in order
      modifies this
      ensures old(disposed) ==> s == Ok && disposed && endpoints == old(endpoints) && State() == old(State())
      ensures !old(disposed) ==>
        var sw := DisposeValuesAsWritten(ValuesInOrder(order, old(cached)));
        && s == sw.status && endpoints == map[]
        && disposedStreams == old(disposedStreams) + sw.disposed
        && (s.Ok? ==> disposed && cached == map[])
        && (s.Fail? ==> !disposed && cached == old(cached))
      ensures handlers == old(handlers) && slots == old(slots)
      ensures Valid()
    {
      if !disposed {
        endpoints := map[];
        var sw := DisposeValuesAsWritten(ValuesInOrder(order, cached));
        disposedStreams := disposedStreams + sw.disposed;
        if sw.status.Fail? {
          return sw.status;
        }
        cached := map[];
        disposed := true;
      }
      s := Ok;
    }
  }
}
