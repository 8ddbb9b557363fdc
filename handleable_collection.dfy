/**
 * The generic matching primitive of the diagnostics client: a collection that
 * buffers items and hands each one to the handlers that are waiting for it.
 *
 * A handler answers, for one item, whether it completes on that item (`stop`)
 * and whether the item should leave the collection (`removeItem`). Every handler
 * call has a single-assignment completion cell (the TaskCompletionSource of the
 * source); the collection keeps the cells in a map from ticket to settlement,
 * and waiting is replaced by reading the cell.
 */
module Handleable {
  import opened Common

  /** A handler's answer for one item. */
  datatype Verdict = Verdict(stop: bool, removeItem: bool)

  /** The state of a completion cell: still pending, completed with an item,
      or completed with an exception (timeout, cancellation, disposal). */
  datatype Settlement<T> = Pending | Value(item: T) | Faulted(error: Error)

  /** A pending handler and the ticket of its completion cell. */
  datatype Waiter<!T> = Waiter(ticket: nat, handler: T -> Verdict)

  /** What TryHandler reports: stop handling, remove the item, and the cell afterwards. */
  datatype TryResult<T> = TryResult(stop: bool, removeItem: bool, cell: Settlement<T>)

  /** The outcome of offering one item to the pending handlers. */
  datatype OfferResult<!T> = OfferResult(kept: seq<Waiter<T>>, cells: map<nat, Settlement<T>>, consumed: bool)

  /** The outcome of scanning the stored items with one handler. */
  datatype ScanResult<T> = ScanResult(rest: seq<T>, cell: Settlement<T>, stopped: bool)

  function Tickets<T>(ws: seq<Waiter<T>>): (r: seq<nat>)
    ensures |r| == |ws|
    ensures forall i :: 0 <= i < |ws| ==> r[i] == ws[i].ticket
  {
    seq(|ws|, i requires 0 <= i < |ws| => ws[i].ticket)
  }

  // ---------------------------------------------------------------------------
  // The handler protocol

  /** The source's default handler: accept the first item and remove it. */
  function DefaultHandler<T>(item: T): (v: Verdict)
    ensures v.stop && v.removeItem
  {
    Verdict(true, true)
  }

  /** The current settlement of a ticket; an unknown ticket reads as pending. */
  function CellOf<T>(cells: map<nat, Settlement<T>>, t: nat): Settlement<T> {
    if t in cells then cells[t] else Pending
  }

  /**
   * TryHandler: a handler whose cell is already completed stops at once and
   * removes nothing, without being called; otherwise the handler is called and
   * its cell is completed with the item when it stops.
   */
  function TryHandler<T>(item: T, handler: T -> Verdict, cell: Settlement<T>): (r: TryResult<T>)
    ensures !cell.Pending? ==> r.stop && !r.removeItem && r.cell == cell
    ensures cell.Pending? ==> r.stop == handler(item).stop && r.removeItem == handler(item).removeItem
    ensures cell.Pending? ==> r.cell == (if r.stop then Value(item) else Pending)
    ensures r.stop <==> !r.cell.Pending?
  {
    if !cell.Pending? then TryResult(true, false, cell)
    else
      var v := handler(item);
      TryResult(v.stop, v.removeItem, if v.stop then Value(item) else cell)
  }

  /**
   * Add's loop: the item is offered to the pending handlers in registration
   * order. A handler that stops is dropped from the list; the scan ends at the
   * first handler that asks for the item to be removed (not at the first that
   * stops), and `consumed` says whether that happened.
   */
  function Offer<T>(ws: seq<Waiter<T>>, cells: map<nat, Settlement<T>>, item: T): OfferResult<T>
    decreases |ws|
  {
    if ws == [] then OfferResult([], cells, false)
    else
      var w := ws[0];
      var tr := TryHandler(item, w.handler, CellOf(cells, w.ticket));
      var cells1 := cells[w.ticket := tr.cell];
      var head := if tr.stop then [] else [w];
      if tr.removeItem then OfferResult(head + ws[1..], cells1, true)
      else
        var r := Offer(ws[1..], cells1, item);
        OfferResult(head + r.kept, r.cells, r.consumed)
  }

  /**
   * HandleAsync's loop: the stored items are offered in order to one handler
   * with cell `cell`; every item it marks for removal is dropped, and the scan
   * ends at the first item on which it stops.
   */
  function Scan<T>(items: seq<T>, handler: T -> Verdict, cell: Settlement<T>): ScanResult<T>
    decreases |items|
  {
    if items == [] then ScanResult([], cell, false)
    else
      var tr := TryHandler(items[0], handler, cell);
      var head := if tr.removeItem then [] else [items[0]];
      if tr.stop then ScanResult(head + items[1..], tr.cell, true)
      else
        var r := Scan(items[1..], handler, tr.cell);
        ScanResult(head + r.rest, r.cell, r.stopped)
  }

  /** The items a handler does not mark for removal, in order. */
  function Unremoved<T>(items: seq<T>, handler: T -> Verdict): seq<T>
    decreases |items|
  {
    if items == [] then []
    else (if handler(items[0]).removeItem then [] else [items[0]]) + Unremoved(items[1..], handler)
  }

  /** Every pending cell becomes faulted with ObjectDisposedException; completed cells stay. */
  function DisposeCells<T>(cells: map<nat, Settlement<T>>): (r: map<nat, Settlement<T>>)
    ensures r.Keys == cells.Keys
    ensures forall t :: t in cells ==> r[t] == if cells[t].Pending? then Faulted(ObjectDisposed) else cells[t]
  {
    map t | t in cells :: if cells[t].Pending? then Faulted(ObjectDisposed) else cells[t]
  }

  /** The stored items that are IDisposable, in order. */
  function Disposables<T>(items: seq<T>, disposable: T -> bool): (r: seq<T>)
    ensures forall i :: 0 <= i < |r| ==> disposable(r[i]) && r[i] in items
    ensures forall i :: 0 <= i < |items| && disposable(items[i]) ==> items[i] in r
    decreases |items|
  {
    if items == [] then []
    else
      var rest := Disposables(items[1..], disposable);
      assert forall i :: 0 < i < |items| ==> items[i] == items[1..][i - 1];
      (if disposable(items[0]) then [items[0]] else []) + rest
  }

  /** A cell may change only from pending: a completed cell keeps its value. */
  ghost predicate SettlesOnce<T>(before: map<nat, Settlement<T>>, after: map<nat, Settlement<T>>) {
    && before.Keys <= after.Keys
    && forall t :: t in before && !before[t].Pending? ==> after[t] == before[t]
  }

  predicate AllTicketsIn<T>(ws: seq<Waiter<T>>, cells: map<nat, Settlement<T>>) {
    forall i :: 0 <= i < |ws| ==> ws[i].ticket in cells
  }

  /** No pending handler at an index before `k` reports `removeItem` for the item. */
  ghost predicate ReachedBy<T>(ws: seq<Waiter<T>>, cells: map<nat, Settlement<T>>, item: T, k: nat)
    requires k <= |ws|
  {
    forall j :: 0 <= j < k ==> !(CellOf(cells, ws[j].ticket).Pending? && ws[j].handler(item).removeItem)
  }

  // ---------------------------------------------------------------------------
  // Properties of Add

  /** Add neither adds nor removes cells. */
  lemma {:induction false} OfferKeys<T>(ws: seq<Waiter<T>>, cells: map<nat, Settlement<T>>, item: T)
    requires AllTicketsIn(ws, cells)
    ensures Offer(ws, cells, item).cells.Keys == cells.Keys
    decreases |ws|
  {
    if ws != [] {
      var w := ws[0];
      var tr := TryHandler(item, w.handler, CellOf(cells, w.ticket));
      if !tr.removeItem {
        OfferKeys(ws[1..], cells[w.ticket := tr.cell], item);
      }
    }
  }

  /** Add keeps the handlers it keeps in registration order. */
  lemma {:induction false} OfferKeepsOrder<T>(ws: seq<Waiter<T>>, cells: map<nat, Settlement<T>>, item: T)
    ensures Subsequence(Tickets(Offer(ws, cells, item).kept), Tickets(ws))
    decreases |ws|
  {
    var r := Offer(ws, cells, item);
    if ws == [] {
      SubsequenceReflexive(Tickets(ws));
    } else {
      var w := ws[0];
      var tr := TryHandler(item, w.handler, CellOf(cells, w.ticket));
      var head := if tr.stop then [] else [w];
      assert Tickets(ws) == [w.ticket] + Tickets(ws[1..]);
      var tail := if tr.removeItem then ws[1..] else Offer(ws[1..], cells[w.ticket := tr.cell], item).kept;
      if tr.removeItem {
        SubsequenceReflexive(Tickets(ws[1..]));
      } else {
        OfferKeepsOrder(ws[1..], cells[w.ticket := tr.cell], item);
      }
      assert r.kept == head + tail;
      if tr.stop {
        assert r.kept == tail;
        SubsequenceSkip(w.ticket, Tickets(tail), Tickets(ws[1..]));
      } else {
        assert Tickets(r.kept) == [w.ticket] + Tickets(tail);
        SubsequenceCons(w.ticket, Tickets(tail), Tickets(ws[1..]));
      }
    }
  }

  /**
   * Add completes a cell only from pending and only with the item, and
   * touches only the cells of the handlers in the list.
   */
  lemma {:induction false} OfferSettlesOnce<T>(ws: seq<Waiter<T>>, cells: map<nat, Settlement<T>>, item: T)
    requires AllTicketsIn(ws, cells)
    ensures var r := Offer(ws, cells, item);
      && r.cells.Keys == cells.Keys
      && (forall t :: t in cells ==> r.cells[t] == cells[t] || (cells[t].Pending? && r.cells[t] == Value(item)))
      && (forall t :: t in cells && t !in Tickets(ws) ==> r.cells[t] == cells[t])
    decreases |ws|
  {
    OfferKeys(ws, cells, item);
    if ws != [] {
      var w := ws[0];
      var tr := TryHandler(item, w.handler, CellOf(cells, w.ticket));
      assert Tickets(ws) == [w.ticket] + Tickets(ws[1..]);
      if !tr.removeItem {
        OfferSettlesOnce(ws[1..], cells[w.ticket := tr.cell], item);
      }
    }
  }

  /** Add never drops a handler whose cell is still pending afterwards. */
  lemma {:induction false} OfferKeepsPending<T>(ws: seq<Waiter<T>>, cells: map<nat, Settlement<T>>, item: T)
    requires AllTicketsIn(ws, cells)
    ensures var r := Offer(ws, cells, item);
      r.cells.Keys == cells.Keys &&
      forall t :: t in Tickets(ws) && r.cells[t].Pending? ==> t in Tickets(r.kept)
    decreases |ws|
  {
    OfferKeys(ws, cells, item);
    var r := Offer(ws, cells, item);
    if ws != [] {
      var w := ws[0];
      var tr := TryHandler(item, w.handler, CellOf(cells, w.ticket));
      var cells1 := cells[w.ticket := tr.cell];
      var head := if tr.stop then [] else [w];
      assert Tickets(ws) == [w.ticket] + Tickets(ws[1..]);
      assert w.ticket in cells1;
      if !tr.stop {
        assert Tickets(head) == [w.ticket];
      }
      if tr.removeItem {
        assert r == OfferResult(head + ws[1..], cells1, true);
        TicketsAppend(head, ws[1..]);
        forall t | t in Tickets(ws) && r.cells[t].Pending? ensures t in Tickets(r.kept) {
          assert t == w.ticket || t in Tickets(ws[1..]);
        }
      } else {
        var rr := Offer(ws[1..], cells1, item);
        OfferKeepsPending(ws[1..], cells1, item);
        OfferSettlesOnce(ws[1..], cells1, item);
        assert r == OfferResult(head + rr.kept, rr.cells, rr.consumed);
        TicketsAppend(head, rr.kept);
        forall t | t in Tickets(ws) && r.cells[t].Pending? ensures t in Tickets(r.kept) {
          assert t == w.ticket || t in Tickets(ws[1..]);
        }
      }
    }
  }

  /**
   * Add keeps the registration order of the handlers it keeps, changes only the
   * cells of the handlers it offers the item to, completes a cell only from
   * pending and only with the item, and never drops a handler whose cell is
   * still pending.
   */
  lemma OfferFrame<T>(ws: seq<Waiter<T>>, cells: map<nat, Settlement<T>>, item: T)
    requires AllTicketsIn(ws, cells)
    ensures var r := Offer(ws, cells, item);
      && r.cells.Keys == cells.Keys
      && Subsequence(Tickets(r.kept), Tickets(ws))
      && (forall t :: t in cells ==> r.cells[t] == cells[t] || (cells[t].Pending? && r.cells[t] == Value(item)))
      && (forall t :: t in cells && t !in Tickets(ws) ==> r.cells[t] == cells[t])
      && (forall t :: t in Tickets(ws) && r.cells[t].Pending? ==> t in Tickets(r.kept))
  {
    OfferKeepsOrder(ws, cells, item);
    OfferSettlesOnce(ws, cells, item);
    OfferKeepsPending(ws, cells, item);
  }

  lemma TicketsAppend<T>(a: seq<Waiter<T>>, b: seq<Waiter<T>>)
    ensures Tickets(a + b) == Tickets(a) + Tickets(b)
  {
  }

  /** The first handler's cell ends as TryHandler leaves it, and a first
      handler that stops is no longer registered. */
  lemma OfferFirstSettled<T>(ws: seq<Waiter<T>>, cells: map<nat, Settlement<T>>, item: T)
    requires AllTicketsIn(ws, cells) && Distinct(Tickets(ws)) && ws != []
    ensures var w := ws[0];
      var tr := TryHandler(item, w.handler, CellOf(cells, w.ticket));
      var r := Offer(ws, cells, item);
      && r.cells.Keys == cells.Keys
      && r.cells[w.ticket] == tr.cell
      && (tr.stop ==> w.ticket !in Tickets(r.kept))
  {
    var w := ws[0];
    var tr := TryHandler(item, w.handler, CellOf(cells, w.ticket));
    var cells1 := cells[w.ticket := tr.cell];
    var r := Offer(ws, cells, item);
    assert Tickets(ws[1..]) == Tickets(ws)[1..];
    assert w.ticket !in Tickets(ws[1..]) by {
      forall j | 0 <= j < |Tickets(ws[1..])| ensures Tickets(ws[1..])[j] != w.ticket {
        assert Tickets(ws)[0] != Tickets(ws)[j + 1];
      }
    }
    OfferKeys(ws, cells, item);
    if !tr.removeItem {
      var rr := Offer(ws[1..], cells1, item);
      OfferFrame(ws[1..], cells1, item);
      SubsequenceMembers(Tickets(rr.kept), Tickets(ws[1..]));
      if tr.stop {
        assert r.kept == rr.kept;
      }
    }
  }

  /** Past a reached handler that does not consume the item, Add goes on
      with the rest of the list, and the later handlers are still reached. */
  lemma OfferPastReached<T>(ws: seq<Waiter<T>>, cells: map<nat, Settlement<T>>, item: T, k: nat)
    requires AllTicketsIn(ws, cells) && Distinct(Tickets(ws))
    requires 0 < k < |ws| && ReachedBy(ws, cells, item, k)
    ensures var w := ws[0];
      var tr := TryHandler(item, w.handler, CellOf(cells, w.ticket));
      var cells1 := cells[w.ticket := tr.cell];
      var rr := Offer(ws[1..], cells1, item);
      && !tr.removeItem
      && ws[k].ticket != w.ticket
      && ws[1..][k - 1] == ws[k]
      && cells1[ws[k].ticket] == cells[ws[k].ticket]
      && AllTicketsIn(ws[1..], cells1) && Distinct(Tickets(ws[1..]))
      && ReachedBy(ws[1..], cells1, item, k - 1)
      && Offer(ws, cells, item) == OfferResult((if tr.stop then [] else [w]) + rr.kept, rr.cells, rr.consumed)
  {
    var w := ws[0];
    var tr := TryHandler(item, w.handler, CellOf(cells, w.ticket));
    var cells1 := cells[w.ticket := tr.cell];
    assert Tickets(ws[1..]) == Tickets(ws)[1..];
    assert ws[k].ticket != w.ticket by { assert Tickets(ws)[0] != Tickets(ws)[k]; }
    assert !tr.removeItem by { assert !(CellOf(cells, ws[0].ticket).Pending? && ws[0].handler(item).removeItem); }
    forall j | 0 <= j < k - 1
      ensures !(CellOf(cells1, ws[1..][j].ticket).Pending? && ws[1..][j].handler(item).removeItem)
    {
      assert ws[1..][j] == ws[j + 1];
      assert Tickets(ws)[0] != Tickets(ws)[j + 1];
    }
  }

  /**
   * Add's handlers are offered the item in registration order: a pending
   * handler reached before any handler consumed the item, and that stops on
   * it, gets its cell completed with the item and leaves the handler list.
   */
  lemma {:induction false} OfferCompletesStoppingHandler<T>(ws: seq<Waiter<T>>, cells: map<nat, Settlement<T>>, item: T, k: nat)
    requires AllTicketsIn(ws, cells) && Distinct(Tickets(ws))
    requires k < |ws| && ReachedBy(ws, cells, item, k)
    requires cells[ws[k].ticket].Pending? && ws[k].handler(item).stop
    ensures Offer(ws, cells, item).cells.Keys == cells.Keys
    ensures var r := Offer(ws, cells, item);
      r.cells[ws[k].ticket] == Value(item) && ws[k].ticket !in Tickets(r.kept)
    decreases |ws|
  {
    OfferKeys(ws, cells, item);
    if k == 0 {
      OfferFirstSettled(ws, cells, item);
    } else {
      var w := ws[0];
      var tr := TryHandler(item, w.handler, CellOf(cells, w.ticket));
      var cells1 := cells[w.ticket := tr.cell];
      OfferPastReached(ws, cells, item, k);
      OfferCompletesStoppingHandler(ws[1..], cells1, item, k - 1);
      TicketsAppend(if tr.stop then [] else [w], Offer(ws[1..], cells1, item).kept);
    }
  }

  /**
   * A handler whose cell was already completed (cancelled or timed out), and
   * which Add reaches, is dropped from the list; it is not invoked and its
   * cell keeps its settlement.
   */
  lemma {:induction false} OfferDropsCompletedHandler<T>(ws: seq<Waiter<T>>, cells: map<nat, Settlement<T>>, item: T, k: nat)
    requires AllTicketsIn(ws, cells) && Distinct(Tickets(ws))
    requires k < |ws| && ReachedBy(ws, cells, item, k)
    requires !cells[ws[k].ticket].Pending?
    ensures Offer(ws, cells, item).cells.Keys == cells.Keys
    ensures var r := Offer(ws, cells, item);
      r.cells[ws[k].ticket] == cells[ws[k].ticket] && ws[k].ticket !in Tickets(r.kept)
    decreases |ws|
  {
    OfferKeys(ws, cells, item);
    if k == 0 {
      OfferFirstSettled(ws, cells, item);
    } else {
      var w := ws[0];
      var tr := TryHandler(item, w.handler, CellOf(cells, w.ticket));
      var cells1 := cells[w.ticket := tr.cell];
      OfferPastReached(ws, cells, item, k);
      OfferDropsCompletedHandler(ws[1..], cells1, item, k - 1);
      TicketsAppend(if tr.stop then [] else [w], Offer(ws[1..], cells1, item).kept);
    }
  }

  /**
   * A pending handler that does not stop on the item stays registered with a
   * pending cell, wherever it sits in the list.
   */
  lemma {:induction false} OfferKeepsDecliningHandler<T>(ws: seq<Waiter<T>>, cells: map<nat, Settlement<T>>, item: T, k: nat)
    requires AllTicketsIn(ws, cells) && Distinct(Tickets(ws))
    requires k < |ws| && cells[ws[k].ticket].Pending? && !ws[k].handler(item).stop
    ensures Offer(ws, cells, item).cells.Keys == cells.Keys
    ensures var r := Offer(ws, cells, item);
      r.cells[ws[k].ticket].Pending? && ws[k].ticket in Tickets(r.kept)
  {
    var r := Offer(ws, cells, item);
    OfferFrame(ws, cells, item);
    assert ws[k].ticket in Tickets(ws) by { assert Tickets(ws)[k] == ws[k].ticket; }
    OfferCellOfDeclining(ws, cells, item, k);
  }

  lemma {:induction false} OfferCellOfDeclining<T>(ws: seq<Waiter<T>>, cells: map<nat, Settlement<T>>, item: T, k: nat)
    requires AllTicketsIn(ws, cells) && Distinct(Tickets(ws))
    requires k < |ws| && cells[ws[k].ticket].Pending? && !ws[k].handler(item).stop
    ensures Offer(ws, cells, item).cells.Keys == cells.Keys
    ensures Offer(ws, cells, item).cells[ws[k].ticket].Pending?
    decreases |ws|
  {
    OfferFrame(ws, cells, item);
    var w := ws[0];
    var tr := TryHandler(item, w.handler, CellOf(cells, w.ticket));
    var cells1 := cells[w.ticket := tr.cell];
    assert Tickets(ws[1..]) == Tickets(ws)[1..];
    if k == 0 {
      if !tr.removeItem {
        OfferFrame(ws[1..], cells1, item);
        assert w.ticket !in Tickets(ws[1..]);
      }
    } else {
      assert ws[k].ticket != w.ticket by { assert Tickets(ws)[0] != Tickets(ws)[k]; }
      assert ws[1..][k - 1] == ws[k];
      if !tr.removeItem {
        OfferCellOfDeclining(ws[1..], cells1, item, k - 1);
      }
    }
  }

  /**
   * Add stores the item exactly when no pending handler asks for it to be
   * removed.
   */
  lemma {:induction false} OfferConsumedIff<T>(ws: seq<Waiter<T>>, cells: map<nat, Settlement<T>>, item: T)
    requires AllTicketsIn(ws, cells) && Distinct(Tickets(ws))
    ensures Offer(ws, cells, item).consumed <==>
      exists k :: 0 <= k < |ws| && cells[ws[k].ticket].Pending? && ws[k].handler(item).removeItem
    decreases |ws|
  {
    if ws != [] {
      var w := ws[0];
      var tr := TryHandler(item, w.handler, CellOf(cells, w.ticket));
      var cells1 := cells[w.ticket := tr.cell];
      assert Tickets(ws[1..]) == Tickets(ws)[1..];
      if tr.removeItem {
        assert cells[ws[0].ticket].Pending? && ws[0].handler(item).removeItem;
      } else {
        OfferConsumedIff(ws[1..], cells1, item);
        var P := (k: int) => 0 <= k < |ws| && cells[ws[k].ticket].Pending? && ws[k].handler(item).removeItem;
        forall k | 0 < k < |ws|
          ensures cells1[ws[k].ticket].Pending? == cells[ws[k].ticket].Pending?
        {
          assert Tickets(ws)[0] != Tickets(ws)[k];
        }
        if Offer(ws, cells, item).consumed {
          var k' :| 0 <= k' < |ws[1..]| && cells1[ws[1..][k'].ticket].Pending? && ws[1..][k'].handler(item).removeItem;
          assert ws[1..][k'] == ws[k' + 1];
        }
        if exists k :: 0 <= k < |ws| && cells[ws[k].ticket].Pending? && ws[k].handler(item).removeItem {
          var k :| 0 <= k < |ws| && cells[ws[k].ticket].Pending? && ws[k].handler(item).removeItem;
          assert k != 0;
          assert ws[1..][k - 1] == ws[k];
        }
      }
    }
  }

  // ---------------------------------------------------------------------------
  // Properties of HandleAsync

  /**
   * With a pending cell, the scan completes the cell with the first stored item
   * on which the handler stops; when no item stops it, the cell stays pending
   * and the handler is to be registered.
   */
  lemma {:induction false} ScanFindsFirstStop<T>(items: seq<T>, handler: T -> Verdict, k: nat)
    requires k < |items| && handler(items[k]).stop
    requires forall j :: 0 <= j < k ==> !handler(items[j]).stop
    ensures var r := Scan(items, handler, Pending);
      r.stopped && r.cell == Value(items[k]) && r.rest == Unremoved(items[..k + 1], handler) + items[k + 1..]
    decreases |items|
  {
    var tr := TryHandler(items[0], handler, Pending);
    if k == 0 {
      assert items[..1] == [items[0]];
      assert Unremoved(items[..1], handler) == (if handler(items[0]).removeItem then [] else [items[0]]) + Unremoved([], handler);
    } else {
      assert items[1..][k - 1] == items[k];
      ScanFindsFirstStop(items[1..], handler, k - 1);
      assert items[..k + 1][1..] == items[1..][..k];
      assert items[1..][k..] == items[k + 1..];
    }
  }

  /** With a pending cell and no stopping item, every item marked for removal is removed. */
  lemma {:induction false} ScanWithoutStop<T>(items: seq<T>, handler: T -> Verdict)
    requires forall j :: 0 <= j < |items| ==> !handler(items[j]).stop
    ensures var r := Scan(items, handler, Pending);
      !r.stopped && r.cell == Pending && r.rest == Unremoved(items, handler)
    decreases |items|
  {
    if items != [] {
      assert forall j :: 0 <= j < |items[1..]| ==> items[1..][j] == items[j + 1];
      ScanWithoutStop(items[1..], handler);
    }
  }

  /**
   * A handler whose cell was completed before the scan (its token had already
   * fired) stops at the first stored item without removing anything; with no
   * stored item it is registered.
   */
  lemma ScanWithCompletedCell<T>(items: seq<T>, handler: T -> Verdict, cell: Settlement<T>)
    requires !cell.Pending?
    ensures var r := Scan(items, handler, cell);
      r.rest == items && r.cell == cell && r.stopped == (items != [])
  {
    if items != [] {
      assert [items[0]] + items[1..] == items;
    }
  }

  /** The default handler takes the first stored item and removes it (FIFO). */
  lemma DefaultHandlerTakesFirst<T>(items: seq<T>)
    requires items != []
    ensures Scan(items, DefaultHandler, Pending) == ScanResult(items[1..], Value(items[0]), true)
  {
  }

  /** The scan completes its cell only from pending and stops exactly when the cell is completed. */
  lemma {:induction false} ScanSettles<T>(items: seq<T>, handler: T -> Verdict, cell: Settlement<T>)
    ensures var r := Scan(items, handler, cell);
      (r.stopped <==> !r.cell.Pending?) || (!r.stopped && r.cell == cell)
    ensures var r := Scan(items, handler, cell);
      !r.stopped ==> r.cell == cell
    ensures var r := Scan(items, handler, cell);
      !cell.Pending? ==> r.cell == cell
    decreases |items|
  {
    if items != [] {
      var tr := TryHandler(items[0], handler, cell);
      if !tr.stop {
        ScanSettles(items[1..], handler, tr.cell);
      }
    }
  }

  // ---------------------------------------------------------------------------
  // The collection

  /** The state of Add's loop: `seen` holds the waiters already passed over,
      `rest` those not yet reached; `R` is the outcome of the whole offer. */
  ghost predicate OfferInv<T>(R: OfferResult<T>, seen: seq<Waiter<T>>, rest: seq<Waiter<T>>,
                              cells: map<nat, Settlement<T>>, item: T, consumed: bool)
  {
    && (consumed ==> R == OfferResult(seen + rest, cells, true))
    && (!consumed ==>
          var r := Offer(rest, cells, item);
          R == OfferResult(seen + r.kept, r.cells, r.consumed))
  }

  lemma OfferInvStep<T>(R: OfferResult<T>, seen: seq<Waiter<T>>, rest: seq<Waiter<T>>,
                        cells: map<nat, Settlement<T>>, item: T)
    requires rest != [] && OfferInv(R, seen, rest, cells, item, false)
    ensures var w := rest[0];
      var tr := TryHandler(item, w.handler, CellOf(cells, w.ticket));
      OfferInv(R, seen + (if tr.stop then [] else [w]), rest[1..], cells[w.ticket := tr.cell], item, tr.removeItem)
  {
    var w := rest[0];
    var tr := TryHandler(item, w.handler, CellOf(cells, w.ticket));
    var head := if tr.stop then [] else [w];
    var r1 := Offer(rest[1..], cells[w.ticket := tr.cell], item);
    assert seen + (head + r1.kept) == (seen + head) + r1.kept;
    assert seen + (head + rest[1..]) == (seen + head) + rest[1..];
  }

  /** The loop of Add: offers `item` to the waiters in order (see Offer). */
  method RunOffer<T>(ws: seq<Waiter<T>>, cells: map<nat, Settlement<T>>, item: T)
    returns (kept: seq<Waiter<T>>, cells1: map<nat, Settlement<T>>, consumed: bool)
    ensures OfferResult(kept, cells1, consumed) == Offer(ws, cells, item)
  {
    ghost var R := Offer(ws, cells, item);
    var seen: seq<Waiter<T>> := [];
    var rest := ws;
    cells1, consumed := cells, false;
    assert [] + ws == ws;
    while !consumed && rest != []
      invariant OfferInv(R, seen, rest, cells1, item, consumed)
      decreases |rest|
    {
      OfferInvStep(R, seen, rest, cells1, item);
      var w := rest[0];
      var tr := TryHandler(item, w.handler, CellOf(cells1, w.ticket));
      cells1 := cells1[w.ticket := tr.cell];
      consumed := tr.removeItem;
      seen := seen + (if tr.stop then [] else [w]);
      rest := rest[1..];
    }
    kept := seen + rest;
    if !consumed {
      assert seen + [] == seen;
    }
  }

  /** The state of HandleAsync's loop over the stored items: the first `i`
      items are those already passed over and kept; `S` is the outcome of
      the whole scan. */
  ghost predicate ScanInv<T>(S: ScanResult<T>, rest: seq<T>, i: nat, handler: T -> Verdict,
                             cell: Settlement<T>, stopped: bool)
  {
    && i <= |rest|
    && (stopped ==> S == ScanResult(rest, cell, true))
    && (!stopped ==>
          var sr := Scan(rest[i..], handler, cell);
          S == ScanResult(rest[..i] + sr.rest, sr.cell, sr.stopped))
  }

  lemma ScanInvStep<T>(S: ScanResult<T>, rest: seq<T>, i: nat, handler: T -> Verdict, cell: Settlement<T>)
    requires i < |rest| && ScanInv(S, rest, i, handler, cell, false)
    ensures var tr := TryHandler(rest[i], handler, cell);
      if tr.removeItem then ScanInv(S, rest[..i] + rest[i + 1..], i, handler, tr.cell, tr.stop)
      else ScanInv(S, rest, i + 1, handler, tr.cell, tr.stop)
  {
    ScanAt(rest, i, handler, cell);
    if TryHandler(rest[i], handler, cell).removeItem {
      ScanInvRemove(S, rest, i, handler, cell);
    } else {
      ScanInvKeep(S, rest, i, handler, cell);
    }
  }

  /** Scan of the unseen items, unfolded once. */
  lemma ScanAt<T>(rest: seq<T>, i: nat, handler: T -> Verdict, cell: Settlement<T>)
    requires i < |rest|
    ensures var tr := TryHandler(rest[i], handler, cell);
      var head := if tr.removeItem then [] else [rest[i]];
      Scan(rest[i..], handler, cell)
        == if tr.stop then ScanResult(head + rest[i + 1..], tr.cell, true)
           else var r := Scan(rest[i + 1..], handler, tr.cell); ScanResult(head + r.rest, r.cell, r.stopped)
  {
    assert rest[i..][0] == rest[i] && rest[i..][1..] == rest[i + 1..];
  }

  lemma ScanInvRemove<T>(S: ScanResult<T>, rest: seq<T>, i: nat, handler: T -> Verdict, cell: Settlement<T>)
    requires i < |rest| && ScanInv(S, rest, i, handler, cell, false)
    requires TryHandler(rest[i], handler, cell).removeItem
    requires var tr := TryHandler(rest[i], handler, cell);
      Scan(rest[i..], handler, cell)
        == if tr.stop then ScanResult(rest[i + 1..], tr.cell, true) else Scan(rest[i + 1..], handler, tr.cell)
    ensures var tr := TryHandler(rest[i], handler, cell);
      ScanInv(S, rest[..i] + rest[i + 1..], i, handler, tr.cell, tr.stop)
  {
    var rest' := rest[..i] + rest[i + 1..];
    assert rest'[..i] == rest[..i] && rest'[i..] == rest[i + 1..];
  }

  lemma ScanInvKeep<T>(S: ScanResult<T>, rest: seq<T>, i: nat, handler: T -> Verdict, cell: Settlement<T>)
    requires i < |rest| && ScanInv(S, rest, i, handler, cell, false)
    requires !TryHandler(rest[i], handler, cell).removeItem
    requires var tr := TryHandler(rest[i], handler, cell);
      Scan(rest[i..], handler, cell)
        == if tr.stop then ScanResult([rest[i]] + rest[i + 1..], tr.cell, true)
           else var r := Scan(rest[i + 1..], handler, tr.cell); ScanResult([rest[i]] + r.rest, r.cell, r.stopped)
    ensures var tr := TryHandler(rest[i], handler, cell);
      ScanInv(S, rest, i + 1, handler, tr.cell, tr.stop)
  {
    var x := rest[i];
    assert rest[..i + 1] == rest[..i] + [x];
    if TryHandler(x, handler, cell).stop {
      assert rest[..i] + ([x] + rest[i + 1..]) == rest;
    } else {
      var r := Scan(rest[i + 1..], handler, TryHandler(x, handler, cell).cell);
      assert rest[..i] + ([x] + r.rest) == rest[..i + 1] + r.rest;
    }
  }

  /** The loop of HandleAsync: offers the stored items in order to one handler (see Scan). */
  method RunScan<T>(items: seq<T>, handler: T -> Verdict, cell: Settlement<T>)
    returns (rest: seq<T>, cell1: Settlement<T>, stopped: bool)
    ensures ScanResult(rest, cell1, stopped) == Scan(items, handler, cell)
  {
    ghost var S := Scan(items, handler, cell);
    rest, cell1, stopped := items, cell, false;
    var i := 0;
    assert items[..0] + Scan(items[0..], handler, cell).rest == Scan(items, handler, cell).rest;
    while !stopped && i < |rest|
      invariant ScanInv(S, rest, i, handler, cell1, stopped)
      decreases |rest| - i
    {
      ScanInvStep(S, rest, i, handler, cell1);
      var tr := TryHandler(rest[i], handler, cell1);
      cell1 := tr.cell;
      stopped := tr.stop;
      if tr.removeItem {
        rest := rest[..i] + rest[i + 1..];
      } else {
        i := i + 1;
      }
    }
    if !stopped {
      assert rest[i..] == [];
      assert rest[..i] == rest;
    }
  }

  /**
   * The collection's bookkeeping: every cell has its token's exception, every
   * ticket was handed out, every pending handler has a cell, tickets are not
   * reused, and a cell still pending belongs to a registered handler.
   */
  ghost predicate Consistent<T>(handlers: seq<Waiter<T>>, cells: map<nat, Settlement<T>>,
                                onToken: map<nat, Error>, nextTicket: nat)
  {
    && cells.Keys == onToken.Keys
    && (forall t :: t in cells ==> t < nextTicket)
    && AllTicketsIn(handlers, cells)
    && Distinct(Tickets(handlers))
    && (forall t :: t in cells && cells[t].Pending? ==> t in Tickets(handlers))
  }

  /** Add keeps the bookkeeping and completes cells only from pending. */
  lemma OfferConsistent<T>(ws: seq<Waiter<T>>, cells: map<nat, Settlement<T>>,
                           onToken: map<nat, Error>, n: nat, item: T)
    requires Consistent(ws, cells, onToken, n)
    ensures var r := Offer(ws, cells, item);
      Consistent(r.kept, r.cells, onToken, n) && SettlesOnce(cells, r.cells)
  {
    var r := Offer(ws, cells, item);
    OfferFrame(ws, cells, item);
    SubsequenceDistinct(Tickets(r.kept), Tickets(ws));
    SubsequenceMembers(Tickets(r.kept), Tickets(ws));
    forall k | 0 <= k < |r.kept| ensures r.kept[k].ticket in r.cells {
      assert Tickets(r.kept)[k] in Tickets(ws);
    }
  }

  /** Registering a new ticket after a scan keeps the bookkeeping: the cell
      is pending only if the handler is registered. */
  lemma RegisterConsistent<T>(ws: seq<Waiter<T>>, cells: map<nat, Settlement<T>>,
                              onToken: map<nat, Error>, n: nat, handler: T -> Verdict,
                              cell: Settlement<T>, tokenError: Error, stop: bool)
    requires Consistent(ws, cells, onToken, n)
    requires stop ==> !cell.Pending?
    ensures var ws' := ws + (if stop then [] else [Waiter(n, handler)]);
      && Consistent(ws', cells[n := cell], onToken[n := tokenError], n + 1)
      && SettlesOnce(cells, cells[n := cell])
      && n !in cells
  {
    var ws' := ws + (if stop then [] else [Waiter(n, handler)]);
    assert Tickets(ws') == Tickets(ws) + (if stop then [] else [n]);
    assert n !in Tickets(ws);
  }

  class HandleableCollection<T> {
    /** The stored items, in insertion order (`_items`). */
    var items: seq<T>
    /** The pending handlers, in registration order (`_handlers`). */
    var handlers: seq<Waiter<T>>
    /** Every completion cell handed out so far, by ticket. */
    var cells: map<nat, Settlement<T>>
    /** The exception each cell receives when its caller's token fires: TimeoutException
        for Handle, a cancellation for HandleAsync. */
    var onToken: map<nat, Error>
    var nextTicket: nat
    var disposed: bool
    /** Items this collection has disposed, in the order it disposed them. */
    var released: seq<T>
    /** Which items are IDisposable. */
    const disposable: T -> bool

    ghost predicate Valid()
      reads this
    {
      && Consistent(handlers, cells, onToken, nextTicket)
      && (disposed ==> items == [] && handlers == [])
    }

    constructor (disposable: T -> bool)
      ensures Valid()
      ensures items == [] && handlers == [] && cells == map[] && !disposed && released == []
      ensures this.disposable == disposable
    {
      items := [];
      handlers := [];
      cells := map[];
      onToken := map[];
      nextTicket := 0;
      disposed := false;
      released := [];
      this.disposable := disposable;
    }

    /** VerifyNotDisposed: ObjectDisposedException once disposed. */
    function VerifyNotDisposed(): (s: Status)
      reads this
      ensures s == Ok <==> !disposed
      ensures s.Fail? ==> s.error == ObjectDisposed
    {
      if disposed then Fail(ObjectDisposed) else Ok
    }

    /** What awaiting the ticket's task yields once it has completed; None while pending. */
    function Outcome(t: nat): (r: Option<Result<T>>)
      reads this
      ensures r.None? <==> (t !in cells || cells[t].Pending?)
      ensures t in cells && cells[t].Value? ==> r == Some(Success(cells[t].item))
      ensures t in cells && cells[t].Faulted? ==> r == Some(Failure(cells[t].error))
    {
      if t !in cells then None
      else match cells[t]
        case Pending => None
        case Value(x) => Some(Success(x))
        case Faulted(e) => Some(Failure(e))
    }

    /** Enumeration: a copy of the stored items; the collection is unchanged. */
    method Snapshot() returns (r: Result<seq<T>>)
      ensures disposed ==> r == Failure(ObjectDisposed)
      ensures !disposed ==> r == Success(items)
    {
      if disposed {
        return Failure(ObjectDisposed);
      }
      r := Success(items);
    }

    /**
     * Add: offer the item to the pending handlers (see Offer) and store it
     * unless a handler consumed it.
     */
    method Add(item: T) returns (s: Status)
      requires Valid()
      modifies this
      ensures Valid()
      ensures s == old(VerifyNotDisposed())
      ensures old(disposed) ==> items == old(items) && handlers == old(handlers) && cells == old(cells)
      ensures !old(disposed) ==>
        var r := Offer(old(handlers), old(cells), item);
        && handlers == r.kept && cells == r.cells
        && items == (if r.consumed then old(items) else old(items) + [item])
      ensures SettlesOnce(old(cells), cells)
      ensures disposed == old(disposed) && released == old(released)
      ensures onToken == old(onToken) && nextTicket == old(nextTicket)
    {
      s := VerifyNotDisposed();
      if s.Fail? {
        return;
      }
      OfferConsistent(handlers, cells, onToken, nextTicket, item);
      var hs, cs, handled := RunOffer(handlers, cells, item);
      handlers, cells := hs, cs;
      if !handled {
        items := items + [item];
      }
    }

    /**
     * The private HandleAsync core: a fresh cell is created (already faulted
     * when the caller's token has fired), the stored items are scanned (see
     * Scan), and the handler is registered only if no item stopped it. The
     * ticket names the task that is returned.
     */
    method HandleCore(handler: T -> Verdict, tokenError: Error, tokenFired: bool) returns (r: Result<nat>)
      requires Valid()
      modifies this
      ensures Valid()
      ensures old(disposed) ==>
        && r == Failure(ObjectDisposed) && items == old(items)
        && handlers == old(handlers) && cells == old(cells) && nextTicket == old(nextTicket)
      ensures !old(disposed) ==>
        var t := old(nextTicket);
        var S := Scan(old(items), handler, if tokenFired then Faulted(tokenError) else Pending);
        && r == Success(t) && t !in old(cells)
        && items == S.rest
        && cells == old(cells)[t := S.cell]
        && onToken == old(onToken)[t := tokenError]
        && handlers == old(handlers) + (if S.stopped then [] else [Waiter(t, handler)])
        && nextTicket == t + 1
      ensures SettlesOnce(old(cells), cells)
      ensures disposed == old(disposed) && released == old(released)
    {
      if disposed {
        return Failure(ObjectDisposed);
      }
      var cell: Settlement<T> := if tokenFired then Faulted(tokenError) else Pending;
      ScanSettles(items, handler, cell);
      var its, stop;
      its, cell, stop := RunScan(items, handler, cell);
      RegisterConsistent(handlers, cells, onToken, nextTicket, handler, cell, tokenError, stop);
      items := its;
      var t := nextTicket;
      nextTicket := nextTicket + 1;
      cells := cells[t := cell];
      onToken := onToken[t := tokenError];
      if !stop {
        handlers := handlers + [Waiter(t, handler)];
      }
      r := Success(t);
    }

    /** Handle(handler, timeout): the core with a timeout token; `timeoutElapsed` says the
        timeout had already passed when the call registered its token. */
    method Handle(handler: T -> Verdict, timeoutElapsed: bool) returns (r: Result<nat>)
      requires Valid()
      modifies this
      ensures Valid()
      ensures old(disposed) ==>
        && r == Failure(ObjectDisposed) && items == old(items)
        && handlers == old(handlers) && cells == old(cells) && nextTicket == old(nextTicket)
      ensures !old(disposed) ==>
        var t := old(nextTicket);
        var S := Scan(old(items), handler, if timeoutElapsed then Faulted(TimeoutError) else Pending);
        && r == Success(t) && t !in old(cells)
        && items == S.rest
        && cells == old(cells)[t := S.cell]
        && onToken == old(onToken)[t := TimeoutError]
        && handlers == old(handlers) + (if S.stopped then [] else [Waiter(t, handler)])
        && nextTicket == t + 1
      ensures SettlesOnce(old(cells), cells)
      ensures disposed == old(disposed) && released == old(released)
    {
      r := HandleCore(handler, TimeoutError, timeoutElapsed);
    }

    /** HandleAsync(handler, token): the core with a cancellation token. */
    method HandleAsync(handler: T -> Verdict, cancelled: bool) returns (r: Result<nat>)
      requires Valid()
      modifies this
      ensures Valid()
      ensures old(disposed) ==>
        && r == Failure(ObjectDisposed) && items == old(items)
        && handlers == old(handlers) && cells == old(cells) && nextTicket == old(nextTicket)
      ensures !old(disposed) ==>
        var t := old(nextTicket);
        var S := Scan(old(items), handler, if cancelled then Faulted(Cancelled) else Pending);
        && r == Success(t) && t !in old(cells)
        && items == S.rest
        && cells == old(cells)[t := S.cell]
        && onToken == old(onToken)[t := Cancelled]
        && handlers == old(handlers) + (if S.stopped then [] else [Waiter(t, handler)])
        && nextTicket == t + 1
      ensures SettlesOnce(old(cells), cells)
      ensures disposed == old(disposed) && released == old(released)
    {
      r := HandleCore(handler, Cancelled, cancelled);
    }

    /**
     * The caller's token fires (a timeout elapses or a cancellation is
     * requested): a still-pending cell is faulted; a completed cell is left
     * alone. The handler stays in the list until the next Add drops it.
     */
    method FireToken(t: nat)
      requires Valid()
      modifies this
      ensures Valid()
      ensures t in old(cells) && old(cells)[t].Pending? ==> cells == old(cells)[t := Faulted(old(onToken)[t])]
      ensures !(t in old(cells) && old(cells)[t].Pending?) ==> cells == old(cells)
      ensures items == old(items) && handlers == old(handlers) && onToken == old(onToken)
      ensures disposed == old(disposed) && released == old(released) && nextTicket == old(nextTicket)
    {
      if t in cells && cells[t].Pending? {
        cells := cells[t := Faulted(onToken[t])];
      }
    }

    /** Clear: empty the stored items and dispose the disposable ones. */
    method Clear() returns (s: Status)
      requires Valid()
      modifies this
      ensures Valid()
      ensures s == old(VerifyNotDisposed())
      ensures old(disposed) ==> items == old(items) && released == old(released)
      ensures !old(disposed) ==> items == [] && released == old(released) + Disposables(old(items), disposable)
      ensures handlers == old(handlers) && cells == old(cells) && disposed == old(disposed)
      ensures onToken == old(onToken) && nextTicket == old(nextTicket)
    {
      s := VerifyNotDisposed();
      if s.Fail? {
        return;
      }
      released := released + Disposables(items, disposable);
      items := [];
    }

    /**
     * Dispose: the first call faults every pending cell with
     * ObjectDisposedException, disposes the disposable items and empties both
     * lists; later calls do nothing.
     */
    method Dispose()
      requires Valid()
      modifies this
      ensures Valid() && disposed
      ensures old(disposed) ==>
        && items == old(items) && handlers == old(handlers)
        && cells == old(cells) && released == old(released)
      ensures !old(disposed) ==>
        && items == [] && handlers == []
        && cells == DisposeCells(old(cells))
        && released == old(released) + Disposables(old(items), disposable)
      ensures forall t :: t in cells ==> !cells[t].Pending?
      ensures SettlesOnce(old(cells), cells)
    {
      if disposed {
        return;
      }
      disposed := true;
      cells := DisposeCells(cells);
      released := released + Disposables(items, disposable);
      items := [];
      handlers := [];
    }
  }
}
