# Reversed diagnostics server — a Dafny model

This project models the core of the .NET diagnostics client's **reversed
diagnostics server**. Runtime instances connect inward to the server, and
each one is identified by its runtime instance cookie, a GUID. The server
hands the streams they open to callers that wait for them.

The model has one Dafny module per source file:

- `Handleable` (handleable_collection.dfy) models `HandleableCollection<T>`,
  the generic matching primitive.
  - It keeps a list of buffered items and a list of pending handlers.
  - Each handler has a single-assignment completion cell.
  - `Add` offers an item to the pending handlers. `Handle`/`HandleAsync`
    scan the buffered items and register the handler if nothing stopped it.
  - `Clear`, `Dispose` and the copy-based enumeration complete the surface.
- `ReversedServer` (reversed_server.dfy) models `ReversedDiagnosticsServer`:
  - the registry of endpoints by cookie (`AcceptAsync`, `RemoveConnection`);
  - the per-cookie cached streams and the global handler list
    (`ProvideStream`, `RunStreamHandlers`, `RegisterHandler`);
  - the handlers installed by `Connect` and `WaitForConnectionAsync`;
  - the disposed-state guard and `Dispose`.
- `IpcTransport` (ipc_transport.dfy) models the older per-endpoint hand-off
  (`BaseIpcEndpoint`, `StreamTarget`, `ServerIpcEndpoint.SetStream`). Targets
  wait in a FIFO queue, and the endpoint holds a single cached stream.
- `IpcCommands` (ipc_commands.dfy) models the command-set, command-id and
  response-id byte codes, with the header pair they form.
- `ProcessMonitor` (process_monitor.dfy) models one polling step of
  dotnet-dtracer's process monitor.
- `TraceArguments` and `TraceCorrelator` model dotnet-dtracer's activity
  correlator. TraceArguments scans argument payloads and parses ticks.
  TraceCorrelator maintains the table of open activities and prunes it.
- `ConnectionsSource` (connections_source.dfy) models the lifecycle of
  `ReversedServerConnectionsSource`: listen once, prune on query, dispose.
- `Common` (common.dfy) holds Option/Result, the exceptions as an `Error`
  datatype, and sequence helpers.

Streams are opaque ids. Each component records the streams it disposed in a
set, so "the superseded stream is disposed" is a statement about that set.

Several things outside the code become parameters:

- The liveness probe `TestStream` (socket send / `PeekNamedPipe`) is a
  function `isLive` on stream ids.
- Waiting is replaced by completion cells that hold a settled value.
- Timeouts and cancellation tokens are inputs that settle a cell.
- The transport's accepted connections are an input sequence of events.
- The clock used by the prune is a parameter `now`, in ticks.
- The current port list of the process monitor is a parameter.

Loops in the source that update a list or a field are `while`/`for` loops in
Dafny. Each is proved equal to a recursive function (`Offer`, `Scan`,
`RunHandlers`, `Passing`, `Present`, `Fresh`, …). The properties the source
promises are lemmas about those functions. The `foreach` loops that only
dispose every element of a collection are the recursive functions
`Disposables`, `DisposeCells` and `DisposeValuesAsWritten`, with no loop
beside them. These are the loops at
src/Microsoft.Diagnostics.NETCore.Client/HandleableCollection.cs lines 84
and 256, and at
src/Microsoft.Diagnostics.NETCore.Client/ReversedServer/ReversedDiagnosticsServer.cs
lines 80-83.

Nine defects are recorded under "## Findings". In each case the model
contains the code as written next to the corrected version, and the rest of
the model uses the corrected version.

## Model

| member | source | states |
|---|---|---|
| Handleable.DefaultHandler | src/Microsoft.Diagnostics.NETCore.Client/HandleableCollection.cs:27 | The default handler stops on the first item it sees and asks for that item's removal. |
| Handleable.TryHandler | src/Microsoft.Diagnostics.NETCore.Client/HandleableCollection.cs:227-242 | If the cell is already completed, the handler stops without being called, removes nothing and leaves the cell as it was. Otherwise the handler's verdict is returned and the cell is completed with the item exactly when it stops. |
| Handleable.OfferKeepsOrder | src/Microsoft.Diagnostics.NETCore.Client/HandleableCollection.cs:110-119 | After Add, the handlers still pending are a subsequence of the old list, so registration order is kept. |
| Handleable.OfferSettlesOnce | src/Microsoft.Diagnostics.NETCore.Client/HandleableCollection.cs:235-239 | Add changes no cell except by completing a pending one with the offered item. Cells of handlers not in the list are untouched. |
| Handleable.OfferKeepsPending | src/Microsoft.Diagnostics.NETCore.Client/HandleableCollection.cs:110-119 | Every listed handler whose cell is still pending after Add is still in the handler list. |
| Handleable.OfferCompletesStoppingHandler | src/Microsoft.Diagnostics.NETCore.Client/HandleableCollection.cs:110-118 | A pending handler reached before any removeItem, which stops on the item, has its cell completed with that item and leaves the list. |
| Handleable.OfferDropsCompletedHandler | src/Microsoft.Diagnostics.NETCore.Client/HandleableCollection.cs:229-233 | A reached handler whose cell was already settled (timed out, cancelled) leaves the list and keeps its settlement. |
| Handleable.OfferKeepsDecliningHandler | src/Microsoft.Diagnostics.NETCore.Client/HandleableCollection.cs:110-119 | A pending handler that does not stop on the item stays pending and stays in the list. |
| Handleable.OfferConsumedIff | src/Microsoft.Diagnostics.NETCore.Client/HandleableCollection.cs:109-124 | Add keeps the item out of storage if and only if some pending handler asks for its removal. |
| Handleable.ScanFindsFirstStop | src/Microsoft.Diagnostics.NETCore.Client/HandleableCollection.cs:199-210 | If the handler first stops at item k, the scan completes the cell with item k. The items up to k lose those marked for removal, and the items after k are untouched. |
| Handleable.ScanWithoutStop | src/Microsoft.Diagnostics.NETCore.Client/HandleableCollection.cs:199-215 | If the handler stops on no item, the cell stays pending and only the items it marks for removal are dropped. |
| Handleable.ScanWithCompletedCell | src/Microsoft.Diagnostics.NETCore.Client/HandleableCollection.cs:229-233 | A handler whose cell is already settled leaves every stored item in place and its cell unchanged. |
| Handleable.DefaultHandlerTakesFirst | src/Microsoft.Diagnostics.NETCore.Client/HandleableCollection.cs:134 | With the default handler, a non-empty collection yields its first item and drops only that item (FIFO). |
| Handleable.ScanSettles | src/Microsoft.Diagnostics.NETCore.Client/HandleableCollection.cs:198-212 | The scan stops exactly when the cell ends up settled, and a scan that does not stop leaves the cell as it was. |
| Handleable.RunOffer | src/Microsoft.Diagnostics.NETCore.Client/HandleableCollection.cs:110-119 | The loop over the handler list, written over the handlers already kept (`seen`, whose length is the source's index) and those still to visit, computes exactly Offer's kept handlers, cells and consumed flag. A removed handler is not added to `seen`. |
| Handleable.RunScan | src/Microsoft.Diagnostics.NETCore.Client/HandleableCollection.cs:198-210 | The index loop with RemoveAt computes exactly Scan's remaining items, cell and stop flag. |
| Handleable.OfferConsistent | src/Microsoft.Diagnostics.NETCore.Client/HandleableCollection.cs:104-126 | Add preserves the bookkeeping: pending handlers have distinct, known, pending cells. No settled cell is changed. |
| Handleable.RegisterConsistent | src/Microsoft.Diagnostics.NETCore.Client/HandleableCollection.cs:212-215 | Registering a fresh cell, and appending its handler when it did not stop, preserves the bookkeeping. |
| Handleable.HandleableCollection.constructor | src/Microsoft.Diagnostics.NETCore.Client/HandleableCollection.cs:29-33 | A new collection has no items, no handlers and no cells, and is not disposed. |
| Handleable.HandleableCollection.VerifyNotDisposed | src/Microsoft.Diagnostics.NETCore.Client/HandleableCollection.cs:265-272 | ObjectDisposedException exactly when the collection is disposed. |
| Handleable.HandleableCollection.Outcome | src/Microsoft.Diagnostics.NETCore.Client/HandleableCollection.cs:218 | An awaited handler call returns its cell's item or throws its cell's exception. While the cell is pending it has no outcome. |
| Handleable.HandleableCollection.Snapshot | src/Microsoft.Diagnostics.NETCore.Client/HandleableCollection.cs:41-50 | Enumeration returns a copy of the items and changes nothing. When disposed it throws ObjectDisposedException. |
| Handleable.HandleableCollection.Add | src/Microsoft.Diagnostics.NETCore.Client/HandleableCollection.cs:104-126 | The new handler list and cells are Offer's. The item is appended exactly when no handler consumed it. Settled cells stay settled. When disposed it throws and changes nothing. |
| Handleable.HandleableCollection.HandleCore | src/Microsoft.Diagnostics.NETCore.Client/HandleableCollection.cs:182-225 | The items become Scan's remainder, and a fresh cell gets Scan's settlement. The handler is appended only if it did not stop. A token that already fired settles the cell first. When disposed it throws and changes nothing. |
| Handleable.HandleableCollection.Handle | src/Microsoft.Diagnostics.NETCore.Client/HandleableCollection.cs:143-159 | HandleCore with a timeout token: the same new state, ticket and frame as HandleCore, where an elapsed timeout settles the cell with TimeoutException and a later timeout is recorded to do so. |
| Handleable.HandleableCollection.HandleAsync | src/Microsoft.Diagnostics.NETCore.Client/HandleableCollection.cs:176-180 | HandleCore with a cancellation token: the same new state, ticket and frame as HandleCore, where a cancelled token settles the cell as cancelled and a later cancellation is recorded to do so. |
| Handleable.HandleableCollection.FireToken | src/Microsoft.Diagnostics.NETCore.Client/HandleableCollection.cs:192 | A firing token settles its cell with its exception only if the cell is still pending. Nothing else changes. |
| Handleable.HandleableCollection.Clear | src/Microsoft.Diagnostics.NETCore.Client/HandleableCollection.cs:247-263 | The items are emptied and every disposable item is disposed. Handlers, cells, token errors and the ticket counter are untouched. When disposed it throws. |
| Handleable.HandleableCollection.Dispose | src/Microsoft.Diagnostics.NETCore.Client/HandleableCollection.cs:75-94 | The first call disposes the disposable items and faults every pending cell with ObjectDisposedException. It empties both lists. A second call changes nothing. |
| ReversedServer.ToInt32 | src/Microsoft.Diagnostics.NETCore.Client/ReversedServer/ReversedDiagnosticsServer.cs:154 | The unchecked cast: the result is the signed 32-bit value congruent to the 64-bit pid, and small pids are unchanged. |
| ReversedServer.CachedAsWritten | src/Microsoft.Diagnostics.NETCore.Client/ReversedServer/ReversedDiagnosticsServer.cs:282 | The dictionary indexer throws KeyNotFoundException exactly for a cookie never cached, and otherwise returns the cached entry. |
| ReversedServer.Cached | src/Microsoft.Diagnostics.NETCore.Client/ReversedServer/ReversedDiagnosticsServer.cs:282 | The intended lookup gives a stream exactly when one is cached for the cookie, and null for an unseen cookie. |
| ReversedServer.FirstLookupThrowsAsWritten | src/Microsoft.Diagnostics.NETCore.Client/ReversedServer/ReversedDiagnosticsServer.cs:359 | The first lookup for any cookie throws as written but yields null as intended. |
| ReversedServer.ConnectStep | src/Microsoft.Diagnostics.NETCore.Client/ReversedServer/ReversedDiagnosticsServer.cs:209-218 | Connect's handler, for its cookie and while its Connect still waits, captures the stream, nulls the caller's reference and completes. |
| ReversedServer.WaitStepAsWritten | src/Microsoft.Diagnostics.NETCore.Client/ReversedServer/ReversedDiagnosticsServer.cs:236-254 | As written, the wait handler disposes and nulls the stream exactly when it tests live. An ignored handler completes and leaves the stream. |
| ReversedServer.WaitStep | src/Microsoft.Diagnostics.NETCore.Client/ReversedServer/ReversedDiagnosticsServer.cs:236-254 | As intended, a live stream stays cached and undisposed, and a dead one is nulled and disposed. The probe result is recorded. |
| ReversedServer.WaitDisposesLiveStreamAsWritten | src/Microsoft.Diagnostics.NETCore.Client/ReversedServer/ReversedDiagnosticsServer.cs:246-251 | A live stream is consumed and disposed as written, but kept as intended. A dead stream does the opposite. |
| ReversedServer.ApplyHandler | src/Microsoft.Diagnostics.NETCore.Client/ReversedServer/ReversedDiagnosticsServer.cs:211-214 | A handler for another cookie declines and changes nothing. A handler for this cookie completes. A handler disposes at most the offered stream and never substitutes another. A Connect handler whose Connect has returned is handled by RunHandlersAsWritten. |
| ReversedServer.RunStream | src/Microsoft.Diagnostics.NETCore.Client/ReversedServer/ReversedDiagnosticsServer.cs:295-308 | A null stream runs no handler. Otherwise only the offered stream can be disposed, and the leftover is that stream or null. |
| ReversedServer.RunKeptFrom | src/Microsoft.Diagnostics.NETCore.Client/ReversedServer/ReversedDiagnosticsServer.cs:295-303 | A run only removes handlers and never adds one. |
| ReversedServer.RunKeepsOthers | src/Microsoft.Diagnostics.NETCore.Client/ReversedServer/ReversedDiagnosticsServer.cs:295-303 | Handlers registered for other cookies stay registered. |
| ReversedServer.RunClearsCookie | src/Microsoft.Diagnostics.NETCore.Client/ReversedServer/ReversedDiagnosticsServer.cs:295-308 | If the stream is left over, no handler for its cookie remains registered. |
| ReversedServer.RunSlotKeys | src/Microsoft.Diagnostics.NETCore.Client/ReversedServer/ReversedDiagnosticsServer.cs:295-303 | A run updates only the captured locals of registered handlers. |
| ReversedServer.RunDistinct | src/Microsoft.Diagnostics.NETCore.Client/ReversedServer/ReversedDiagnosticsServer.cs:295-303 | Handlers that remain keep distinct captured locals. |
| ReversedServer.RunConsumedIff | src/Microsoft.Diagnostics.NETCore.Client/ReversedServer/ReversedDiagnosticsServer.cs:295-308 | The cached entry becomes null if and only if some handler for the cookie consumes the stream. Connect handlers always consume it; live wait handlers consume dead streams. |
| ReversedServer.RunFirstConnectCaptures | src/Microsoft.Diagnostics.NETCore.Client/ReversedServer/ReversedDiagnosticsServer.cs:209-218 | The first Connect handler for the cookie, if no earlier handler consumed the stream, captures it. |
| ReversedServer.RunOthersThenOne | src/Microsoft.Diagnostics.NETCore.Client/ReversedServer/ReversedDiagnosticsServer.cs:358-363 | Running the list after appending a handler, when none of the others is for its cookie, is the same as applying that handler alone. |
| ReversedServer.RunLoop | src/Microsoft.Diagnostics.NETCore.Client/ReversedServer/ReversedDiagnosticsServer.cs:295-303 | The loop over the handler list, written over the handlers already kept (`seen`, whose length is the source's index) and those still to visit, computes exactly RunHandlers' result. A removed handler is not added to `seen`. |
| ReversedServer.Unregister | src/Microsoft.Diagnostics.NETCore.Client/ReversedServer/ReversedDiagnosticsServer.cs:205-225 | Unregistering a Connect's handler removes exactly the handlers with its captured locals and keeps the others. |
| ReversedServer.UnregisterDistinct | src/Microsoft.Diagnostics.NETCore.Client/ReversedServer/ReversedDiagnosticsServer.cs:205-225 | Handlers left after unregistering keep distinct captured locals. |
| ReversedServer.RunLeavesUnlistedSlots | src/Microsoft.Diagnostics.NETCore.Client/ReversedServer/ReversedDiagnosticsServer.cs:295-308 | A run never changes the captured locals of a handler that is not registered, so an unregistered Connect's outcome is final. |
| ReversedServer.RunHandlersAsWritten | src/Microsoft.Diagnostics.NETCore.Client/ReversedServer/ReversedDiagnosticsServer.cs:207-217 | As written, a run that reaches the handler of a Connect that has returned nulls the stream and throws. The stream is then neither cached nor disposed, and that handler stays registered. |
| ReversedServer.RunAsWrittenAgrees | src/Microsoft.Diagnostics.NETCore.Client/ReversedServer/ReversedDiagnosticsServer.cs:295-308 | With no such stale handler for the cookie, the written run is RunHandlers and does not throw. |
| ReversedServer.StaleConnectHandlerThrowsAsWritten | src/Microsoft.Diagnostics.NETCore.Client/ReversedServer/ReversedDiagnosticsServer.cs:207-217 | After a Connect times out, the cookie's next stream throws and is lost as written. With the handler unregistered, that stream is cached. |
| ReversedServer.ConnectOutcomeAsWritten | src/Microsoft.Diagnostics.NETCore.Client/ReversedServer/ReversedDiagnosticsServer.cs:220-225 | As written, Connect throws TimeoutException exactly when a stream was captured, and otherwise returns null. |
| ReversedServer.ConnectOutcome | src/Microsoft.Diagnostics.NETCore.Client/ReversedServer/ReversedDiagnosticsServer.cs:220-225 | As intended, Connect returns the captured stream exactly when there is one, and otherwise throws TimeoutException. |
| ReversedServer.ConnectInvertedAsWritten | src/Microsoft.Diagnostics.NETCore.Client/ReversedServer/ReversedDiagnosticsServer.cs:220-223 | A captured stream throws as written and is returned as intended. A timeout returns null as written and throws as intended. |
| ReversedServer.StopIndex | src/Microsoft.Diagnostics.NETCore.Client/ReversedServer/ReversedDiagnosticsServer.cs:114-173 | The accept loop returns at the first cancellation or first advertisement of an untracked cookie. Every earlier event is skipped. |
| ReversedServer.CachedStreams | src/Microsoft.Diagnostics.NETCore.Client/ReversedServer/ReversedDiagnosticsServer.cs:80-84 | This is exactly the set of non-null cached streams. |
| ReversedServer.ValuesInOrder | src/Microsoft.Diagnostics.NETCore.Client/ReversedServer/ReversedDiagnosticsServer.cs:80 | The enumerated values are exactly the cache's values. |
| ReversedServer.DisposeValuesAsWritten | src/Microsoft.Diagnostics.NETCore.Client/ReversedServer/ReversedDiagnosticsServer.cs:80-83 | The written foreach throws NullReferenceException exactly when a null entry is enumerated. It disposes only cached streams, and all of them when it completes. |
| ReversedServer.DisposeValuesAsWrittenAgrees | src/Microsoft.Diagnostics.NETCore.Client/ReversedServer/ReversedDiagnosticsServer.cs:80-84 | The written foreach throws exactly when some cookie's stream was taken. Otherwise it disposes exactly the cached streams. |
| ReversedServer.DisposeNullEntryThrowsAsWritten | src/Microsoft.Diagnostics.NETCore.Client/ReversedServer/ReversedDiagnosticsServer.cs:80-84 | A cache holding one stream and one taken entry throws after disposing that stream as written. Skipping the null entry disposes that stream and completes. |
| ReversedServer.Provided | src/Microsoft.Diagnostics.NETCore.Client/ReversedServer/ReversedDiagnosticsServer.cs:276-287 | ProvideStream's effect on the hand-off state: the stream cached before is disposed, and the cookie gets a cache entry. |
| ReversedServer.ProvideAllSnoc | src/Microsoft.Diagnostics.NETCore.Client/ReversedServer/ReversedDiagnosticsServer.cs:114-173 | Each further accepted event applies its ProvideStream, if it has one, to the state after the earlier events. |
| ReversedServer.Server.constructor | src/Microsoft.Diagnostics.NETCore.Client/ReversedServer/ReversedDiagnosticsServer.cs:64-67 | A new server tracks no endpoints, handlers or cached streams, and is not disposed. |
| ReversedServer.Server.VerifyNotDisposed | src/Microsoft.Diagnostics.NETCore.Client/ReversedServer/ReversedDiagnosticsServer.cs:192-198 | ObjectDisposedException exactly when the server is disposed. |
| ReversedServer.Server.RunStreamHandlers | src/Microsoft.Diagnostics.NETCore.Client/ReversedServer/ReversedDiagnosticsServer.cs:289-309 | The handler list, captured locals and disposed streams become RunHandlers'. The cookie's cached entry becomes the leftover stream. |
| ReversedServer.Server.ProvideStream | src/Microsoft.Diagnostics.NETCore.Client/ReversedServer/ReversedDiagnosticsServer.cs:276-287 | The hand-off state becomes `Provided` of the old state: RunStreamHandlers' result, and the previously cached stream for the cookie is disposed after the offer. |
| ReversedServer.Server.RegisterHandler | src/Microsoft.Diagnostics.NETCore.Client/ReversedServer/ReversedDiagnosticsServer.cs:354-365 | Without a cached stream the handler is appended. With one, the handler runs on it at once and completes. The list is unchanged, and the cached entry becomes the handler's leftover. |
| ReversedServer.Server.Connect | src/Microsoft.Diagnostics.NETCore.Client/ReversedServer/ReversedDiagnosticsServer.cs:205-218 | A cached stream is captured at once and the cookie's entry becomes null. Otherwise a Connect handler for the cookie is appended and its local is empty. The call ends with EndConnect. |
| ReversedServer.Server.ConnectResult | src/Microsoft.Diagnostics.NETCore.Client/ReversedServer/ReversedDiagnosticsServer.cs:220-225 | What a waiting Connect would return now: the captured stream if its local holds one, and TimeoutException otherwise. |
| ReversedServer.Server.EndConnect | src/Microsoft.Diagnostics.NETCore.Client/ReversedServer/ReversedDiagnosticsServer.cs:205-225 | When Connect returns, its outcome is read and its handler is unregistered, and nothing else changes. |
| ReversedServer.Server.RegisterWait | src/Microsoft.Diagnostics.NETCore.Client/ReversedServer/ReversedDiagnosticsServer.cs:233-254 | One turn of the wait: a cached stream is probed at once. A dead one is disposed and cleared, a live one stays. Otherwise a wait handler is appended. |
| ReversedServer.Server.WaitForConnection | src/Microsoft.Diagnostics.NETCore.Client/ReversedServer/ReversedDiagnosticsServer.cs:228-274 | The wait ends when the cached stream is live, and that stream stays cached. A dead one is disposed and the wait registers a handler for a new stream. |
| ReversedServer.Server.CancelWait | src/Microsoft.Diagnostics.NETCore.Client/ReversedServer/ReversedDiagnosticsServer.cs:235 | Cancelling an unsettled wait throws OperationCanceledException and marks its handler to be ignored. A settled wait is unaffected. |
| ReversedServer.Server.AcceptAsync | src/Microsoft.Diagnostics.NETCore.Client/ReversedServer/ReversedDiagnosticsServer.cs:108-174 | An endpoint info (a new endpoint, truncated pid, cookie) is returned only for the first sighting of a cookie. Tracked cookies are skipped, cancellation throws, and disposal throws. The handlers, captured locals, cache and disposed streams are those after ProvideStream of every advertisement up to where the call stops. |
| ReversedServer.Server.RemoveConnection | src/Microsoft.Diagnostics.NETCore.Client/ReversedServer/ReversedDiagnosticsServer.cs:181-190 | Returns true and untracks the cookie if and only if it was tracked. When disposed it throws. Handlers, captured locals, cache and disposed streams do not change. |
| ReversedServer.Server.Dispose | src/Microsoft.Diagnostics.NETCore.Client/ReversedServer/ReversedDiagnosticsServer.cs:69-95 | The first call clears the endpoints, disposes every cached stream (skipping taken entries) and clears the cache. A second call changes nothing. |
| ReversedServer.Server.DisposeAsWritten | src/Microsoft.Diagnostics.NETCore.Client/ReversedServer/ReversedDiagnosticsServer.cs:69-95 | As written, a taken entry throws NullReferenceException after the endpoints were cleared and earlier streams disposed. The cache stays and the server is not disposed. Without one it behaves as Dispose. |
| IpcTransport.ConnectVerdict | src/Microsoft.Diagnostics.NETCore.Client/DiagnosticsIpc/IpcTransport.cs:68 | Connect's target accepts any stream and disposes nothing. |
| IpcTransport.WaitVerdictAsWritten | src/Microsoft.Diagnostics.NETCore.Client/DiagnosticsIpc/IpcTransport.cs:85-97 | As written, the wait target accepts exactly dead streams and disposes exactly live ones. |
| IpcTransport.WaitVerdict | src/Microsoft.Diagnostics.NETCore.Client/DiagnosticsIpc/IpcTransport.cs:93-96 | As intended, the wait target accepts exactly the dead streams so it can dispose them, and rejects live streams undisposed. |
| IpcTransport.SetStreamSpec | src/Microsoft.Diagnostics.NETCore.Client/DiagnosticsIpc/IpcTransport.cs:308-325 | A disposed target refuses and nothing changes. Otherwise it holds the stream exactly when its handler accepts, and its caller's first signal is kept. |
| IpcTransport.Offer | src/Microsoft.Diagnostics.NETCore.Client/DiagnosticsIpc/IpcTransport.cs:157-180 | The bind loop dequeues at least one target from a non-empty queue, and never more than there are. A leftover stream means every target was dequeued. |
| IpcTransport.OfferAsWritten | src/Microsoft.Diagnostics.NETCore.Client/DiagnosticsIpc/IpcTransport.cs:157-161 | An empty queue skips the loop and leaves the stream to be cached. A non-empty one runs the dequeue loop. |
| IpcTransport.DequeueLoopAsWritten | src/Microsoft.Diagnostics.NETCore.Client/DiagnosticsIpc/IpcTransport.cs:159-180 | The written dequeue loop throws only InvalidOperationException. When it completes, the stream was taken by one of the targets it dequeued. |
| IpcTransport.DequeueLoopAsWrittenAgrees | src/Microsoft.Diagnostics.NETCore.Client/DiagnosticsIpc/IpcTransport.cs:159-180 | The written dequeue loop agrees with the intended one when some target accepts, and throws InvalidOperationException when none does. |
| IpcTransport.OfferAsWrittenAgrees | src/Microsoft.Diagnostics.NETCore.Client/DiagnosticsIpc/IpcTransport.cs:157-180 | BindStreamToTarget as written agrees with the intended one for an empty queue or when some target accepts. It throws InvalidOperationException for a non-empty queue that no target accepts from. |
| IpcTransport.DequeueFromEmptyAsWritten | src/Microsoft.Diagnostics.NETCore.Client/DiagnosticsIpc/IpcTransport.cs:157-161 | A queue holding one disposed target makes the loop as written throw, while the intended loop caches the stream. |
| IpcTransport.LiveStreamDisposedAsWritten | src/Microsoft.Diagnostics.NETCore.Client/DiagnosticsIpc/IpcTransport.cs:88-91 | As written, a wait target given a live stream disposes and rejects it, and a queue holding only that target then throws. As intended the live stream is left cached and usable. |
| IpcTransport.OfferStopsAtFirstAcceptor | src/Microsoft.Diagnostics.NETCore.Client/DiagnosticsIpc/IpcTransport.cs:159-179 | The stream goes to the first accepting target, which holds it, and every earlier target rejected it. A leftover stream means no target accepts. |
| IpcTransport.OfferConsumedIff | src/Microsoft.Diagnostics.NETCore.Client/DiagnosticsIpc/IpcTransport.cs:159-185 | The cached stream becomes null if and only if some queued target accepts. |
| IpcTransport.OfferDisposesRejecters | src/Microsoft.Diagnostics.NETCore.Client/DiagnosticsIpc/IpcTransport.cs:166-178 | Every dequeued target that rejected the stream is disposed. |
| IpcTransport.OfferKeepsKinds | src/Microsoft.Diagnostics.NETCore.Client/DiagnosticsIpc/IpcTransport.cs:159-179 | Binding never changes which caller a target belongs to. |
| IpcTransport.OfferKeepsLiveStream | src/Microsoft.Diagnostics.NETCore.Client/DiagnosticsIpc/IpcTransport.cs:85-97 | With only wait targets queued, a live stream is left over and is not disposed. |
| IpcTransport.OfferDisposesDeadStream | src/Microsoft.Diagnostics.NETCore.Client/DiagnosticsIpc/IpcTransport.cs:85-97 | A live wait target at the head takes a dead stream and disposes it, and its caller is signalled. |
| IpcTransport.StreamTarget.constructor | src/Microsoft.Diagnostics.NETCore.Client/DiagnosticsIpc/IpcTransport.cs:295-298 | A new target is undisposed, holds no stream and has not signalled. |
| IpcTransport.StreamTarget.Dispose | src/Microsoft.Diagnostics.NETCore.Client/DiagnosticsIpc/IpcTransport.cs:300-306 | Only the disposed flag is set, so a second call is the same as one. |
| IpcTransport.StreamTarget.SetStream | src/Microsoft.Diagnostics.NETCore.Client/DiagnosticsIpc/IpcTransport.cs:308-325 | The target's new state and result are SetStreamSpec's. |
| IpcTransport.StreamTarget.Cancel | src/Microsoft.Diagnostics.NETCore.Client/DiagnosticsIpc/IpcTransport.cs:84 | The token sets the completion source to cancelled only if it is not yet set. |
| IpcTransport.Drain | src/Microsoft.Diagnostics.NETCore.Client/DiagnosticsIpc/IpcTransport.cs:159-179 | The dequeue loop over target objects leaves the queue's tail after Offer's count. Dequeued targets look as Offer says and the rest are untouched. It returns Offer's leftover and disposal flag. |
| IpcTransport.Bind | src/Microsoft.Diagnostics.NETCore.Client/DiagnosticsIpc/IpcTransport.cs:149-194 | A null stream dequeues nothing and clears the cache. A stream left cached is the offered one, and it remains only when every target was dequeued. |
| IpcTransport.BindDisposes | src/Microsoft.Diagnostics.NETCore.Client/DiagnosticsIpc/IpcTransport.cs:152-188 | A previously cached stream different from the offered one is disposed. Only the offered and previous streams can be disposed. Re-binding the cached stream disposes no other stream. |
| IpcTransport.RegisterReleasesTwiceAsWritten | src/Microsoft.Diagnostics.NETCore.Client/DiagnosticsIpc/IpcTransport.cs:264-285 | Registering while a stream is cached leaves the one-permit semaphore with two permits as written, and with one when nothing is cached. |
| IpcTransport.Endpoint.constructor | src/Microsoft.Diagnostics.NETCore.Client/DiagnosticsIpc/IpcTransport.cs:53-57 | A new endpoint has an empty queue, no stream, is not disposed and has disposed nothing. |
| IpcTransport.Endpoint.RefreshStream | src/Microsoft.Diagnostics.NETCore.Client/DiagnosticsIpc/IpcTransport.cs:196-199 | The base endpoint's refresh yields no stream. |
| IpcTransport.Endpoint.BindStreamToTarget | src/Microsoft.Diagnostics.NETCore.Client/DiagnosticsIpc/IpcTransport.cs:149-194 | The queue, dequeued targets, cached stream and disposed streams become Bind's. A cached stream implies an empty queue. |
| IpcTransport.Endpoint.ProvideStream | src/Microsoft.Diagnostics.NETCore.Client/DiagnosticsIpc/IpcTransport.cs:134-147 | On a live endpoint the result is that of binding the stream. A disposed endpoint's semaphore throws ObjectDisposedException and nothing changes. |
| IpcTransport.Endpoint.RegisterTarget | src/Microsoft.Diagnostics.NETCore.Client/DiagnosticsIpc/IpcTransport.cs:244-285 | The target is enqueued at the tail. If a stream is cached it is offered at once, and the queue empties when the target takes it. A disposed endpoint throws and changes nothing. |
| IpcTransport.Endpoint.SetStream | src/Microsoft.Diagnostics.NETCore.Client/DiagnosticsIpc/IpcTransport.cs:338-341 | ServerIpcEndpoint.SetStream is ProvideStream. |
| IpcTransport.Endpoint.Connect | src/Microsoft.Diagnostics.NETCore.Client/DiagnosticsIpc/IpcTransport.cs:65-72 | A cached stream is handed to the new Connect target at once and its event is set. Otherwise the target waits at the tail of the queue. |
| IpcTransport.Endpoint.EndConnect | src/Microsoft.Diagnostics.NETCore.Client/DiagnosticsIpc/IpcTransport.cs:72-74 | Connect returns its target's stream, or null, and the target is disposed. |
| IpcTransport.Endpoint.WaitForConnection | src/Microsoft.Diagnostics.NETCore.Client/DiagnosticsIpc/IpcTransport.cs:78-120 | A live cached stream ends the wait and stays cached. A dead one is disposed, and the wait then queues a fresh target. On a disposed endpoint the loop only retries. |
| IpcTransport.Endpoint.ResumeWait | src/Microsoft.Diagnostics.NETCore.Client/DiagnosticsIpc/IpcTransport.cs:101-119 | After the completion source is set, the target is disposed. Cancellation propagates and "connected" ends the wait. "Not connected" starts a new turn with WaitForConnection's outcome: connected on a live cached stream, or a fresh wait target queued with the dead stream disposed and the cache cleared. |
| IpcTransport.Endpoint.CancelWait | src/Microsoft.Diagnostics.NETCore.Client/DiagnosticsIpc/IpcTransport.cs:84-117 | The token fires during a turn and the target is disposed. A turn that saw a live stream ends connected. Otherwise OperationCanceledException is thrown: from the cancelled await, or from the delay after a dead stream. |
| IpcTransport.Endpoint.Dispose | src/Microsoft.Diagnostics.NETCore.Client/DiagnosticsIpc/IpcTransport.cs:122-132 | The first call provides a null stream, which disposes and clears the cached stream, and marks the endpoint disposed. Later calls change nothing. |
| IpcCommands.ParseCommandSet | src/Microsoft.Diagnostics.NETCore.Client/DiagnosticsIpc/IpcCommands.cs:11-18 | Exactly 0x01, 0x02, 0x03 and 0xFF are command sets, and each parses to the set with that code. |
| IpcCommands.CommandSetCodes | src/Microsoft.Diagnostics.NETCore.Client/DiagnosticsIpc/IpcCommands.cs:11-18 | The command-set codes are pairwise distinct and round-trip through parsing. |
| IpcCommands.ParseServerResponse | src/Microsoft.Diagnostics.NETCore.Client/DiagnosticsIpc/IpcCommands.cs:31-35 | Exactly 0x00 and 0xFF are server responses. |
| IpcCommands.ServerIdsDisjoint | src/Microsoft.Diagnostics.NETCore.Client/DiagnosticsIpc/IpcCommands.cs:20-35 | No server command id is a response id, as the enum comments require. |
| IpcCommands.ParseHeader | src/Microsoft.Diagnostics.NETCore.Client/DiagnosticsIpc/IpcCommands.cs:11-52 | A parsed (set, id) pair is the header of the command it yields. |
| IpcCommands.HeaderRoundTrip | src/Microsoft.Diagnostics.NETCore.Client/DiagnosticsIpc/IpcCommands.cs:11-52 | Every command's header parses back to that command. |
| IpcCommands.HeaderInjective | src/Microsoft.Diagnostics.NETCore.Client/DiagnosticsIpc/IpcCommands.cs:11-52 | Distinct commands have distinct headers. |
| IpcCommands.EventPipeIdsDistinct | src/Microsoft.Diagnostics.NETCore.Client/DiagnosticsIpc/IpcCommands.cs:37-42 | The EventPipe command ids are pairwise distinct. |
| IpcCommands.DumpAndProfilerShareId | src/Microsoft.Diagnostics.NETCore.Client/DiagnosticsIpc/IpcCommands.cs:44-52 | GenerateCoreDump and AttachProfiler share id 0x01 and are told apart only by the command set. |
| ProcessMonitor.FreshMembers | src/Tools/dotnet-dtracer/ProcessMonitor.cs:24-31 | An id is announced if and only if it is current and was not tracked. Each is announced once, even when the port list repeats it. |
| ProcessMonitor.AppendFreshDistinct | src/Tools/dotnet-dtracer/ProcessMonitor.cs:24-31 | Appending the new ids keeps the tracked list free of duplicates. |
| ProcessMonitor.PresentMembers | src/Tools/dotnet-dtracer/ProcessMonitor.cs:32-38 | The ids kept by the second pass are exactly the tracked ids that are current, in their old order. |
| ProcessMonitor.ReconcileResult | src/Tools/dotnet-dtracer/ProcessMonitor.cs:23-38 | After one step the tracked ids are the old ones still present, in order, followed by the new ones. Together they are exactly the current ids, each once. |
| ProcessMonitor.ReconcileStable | src/Tools/dotnet-dtracer/ProcessMonitor.cs:23-38 | A second step against the same port list announces nothing and changes nothing. |
| ProcessMonitor.AddFresh | src/Tools/dotnet-dtracer/ProcessMonitor.cs:24-31 | The first loop appends and announces exactly Fresh's ids. |
| ProcessMonitor.RemoveAbsent | src/Tools/dotnet-dtracer/ProcessMonitor.cs:32-38 | The second loop, removing over a copy, leaves exactly Present's ids. |
| ProcessMonitor.ProcessMonitor.constructor | src/Tools/dotnet-dtracer/ProcessMonitor.cs:14 | The monitor starts tracking nothing. |
| ProcessMonitor.ProcessMonitor.Reconcile | src/Tools/dotnet-dtracer/ProcessMonitor.cs:23-38 | One polling iteration: the tracked ids become the present old ones followed by the fresh ones. ProcessStarted fires once per fresh id, in port-list order. |
| ConnectionsSource.PassingMembers | src/Microsoft.Diagnostics.Monitoring/ReversedServerConnectionsSource.cs:105-117 | The returned connections are exactly the listed ones whose transport check passes, in their original order. |
| ConnectionsSource.FailingMembers | src/Microsoft.Diagnostics.Monitoring/ReversedServerConnectionsSource.cs:106-115 | The disposed connections are exactly the listed ones whose check fails, in order. |
| ConnectionsSource.PassingFailingPartition | src/Microsoft.Diagnostics.Monitoring/ReversedServerConnectionsSource.cs:105-117 | Kept and disposed connections together are the old list, each exactly once. |
| ConnectionsSource.PruneIdempotent | src/Microsoft.Diagnostics.Monitoring/ReversedServerConnectionsSource.cs:105-117 | A second query with unchanged transports removes nothing. |
| ConnectionsSource.PruneConnections | src/Microsoft.Diagnostics.Monitoring/ReversedServerConnectionsSource.cs:105-115 | The loop over the snapshot, removing each failing connection from the list, leaves Passing and disposes Failing. |
| ConnectionsSource.ReversedServerConnectionsSource.constructor | src/Microsoft.Diagnostics.Monitoring/ReversedServerConnectionsSource.cs:37-40 | A new source is not listening, not disposed and holds no connections. |
| ConnectionsSource.ReversedServerConnectionsSource.VerifyNotDisposed | src/Microsoft.Diagnostics.Monitoring/ReversedServerConnectionsSource.cs:173-179 | ObjectDisposedException exactly when the source is disposed. |
| ConnectionsSource.ReversedServerConnectionsSource.Listen | src/Microsoft.Diagnostics.Monitoring/ReversedServerConnectionsSource.cs:73-85 | The first call on a live source starts listening. Any later call throws InvalidOperationException, and after disposal ObjectDisposedException. |
| ConnectionsSource.ReversedServerConnectionsSource.GetConnections | src/Microsoft.Diagnostics.Monitoring/ReversedServerConnectionsSource.cs:92-123 | Failing connections are removed and disposed, and the passing ones are returned in order. Disposal throws, and cancellation throws before anything changes. |
| ConnectionsSource.ReversedServerConnectionsSource.Accept | src/Microsoft.Diagnostics.Monitoring/ReversedServerConnectionsSource.cs:155-161 | An accepted connection is appended to the list, then announced. After cancellation it is not kept. |
| ConnectionsSource.ReversedServerConnectionsSource.DisposeAsync | src/Microsoft.Diagnostics.Monitoring/ReversedServerConnectionsSource.cs:42-59 | The call cancels and disposes the server if listening. A faulted listen task's exception is rethrown and the source stays undisposed; otherwise it is marked disposed. Calls after that change nothing. |
| TraceArguments.ParseLong | src/Tools/dotnet-dtracer/TraceCorrelator.cs:70 | long.Parse: null throws ArgumentNullException, a value outside the 64-bit range never parses, and a string not ending in a digit is a FormatException. |
| TraceArguments.ParseFormatLong | src/Tools/dotnet-dtracer/TraceCorrelator.cs:70 | Every 64-bit value written in decimal parses back to itself. |
| TraceArguments.ParseTicks | src/Tools/dotnet-dtracer/TraceCorrelator.cs:95 | A tick count succeeds exactly when long.Parse does and, for a DateTime, lies in DateTime's range. A parse failure propagates, and an out-of-range DateTime is ArgumentOutOfRangeException. |
| TraceArguments.ScanFailureSticks | src/Tools/dotnet-dtracer/TraceCorrelator.cs:60-74 | An exception while reading an entry ends the scan: later entries do not matter. |
| TraceArguments.ReadArguments | src/Tools/dotnet-dtracer/TraceCorrelator.cs:60-74 | The foreach over the payload computes exactly Scan. |
| TraceArguments.ScanFails | src/Tools/dotnet-dtracer/TraceCorrelator.cs:60-74 | Reading a payload fails if and only if some entry carries the time key with a value that does not parse. |
| TraceArguments.ScanTextLastWins | src/Tools/dotnet-dtracer/TraceCorrelator.cs:60-74 | A recognised text key gets the value of its last occurrence. |
| TraceArguments.ScanTextAbsent | src/Tools/dotnet-dtracer/TraceCorrelator.cs:53-58 | A recognised key that never occurs stays null. |
| TraceArguments.ScanTicksLastWins | src/Tools/dotnet-dtracer/TraceCorrelator.cs:116-125 | The time is the parse of the time key's last occurrence. |
| TraceArguments.ScanTicksAbsent | src/Tools/dotnet-dtracer/TraceCorrelator.cs:59 | Without a time key the time is the default, zero ticks. |
| TraceArguments.ScanIgnoresUnknownKey | src/Tools/dotnet-dtracer/TraceCorrelator.cs:60-74 | An entry with an unrecognised key changes nothing. |
| TraceArguments.RequestDescription | src/Tools/dotnet-dtracer/TraceCorrelator.cs:75 | The description is method, host and path, nulls as empty, separated by single spaces. |
| TraceArguments.RequestDescriptionSplits | src/Tools/dotnet-dtracer/TraceCorrelator.cs:75 | When method and host have no space, the description splits back into method, host and path. |
| TraceCorrelator.ActivityTreeItem.constructor | src/Tools/dotnet-dtracer/TraceCorrelator.cs:205-212 | A new activity has the given fields, no children, zero duration and is not stopped. |
| TraceCorrelator.Classify | src/Tools/dotnet-dtracer/TraceCorrelator.cs:46-49 | Only an event with a listener event name is acted on. |
| TraceCorrelator.SchemaOf | src/Tools/dotnet-dtracer/TraceCorrelator.cs:116-125 | Every event reads ActivityId. Start events read a start time and stop events a duration. |
| TraceCorrelator.Correlator.constructor | src/Tools/dotnet-dtracer/TraceCorrelator.cs:12 | The table of open activities starts empty. |
| TraceCorrelator.Correlator.Upsert | src/Tools/dotnet-dtracer/TraceCorrelator.cs:162-171 | An unknown id is inserted. A known id gets only its description, parent and start time overwritten, and keeps its children, duration and stopped flag. |
| TraceCorrelator.Correlator.AttachToParent | src/Tools/dotnet-dtracer/TraceCorrelator.cs:173-182 | An open parent gains exactly one child at the end, with nothing else changed. A missing parent is inserted as a placeholder: that id, no parent, "Unknown", the child's start time, the child as its only child. |
| TraceCorrelator.Correlator.OnStartActivityAsWritten | src/Tools/dotnet-dtracer/TraceCorrelator.cs:160-184 | As written, the parent's last child is the new item even when the id already had a different stored entry, which then is not the stored one. |
| TraceCorrelator.Correlator.OnStartActivity | src/Tools/dotnet-dtracer/TraceCorrelator.cs:160-184 | The stored entry for the id carries the new description, parent and start time, and keeps its children and stop state. The parent gains that stored entry as its last child, and an open parent's other fields stay. A missing parent becomes an "Unknown" placeholder that starts with the child. Only the id and parent keys are added, and other entries are untouched. A null id throws. |
| TraceCorrelator.Correlator.OnStopActivity | src/Tools/dotnet-dtracer/TraceCorrelator.cs:186-190 | Duration is set and the activity marked stopped. Nothing else changes. |
| TraceCorrelator.Correlator.StopActivity | src/Tools/dotnet-dtracer/TraceCorrelator.cs:99-102 | A stop for an open id marks it stopped with the duration and changes none of its other fields. A stop for an unknown id is ignored. A null id throws ArgumentNullException. |
| TraceCorrelator.Correlator.AddEvent | src/Tools/dotnet-dtracer/TraceCorrelator.cs:41-158 | Unrecognised events and missing payloads change nothing. A payload that fails to parse throws that exception unchanged. A start event does what OnStartActivity does: the id's entry (the existing one, keeping its children and stop state, or a new one) gets the formatted description, parent and start time and becomes the parent's last child. An open parent's other fields stay, and a missing parent becomes a placeholder. Only those keys are added and other entries are untouched. A stop event marks an open activity stopped with the duration, changes none of its other fields, changes no key and touches no other entry. |
| TraceCorrelator.Correlator.Prune | src/Tools/dotnet-dtracer/TraceCorrelator.cs:20-35 | The table loses exactly the stopped activities that ended more than one second before now. Exactly the removed roots are reported. |

## Left out

- Concurrency: every lock, `SemaphoreSlim`, `ManualResetEvent`,
  `TaskCompletionSource` and `Task.Delay` is left out. Operations run one
  at a time, and a wait is a completion cell or signal that another call
  settles.
- The liveness probe `TestStream` (socket send, `PeekNamedPipe`) is the
  parameter `isLive`.
- Transport accept and advertise parsing (`IpcServerTransport.AcceptAsync`,
  `IpcAdvertise.ParseAsync`) are I/O; their results are the input events of
  `AcceptAsync`. The one-second parse timeout is left out with them.
- `PidIpcEndpoint` (process lookup, transport-name globbing, pipe and socket
  connects) is left out. The base endpoint's `RefreshStream` is modelled.
- The connections source's `ResumeRuntime` call, the `DiagnosticsConnection`
  wrapper, and the lazy `Select` over the list are left out.
  `GetConnections` returns the list itself.
- The process monitor's `Task.Delay` polling loop and `Stop` are left out.
  `EventPipeClient.ListAvailablePorts` becomes the `current` parameter of
  `Reconcile`.
- The correlator's timer loop, `Console.WriteLine` output and
  `ToString`/`ToStringHelper` text formatting are left out. The order in
  which pruned roots are printed is lost, because they are reported as a
  set.
- The payload casts `(string)arg["Key"]` and `is IDictionary<…>[]` are
  left out. A payload that is not a list of dictionaries is `None`, and
  casts that throw `InvalidCastException` are not modelled.
- `ActivityOperationName` is read into a local that nothing uses. The scan
  records it like the other text keys.
- TraceArguments.ParseLong: does not model leading or trailing whitespace,
  thousands separators or culture-specific signs.
  - `long.Parse(string)` and `long.ToString()` use the current culture.
  - The model reads exactly an optional `+`/`-` followed by decimal digits,
    which is what the invariant culture and most others accept.
- TraceCorrelator.Correlator.Prune: `start + duration` is computed on
  unbounded integers.
  - The `DateTime` addition that can overflow (`ArgumentOutOfRangeException`)
    is not modelled.
- TraceCorrelator.Classify: its contract states only that a recognised
  event carries a listener name. The table of event and listener names is
  its body, and `AddEvent`'s contract is stated in terms of it.
- IpcTransport.Endpoint.BindStreamToTarget: states the views of the
  dequeued targets and that the rest of the queue is still queued. It does
  not repeat that the targets left in the queue are untouched.
  - `IpcTransport.Drain`, which it calls, does state this.
- The reversed server's `Dispose` also cancels `_cancellation` and disposes
  the transport and the cancellation source. Those objects are not modelled.
  `DisposeAsWritten` takes the cache's enumeration order as a parameter.
- A `Connect` is modelled as `Connect`, then `EndConnect` when its wait
  ends. How long the wait lasts is left out.
- `DisposeAsync` takes how the listen task ended as a parameter. The task
  itself runs `Accept` turns, which are modelled on their own.
- The `ObjectDisposedException` of a disposed endpoint is swallowed by
  `WaitForConnectionAsync`, whose loop then retries until its token is
  cancelled. This is the `Spinning` outcome; the retries themselves are not
  modelled.
- Integer widths: handler tickets, slot numbers and connection ids are
  unbounded naturals. A GUID is a natural below 2^128. The pid cast is
  modelled explicitly by `ToInt32`.

## Findings

| source | as written | input that shows it | evidently intended | confidence | as-written member | corrected member |
|---|---|---|---|---|---|---|
| src/Microsoft.Diagnostics.NETCore.Client/ReversedServer/ReversedDiagnosticsServer.cs:282 | `_cachedStreams[runtimeId]` uses the dictionary indexer, which throws KeyNotFoundException for a cookie never cached (also at line 359) | the first stream from any runtime instance (empty cache) | a lookup that yields null for an unseen cookie | not executed | ReversedServer.FirstLookupThrowsAsWritten | ReversedServer.Cached |
| src/Microsoft.Diagnostics.NETCore.Client/ReversedServer/ReversedDiagnosticsServer.cs:220-223 | `if (streamEvent.WaitOne(timeout)) throw new TimeoutException();` throws when the event was set | a stream captured by the Connect handler | throw only when the wait times out, and otherwise return the stream | not executed | ReversedServer.ConnectInvertedAsWritten | ReversedServer.ConnectOutcome |
| src/Microsoft.Diagnostics.NETCore.Client/DiagnosticsIpc/IpcTransport.cs:157-161 | with a non-empty queue the loop dequeues while the stream is non-null | a queue whose only target is disposed (it rejects) | stop dequeuing when the queue is empty and cache the stream | not executed | IpcTransport.DequeueFromEmptyAsWritten | IpcTransport.Offer |
| src/Microsoft.Diagnostics.NETCore.Client/DiagnosticsIpc/IpcTransport.cs:88-91 | the wait target disposes the stream when it tests live and rejects it; with no other target queued, the bind loop then dequeues from the emptied queue and throws | a live stream offered to a queue holding only a waiting WaitForConnectionAsync target | dispose the dead stream it accepts; keep the live one usable | not executed | IpcTransport.LiveStreamDisposedAsWritten | IpcTransport.WaitVerdict |
| src/Microsoft.Diagnostics.NETCore.Client/ReversedServer/ReversedDiagnosticsServer.cs:246-251 | the wait handler disposes and consumes the stream when it tests live. A dead stream stays cached, and with no delay between turns the loop re-probes it at once, spinning for as long as it stays cached | a live stream provided while WaitForConnectionAsync waits | keep the live stream cached for Connect; consume and dispose a dead one | not executed | ReversedServer.WaitDisposesLiveStreamAsWritten | ReversedServer.WaitStep |
| src/Microsoft.Diagnostics.NETCore.Client/DiagnosticsIpc/IpcTransport.cs:270-283 | RegisterTargetReleaseSemaphore calls BindStreamToTarget, whose `finally` releases the semaphore, and then releases it again in its own `finally` | registering a target while a stream is cached | release the semaphore once per acquisition | not executed | IpcTransport.RegisterReleasesTwiceAsWritten | IpcTransport.Endpoint.RegisterTarget |
| src/Tools/dotnet-dtracer/TraceCorrelator.cs:182 | `parent.Children.Add(item)` adds the new item even when the id already had a stored entry (for instance a placeholder parent) | start B with parent A, then start A with parent R: R's child is the new A, not the stored A that holds B | add the stored entry, so the tree stays connected | not executed | TraceCorrelator.Correlator.OnStartActivityAsWritten | TraceCorrelator.Correlator.OnStartActivity |
| src/Microsoft.Diagnostics.NETCore.Client/ReversedServer/ReversedDiagnosticsServer.cs:80-82 | `foreach (Stream s in _cachedStreams.Values) s.Dispose();` also reaches the null entry that RunStreamHandlers stores (line 308) once a handler took the stream | with the lookup of the first row fixed: Connect takes cookie B's stream, then Dispose runs. NullReferenceException is thrown, so the cache is not cleared, the transport is not disposed and `_disposed` stays false | skip null entries | not executed | ReversedServer.DisposeNullEntryThrowsAsWritten | ReversedServer.Server.Dispose |
| src/Microsoft.Diagnostics.NETCore.Client/ReversedServer/ReversedDiagnosticsServer.cs:207-217 | the `using` event is disposed when Connect returns, but its handler stays registered. The cookie's next stream is nulled by that handler, and `streamEvent.Set()` throws ObjectDisposedException out of RunStreamHandlers, ProvideStream and AcceptAsync | Connect times out, then the runtime reconnects: the new stream is neither cached nor disposed, and every later stream for the cookie fails the same way | unregister the handler when Connect returns | not executed | ReversedServer.StaleConnectHandlerThrowsAsWritten | ReversedServer.Server.EndConnect |
