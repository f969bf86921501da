# Parking lot dashboard and back end, modelled in Dafny

The system is a small parking lot service with three parts:

- a FastAPI back end that records vehicle events (`entrada`/`salida`), keeps stays (`estadias`) and issues invoices (`facturas`);
- a browser dashboard (`frontend/app.js`) that polls the three tables every few seconds;
- the reconciliation engine inside the dashboard, which folds each poll into a global `state` record.

This project models the reconciliation engine, invoice generation (`generar_factura`) and event registration (`registrar_evento`), and proves what they promise.

Modules:

- `Util`: `Option`, order predicates, and the list operations the source uses: `filter`, `reverse`, `Math.max` over ids, and "order by id desc, first".
- `Entities`: the `Estadia`, `Evento` and `Factura` records.
- `Feed`: the watermark feed shared by events and invoices. It admits ids above the watermark, moves the watermark to the largest fetched id, and folds the reversed batch in front of a history bounded to 10. The batch is reversed in place in an array.
- `Snapshot`: the id-keyed stay lookup (`estadiasMap`) and the stay change test (`detectEstadiaChanges`).
- `Occupancy`: the statistics (`updateStats`), the spot placement (`updateParkingSpots`) and the plate choices of the entry and exit simulations.
- `Dashboard`: the `state` record as the class `ParkingDashboard`. Its methods are the loaders, `updateUI` and one whole poll pass. The notifications they raise are returned as a sequence of (severity, plate, amount) payloads.
- `Store`: the database as a class holding three insertion-ordered tables with autoincrement ids.
- `Billing`: `generar_factura`, as a function on the tables and as a method on `Store.Database`.
- `Events`: `registrar_evento`, as a function on the stays table and as a method on `Store.Database`. It also holds the checked variant described under Findings.

Notes on behaviour:

- `GET /estadias/` returns every stay, open and closed (`routes/estadias.py`). The cached snapshot therefore holds closed stays too, and occupancy counts the ones whose `salida` is null.
- The comment on `estadiasMap` says it is keyed by plate. The code keys it by stay id, and so does the model (`Snapshot.IdMap`). When a snapshot repeats an id, the last stay with that id wins, as with `Map.set`.
- `available = TOTAL_SPOTS - occupied` is not clamped, so it is negative when more than 12 stays are open.
- The entry simulation refuses only when all ten sample plates are inside. The spot total plays no part in that decision.
- The dashboard fetches `GET /eventos/` and `GET /facturas/`, but the back end defines neither: `routes/eventos.py` has only `POST /eventos/` and `routes/facturas.py` only `POST /facturas/{placa}`. Against this back end those two fetches fail, so the event and invoice feeds only ever see the failure case. The model still covers a successful fetch of either, as the dashboard's code handles it.
- `Feed.IngestKeepsHistoryOrdered` assumes the fetch arrives in ascending id order. Nothing in the dashboard checks that, and no list endpoint for events or invoices exists to promise it.
- `generar_factura` compares only minutes against the plate's latest invoice. A later stay of the same length is therefore not billed again; `Billing.SameMinutesReturnsExistingInvoice` states this.

## Model

| member | source | states |
|---|---|---|
| Util.Filter | frontend/app.js:191 | the result holds exactly the kept elements of the input, is no longer than it, and is empty iff no element is kept |
| Util.FilterCounts | frontend/app.js:191 | every kept element occurs in the result as often as in the input, and no rejected element occurs in it. |
| Util.FilterOfConcat | frontend/app.js:191 | filtering distributes over concatenation, so the kept elements keep their relative order |
| Util.FilterLength | frontend/app.js:489 | the result has exactly one element per input position whose element is kept |
| Util.Reverse | frontend/app.js:198 | the result has the input's length and position i holds the input's element at position length-1-i |
| Util.MaxKey | frontend/app.js:195 | `Math.max` over the ids of a non-empty fetch: no id exceeds the result and some element carries it |
| Util.Latest | billing.py:17-22 | "filter, order by id desc, first": None iff nothing matches; otherwise a matching element of the table with the largest id among the matching ones |
| Feed.Admit | frontend/app.js:191 | the admitted items are exactly the fetched items with id above the watermark; none are admitted iff every fetched id is at or below it |
| Feed.Advance | frontend/app.js:193-195 | the new watermark never decreases and bounds every fetched id; when something is admitted it rises strictly and equals the id of some fetched item (`Math.max`); when nothing is admitted it is unchanged |
| Feed.Bounded | frontend/app.js:198 | `slice(0, 10)` keeps the first min(length, 10) entries of its input, in order |
| Feed.AdmitKeepsFetchedOrder | frontend/app.js:191 | admission distributes over concatenation of fetches, so admitted items keep the fetch order |
| Feed.AdmitCounts | frontend/app.js:191 | an item above the watermark is admitted as often as it was fetched; one at or below it never |
| Feed.FoldIn | frontend/app.js:198 | the new history is the reversed batch followed by the old history, cut to 10: its exact length, each position's element, and that nothing else enters it |
| Feed.ReingestAdmitsNothing | frontend/app.js:191-195 | feeding a fetch again after its own watermark update admits nothing |
| Feed.StaleFetchIsNoOp | frontend/app.js:191-193 | a fetch whose largest id is at or below the watermark admits nothing and leaves the watermark alone |
| Feed.LaterAdmissionsAreNewer | frontend/app.js:191-195 | every item admitted by a later poll has a larger id than every item admitted by the earlier one, so no item is admitted twice |
| Feed.FoldInKeepsNewestFirst | frontend/app.js:198 | folding an ascending batch that is newer than a newest-first history keeps the history strictly newest-first |
| Feed.IngestKeepsHistoryOrdered | frontend/app.js:191-198 | one ingest of an ascending fetch keeps the history newest-first, and every entry stays at or below the new watermark |
| Feed.FoldBatch | frontend/app.js:198 | after the in-place reverse, the batch array holds the admitted items in reverse order, and the folded history equals `FoldIn` |
| Feed.ReverseBatch | frontend/app.js:198 | `reverse()` in place: the array ends as the reverse of its old contents |
| Snapshot.IdMap | frontend/app.js:176-181 | the lookup's keys are exactly the snapshot's ids, and each key maps to a stay of the snapshot carrying that id |
| Snapshot.IdMapFindsEachStay | frontend/app.js:176-181 | with unique ids, the lookup returns each stay of the snapshot under its own id |
| Snapshot.SameIdsAndExitsIsNoChange | frontend/app.js:149-172 | a poll as long as the cache whose every stay has a cached stay with the same id and the same `salida` is not a change, whatever else differs |
| Snapshot.ReorderedSnapshotIsNoChange | frontend/app.js:147-172 | a poll holding the same stays as the cache, in any order, is not a change |
| Snapshot.RepeatedSnapshotIsNoChange | frontend/app.js:147-181 | feeding the cached snapshot a second time is not a change |
| Snapshot.ExitRecordedIsChange | frontend/app.js:159-169 | a cached open stay that comes back with its `salida` set is a change |
| Snapshot.UnknownStayIsChange | frontend/app.js:159-164 | a polled stay whose id the cache does not know is a change |
| Occupancy.ActiveStays | frontend/app.js:300 | the active stays are exactly the snapshot's stays with a null `salida` |
| Occupancy.ActiveStaysKeepSnapshotOrder | frontend/app.js:300 | the active stays of a concatenation are those of the first part followed by those of the second, so snapshot order is kept |
| Occupancy.ActiveStaysCounts | frontend/app.js:300 | an active stay occurs among the active stays as often as in the snapshot; an inactive one never |
| Occupancy.ActivePlates | frontend/app.js:558-559 | one plate per active stay, and a plate is listed iff some active stay carries it |
| Occupancy.ComputeStats | frontend/app.js:489-491 | occupied is the number of snapshot positions whose `salida` is null; occupied plus available is always 12; occupied lies between 0 and the snapshot size; available is negative exactly when more than 12 stays are open; revenue is the sum of the cached invoices' totals |
| Occupancy.Revenue | frontend/app.js:491 | the `reduce` sum of the invoice totals; when no total is negative, the sum is non-negative and no single invoice's total exceeds it |
| Occupancy.RevenueOfConcat | frontend/app.js:491 | the revenue sum is additive over concatenation |
| Occupancy.RevenueOfReverse | frontend/app.js:198 | reversing a batch leaves its revenue unchanged |
| Occupancy.RevenueAfterIngest | frontend/app.js:235 | while the history has room, ingesting invoices raises the revenue shown by exactly the batch's totals |
| Occupancy.AssignSpots | frontend/app.js:300-309 | spot i holds the i-th active stay, exactly for the indices below both the active count and 12; every placed stay is active and comes from the snapshot |
| Occupancy.FreePlates | frontend/app.js:558-560 | the candidates are exactly the sample plates that are not active |
| Occupancy.PlanEntry | frontend/app.js:558-565 | refused with the "lot full" message iff every sample plate is active; otherwise the choices are non-empty and are exactly the free sample plates |
| Occupancy.PlanExit | frontend/app.js:591-596 | refused with the "no vehicles" message iff no stay is active; otherwise the choices are non-empty and are exactly the active plates |
| Occupancy.EntryRefusedOnlyWithTenActive | frontend/app.js:558-565 | the entry simulation refuses only when at least ten stays are active |
| Occupancy.SamplePlatesAreDistinct | frontend/app.js:29-32 | the ten sample plates are pairwise different |
| Dashboard.NoticesFollowReversedBatch | frontend/app.js:198-211 | notifications are raised in reverse of fetched order (newest first when the fetch is ascending); an entry event gives success and any other type gives error |
| Dashboard.AnnounceEvents | frontend/app.js:208-212 | the loop raises one notification per event of the reversed batch, in array order |
| Dashboard.AnnounceInvoices | frontend/app.js:246-249 | the loop raises one success notification per invoice of the reversed batch, carrying the plate and total |
| Dashboard.ParkingDashboard.constructor | frontend/app.js:9-26 | empty caches, watermarks 0, an empty lookup and all four flags clear |
| Dashboard.ParkingDashboard.DetectStayChanges | frontend/app.js:147-173 | the loop with early returns answers exactly the change test: first load, a length difference, or a polled stay unknown to the lookup or with another `salida` |
| Dashboard.ParkingDashboard.UpdateStayIndex | frontend/app.js:176-181 | clearing and refilling leaves the lookup equal to the id map of the snapshot |
| Dashboard.ParkingDashboard.LoadStays | frontend/app.js:127-139 | on a change, the cache becomes the polled list, the lookup its id map, and the stays and stats flags are set; otherwise nothing changes; events and invoices are never touched |
| Dashboard.ParkingDashboard.LoadEvents | frontend/app.js:187-213 | the watermark never decreases; with new events it becomes the largest fetched id, the history becomes `FoldIn`, only the events flag is set and the notifications follow the reversed batch; with no new events or a failed fetch nothing changes; histories stay at most 10 long |
| Dashboard.ParkingDashboard.LoadInvoices | frontend/app.js:224-250 | the same feed for invoices, which also sets the stats flag |
| Dashboard.ParkingDashboard.UpdateUI | frontend/app.js:258-296 | afterwards all four flags are clear; each region is refreshed iff its flag was set, with the spot map, the histories and the statistics computed from the cache |
| Dashboard.ParkingDashboard.Ingest | frontend/app.js:112-116 | the three loaders in turn: the cache becomes the polled stays iff they differ from it; each feed's watermark and history end as the fetch dictates; exactly the regions with news get their flag set; the notifications are those of the new events, then the new invoices |
| Dashboard.ParkingDashboard.Poll | frontend/app.js:110-121 | one pass leaves all flags clear and the watermarks no lower; the stay cache, its lookup, both watermarks and both histories end as the fetches dictate, and a failed fetch leaves its part alone; each region is refreshed iff it was pending or its loader found news, with the spot map, histories and statistics of the new state; the notifications are those of the new events, then the new invoices |
| Dashboard.AdmitsOnlyEventsAboveWatermark | frontend/app.js:191-195 | with watermark 5, a fetch with ids 6, 7, 5 admits the events 6 and 7 in order and moves the watermark to 7 |
| Store.Database.constructor | models.py:6-33 | empty tables whose ids start at 1 |
| Billing.LatestCompletedStay | billing.py:17-22 | None iff the plate has no stay with a `salida`; otherwise such a stay of the table with the largest id |
| Billing.LatestInvoice | billing.py:28-33 | None iff the plate has no invoice; otherwise an invoice of the plate with the largest id |
| Billing.Bill | billing.py:5-55 | a returned invoice carries the plate; with no result the table is unchanged; with one, the table is unchanged or gains exactly that invoice, which then has the next id |
| Billing.NoCompletedStayBillsNothing | billing.py:17-25 | the result is None iff the plate has no completed stay, and then no invoice is stored |
| Billing.BillsLatestCompletedStay | billing.py:17-55 | a returned invoice bills the minutes of the plate's completed stay with the largest id; either it is already stored and nothing changes, or exactly it is appended with the next id, rate 80 and total minutes × 80 |
| Billing.SameMinutesReturnsExistingInvoice | billing.py:28-37 | when the plate's latest invoice has the latest completed stay's minutes, that invoice is returned and the table is unchanged |
| Billing.OtherMinutesAppendsNewInvoice | billing.py:36-55 | when the plate has no invoice, or its latest invoice has other minutes than the latest completed stay, a new invoice with the next id, those minutes, rate 80 and total minutes × 80 is returned and appended |
| Billing.BillingTwiceStoresAtMostOne | billing.py:28-55 | a second call for the same plate returns what the first returned and stores nothing, so two calls add at most one invoice |
| Billing.GenerateInvoice | billing.py:5-55 | the method returns and stores exactly what `Bill` describes; the invoice id counter advances by the number of invoices added; stays and events are never modified |
| Events.FirstOpenStay | routes/eventos.py:33-37 | None iff the plate has no open stay; otherwise the index of an open stay of the plate with no open stay of the plate before it |
| Events.StaysAfter | routes/eventos.py:27-41 | an entry appends one open stay with the next id, the plate and the time; any other type keeps the length, and a stay can only change from open to closed at that time; ids, plates and entry times never change |
| Events.OpenCountZero | routes/eventos.py:33-39 | a plate's open-stay count is zero iff no stay of the table is open for it |
| Events.OpenCountUpdate | routes/eventos.py:39-41 | replacing one stay changes a plate's open count by the difference that stay makes |
| Events.EntryOpensOneStay | routes/eventos.py:27-30 | an entry adds one open stay for its plate and none for any other plate, without checking for an existing one |
| Events.ExitClosesOneStay | routes/eventos.py:31-41 | any type other than `entrada` closes one open stay of its plate when there is one; other plates keep their open stays |
| Events.ExitTouchesOnlyFirstOpenStay | routes/eventos.py:33-41 | an exit keeps the table's length, and the only stay that can differ is the plate's first open one, which receives the exit time and minutes |
| Events.RegisterEvent | routes/eventos.py:21-45 | appends exactly one event with the request's plate and type, transforms the stays as `StaysAfter` says, leaves invoices alone, keeps the database valid and always replies "Evento registrado" |
| Events.DoubleEntryOpensTwoStays | routes/eventos.py:27-30 | two entries for a plate that is outside leave it with two open stays |
| Events.ExitWithoutOpenStayChangesNoStay | routes/eventos.py:31-45 | an exit for a plate with no open stay changes no stay, although it is still logged and answered as registered |
| Events.AdmissibleEventKeepsOneOpenStay | routes/eventos.py:27-41 | an entry for a plate that is outside, or an exit for one that is inside, keeps at most one open stay per plate |
| Events.RegisterEventChecked | routes/eventos.py:21-45 | rejects exactly the inadmissible requests, with the reason and without writing anything; otherwise behaves as `RegisterEvent`; keeps at most one open stay per plate |

## Left out

- DOM construction and view-side diffing are not modelled: the grid, the spot cards, the event and invoice lists, the HTML builders, the modal and the notification timers. `UpdateUI` returns the data each refreshed region would be drawn from, and notifications are emitted as a sequence of payloads. Their titles and emoji are left out.
- `fetch`, `Promise.all` and `setInterval` are network I/O and timers. The model takes each resource as an already-parsed list or a failure marker.
- The concurrent loaders of one poll are modelled in the fixed order stays, events, invoices. The three loaders touch disjoint parts of the state, except that both stays and invoices set the stats flag, so the final state does not depend on the order. The notifications do: `Promise.all` lets each loader's post-fetch block run when its response arrives, so in the source invoice notifications may come before event notifications; the model always raises the event ones first. Overlapping polls, the race `setInterval` allows, are not modelled.
- `Math.random` plate and stay picking and the POST plumbing of the simulations are not modelled. Only their preconditions are (`PlanEntry`, `PlanExit`).
- `calcular_minutos`, `datetime.utcnow`, `formatTime` and `formatTimeAgo` are clock arithmetic. The current time and the stay's minutes are parameters of the transitions.
- Money (`tarifa_minuto`, `total`) is stored in `Float` columns but modelled as integers. Float rounding and `toLocaleString` formatting are not modelled.
- `eventosMap` and `facturasMap` are written by the loaders but never read, so they are not modelled.
- Database order is modelled as insertion order. `first()` without `order_by` in `registrar_evento` returns the first open stay in table order, which is what the database usually does but does not guarantee.
- Commit boundaries, sessions and transaction failure are not modelled. In `registrar_evento` the event is committed before the stay change, so a failure between the two commits would leave the event logged without a stay change.
- FastAPI routing, the schemas and `main.py` are only used as record shapes. `routes/estadias.py` holds the stays list endpoint that feeds the dashboard, and `routes/facturas.py` holds only `POST /facturas/{placa}`, which calls `generar_factura`; neither holds logic of its own.
- Billing.GenerateInvoice: the `fecha` of a new invoice is the `now` parameter, not the database default timestamp.

## Findings

| source | as written | input that shows it | evidently intended | confidence | as-written member | corrected member |
|---|---|---|---|---|---|---|
| routes/eventos.py:27-30 | an `entrada` always inserts a new open stay, even when the plate already has one | `entrada` for ABC123 twice with no `salida` between them: the plate ends with two open stays | a second entry for a plate that is inside is rejected, as the service's own test script expects (test_api.py:115-121) | medium, not executed | Events.DoubleEntryOpensTwoStays | Events.RegisterEventChecked |
| routes/eventos.py:31-45 | a `salida` for a plate with no open stay logs the event and answers "Evento registrado" without closing anything | `salida` for TEST999 on an empty table | an exit without a matching entry is rejected, as test_api.py:99-105 expects | medium, not executed | Events.ExitWithoutOpenStayChangesNoStay | Events.RegisterEventChecked |
