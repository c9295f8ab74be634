# Client/order ledger — a Dafny model of its data layer

The ledger is a single-page browser application. It keeps two arrays, `clients` and
`orders`, in memory, mirrors them to localStorage, shows dashboard figures computed
from the orders, and exports and imports JSON snapshots. All of this lives inside one
jQuery ready handler in `app.js`, mixed with DOM code. This project takes the data
layer out of that file and models it in Dafny:

- `lists.dfy` (`Lists`): the array operations the handlers use. `filter` becomes
  `Filter`, `find`/`findIndex` becomes `IndexWhere`, and the id sets built with
  `new Set(xs.map(x => x.id))` become `Keys`. It also proves the facts about them:
  exact multiset counts, order preservation (`SubsequenceOf`) and id uniqueness.
- `text.dfy` (`Text`): `String.prototype.trim` as the form handlers apply it, and
  `escapeHtml` with a decoder that undoes it.
- `records.dfy` (`Json`, `Records`): parsed JSON values, and the `Client` and `Order`
  records.
- `store.dfy` (`RecordStore`): the submit and delete handlers, written as pure functions
  from the old collections to the new ones, with the identity, cascade and
  reference lemmas.
- `snapshot.dfy` (`Snapshot`): the export snapshot, `validateImportData`, decoding of
  imported entries, the merge rule (`AppendAbsent`) and the whole import outcome
  (`ImportInto`).
- `dashboard.dfy` (`Dashboard`): the totals of `updateDashboard` and the seven-bar
  loop of `renderPaymentsChart`.
- `ledger.dfy` (`LedgerState`): class `Ledger`. Its fields are the two arrays and
  their stored copy. Its methods are the event handlers, which change the fields in
  place, and each method's contract ties it to the pure function above.

Modelling choices:
- Amounts are exact `real`s and timestamps are `int` milliseconds.
- Payment status, payment method and stage are strings. The form only offers fixed
  values, but an imported file may hold any string.
- A local calendar day is `DayOf(t, tz) = (t + tz) / 86400000`, for a fixed zone
  offset `tz`.
- These are parameters: the `confirm` answers (`confirmed`), the clock (`now`), the
  value `generateId` returns (`newId`), the storage quota's answer
  (`StorageResponse`) and the file the user picked (`ImportFile`).

Behaviour of `app.js` that the model keeps as written:
- An edit whose id is absent is not a clean "not found" error. `find(...).createdAt`
  throws before anything changes. `RecordStore.Saved.NotFound` stands for that throw.
- Empty names and negative amounts are not rejected by the handlers. Only the HTML
  form constraints reject them, and those are not part of this model.
- Deleting an absent order still filters and saves. Deleting an absent client does
  nothing.
- An import reloads both collections from storage before it reads the file
  (app.js:645). A rejected or declined import therefore leaves the collections as
  storage holds them. If an earlier save failed, unsaved changes are lost.
  `LedgerState.Ledger.Import` states this. The collections are unchanged only when
  they were in sync with storage.
- `validateImportData` can throw as well as return false. An entry that is `null`,
  a boolean, a number or a string makes `field in entry` raise a TypeError. The
  handler's `catch` reports that as a read error, not as an invalid format.
- Merge mode builds each id set once, before appending. Two imported records that
  share a new id are therefore both appended, and ids stop being unique.
- Neither import mode checks that an order's client exists.

## Model

| member | source | states |
|---|---|---|
| `Lists.Filter` | app.js:499-500 | `filter` keeps exactly the elements satisfying the predicate: everything kept satisfies it, everything satisfying it is kept |
| `Lists.IndexWhere` | app.js:456-460 | `findIndex` returns -1 iff no element matches, otherwise the first matching index |
| `Lists.Keys` | app.js:665-666 | the id set contains the id of every record and nothing else |
| `Lists.FilterCount` | app.js:499-500 | filtering keeps every occurrence of a passing element and no occurrence of the others (exact multiset counts) |
| `Lists.FilterIsSubsequence` | app.js:499-500 | filtering never reorders: the result is a subsequence of the input |
| `Lists.FilterKeepsUnique` | app.js:602 | filtering cannot create duplicate ids |
| `Text.Trim` | app.js:453-454 | the trimmed text neither starts nor ends with JavaScript whitespace, is no longer than the input, and is empty for all-whitespace input |
| `Text.TrimIsSlice` | app.js:453-454 | the trimmed text is the slice of the input between a whitespace prefix and a whitespace suffix |
| `Text.TrimIdempotent` | app.js:453-454 | trimming twice is trimming once |
| `Text.EscapeChar` | app.js:369-375 | the lookup table maps the five special characters to entities containing no `<`, `>`, `"` or `'`, and every other character to itself |
| `Text.EscapeHtml` | app.js:368-377 | the output contains no raw `<`, `>`, `"` or `'`, is at least as long as the input, and equals the input when it holds none of the five special characters |
| `Text.EscapeHtmlConcat` | app.js:376 | the global replace works character by character: escaping a concatenation concatenates the escapes |
| `Text.UnescapeEscape` | app.js:368-377 | escaping loses nothing: decoding the five entities gives back the original text |
| `RecordStore.SaveClient` | app.js:451-466 | with no edit id: exactly one client is appended at the end, with the new id, `createdAt = now` and the trimmed fields, and the prefix is unchanged; with an edit id: succeeds iff a client has that id; then the first such client is replaced at its index, keeps its id and `createdAt`, and every other client and the length are unchanged |
| `RecordStore.SaveOrder` | app.js:545-563 | the same add/edit contract for orders, the new record being the form's fields with trimmed details |
| `RecordStore.AddClientThenFind` | app.js:456-465 | after an add under a fresh id, `find` on that id returns exactly the record built from the form |
| `RecordStore.AddOrderThenFind` | app.js:553-562 | after an order add under a fresh id, `find` on that id returns exactly the record built from the form |
| `RecordStore.SaveClientKeepsIdsUnique` | app.js:459-466 | client ids stay unique through an edit, and through an add with a fresh generated id |
| `RecordStore.SaveOrderKeepsIdsUnique` | app.js:556-563 | order ids stay unique through an edit, and through an add with a fresh generated id |
| `RecordStore.SaveClientKeepsReferences` | app.js:459-463 | saving a client keeps every existing client id, so every order that had a client still has one |
| `RecordStore.SaveOrderKeepsReferences` | app.js:545-562 | saving an order whose client exists keeps every order's client existing |
| `RecordStore.DeleteClient` | app.js:494-500 | without a client of that id, or without confirmation, nothing changes (orphan orders included); otherwise exactly the clients with that id and exactly the orders with that `clientId` are removed (multiset counts), and both collections keep their relative order |
| `RecordStore.DeleteClientKeepsReferences` | app.js:499-500 | after the cascade no order names the deleted client, and if every order named an existing client before, every order still does |
| `RecordStore.DeleteOrder` | app.js:598-602 | without confirmation, or for an absent id, nothing changes; otherwise exactly the orders with that id are removed and the rest keep their order |
| `RecordStore.DeletesKeepIdsUnique` | app.js:499-502 | neither delete can create a duplicate client or order id |
| `Snapshot.EntryVerdict` | app.js:713 | an entry passes iff it is an object holding every required key, and the check throws iff the entry is a primitive |
| `Snapshot.CheckEntries` | app.js:712-718 | the loop accepts iff every entry holds every required key; otherwise the first failing entry decides between a throw (primitive) and `false` |
| `Snapshot.ValidateImportData` | app.js:705-721 | accepts iff the data is an object whose `clients` and `orders` are arrays, every client has `id`, `name`, `createdAt` and every order has all eight order keys (so empty arrays pass and one bad entry rejects); a throw happens only on such arrays with a primitive entry |
| `Snapshot.Export` | app.js:613-618 | the snapshot is an object with exactly the keys `version` (`"1.0"`), `exportDate`, `clients` and `orders`, whose arrays hold every client and order, in order, encoded as `JSON.stringify` writes them; `ExportDecodes` reads it back exactly |
| `Snapshot.DecodeEncodeClient` | app.js:613-620 | a client written to a snapshot reads back as the same client |
| `Snapshot.DecodeEncodeOrder` | app.js:613-620 | an order written to a snapshot reads back as the same order |
| `Snapshot.ExportIsValid` | app.js:613-618 | every exported snapshot passes `validateImportData` |
| `Snapshot.ExportDecodes` | app.js:613-620 | reading back an export yields exactly the exported collections |
| `Snapshot.AppendAbsent` | app.js:665-678 | merge leaves the existing records as a prefix and appends exactly the imported records whose id was not among the existing ids (duplicates included), in import order |
| `Snapshot.AppendAbsentIdempotent` | app.js:665-678 | merging the same records a second time adds nothing |
| `Snapshot.AppendAbsentSelf` | app.js:665-678 | merging a collection with a copy of itself changes nothing |
| `Snapshot.AppendAbsentKeepsUnique` | app.js:665-678 | merge keeps ids unique when both sides have unique ids |
| `Snapshot.AppendAbsentKeepsImportedDuplicates` | app.js:665-672 | two imported records under one new id are both appended, so the result has a duplicate id |
| `Snapshot.ImportInto` | app.js:650-679 | a rejected, unreadable, unrepresentable or declined import leaves the collections as they were; it imports iff the data validates, decodes, and replace mode is confirmed; replace makes the collections exactly the imported ones; any other mode merges both collections with `AppendAbsent` |
| `Snapshot.ExportThenReplace` | app.js:657-660 | replace-importing an export reproduces the exported collections, whatever was there before |
| `Snapshot.ExportThenMerge` | app.js:664-678 | merge-importing one's own export changes nothing |
| `Snapshot.ImportDoesNotCheckReferences` | app.js:657-660 | an import can leave an order whose client does not exist |
| `Dashboard.DayOfBounds` | app.js:228-235 | an instant lies between the local midnight that starts its day and the next one |
| `Dashboard.MidnightBoundary` | app.js:228-235 | local midnight belongs to the day it starts, and the millisecond before it belongs to the previous day |
| `Dashboard.UpdateDashboard` | app.js:219-242 | the paid total is the sum over `paid` orders, the deferred total the sum over `deferred` orders, the daily profit the paid revenue of the day `now` falls on; paid plus deferred total equals the sum over orders whose status is `paid` or `deferred`; with non-negative amounts, 0 ≤ daily profit ≤ paid total and the deferred total is non-negative; the order count is the number of orders |
| `Dashboard.PaidPlusUnpaid` | app.js:220-226 | every paid or deferred order counts in exactly one of the two totals |
| `Dashboard.TotalsOfAppend` | app.js:220-226 | an extra order raises the paid (deferred) total by its amount iff its status is `paid` (`deferred`), so any other status counts in neither |
| `Dashboard.DailyWithinPaid` | app.js:228-237 | with non-negative amounts a day's paid revenue lies between 0 and the paid total |
| `Dashboard.SumFilterSplit` | app.js:220-226 | sums over two disjoint filters add up to the sum over their union |
| `Dashboard.SumFilterMonotone` | app.js:228-237 | with non-negative amounts a narrower filter sums to no more |
| `Dashboard.WindowTotalIsFilteredSum` | app.js:254-271 | adding the daily totals of consecutive days gives the sum over the paid orders of the whole window |
| `Dashboard.WeekWithinPaid` | app.js:254-271 | the seven bars never add up to more than the paid total when amounts are non-negative |
| `Dashboard.PaymentsSeries` | app.js:251-271 | exactly 7 bars, oldest first; bar k is the paid revenue of day today−(6−k); the last is labelled Today and equals the daily profit; the bars add up to the seven-day window total |
| `Dashboard.TwoOrdersExample` | app.js:219-237 | 50 paid and 30 deferred today give totals 50 and 30 and a daily profit of 50 |
| `LedgerState.Ledger.constructor` | app.js:34-35 | start-up loads both collections from storage, which is then in sync |
| `LedgerState.Ledger.SaveToLocalStorage` | app.js:43-51 | the two entries are written in order; a quota failure leaves its entry (and every later one) as it was and never touches the in-memory collections |
| `LedgerState.Ledger.SubmitClientForm` | app.js:444-468 | the clients become `SaveClient` of the old ones and are saved; on a missing edit id nothing changes; orders are untouched |
| `LedgerState.Ledger.SubmitOrderForm` | app.js:538-565 | the orders become `SaveOrder` of the old ones and are saved; on a missing edit id nothing changes; clients are untouched |
| `LedgerState.Ledger.DeleteClientClicked` | app.js:494-507 | both collections become `DeleteClient` of the old ones; they are saved only when something was deleted |
| `LedgerState.Ledger.DeleteOrderClicked` | app.js:598-608 | the orders become `DeleteOrder` of the old ones, clients untouched, saved on every confirmation |
| `LedgerState.Ledger.Import` | app.js:633-702 | without a file nothing changes; otherwise the collections are reloaded from storage and then become `ImportInto` of them; storage is written only on a successful import; a non-imported outcome leaves in-sync collections unchanged |
| `LedgerState.Ledger.MergeImported` | app.js:665-678 | merge mode turns each collection into `AppendAbsent` of it and the imported records |
| `LedgerState.Ledger.AppendClients` | app.js:668-672 | the `forEach` loop pushes exactly the imported clients whose id is not in the id set taken beforehand |
| `LedgerState.Ledger.AppendOrders` | app.js:674-678 | the `forEach` loop pushes exactly the imported orders whose id is not in the id set taken beforehand |

## Left out

- `Snapshot.ImportInto`: an imported entry is decoded into a `Client` or `Order` record, and the model cannot hold the raw object the source pushes. If a validated entry has fields of other JSON types than the application writes, the model reports `Unrepresentable` and changes nothing. Such types are a non-string id or text, a non-numeric amount, or a non-integral `createdAt`. The source would store that entry as it is. Keys beyond the record's fields are dropped, and a missing `phone` reads as "".
- `generateId` (app.js:16-18) depends on the clock and `Math.random`. Its result is the parameter `newId`. The freshness it is meant to give is a `requires` of the lemmas about unique ids.
- Form validation (`checkValidity`, `setCustomValidity`, app.js:416-435): the constraints live in HTML that is not part of this model. The handlers are modelled from the point where the form has passed.
- The edit-button handlers that fill the forms (app.js:478-492, 576-596) only move record fields into inputs. They are presentation.
- DataTables, Chart.js drawing, Bootstrap modals, view toggles, alerts, `setTimeout` and smooth scrolling are presentation over third-party libraries. So are `formatCurrency` and `formatDate`.
- `Dashboard.PaymentsSeries`: the bar labels are `TodayLabel` or the day number. Locale date formatting is left out. So is the early return when the canvas is missing.
- Floating point: amounts are exact reals. `parseFloat` of the amount input, float rounding in the sums, and `NaN` from a missing amount are not modelled.
- Time zones: a day is a fixed-offset bucket of 86 400 000 ms. Daylight-saving days of 23 or 25 hours are not modelled.
- Persistence is modelled as the stored copy only. JSON serialization, and the load path for a corrupt or absent entry (app.js:29-41), are left out. The stored copy is only ever written by the ledger, so in the model it always parses.
- `FileReader` and `JSON.parse` of the file: the read file is the `ImportFile` parameter. The gap between the reload at app.js:645 and the asynchronous `onload` is not modelled, and the handler runs atomically.
- `Text.EscapeHtml` takes a string. The `String(text)` conversion of other values is not modelled.
- jQuery's `.data('id')` turns a numeric-looking id attribute into a number. This is not modelled: ids are compared as strings.
