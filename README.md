# KJK-MEAN inventory: take/return bookkeeping, schema rules, login

KJK-MEAN is an inventory application with an Express/Mongoose back end and an
Angular client. Items are stored at permanent locations, called warehouses.
A user *takes* pieces of an item to a temporary location. Each take is
recorded on the item as a `take` sub-document: the user, the quantity, the
destination, `dateTook` and an optional `dateReturned`. The user later
*returns* pieces one at a time.

An outstanding take is one without `dateReturned`. Every view of the system
is a sum of outstanding quantities:

- what is still available in a warehouse;
- what is out at a temporary location;
- what a user holds.

This project models that bookkeeping on the server and its mirrors in the
client, plus the schema rules, registration, login and the local passport
strategy.

Modules, one per source file, plus shared helpers:

| module | models |
|---|---|
| `Wrappers` | `Option` and `Result` |
| `DbModels` | the Mongoose schemas (location, take, item) as validation functions, with their unique indexes |
| `Ledger` | outstanding sums over a list of takes, overall, per location and per user |
| `ItemsController` | `availableItems`, `takeItems` and `returnItem`, on a `Database` class holding the item and location collections |
| `Passport` | the local strategy's verify callback |
| `Authentication` | `register` and `login` |
| `Client` | the client's records, requests and side effects |
| `ItemTake` | the take screen moving units between two lists |
| `FilterMyItems` | the "my items" pipe, which rewrites its input array in place |
| `MyItems` | the "my items" screen's return handler |
| `LocationShow` | the location page |
| `ItemShow` | the item page |
| `LocationList` | the sorted list of locations |

Each handler that mutates a component or the database is a `method` on a
class. Its `ensures` ties the new state to a specification function. The
properties are lemmas about those functions.

Two behaviours of the code are modelled as written and stated as lemmas:

- `MyItems.ClientSettlesMoreThanServer`: the server settles one piece of the
  caller's *first* outstanding take at the location, while the client's copy
  takes a piece off *every* outstanding take of the user.
- `FilterMyItems.FirstTookNotEarliest`: the pipe shows the `dateTook` of the
  first outstanding take it meets, which is the earliest one only when takes
  are stored in date order.

## Model

| member | source | states |
|---|---|---|
| DbModels.BuildLocation | api/models/db-models.js:44-58 | A location is accepted iff it has a name and a `location` text, exactly two coordinates, and a type of "permanent" or "temporary". The accepted location is valid and carries the submitted id, name, description, address, coordinates, type and item list. A rejected one lists every violation, in schema order. |
| DbModels.InsertLocation | api/models/db-models.js:45 | Saving succeeds iff validation passes and no stored location has the same name. On success the location is appended, and unique names stay unique. |
| DbModels.BuildTake | api/models/db-models.js:98-104 | A take is accepted iff user, quantity and location are given. `dateTook` defaults to the creation time. An absent `dateReturned` stays absent. |
| DbModels.BuildItem | api/models/db-models.js:150-158 | An item is accepted iff its type is in the enumeration, code and name are given, the quantity is left out or given and at least 1, and a default location is given. The accepted item is valid. It carries the submitted id, type, code, name, description, default location and takes, and its quantity is 1 when left out. A quantity sent as null is rejected by the `required` rule with its own message. |
| DbModels.InsertItem | api/models/db-models.js:152-153 | Saving succeeds iff validation passes and no stored item shares the code or the name. On success the item is appended, and uniqueness of both keys is kept. |
| Ledger.OutstandingAppend | api/controllers/items.js:431-443 | The outstanding sum of two concatenated lists of takes is the sum of their sums. |
| Ledger.OutstandingUpdate | api/controllers/items.js:610-636 | Replacing one take changes any outstanding sum by exactly the difference of the old and new take's contributions. |
| Ledger.ReturnedTakeNotCounted | api/controllers/items.js:437-439 | A returned take adds nothing to any outstanding sum. |
| Ledger.OutstandingZeroIff | api/controllers/items.js:637 | When outstanding takes hold positive quantities, the sum is non-negative, and it is zero iff no take in scope is outstanding. |
| ItemsController.Database.AvailableItems | api/controllers/items.js:424-447 | The rows are the items whose default location is the warehouse, in store order. Each row carries the stored quantity less its outstanding takes. Only rows with a positive result are listed, and a never-taken item is listed as stored. |
| ItemsController.UntakenItemShownAsStored | api/controllers/items.js:432-434 | An item without takes is listed at its default location with its stored quantity. |
| ItemsController.TakenItemShownEffective | api/controllers/items.js:435-442 | An item with takes is listed at its default location iff its effective quantity is positive, and it is listed with that quantity. |
| ItemsController.AvailableViewAppend | api/controllers/items.js:431-443 | The availability list of two concatenated stores is the concatenation of their lists. |
| ItemsController.Database.TakeOne | api/controllers/items.js:515-547 | One request entry. An unknown item fails with nothing changed. Otherwise a take by the caller is appended and the item saved. Then an unknown location fails, or the item is linked into the location unless it is already listed there. |
| ItemsController.Database.TakeItems | api/controllers/items.js:508-552 | The entries are processed in order. The first failure stops the rest, and what earlier entries saved is kept. |
| ItemsController.TakeStepRecordsOneTake | api/controllers/items.js:521 | A request adds exactly one take, by the caller and of the requested quantity, to the named item only. |
| ItemsController.TakeStepLinksOnce | api/controllers/items.js:534-535 | Afterwards the item is listed at the destination, appended only if it was absent. Other locations are untouched, and duplicate-free location lists stay duplicate-free. |
| ItemsController.TakeLowersAvailability | api/controllers/items.js:521 | Taking n pieces lowers the item's effective quantity by exactly n. |
| ItemsController.TakeStepCount | api/controllers/items.js:515-547 | A successful request adds exactly one take record to the store and keeps the location links duplicate-free. |
| ItemsController.TakeAllOnePerRequest | api/controllers/items.js:508-552 | A fully successful request adds one take record per entry and never duplicates a link. |
| ItemsController.TakeAllHalts | api/controllers/items.js:513-548 | Once a prefix of the entries has failed, the remaining entries change nothing. |
| ItemsController.ScanTakes | api/controllers/items.js:610-636 | The scan settles one piece of the caller's first outstanding take at the location, and closes that take when it reaches zero. It stops early exactly when that take still holds pieces. Otherwise `q` is the quantity still outstanding at the location. |
| ItemsController.Database.ReturnItem | api/controllers/items.js:599-660 | The new store and the outcome are those of the return specification. An unknown item, the kept reply, unlinking the item when nothing remains outstanding, a missing location, and the cases without a reply are all covered. |
| ItemsController.ReturnChangesAtMostOneTake | api/controllers/items.js:616-628 | A return changes only the caller's first outstanding take at the location. That take loses exactly one piece, and its `dateReturned` becomes the return time iff it held one; otherwise it stays open. Without such a take the item store is unchanged. |
| ItemsController.SettleMovesOnePiece | api/controllers/items.js:616-628 | Settling lowers the outstanding sums for the location, for the item and for the caller by one iff the caller had an outstanding take there. |
| ItemsController.ReturnRaisesAvailability | api/controllers/items.js:616-628 | A return raises the item's effective quantity by one iff the caller had an outstanding take at the location. |
| ItemsController.ReturnUnlinksOnlyWhenSettled | api/controllers/items.js:630-657 | The locations change only on `Detached`, and only the first occurrence of the item is removed. The reply is `Kept` iff the settled take still holds pieces. `Detached` happens iff nothing remains outstanding at the location and the location lists the item. |
| ItemsController.ReturnWithoutOwnTake | api/controllers/items.js:637-657 | Without an outstanding take of the caller, the item store is unchanged. The item is still unlinked when nothing at all is outstanding at the location. |
| ItemsController.ReturnKeepsLinksDistinct | api/controllers/items.js:644-646 | Returns keep location lists duplicate-free, and a detached item is no longer listed at its location. |
| ItemsController.TakeThenReturnRestores | api/controllers/items.js:508-660 | Taking one piece to a location and then returning one piece there restores the item's outstanding sums, at that location and overall. |
| ItemsController.TakeThenReturnDetaches | api/controllers/items.js:508-660 | If nothing was outstanding at the location, taking one piece and returning it closes the new take, and the item is unlinked from the location. |
| Passport.FindByName | api/config/passport.js:13 | The lookup yields a stored user with the given name, and yields nothing iff no user has it. |
| Passport.Verify | api/config/passport.js:6-23 | A lookup error is passed on first. "Incorrect username." is the result iff no user has the name. "Incorrect password." is the result iff the user found rejects the password. Success is the result iff the password checks, and returns that user. |
| Authentication.StripSentinel | api/controllers/authentication.js:62 | The stored name is the submitted name without its last character. |
| Authentication.Register | api/controllers/authentication.js:52-75 | A missing field gives 400 "All fields required.". A name not ending in `;` gives 400 "Contact admin to register". A user is saved iff every check passes and saving succeeds; it is stored without the `;`, gets the derived credential, and is answered 200 with its token under the new id. A failed save gives 500 with the save error's message. |
| Authentication.RegisterStoresNameWithoutSentinel | api/controllers/authentication.js:58-70 | A name typed with the trailing `;` is registered under the name without it. |
| Authentication.Login | api/controllers/authentication.js:142-151 | A missing field gives 400 "All fields required.". Otherwise a lookup error gives 500 with its message. It gives 401 "Incorrect username." iff no stored user has the name, and 401 "Incorrect password." iff the first user with the name rejects the password. It gives 200 iff that user accepts it, carrying that stored user's token. |
| Authentication.LoginOutcomes | api/controllers/authentication.js:142-151 | An unknown name gives 401 "Incorrect username." A wrong password gives 401 "Incorrect password." Otherwise the token issued names the user logged in. |
| Client.FirstWithId | app/src/app/item-take/item-take.component.ts:49-55 | The search loop with `break` stops at the first entry with the id, or finds none iff no entry has it. |
| ItemTake.ItemTakeComponent.TakeItem | app/src/app/item-take/item-take.component.ts:46-70 | The two lists become one step of moving a unit of the item from the available list to the take list. |
| ItemTake.ItemTakeComponent.ReturnItem | app/src/app/item-take/item-take.component.ts:72-96 | The same step in the opposite direction. |
| ItemTake.Move | app/src/app/item-take/item-take.component.ts:46-70 | The search, decrement, splice and increment-or-append loops compute exactly one move step. |
| ItemTake.MoveShiftsOneUnit | app/src/app/item-take/item-take.component.ts:57-69 | Without a unit to move, both lists stay unchanged. Otherwise exactly one unit of that id, and of no other id, leaves the source and joins the destination, so each id's total across both lists is kept. |
| ItemTake.MoveKeepsListsWellFormed | app/src/app/item-take/item-take.component.ts:57-69 | A step keeps each list free of duplicate ids and every entry non-empty. An entry that gave up its last unit leaves the source. |
| ItemTake.MovedUnitCanMoveBack | app/src/app/item-take/item-take.component.ts:72-96 | After a unit has moved, the reverse step finds a unit to move back. |
| ItemTake.TakeThenReturnRestores | app/src/app/item-take/item-take.component.ts:46-96 | Taking a unit and returning it restores every id's units in both lists. |
| FilterMyItems.FirstTook | app/src/app/shared/pipes/filter-my-items.pipe.ts:16-22 | The date is absent iff the user has no outstanding take. Otherwise it is the `dateTook` of the user's first outstanding take in array order. |
| FilterMyItems.Transform | app/src/app/shared/pipes/filter-my-items.pipe.ts:9-30 | Every item with takes is overwritten in the array with the user's outstanding sum and first date; items without takes are left alone. The result is the filter's view of the original array. |
| FilterMyItems.MyItemsViewMembers | app/src/app/shared/pipes/filter-my-items.pipe.ts:23-25 | An item is returned iff it is the rewrite of an input item with takes whose user sum is positive. Every returned item has a positive quantity and a date. |
| FilterMyItems.MyItemsViewAppend | app/src/app/shared/pipes/filter-my-items.pipe.ts:12-26 | The filter's result on two concatenated arrays is the concatenation of its results. |
| FilterMyItems.HeldImpliesDate | app/src/app/shared/pipes/filter-my-items.pipe.ts:16-24 | A non-zero user sum comes with a recorded date. |
| FilterMyItems.FirstTookIsEarliestInOrder | app/src/app/shared/pipes/filter-my-items.pipe.ts:19-21 | When takes are stored in date order, the recorded date is the earliest of the user's outstanding takes. |
| FilterMyItems.FirstTookNotEarliest | app/src/app/shared/pipes/filter-my-items.pipe.ts:19-21 | Two outstanding takes dated 5 then 3: the pipe records 5. |
| MyItems.MyUserId | app/src/app/my-items/my-items.component.ts:62-64 | The id is empty iff there is no user, no id, or an empty id. Otherwise it is the user's id. |
| MyItems.FindEntry | app/src/app/my-items/my-items.component.ts:33-38 | The nested search finds the first location with the id that lists the item, and the item's first position there. It finds nothing iff no location matches. |
| MyItems.MyItemsComponent.ReturnConfirmed | app/src/app/my-items/my-items.component.ts:31-60 | Without a matching entry nothing changes. Otherwise the screen becomes the after-return view of that entry, and `iteration` advances by one. |
| MyItems.SettleEach | app/src/app/my-items/my-items.component.ts:42-50 | The loop takes one piece off every outstanding take of the user and closes those that reach zero. |
| MyItems.AfterReturnTouchesOneEntry | app/src/app/my-items/my-items.component.ts:39-51 | Only the entry found changes. It loses one unit, or is removed when it held one, and the other entries keep their order. |
| MyItems.SettleMineLowersByCount | app/src/app/my-items/my-items.component.ts:42-50 | The client's update lowers the user's outstanding sum by the number of the user's outstanding takes. |
| MyItems.ClientSettlesMoreThanServer | app/src/app/my-items/my-items.component.ts:42-50 | With two outstanding takes of the user at the location, the server lowers the user's sum by one and the client by at least two. |
| LocationShow.TemporaryViewMembers | app/src/app/location-show/location-show.component.ts:71-98 | An item is listed iff pieces of it are still out at the location, with that number as its quantity. The list is never longer than the input. |
| LocationShow.UntakenItemNotListed | app/src/app/location-show/location-show.component.ts:76-92 | An item without takes is never listed at a temporary location. |
| LocationShow.LocationShowComponent.SelectWarehouse | app/src/app/location-show/location-show.component.ts:34 | Choosing a warehouse in the selector, which starts at -1 (none chosen), sets only the selector. The location, its list and its count are unchanged. |
| LocationShow.LocationShowComponent.GetItemsOnLocation | app/src/app/location-show/location-show.component.ts:63-103 | A warehouse lists the fetched items and counts them. A temporary location lists the temporary view, and its count grows by the number listed. |
| LocationShow.LocationShowComponent.DeleteLoc | app/src/app/location-show/location-show.component.ts:106-111 | The deletion is sent, followed by navigation, iff no item is listed. |
| LocationShow.LocationShowComponent.DeleteWrh | app/src/app/location-show/location-show.component.ts:115-127 | The warehouse is deleted iff it is empty or a destination warehouse is chosen. Before the deletion, each listed item is relocated to the chosen warehouse, only when the list is not empty. The update copies the item's code, description, type, name, quantity and takes. |
| LocationShow.RelocateItems | app/src/app/location-show/location-show.component.ts:134-150 | One update per item, in order, copying the displayed fields and quantity and setting the default location to the target. |
| ItemShow.IndexOf | app/src/app/item-show/item-show.component.ts:63 | The first position of the type in the list, or -1 iff it is absent. |
| ItemShow.ItemShowComponent.constructor | app/src/app/item-show/item-show.component.ts:46-72 | `inWrh` is set iff every take is returned. The shown quantity is the stored one less the outstanding takes. The form starts from the shown item, and the whole form is disabled when a take is outstanding. |
| ItemShow.ItemShowComponent.DissableForm | app/src/app/item-show/item-show.component.ts:131-138 | All six controls become disabled; nothing else changes. |
| ItemShow.ItemShowComponent.OnSubmit | app/src/app/item-show/item-show.component.ts:80-105 | With a take outstanding it only warns. A request is sent iff every piece is back and the form is valid. The update then carries every form field (code, warehouse, description, the type the index names, name and quantity) and the loaded takes, and is followed by the confirmation and a reload. |
| ItemShow.ItemShowComponent.OnDelete | app/src/app/item-show/item-show.component.ts:107-122 | The same guard. The deletion is sent, then the page navigates to the item list, iff every piece is back and the form is valid. |
| ItemShow.ShownEqualsStoredIffAllReturned | app/src/app/item-show/item-show.component.ts:50-58 | With positive take quantities, the page shows at most the stored quantity, and exactly the stored quantity iff every take is returned. |
| ItemShow.KnownTypeFormValid | app/src/app/item-show/item-show.component.ts:60-67 | For a known type, the initial form is valid iff name, code and quantity are. The type index maps back to the item's type. |
| LocationList.PermFirst | app/src/app/location-list/location-list.component.ts:54-62 | The comparator gives -1, 1 or 0 iff the first type is below, above or equal to the second. |
| LocationList.PermFirstAntisymmetric | app/src/app/location-list/location-list.component.ts:54-62 | Swapping the arguments negates the comparison. |
| LocationList.StrLessTransitive | app/src/app/location-list/location-list.component.ts:55-58 | String `<` is transitive; it is also irreflexive, asymmetric and total on distinct strings (the StrLess lemmas). |
| LocationList.SortByTypeCorrect | app/src/app/location-list/location-list.component.ts:30 | The sorted list is ordered by the comparator and is a permutation of the fetched locations. |
| LocationList.PermanentBeforeTemporary | app/src/app/location-list/location-list.component.ts:30 | In an ordered list every warehouse comes before every temporary location. |
| LocationList.LocationListComponent.LocationsArrived | app/src/app/location-list/location-list.component.ts:26-46 | The locations become the sorted list, each temporary one counting its items, with warehouses before temporary locations. The requests sent are one available-items request per location that is not temporary, in list order. |
| LocationList.LocationListComponent.CountEach | app/src/app/location-list/location-list.component.ts:34-46 | The loop updates the list in place: each temporary location gets the number of its items, and every other location is unchanged and has its count requested. |
| LocationList.CountRequestsMembers | app/src/app/location-list/location-list.component.ts:37-44 | A count is requested iff the location is not temporary, and no other request is sent. |
| LocationList.LocationListComponent.AvailableCountArrived | app/src/app/location-list/location-list.component.ts:43 | Only that warehouse's count is set, to the number of available items. |

## Left out

- Persistence is in memory: a save is an assignment to a collection. Database errors on `findById`/`save` and partial writes are not modelled, apart from `saveError` and `lookupError` in registration and login.
- DbModels.Take, DbModels.Item, ItemsController.TakeRequest, Client.ClientItem: `Take.quantity`, `Item.quantity`, `TakeRequest.quantity` and `ClientItem.quantity` are integers in this model. The schemas declare them as `Number`, and the take schema has no `min`, so a fractional quantity such as 1.5 is accepted by the server. Such quantities are not modelled: a take of 1.5 would pass 0.5 and -0.5 without ever reaching 0, so it would never be closed, and a client entry would never be spliced out.
- ItemsController.TakeStep: a request entry always carries a quantity, because `TakeRequest.quantity` is an integer. An entry without a quantity fails the take schema when the item is saved, answers 500 and rejects; that path is not modelled.
- ItemsController.TakeStep, ItemsController.ReturnSpec: an unknown item or location makes the handlers dereference `null`. That throws inside the callback: no reply is sent, and in `takeItems` the awaited promise never settles. `ItemNotFound`, `LocationNotFound`, `ItemMissing` and `LocationMissing` stand for that thrown error; they are not replies.
- The HTTP reply of the item handlers is reduced to an outcome. `Unanswered` marks the paths of `returnItem` that send no reply.
- Asynchronous callbacks and concurrent requests are not modelled. Each handler, and each client callback, runs as one step.
- The current user (`getUser`), the clock (`Date.now`), the generated ids, password hashing (`setPassword`/`validPassword`) and JWT signing are parameters or plain values. Token expiry is not part of this model.
- `item-types.js` is not part of this model; the enumeration of item types is the parameter `itemTypes`.
- `locations.js` and the location and item CRUD routes are not modelled, apart from the schema rules they rely on.
- passport-local's own "Missing credentials" failure is not modelled: the login guard makes it unreachable.
- LocationList.SortByTypeCorrect: `Array.prototype.sort` is modelled as a stable insertion sort on a sequence, not as the engine's in-place sort. The comparator makes the order of distinct types unique, and only stability decides the order within a type.
- Client objects shared between lists (aliasing) are not modelled. Every client list holds values, except the pipe's input array, which is an `array`.
- ItemShow.FormValid: the `min(0)` validator on the warehouse control is omitted. It compares an id string with 0 and never rejects a chosen warehouse.
- ItemShow.ItemShowComponent.constructor: the item types arrive as the parameter `itemTypes`; the lookup through the data service is not modelled.
- The take screen's `saveTakeItems`, `getLocationOptions` and `getAvailableItems`, the table paginators and filters, and routing are not modelled. They only wire requests to views.
- The client's HTTP services are reduced to `Effect` values that the handlers produce. Data a handler waits for (the fetched items, locations or counts) is a parameter of the callback that receives it.
