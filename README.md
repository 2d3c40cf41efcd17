# ObraLedger core, modelled in Dafny

ObraLedger is an offline-first ledger for funerals ("obra"). It records the
deceased, the contributors who pledge support, the contributions they make
and the expenses of each funeral. Everything is kept in a browser
IndexedDB database. A sync service pushes unsynced records to a backend and
merges what the backend sends back. A small authentication service keeps the
signed-in user in `localStorage`.

This project models that core:

- `lib/database.ts`: the six object stores, with IndexedDB's key generator
  and primary-key order.
- `lib/syncService.ts`: the checkpoint, the unsynced-change request, the push
  and its HTTP verdicts, applying server changes, and one sync run with its
  guards.
- `lib/auth.ts`: login, registration, logout, the restored session, tokens,
  roles and listeners.
- The pure derivations of the screens:
  - the sync status badge;
  - the reports page (filters, chart tallies and the CSV export);
  - the global search;
  - the dashboard (totals, recent items, counts and charts);
  - the file upload field;
  - the grouping of contributors by religion;
  - the notification bell.

Each module follows one source file:

| module | models |
|---|---|
| `Tables` | object-store semantics |
| `Records` | the entity records and their partial updates |
| `LocalDatabase` | `lib/database.ts` |
| `Storage` | `localStorage` |
| `Auth` | `lib/auth.ts` |
| `Sync` | `lib/syncService.ts` |
| `SyncStatusView` | the sync status badge |
| `Reports` and `Csv` | the reports page and its CSV export |
| `Search` | the global search |
| `Dashboard` | the dashboard |
| `FileUploads` | the file upload field |
| `ContributorGroups` | the contributors page |
| `Notifications` | the notification bell |
| `Lookups`, `Strings`, `Seqs`, `Optional` | shared helpers |

Objects whose fields the code updates become classes with `modifies`
frames:

- the database, the sync service and the auth service;
- browser storage;
- the search box and the upload field.

Each method on these classes is proved against a specification function on
values. The properties are then proved about those functions.

The model follows the code, including where it departs from what its names
suggest:

- Updating a missing id is a silent no-op. No error is raised.
- There is no contributor delete.
- Server contributions and expenses are added with the id they arrive with.
  A clash with a stored id aborts the rest of the merge.
- `getAllDeceased`, `getAllContributions` and `getAllExpenses` sort newest
  first by `createdAt` or `date`. They do this by sorting the rows
  descending after reading them in descending id order.

## Model

| member | source | states |
|---|---|---|
| Tables.IndexOf | lib/database.ts:134-136 | the position of the row with a primary key; none exactly when no row has it |
| Tables.Get | lib/database.ts:134-136 | `get(id)` returns a stored row carrying that key, and nothing exactly when no row has it |
| Tables.GetRow | lib/database.ts:248-250 | in a store ordered by key, looking up a row's key finds that row |
| Tables.Insert | lib/database.ts:82-107 | inserting a new key keeps the rows in ascending key order and adds exactly that row |
| Tables.GetInsert | lib/database.ts:82-107 | after an insert the new key finds the new row and every other key finds what it found before |
| Tables.Replace | lib/database.ts:127-132 | `put` of a row: rows with that key become the row, the others are untouched |
| Tables.GetReplace | lib/database.ts:127-132 | replacing keeps key order and changes only what the replaced key finds |
| Tables.Remove | lib/database.ts:142-144 | deletion only drops rows |
| Tables.GetRemove | lib/database.ts:142-144 | after deleting a key nothing is found under it; every other key finds what it found before |
| Tables.AssignKey | lib/database.ts:82-107 | the `++id` generator: without an explicit key the key is the generator's number and the generator steps by one; an explicit key at or above it pushes it past that key; a lower explicit key leaves it alone |
| Tables.BulkAdd | lib/database.ts:318-323 | a successful `bulkAdd` keeps key order, keeps every key below the generator and adds exactly the given rows |
| Tables.BulkAddClash | lib/database.ts:318-323 | `bulkAdd` fails when a row's key is already stored |
| Tables.BulkAddDuplicate | lib/database.ts:318-323 | `bulkAdd` fails when two of the added rows share a key |
| Tables.BulkAddInOrder | lib/database.ts:318-323 | adding rows already in key order above the stored ones appends them as they are |
| Tables.Reload | lib/database.ts:318-323 | `bulkAdd` of a well-formed store's rows into an empty store rebuilds those rows |
| Tables.Empty | lib/database.ts:82-107 | a new store has no rows and its generator starts at 1 |
| Tables.Add | lib/database.ts:117-125 | `add` fails exactly when the key is taken; on success the store stays well-formed and the generator moves past the key |
| Tables.AddGet | lib/database.ts:117-125 | after `add` the new key finds the new row, other keys are unchanged, and there is one more row |
| Tables.AddGenerated | lib/database.ts:117-125 | adding under the generated key always succeeds and steps the generator by one |
| Tables.Update | lib/database.ts:127-132 | `update(id, changes)` patches exactly the row with that key if there is one (a missing id changes nothing) and keeps the row count and generator |
| Tables.Delete | lib/database.ts:142-144 | `delete(id)` removes exactly that key and keeps the generator |
| Tables.Clear | lib/database.ts:328-344 | `clear()` empties the rows and keeps the generator, so keys are never reused |
| Tables.BulkAddTo | lib/database.ts:318-323 | a successful `bulkAdd` on a store adds exactly the given rows and never moves the generator back |
| Tables.ClearReload | lib/database.ts:310-323 | clearing a store and bulk-adding its old rows gives back the same store |
| Records.PatchDeceased | lib/database.ts:127-132 | a partial update keeps the id, stamps `updatedAt`, writes every field the patch carries and leaves each field it omits as it was |
| Records.PatchContributor | lib/database.ts:173-178 | a partial update keeps the id, stamps `updatedAt`, writes every field the patch carries and leaves omitted fields as they were |
| Records.PatchUser | lib/database.ts:252-257 | a partial update keeps the id and `createdAt`, stamps `updatedAt`, writes every field the patch carries and leaves omitted fields as they were |
| Records.DeceasedFullPatch | lib/syncService.ts:166-173 | a server record applied as a patch replaces every field, except that a missing photo keeps the local one |
| Records.ReligionCountsCover | lib/database.ts:4-68 | every contributor has exactly one of the three religions |
| Records.StatusCountsCover | lib/database.ts:4-68 | every deceased is either pending or completed |
| LocalDatabase.AddTo | lib/database.ts:117-125 | adding keeps the store well-formed |
| LocalDatabase.AddToGet | lib/database.ts:117-125 | an add is refused exactly when the key is taken, and then changes nothing; otherwise the id returned is the row's key, the row is found under it, and no other key changes |
| LocalDatabase.SetSettingIn | lib/database.ts:265-272 | `setSetting` keeps the settings store well-formed; its upsert behaviour is stated by `LocalDatabase.SetSettingFrame` |
| LocalDatabase.SetSettingFrame | lib/database.ts:265-272 | `setSetting` is an upsert: an existing key's first row is rewritten in place with the new value and time, with no second row; a new key gets one row appended under the generated id; every other key reads the same value as before |
| LocalDatabase.SettingValue | lib/database.ts:260-263 | `getSetting` is absent exactly when no setting has the key, and otherwise is the value of the first row, in key order, that has the key |
| LocalDatabase.SetThenGetSetting | lib/database.ts:260-272 | after `setSetting(k, v)`, `getSetting(k)` is `v`, both when the key existed and when it is new |
| LocalDatabase.SetExistingThenGet | lib/database.ts:265-269 | updating an existing setting rewrites that row in place, leaves every other row and the generator alone, and makes it read back as the new value |
| LocalDatabase.SetNewThenGet | lib/database.ts:270-271 | adding a new setting appends exactly one row under the generated id, which reads back as its value |
| LocalDatabase.UpdateKeepsKeys | lib/database.ts:127-132 | an update never changes a row's primary key |
| LocalDatabase.AppendGenerated | lib/database.ts:117-125 | a row under the generated key lands after all stored rows |
| LocalDatabase.Export | lib/database.ts:275-291 | the export holds every stored row of each store, and for a well-formed database lists each collection by strictly ascending id |
| LocalDatabase.Import | lib/database.ts:293-325 | a successful import leaves each store holding exactly the imported rows, well-formed |
| LocalDatabase.ExportImportRoundTrip | lib/database.ts:275-325 | importing a database's own export gives back that database, generators included |
| LocalDatabase.ImportRefusesDuplicateDeceased | lib/database.ts:318-323 | an import with two deceased sharing an id fails |
| LocalDatabase.ImportRefusesDuplicateUser | lib/database.ts:318-323 | an import with two users sharing an id fails |
| LocalDatabase.ClearAll | lib/database.ts:328-344 | clearing empties all six stores and keeps every key generator |
| LocalDatabase.ClearDoesNotReuseKeys | lib/database.ts:328-344 | after a clear, the next generated deceased id is above every id used before |
| LocalDatabase.NewestFirst | lib/database.ts:138-140 | the reverse-then-sort read is a permutation of the rows, sorted newest first |
| LocalDatabase.AllDeceasedSpec | lib/database.ts:138-140 | `getAllDeceased` returns every deceased once, newest `createdAt` first (for a store whose `createdAt` keys are all of one type; see Left out) |
| LocalDatabase.AllContributionsSpec | lib/database.ts:209-211 | `getAllContributions` returns every contribution once, latest `date` first |
| LocalDatabase.AllExpensesSpec | lib/database.ts:226-228 | `getAllExpenses` returns every expense once, latest `date` first |
| LocalDatabase.Database.constructor | lib/database.ts:82-107 | a new database has six empty stores, each generator at 1 |
| LocalDatabase.Database.AddDeceased | lib/database.ts:117-125 | `addDeceased` stamps the record and adds it under the chosen key, or is refused with nothing changed |
| LocalDatabase.Database.AddContributor | lib/database.ts:163-171 | `addContributor` stamps the record and adds it, or is refused with nothing changed |
| LocalDatabase.Database.AddContribution | lib/database.ts:193-199 | `addContribution` stamps the record and adds it, or is refused with nothing changed |
| LocalDatabase.Database.AddExpense | lib/database.ts:214-220 | `addExpense` stamps the record and adds it, or is refused with nothing changed |
| LocalDatabase.Database.AddUser | lib/database.ts:231-238 | `addUser` returns the generated id and appends the stamped user |
| LocalDatabase.Database.UpdateDeceased | lib/database.ts:127-132 | `updateDeceased` patches that row and stamps `updatedAt` |
| LocalDatabase.Database.UpdateContributor | lib/database.ts:173-178 | `updateContributor` patches that row and stamps `updatedAt` |
| LocalDatabase.Database.UpdateUser | lib/database.ts:252-257 | `updateUser` patches that row and stamps `updatedAt` |
| LocalDatabase.Database.DeleteDeceased | lib/database.ts:142-144 | `deleteDeceased` removes exactly that id |
| LocalDatabase.Database.MarkDeceasedAsSynced | lib/database.ts:146-148 | sets `isSynced` on that deceased only |
| LocalDatabase.Database.MarkContributorAsSynced | lib/database.ts:150-152 | sets `isSynced` on that contributor only |
| LocalDatabase.Database.MarkContributionAsSynced | lib/database.ts:154-156 | sets `isSynced` on that contribution only |
| LocalDatabase.Database.MarkExpenseAsSynced | lib/database.ts:158-160 | sets `isSynced` on that expense only |
| LocalDatabase.Database.SetSetting | lib/database.ts:265-272 | the settings store becomes `SetSettingIn` of the old one, which `LocalDatabase.SetSettingFrame` shows updates the key's setting in place or adds it, with every other key unchanged |
| LocalDatabase.Database.ImportData | lib/database.ts:293-325 | `importData` reports success exactly when the import can be applied; on failure the database is unchanged |
| LocalDatabase.Database.ClearAllData | lib/database.ts:328-344 | `clearAllData` empties every store and keeps the generators |
| LocalDatabase.Database.Load | lib/database.ts:82-107 | any well-formed state can be loaded as the database's contents |
| LocalDatabase.Database.AllContributors | lib/database.ts:184-186 | `getAllContributors` returns every contributor once, in ascending id order |
| LocalDatabase.Database.ContributorsByReligion | lib/database.ts:188-190 | exactly the contributors of that religion, in store order |
| LocalDatabase.Database.ContributionsByDeceased | lib/database.ts:201-203 | exactly the contributions for that deceased, in store order |
| LocalDatabase.Database.ContributionsByContributor | lib/database.ts:205-207 | exactly the contributions from that contributor, in store order |
| LocalDatabase.Database.ExpensesByDeceased | lib/database.ts:222-224 | exactly the expenses of that deceased, in store order |
| LocalDatabase.Database.UserByEmail | lib/database.ts:240-242 | the first stored user, in key order, with exactly that email, and none exactly when no user has it |
| LocalDatabase.Database.GetSetting | lib/database.ts:260-263 | the value of the first setting, in key order, with the key; absent exactly when no setting has it |
| Storage.BrowserStorage.constructor | lib/auth.ts:39-52 | storage starts with the given saved user, token and sync timestamp |
| Auth.CanEdit | lib/auth.ts:239-241 | true exactly for a signed-in admin or recorder |
| Auth.CanView | lib/auth.ts:243-245 | true exactly when someone is signed in, since every role may view |
| Auth.EveryRole | lib/auth.ts:243-245 | the four roles listed in `canView` are all the roles there are |
| Auth.CanManageUsers | lib/auth.ts:247-249 | true exactly for an admin; an admin may also edit and see financials |
| Auth.CanViewFinancials | lib/auth.ts:251-253 | true exactly for a signed-in admin or auditor |
| Auth.LocalLogin | lib/auth.ts:80-85 | the local login succeeds exactly when the first user matching the credentials has a non-zero id, and then signs in as that user |
| Auth.LocalLoginSucceedsIff | lib/auth.ts:80-85 | with real ids, the local login succeeds exactly when some active user has that email (ignoring case) and that password |
| Auth.LoginIgnoresEmailCase | lib/auth.ts:80-85 | two emails that differ only in case log in identically |
| Auth.EmailInUse | lib/auth.ts:158-165 | true exactly when some user has that email, ignoring case |
| Auth.ActiveUserExists | lib/auth.ts:269-279 | true exactly when an active user has that email, ignoring case |
| Auth.Broadcast | lib/auth.ts:263-266 | every listener is called once, in subscription order, with the current user |
| Auth.BroadcastAppend | lib/auth.ts:263-266 | notifying a joined list of listeners notifies the first part, then the second |
| Auth.SubscribeThenUnsubscribe | lib/auth.ts:256-261 | unsubscribing right after subscribing removes the listener; a listener that was new leaves the list as it was |
| Auth.RestoredSession | lib/auth.ts:39-52 | a session is restored only when a truthy token and a readable saved user are both present |
| Auth.LocalSessionNotRestored | lib/auth.ts:87-99 | a local login saves the user but no token, so reloading never restores it |
| Auth.AuthService.constructor | lib/auth.ts:24-27 | the service starts with no user, no token and no listeners |
| Auth.AuthService.GetToken | lib/auth.ts:205-221 | the stored token when truthy; otherwise a token made for the current user, expiring 7 days later; none with neither |
| Auth.AuthService.NotifyListeners | lib/auth.ts:263-266 | each listener is called with the current user |
| Auth.AuthService.Subscribe | lib/auth.ts:256-261 | the listener is appended |
| Auth.AuthService.Unsubscribe | lib/auth.ts:256-261 | every copy of the listener is removed and the others keep their order |
| Auth.AuthService.Initialize | lib/auth.ts:30-69 | the default admin is created only when there are no users; a saved session is restored and announced; an unreadable saved user is wiped together with the token |
| Auth.AuthService.Login | lib/auth.ts:71-154 | a backend answer wins and its token is kept; otherwise the local login decides; success saves and announces the user, failure changes nothing |
| Auth.AuthService.Register | lib/auth.ts:156-194 | refused exactly when the email is in use, and then nothing changes; otherwise exactly the new user is stored, signed in and announced |
| Auth.AuthService.Logout | lib/auth.ts:196-202 | the user and token are cleared in memory and storage, and listeners hear `null` |
| Auth.AuthService.CheckUserExists | lib/auth.ts:269-279 | true exactly when an active user has that email, ignoring case |
| Auth.AuthService.UpdateProfile | lib/auth.ts:282-305 | the user row is patched; the session is refreshed and announced only when it is that user |
| Auth.AuthService.ChangePassword | lib/auth.ts:308-321 | succeeds exactly when the current password matches; then the new password is stored, otherwise nothing changes |
| Sync.Checkpoint | lib/syncService.ts:57-62 | the checkpoint is never empty, and a cached truthy value is used as it is |
| Sync.CheckpointCached | lib/syncService.ts:57-62 | once read, the checkpoint stays the same whatever is stored later |
| Sync.UnsyncedMembers | lib/syncService.ts:71-105 | the request holds exactly the stored records not yet synced |
| Sync.PendingKeepsOrder | lib/syncService.ts:71-105 | each list of the request keeps the order of its `getAll` read |
| Sync.NothingToSendIffAllSynced | lib/syncService.ts:233-238 | there is nothing to send exactly when every record is synced |
| Sync.Classify | lib/syncService.ts:108-160 | accepted exactly on an ok reply; the backend is marked down exactly on 404 or 0, up exactly on 401 or ok, and otherwise left as it was |
| Sync.Upsert | lib/syncService.ts:166-183 | the update-or-add of a server record keeps the store well-formed |
| Sync.UpsertGet | lib/syncService.ts:166-183 | a known id is patched, an unknown one is added as sent, other ids are untouched |
| Sync.ApplyDeceased | lib/syncService.ts:166-173 | applying server deceased keeps the store well-formed |
| Sync.ApplyContributors | lib/syncService.ts:176-183 | applying server contributors keeps the store well-formed |
| Sync.ApplyDeceasedPrefix | lib/syncService.ts:166-173 | the loop applies the server deceased one at a time, in order |
| Sync.ApplyContributorsPrefix | lib/syncService.ts:176-183 | the loop applies the server contributors one at a time, in order |
| Sync.ApplyDeceasedStep | lib/syncService.ts:166-173 | the last server deceased patches the stored row with its id, or is added when none exists |
| Sync.ApplyContributorsStep | lib/syncService.ts:176-183 | the last server contributor patches the stored row with its id, or is added when none exists |
| Sync.ApplyDeceasedStoresAll | lib/syncService.ts:166-173 | every server deceased is present afterwards |
| Sync.ApplyDeceasedKeepsOthers | lib/syncService.ts:166-173 | ids the server did not send are untouched |
| Sync.ApplyDeceasedLast | lib/syncService.ts:166-173 | the row a server deceased leaves is the server's record, stamped, keeping the local photo when none was sent |
| Sync.ApplyContributorsStoresAll | lib/syncService.ts:176-183 | every server contributor is present afterwards |
| Sync.ApplyContributorsKeepsOthers | lib/syncService.ts:176-183 | ids the server did not send are untouched |
| Sync.AppendAll | lib/syncService.ts:186-197 | adding server contributions or expenses keeps the store well-formed |
| Sync.AppendAllStep | lib/syncService.ts:186-197 | while nothing has failed, each record is added in turn |
| Sync.AppendAllKeepsStored | lib/syncService.ts:186-197 | rows already stored are never overwritten |
| Sync.AppendAllStoresAll | lib/syncService.ts:186-197 | when every add succeeds, every sent record is stored under its key exactly as sent |
| Sync.AppendAllStops | lib/syncService.ts:186-197 | after the first failed add, nothing more is added |
| Sync.AppendAllRefusesStored | lib/syncService.ts:186-197 | a sent record whose id is already stored makes the merge fail, and the stored row stays |
| Sync.StampContributions | lib/syncService.ts:186-190 | each server contribution keeps its id and every other field the server sent, except that it is marked not synced and created now |
| Sync.StampExpenses | lib/syncService.ts:193-197 | each server expense keeps its id and every other field the server sent, except that it is marked not synced and created now |
| Sync.ApplyStoresPulledUnsynced | lib/syncService.ts:186-197 | after a fully applied reply every contribution and expense the server sent is stored under its id with the server's fields, marked not synced and created now |
| Sync.ApplyChanges | lib/syncService.ts:163-202 | applying server changes keeps the database well-formed and never touches users or settings |
| Sync.ApplyKeepsLocalRecords | lib/syncService.ts:163-202 | stored contributions and expenses are never overwritten; deceased and contributors the server did not send are untouched |
| Sync.ApplyNothing | lib/syncService.ts:163-202 | empty server changes leave the database as it was and succeed |
| Sync.ApplyRefusesKnownContribution | lib/syncService.ts:186-190 | a server contribution with an id already stored makes the apply fail |
| Sync.Merged | lib/syncService.ts:241-252 | merging a reply keeps the database well-formed |
| Sync.SyncRun | lib/syncService.ts:214-269 | a sync keeps the database well-formed; while a sync is running or offline it changes nothing |
| Sync.CheckpointOnlyOnSuccess | lib/syncService.ts:241-264 | the stored checkpoint moves only after an ok reply with data whose changes merged, and then to the server's timestamp; a failed run keeps it |
| Sync.PostedOnlyWithChanges | lib/syncService.ts:233-241 | a request is posted exactly when there is a token and something to send, and it is the pending request |
| Sync.SyncWritesOnlyAfterReply | lib/syncService.ts:241-252 | the database changes only after an ok reply with data; availability moves only when something was posted |
| Sync.SentIsUnsynced | lib/syncService.ts:214-241 | a run posts exactly when idle, online, holding a token and with unsynced records, and posts exactly those records under the checkpoint |
| Sync.SyncedRecordsAreSentAgain | lib/syncService.ts:244-252 | a successful sync whose reply carries no records leaves the database as it was, so the next run sends the same records again |
| Sync.SyncKeepsLocalRecords | lib/syncService.ts:163-252 | whatever a sync's outcome, stored contributions and expenses keep their rows, and so do deceased and contributors the reply did not send back |
| Sync.PendingRecordsStayPending | lib/syncService.ts:163-252 | records are never marked synced: every record a sync found unsynced is still stored unsynced afterwards, and so is sent again, unless the reply sent back a deceased or contributor record with its id |
| Sync.SyncService.constructor | lib/syncService.ts:37-42 | the service starts idle, with no checkpoint and no timer, and the backend assumed available |
| Sync.SyncService.LoadLastSyncTimestamp | lib/syncService.ts:57-62 | the checkpoint is read and cached |
| Sync.SyncService.SetLastSyncTimestamp | lib/syncService.ts:65-68 | the checkpoint is cached and stored |
| Sync.SyncService.GetUnsyncedChanges | lib/syncService.ts:71-105 | the request is built from the database's unsynced records under the checkpoint |
| Sync.SyncService.PushChanges | lib/syncService.ts:108-160 | without a token nothing is posted and nothing changes; otherwise the request is posted and the reply classified |
| Sync.SyncService.ApplyDeceasedChanges | lib/syncService.ts:166-173 | the deceased store becomes the result of applying the server deceased |
| Sync.SyncService.ApplyContributorChanges | lib/syncService.ts:176-183 | the contributor store becomes the result of applying the server contributors |
| Sync.SyncService.AddServerContributions | lib/syncService.ts:186-190 | the contributions are added in order until one fails |
| Sync.SyncService.AddServerExpenses | lib/syncService.ts:193-197 | the expenses are added in order until one fails |
| Sync.SyncService.ApplyServerChanges | lib/syncService.ts:163-202 | the database and the success flag are those of applying the server changes |
| Sync.SyncService.SyncOnce | lib/syncService.ts:225-264 | one run past the guards ends in the outcome the specification function gives |
| Sync.SyncService.Sync | lib/syncService.ts:214-269 | `sync` ends in the outcome of a run, and the running flag is cleared again |
| Sync.SyncService.ManualSync | lib/syncService.ts:294-296 | a manual sync is a sync |
| Sync.SyncService.StopAutoSync | lib/syncService.ts:285-291 | no timer is left |
| Sync.SyncService.StartAutoSync | lib/syncService.ts:272-282 | any old timer is replaced by one timer repeating every given number of minutes, every five minutes when none is given |
| Sync.SyncService.SyncStatus | lib/syncService.ts:299-306 | the status holds the browser's online flag and the service's flags |
| SyncStatusView.State | components/ui/sync-status.tsx:63-152 | the precedence every status function uses: syncing, then offline, then backend down, then synced, then never synced, each stated as an exact condition |
| SyncStatusView.AgeText | components/ui/sync-status.tsx:96-108 | "Just Synced" exactly when less than a whole minute has passed |
| SyncStatusView.DisplayAgrees | components/ui/sync-status.tsx:63-152 | icon, headline, colour and description all show the one state the precedence selects |
| SyncStatusView.DisplayDistinct | components/ui/sync-status.tsx:63-81 | different states never share an icon or a description |
| SyncStatusView.AgeInMinutes | components/ui/sync-status.tsx:99-104 | from 1 to 59 whole minutes the headline counts minutes |
| SyncStatusView.AgeInHours | components/ui/sync-status.tsx:105-108 | from one hour on the headline counts whole hours |
| SyncStatusView.ControlsFollowState | components/ui/sync-status.tsx:166-190 | the sync button shows exactly in the idle states; each warning badge matches its state; at most one of the three shows |
| SyncStatusView.ManualSyncClick | components/ui/sync-status.tsx:44-61 | a click during a sync does nothing; otherwise the badge turns to syncing, then to the refreshed status |
| Lookups.NameOrUnknown | components/ui/search.tsx:101-102 | "Unknown" exactly when no record was found or its name is empty (or is itself "Unknown"); otherwise the found name |
| Lookups.NameResolution | app/routes/reports.tsx:112-113 | a missing id reads "Unknown"; otherwise the name of the first record with that id |
| Reports.ApplyFilters | app/routes/reports.tsx:42-88 | each narrowed list equals one filter pass over the original by the record-by-record test, so duplicates and order are kept exactly; hence exactly the contributions, expenses and deceased passing every active filter, in their original order; contributors, users and settings pass through; no filter changes nothing |
| Reports.FilteredSnapshot | app/routes/reports.tsx:42-88 | a snapshot built from those one-pass filters holds exactly the passing records, in order, and with no filter set is the original |
| Reports.ContributionsInOnePass | app/routes/reports.tsx:48-78 | the date, deceased and contributor steps applied one after the other equal a single filter by the combined test |
| Reports.ExpensesInOnePass | app/routes/reports.tsx:48-71 | the date and deceased steps on expenses equal a single filter by the combined test |
| Reports.DeceasedInOnePass | app/routes/reports.tsx:81-85 | the status step equals a single filter by the status test, and is the identity when no status is chosen |
| Reports.ReportTotals | app/routes/reports.tsx:196-198 | the summary cards: income is the sum of the filtered contributions' amounts, spending that of the filtered expenses, and the balance their difference |
| Reports.ReportTotalsWithinAll | app/routes/reports.tsx:196-198 | with amounts never negative, the filtered income and spending never exceed the totals over every stored record |
| Reports.ContributionStages | app/routes/reports.tsx:48-78 | the three contribution filters in sequence keep exactly what passes all of them |
| Reports.ContributionsDated | app/routes/reports.tsx:48-55 | the date filter keeps exactly the contributions in the period |
| Reports.ContributionsForDeceased | app/routes/reports.tsx:64-67 | the deceased filter then keeps exactly the contributions for that deceased |
| Reports.ExpenseStages | app/routes/reports.tsx:48-71 | the two expense filters in sequence keep exactly what passes both |
| Reports.ExpensesDated | app/routes/reports.tsx:57-60 | the date filter keeps exactly the expenses in the period |
| Reports.DeceasedStage | app/routes/reports.tsx:81-85 | the status filter keeps exactly the deceased with that status |
| Reports.ChartTalliesCover | app/routes/reports.tsx:157-167 | the religion tally counts every contributor once and the status tally every deceased once; no tally entry is zero |
| Reports.CsvRecords | app/routes/reports.tsx:108-117 | one header record plus one five-field record per contribution |
| Reports.CsvReadsBack | app/routes/reports.tsx:108-117 | with every field quoted, a CSV reader gets back exactly the header and each contribution's fields |
| Reports.CsvAsWrittenSplitsNotes | app/routes/reports.tsx:108-117 | a note containing a comma makes the export as written read back with six fields |
| Csv.ParseQuoted | app/routes/reports.tsx:108-117 | records of quoted fields joined by line breaks read back as those records |
| Csv.ParsePlain | app/routes/reports.tsx:108-117 | records of plain fields joined by commas and line breaks read back as those records |
| Search.Shown | components/ui/search.tsx:149 | at most ten results are shown |
| Search.HitsAreFilter | components/ui/search.tsx:53-69 | the results a `forEach` pushes are the matching elements, in order |
| Search.HitsMembers | components/ui/search.tsx:53-69 | a result is pushed exactly when it comes from a matching element |
| Search.FoundShape | components/ui/search.tsx:50-147 | every result carries its record's type and id, comes from an enabled category, and the categories appear in order |
| Search.FoundExactly | components/ui/search.tsx:50-147 | a record is found exactly when its category is on, it is stored, and its fields match the term |
| Search.ShownIsPrefix | components/ui/search.tsx:149 | the shown results are the first ten found, all of them when there are at most ten |
| Search.UnknownNameMatches | components/ui/search.tsx:101-108 | a contribution whose deceased is missing matches "unk", through the "Unknown" placeholder |
| Search.PushMatches | components/ui/search.tsx:53-69 | the loop appends exactly the results for the matching elements |
| Search.GlobalSearch.constructor | components/ui/search.tsx:24-33 | empty query, every category on, no results shown |
| Search.GlobalSearch.PerformSearch | components/ui/search.tsx:44-156 | the results become the shown results for the query and categories, and are displayed |
| Search.GlobalSearch.Refresh | components/ui/search.tsx:35-42 | a trimmed query of two or more characters searches; a shorter one clears and hides the results |
| Search.GlobalSearch.SetQuery | components/ui/search.tsx:188 | typing sets the query, then searches or clears as above |
| Search.GlobalSearch.ToggleCategory | components/ui/search.tsx:207-236 | only the chosen category flips, then the results refresh |
| Search.GlobalSearch.ClearSearch | components/ui/search.tsx:164-168 | the query and results are cleared and hidden |
| Search.GlobalSearch.HandleResultClick | components/ui/search.tsx:158-162 | the clicked result is handed on, the query is cleared and the list hidden |
| Search.GlobalSearch.Focus | components/ui/search.tsx:190 | focusing shows the results when the trimmed query has two or more characters |
| Dashboard.TotalsAfterRecording | app/routes/_index.tsx:53-55 | one more contribution raises the total and the balance by its amount; one more expense raises the expenses and lowers the balance by its amount |
| Dashboard.TotalsOrderFree | app/routes/_index.tsx:53-55 | the totals do not depend on the order the records are read in |
| Dashboard.DashboardCounts | app/routes/_index.tsx:67-79 | the counts are the number of deceased, of pending deceased and of contributions dated more than 30 days ago, each within its list |
| Dashboard.RecentDeceasedNewest | app/routes/_index.tsx:57-60 | the five (or fewer) most recently created deceased, newest first; no one left out is newer |
| Dashboard.RecentContributionsNewest | app/routes/_index.tsx:62-65 | the five (or fewer) latest contributions, latest first; none left out is later |
| Dashboard.DashboardOrderFree | app/routes/_index.tsx:44-87 | totals and counts depend only on what is stored, not on read order |
| Dashboard.BalanceSignShown | app/routes/_index.tsx:93-99 | green and trending up exactly when the balance is not negative, red otherwise |
| Dashboard.BarStep | app/routes/_index.tsx:300-306 | one more contribution adds its amount to the bar of its month when that month is in the window, and to no other bar |
| Dashboard.Tallied | app/routes/_index.tsx:299 | the monthly chart always has six bars |
| Dashboard.TalliedBars | app/routes/_index.tsx:299-306 | the `forEach` makes each bar the sum of the contributions in its month of the window |
| Dashboard.MonthlyContributions | app/routes/_index.tsx:294-306 | each of the six bars is the total of the recent contributions in its month |
| Dashboard.BarsCover | app/routes/_index.tsx:294-306 | the six bars together hold exactly the contributions inside the window |
| Dashboard.BarsAfterCurrentEmpty | app/routes/_index.tsx:296-305 | early in the year, bars past the current month stay empty |
| Dashboard.ContributorOf | app/routes/_index.tsx:310 | the contributor found has the contribution's contributor id; with no list, none is found |
| Dashboard.ReligionTallyCounts | app/routes/_index.tsx:309-315 | each religion's slice counts the contributions whose contributor has that religion |
| Dashboard.ReligionSlicesCover | app/routes/_index.tsx:309-315 | the slices add up to the contributions whose contributor was found |
| Dashboard.ReligionChartAsWrittenEmpty | app/routes/_index.tsx:309-315 | as written, the religion chart is always empty |
| Dashboard.ReligionChartCounts | app/routes/_index.tsx:309-315 | with the contributor list supplied, each slice counts its religion's contributions, none is zero, and they cover every resolved contribution |
| Dashboard.ReligionChartMissesContributors | app/routes/_index.tsx:309-315 | a concrete dashboard on which the intended chart has a slice and the chart as written has none |
| Notifications.UnreadComplement | components/ui/notification.tsx:27 | unread plus read is all notifications; the unread count is zero exactly when all are read |
| Notifications.Badge | components/ui/notification.tsx:38-41 | a badge shows exactly when something is unread; "9+" exactly above nine; otherwise the one-digit count |
| Notifications.BadgeShownIffUnread | components/ui/notification.tsx:27-41 | the bell has a badge exactly when some notification is unread |
| Notifications.FormatTime | components/ui/notification.tsx:121-132 | "Just now" exactly when less than a minute has passed |
| Notifications.FutureIsJustNow | components/ui/notification.tsx:121-128 | a timestamp in the future reads "Just now" |
| Notifications.FormatMinutes | components/ui/notification.tsx:124-129 | from 1 to 59 whole minutes the age counts minutes |
| Notifications.FormatHours | components/ui/notification.tsx:125-130 | from 1 to 23 whole hours the age counts hours |
| Notifications.FormatDays | components/ui/notification.tsx:126-131 | from one whole day on the age counts days |
| FileUploads.TypeAccepted | components/ui/file-upload.tsx:47-52 | accepted exactly when some accepted pattern admits the type, with `image/*` admitting every `image/` type |
| FileUploads.Check | components/ui/file-upload.tsx:45-63 | the type is checked first, then the size; accepted exactly when both pass |
| FileUploads.DefaultsAcceptSmallImages | components/ui/file-upload.tsx:15-16 | with the default props, exactly images of at most 5 MB are accepted |
| FileUploads.FileUpload.constructor | components/ui/file-upload.tsx:13-23 | nothing selected, no preview, not dragging |
| FileUploads.FileUpload.HandleFile | components/ui/file-upload.tsx:45-78 | a refused file raises its alert and changes nothing else; an accepted one is selected and reported once, and previewed only if it is an image |
| FileUploads.FileUpload.HandleDrag | components/ui/file-upload.tsx:25-33 | enter or over lights the zone, leave dims it, other events leave it |
| FileUploads.FileUpload.HandleDrop | components/ui/file-upload.tsx:35-43 | the zone dims; the first dropped file, if any, is refused with the type or the size alert and nothing else changing, or else selected, reported once and previewed when it is an image |
| FileUploads.FileUpload.HandleFileInput | components/ui/file-upload.tsx:80-84 | the first picked file, if any, is refused with the type or the size alert and nothing else changing, or else selected, reported once and previewed when it is an image |
| FileUploads.FileUpload.RemoveFile | components/ui/file-upload.tsx:86-93 | the selection and preview are cleared and the parent is told there is no file |
| ContributorGroups.GroupsEntry | app/routes/contributors.tsx:53-59 | a religion has a group exactly when some contributor has it, and the group is that religion's contributors |
| ContributorGroups.GroupsStep | app/routes/contributors.tsx:54-57 | one more contributor joins the end of its religion's group, creating it if needed; other groups stay |
| ContributorGroups.FoldedGroups | app/routes/contributors.tsx:53-59 | the reduce, one contributor at a time, builds the grouping |
| ContributorGroups.GroupByReligion | app/routes/contributors.tsx:53-59 | the loop produces exactly the grouping by religion |
| ContributorGroups.GroupsArePlacement | app/routes/contributors.tsx:53-59 | groups are never empty, hold exactly their religion's contributors, and keep list order |
| ContributorGroups.GroupSizesCover | app/routes/contributors.tsx:53-59 | every contributor is in exactly one group |
| Strings.ToLower | lib/auth.ts:80-85 | `toLowerCase` keeps the length and lowers the ASCII capitals A-Z, leaving every other character as it is |
| Strings.Trim | components/ui/search.tsx:36 | `trim` gives the piece of the text that remains once the white space at both ends is cut off: only white space lies before and after it, and it neither starts nor ends with white space |
| Seqs.TopByKey | app/routes/_index.tsx:57-65 | sort-then-slice gives at most n items, sorted, taken from the list, and nothing left out ranks higher |

## Left out

- Network, clock and timers are parameters:
  - the backend's reply to a push is an `HttpReply` input;
  - the backend login answer is an input;
  - `Date.now()` and `new Date()` are `now` parameters;
  - `setInterval` is a record of timer handles and periods, never run.
- `isOnline` (`navigator.onLine` and the online/offline events) is a parameter.
- Dates:
  - contribution and expense dates are whole numbers of milliseconds, not ISO strings;
  - `getMonth()` is a function parameter;
  - locale formats (`toLocaleDateString`, `toLocaleString`, `Intl.NumberFormat`) are not modelled.
  - The CSV date column is a function parameter.
- The reports filters are given as already-parsed numbers and dates. `parseInt` and `new Date(string)` are not modelled.
- Floating point: amounts are integers.
- FileUploads.Check: does not model a fractional `maxSize`, because the limit is a whole number of megabytes in the model.
- Ordering:
  - Ties under `orderBy(...).reverse()` are left unspecified. The model proves only that the rows come out sorted and are a permutation.
  - Sorts are modelled on values (`seq`), not in place.
- Not modelled:
  - `handleConflicts`: it only logs.
  - All console logging and the `getInstance` singleton.
- Sync.UnsyncedMembers: `contributionArrears` and `settings` are sent empty, as in the code. The model does not otherwise represent them.
- Strings.ToLower: lowers only the ASCII capitals A-Z, whereas `toLowerCase` also lowers other Unicode letters. This affects the e-mail comparisons at lib/auth.ts:82, 160 and 273 and the search matching at components/ui/search.tsx:48-133. Unicode case mapping is not modelled.
- Sync.SyncRun: assumes the reply body has the documented shape. In the code, a body without `conflicts` throws at lib/syncService.ts:247 after the merge has written; `sync` then returns false and the writes stay. A body without `syncTimestamp` stores `undefined` as the checkpoint at lib/syncService.ts:252. Neither malformed body is representable in `SyncData`.
- Auth.AuthService.Login: a user record is active exactly when its flag is true. The code's `u.isActive !== false` (lib/auth.ts:84, 273) also treats a record with no flag as active; records always carry the flag in the model.
- Auth.AuthService.Login: `createdAt.toISOString()` (lib/auth.ts:93, 184, 295) throws for users restored from a JSON backup, whose `createdAt` is then a string. The model keeps `createdAt` a number throughout and has no such failure.
- ContributorGroups.GroupByReligion: the groups are a map, so the display order that `Object.entries` gives them (app/routes/contributors.tsx:157) is not modelled.
- Dashboard.OverdueCutoff: the cutoff is `now` minus 30 days of fixed milliseconds. The code steps the calendar back 30 days with `setDate` (app/routes/_index.tsx:71-75), which differs by an hour across a daylight-saving change.
- LocalDatabase.AllDeceasedSpec: the model keeps every `createdAt` a number. In the code a deceased row can hold a string `createdAt`: a server update spreads the JSON record, string date included, over the stored row (lib/syncService.ts:169 into lib/database.ts:128-131), and a restored backup is stored as parsed by `importData` (lib/database.ts:318). IndexedDB orders every string key after every Date key, so on a store mixing the two `orderBy('createdAt').reverse()` (lib/database.ts:139) lists the string-dated rows first, and only within each key type newest first. Mixed Date and string keys are not modelled.
- Records.DeceasedFullPatch: a server record is modelled as always carrying `isSynced`, so applying it to an existing row always writes the server's flag (Sync.ApplyDeceased and Sync.ApplyContributors, through DeceasedAsPatch and ContributorAsPatch). In the code the record is spread as it arrived (lib/syncService.ts:169, 179), so a server record without `isSynced` leaves the stored flag as it was. Server records without the field are not modelled; Sync.ApplyDeceasedLast states the server flag for the same reason.
- Records.PatchDeceased: a patch field is either omitted (None) or a value. Dexie's `update` with a key set to `undefined` deletes that field; such patches are not modelled.
- The `btoa` encoding of the synthesized token is not modelled. The token is a record of its fields.
- Auth.AuthService.Initialize: a `currentUser` item that fails `JSON.parse` is modelled as a separate `Unreadable` value rather than as text.
- Icons, colours and CSS classes:
  - The type colours and icons of search and notifications (`getTypeColor`, `getIcon`) are left out.
- SyncStatusView.DisplayDistinct: does not state that colours differ, only icons and descriptions.
- The search result `title`, `subtitle` and `details` texts and the `isSearching` flag are left out. A result carries its kind, id and record.
- The contributors page's form submission and the religion labels are left out.
- Upload field:
  - `alert` is a log of messages;
  - the asynchronous `FileReader` result is the `dataUrl` parameter;
  - `openFileDialog` (a DOM click) is not modelled.
- The dashboard's monthly expenses chart is always zero in the code. The model does not build it.
- The auth service's `isAuthenticated`, `hasRole` and `hasAnyRole` are helper functions without contracts of their own. They are stated through `CanEdit`, `CanView`, `CanManageUsers` and `CanViewFinancials`.

## Findings

| source | as written | input that shows it | evidently intended | confidence | as-written member | corrected member |
|---|---|---|---|---|---|---|
| app/routes/reports.tsx:108-117 | CSV fields are joined with commas without quoting | a contribution whose notes are `x,y` | each field quoted (RFC 4180, section 2) so that the file reads back with five fields per row | not executed | Reports.CsvAsWrittenSplitsNotes | Reports.CsvReadsBack |
| app/routes/_index.tsx:309-315 | the religion chart looks contributors up in `stats.recentContributors`, which the stats never hold | any dashboard with one contribution by a known contributor | the contributor list loaded at lines 46-51, so each slice counts its religion's recent contributions | not executed | Dashboard.ReligionChartAsWrittenEmpty | Dashboard.ReligionChartCounts |
