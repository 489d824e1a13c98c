# Disaster relief coordination: a Dafny model

This project models the client-side logic of a disaster-relief web app. There are three kinds of user:

- **Victims** request aid items, follow their requests and see shelters.
- **Volunteers** see the requests assigned to them and mark them delivered.
- **Admins** assign volunteers, broadcast alerts, update shelter occupancy and watch inventory against demand.

## How the model is built

- **One module per source file.** Each module follows one component or page of the app.
- **The hosted document store is a class.** `Store.ReliefStore` keeps one map per collection, keyed by document id. Its methods are the writes the pages perform.
- **Component state is a class.** A component that keeps local state (a form, a dialog, a card, the chat box) becomes a class whose fields are that state. Its handlers are methods that state the whole new state.
- **Rendering and filtering are functions.** What a page renders, or how it filters, becomes a function with a named result. Its properties are stated in the function's `ensures` clauses or in lemmas beside it.
- **Loops stay loops.** The inventory counting loops and the chat's streaming loop are methods with `while` loops. Each is proved against a specification function.
- **Shared JavaScript behaviour lives in helper modules:**
  - `Text` models `||` fallbacks, `join`, one-character `split`, `includes` and the `trim()` blank test.
  - `StableSort` models the stable, descending `sort` used by the inventory chart.
  - `Wrappers` holds `Option`.

Two findings came out of the proofs:

- The aid-request form throws away the victim's choices. See "## Findings".
- Assigning a volunteer has no status guard. `AdminDashboard.AssignDeliveredRaisesDemand` shows its effect: assigning a delivered request makes its items count towards demand again.

## Model

| member | source | states |
|---|---|---|
| Types.ParseRole | src/lib/types.ts:1 | a string parses to a role only if it is that role's name |
| Types.ParseRoleName | src/lib/types.ts:1 | every role's name parses back to that role |
| Types.ParseDisasterType | src/lib/types.ts:27 | a string parses to a disaster type only if it is that type's name |
| Types.ParseDisasterTypeName | src/lib/types.ts:27 | every disaster type's name parses back to it |
| Text.JoinLength | src/components/victim/request-status-list.tsx:58 | `join` has the parts' total length plus one separator between each pair; joining nothing gives "" |
| Text.Split | src/components/header.tsx:40 | `split` yields at least one piece and no piece contains the separator |
| Text.SplitCount | src/components/header.tsx:40 | `split` yields one more piece than there are separators |
| Text.SplitAround | src/components/header.tsx:40 | splitting `a + sep + b` gives the pieces of `a` followed by those of `b` |
| Text.JoinSplit | src/components/header.tsx:40 | joining the pieces of a split with the separator gives the string back |
| Text.OrElse | src/app/victim/dashboard/page.tsx:37 | `s \|\| fallback` gives the fallback or the string itself, and never "" when the fallback is not |
| Text.Contains | src/components/auth-form.tsx:83-87 | `includes` finds the empty word everywhere and never a word longer than the string |
| Text.ContainsIff | src/components/auth-form.tsx:83-87 | `includes` holds iff the word occurs at some position |
| StableSort.SortDescIsStableSort | src/components/admin/inventory-dashboard.tsx:56 | the sort yields a descending permutation of its input that keeps equal values in input order, with the same length and the same sum |
| StableSort.SortDescDistinct | src/components/admin/inventory-dashboard.tsx:56 | sorting keeps names distinct |
| Store.ReliefStore.AddRequest | src/app/victim/dashboard/page.tsx:42-43 | a fresh id receives the request under that id; nothing else changes |
| Store.ReliefStore.AddAlert | src/components/admin/admin-dashboard.tsx:53-57 | a fresh id receives the alert under that id; nothing else changes |
| Store.ReliefStore.UpdateRequest | src/components/admin/admin-dashboard.tsx:44-49 | an existing request gets the update; a missing id changes nothing; other collections are unchanged |
| Store.ReliefStore.UpdateShelterOccupancy | src/components/admin/admin-dashboard.tsx:62-63 | only the named shelter's occupancy changes; a missing id changes nothing |
| Store.ReliefStore.SetProfile | src/components/auth-form.tsx:124-125 | the profile is merged into one collection; every other collection is unchanged; consistency is kept |
| Store.Merge | src/components/auth-form.tsx:125 | a merge write keeps old fields, overwrites the written ones and adds new ones |
| AdminDashboard.AssignTo | src/components/admin/admin-dashboard.tsx:45-49 | the assignment sets status, volunteer id and volunteer name, and leaves every other field as it was |
| AdminDashboard.AssignDeliveredRaisesDemand | src/components/admin/admin-dashboard.tsx:42-50 | without a status guard, assigning a delivered request adds its tracked items back to demand |
| AdminDashboard.AssignedIsTask | src/app/volunteer/dashboard/page.tsx:14-19 | an assigned request is in the chosen volunteer's task list |
| AdminDashboard.Dashboard.constructor | src/components/admin/admin-dashboard.tsx:21-22 | no request is selected, the dialog is closed and its selection is empty |
| AdminDashboard.Dashboard.HandleAssignClick | src/components/admin/admin-dashboard.tsx:37-40 | the clicked request is selected and the dialog opens |
| AdminDashboard.Dashboard.HandleAssignVolunteer | src/components/admin/admin-dashboard.tsx:42-50 | once requests are loaded, the named request is assigned; otherwise nothing changes |
| AdminDashboard.Dashboard.HandleNewAlert | src/components/admin/admin-dashboard.tsx:52-58 | the alert is added with the given creation time; other collections are unchanged |
| AdminDashboard.Dashboard.HandleUpdateOccupancy | src/components/admin/admin-dashboard.tsx:60-64 | once shelters are loaded, the shelter's occupancy is written; otherwise nothing changes |
| AdminDashboard.Dashboard.SaveOccupancy | src/components/admin/shelter-management-table.tsx:78-93 | a value the dialog accepts is written to that shelter and closes the dialog; a refused value writes nothing and leaves the dialog open or closed as it was; the value is kept and no other collection changes |
| AdminDashboard.Dashboard.ConfirmAssignment | src/components/admin/admin-dashboard.tsx:129-135 | a known selected volunteer is assigned to the selected request; with a request and a selection the dialog closes, its selection is cleared and no assignment is left running, otherwise the dialog is unchanged; no other collection changes |
| AssignVolunteerDialog.FindVolunteer | src/components/admin/assign-volunteer-dialog.tsx:49 | `find` returns the first volunteer with that id, or none when no volunteer has it |
| AssignVolunteerDialog.FoundIsVolunteer | src/components/admin/assign-volunteer-dialog.tsx:49 | exactly the ids user2, user3 and user6 are found, and what is found is a volunteer |
| AssignVolunteerDialog.Dialog.constructor | src/components/admin/assign-volunteer-dialog.tsx:38-39 | nothing is selected and no assignment is running |
| AssignVolunteerDialog.Dialog.AssignDisabled | src/components/admin/assign-volunteer-dialog.tsx:94 | the button is disabled with no selection or while assigning; enabled means a non-empty id is selected |
| AssignVolunteerDialog.Dialog.Select | src/components/admin/assign-volunteer-dialog.tsx:77 | the selection becomes the chosen id |
| AssignVolunteerDialog.Dialog.HandleAssign | src/components/admin/assign-volunteer-dialog.tsx:42-61 | without a request or selection nothing happens; otherwise the callback fires iff the volunteer is found, the dialog closes and the selection clears |
| RequestsTable.AssignedToCell | src/components/admin/requests-table.tsx:58 | the cell shows the volunteer name when it is non-empty, else "N/A" |
| RequestsTable.ItemIds | src/components/admin/requests-table.tsx:50 | one id string per item, position by position |
| RequestsTable.RequestRow | src/components/admin/requests-table.tsx:44-66 | a row offers Assign iff its request is pending, shows the request's victim, location and status, its items' ids joined with ", " and the assignee cell |
| RequestsTable.RequestRows | src/components/admin/requests-table.tsx:44 | one row per request, in order |
| RequestsTable.AssignOfferedOnlyForPending | src/components/admin/requests-table.tsx:60-64 | every Assign button belongs to a pending request of the table |
| TaskCard.Card.constructor | src/components/volunteer/task-card.tsx:30-31 | the delivered flag starts true iff the request is delivered |
| TaskCard.Card.OffersMarkAsDelivered | src/components/volunteer/task-card.tsx:72-114 | the button is offered exactly while the card's delivered flag is down |
| TaskCard.Card.HandleMarkAsDelivered | src/components/volunteer/task-card.tsx:34-44 | the flag is raised, submission ends, and the button is no longer offered |
| VolunteerDashboard.TasksQuery | src/app/volunteer/dashboard/page.tsx:14-21 | the query exists iff a user is signed in, and it is keyed by their uid |
| VolunteerDashboard.Tasks | src/app/volunteer/dashboard/page.tsx:14-19 | the list is no longer than the collection, and every task is the volunteer's and not pending |
| VolunteerDashboard.TasksMembers | src/app/volunteer/dashboard/page.tsx:16-18 | a volunteer's list holds exactly the requests assigned to the uid with status assigned or delivered |
| VolunteerDashboard.PendingNeverATask | src/app/volunteer/dashboard/page.tsx:18 | no pending request is ever a task |
| VolunteerDashboard.TasksDisjoint | src/app/volunteer/dashboard/page.tsx:17 | two different volunteers never share a task |
| VolunteerDashboard.View | src/app/volunteer/dashboard/page.tsx:33-51 | skeletons while loading, the empty state iff loaded with no tasks, otherwise a grid of task cards |
| BroadcastAlertForm.Validate | src/components/admin/broadcast-alert-form.tsx:22-25 | a draft exists iff the type is one of the four and the message has at least 10 characters |
| BroadcastAlertForm.DefaultsRejected | src/components/admin/broadcast-alert-form.tsx:37-40 | the default values do not validate |
| BroadcastAlertForm.ValidateDraft | src/components/admin/broadcast-alert-form.tsx:22-25 | every draft with a long enough message validates back to itself |
| BroadcastAlertForm.Form.constructor | src/components/admin/broadcast-alert-form.tsx:35-41 | the form starts at its defaults |
| BroadcastAlertForm.Form.SetType | src/components/admin/broadcast-alert-form.tsx:23 | only the type changes |
| BroadcastAlertForm.Form.SetMessage | src/components/admin/broadcast-alert-form.tsx:24 | only the message changes |
| BroadcastAlertForm.Form.Submit | src/components/admin/broadcast-alert-form.tsx:43-57 | a valid form sends its draft and resets to the defaults; an invalid one sends nothing and stays |
| Inventory.Outstanding | src/components/admin/inventory-dashboard.tsx:33 | exactly the requests that are not delivered |
| Inventory.FirstOccurrences | src/components/admin/inventory-dashboard.tsx:48-55 | the map's keys: each counted kind once, nothing else |
| Inventory.FirstIndex | src/components/admin/inventory-dashboard.tsx:36 | the position where a kind is first counted: it holds the kind and no earlier position does |
| Inventory.FirstOccurrencesInOrder | src/components/admin/inventory-dashboard.tsx:36-55 | the map's insertion order: of two keys, the earlier one was first met earlier in the items |
| Inventory.TrackedDropsNothing | src/components/admin/inventory-dashboard.tsx:16-25 | every item kind has an icon, so the `item in itemIcons` test drops nothing |
| Inventory.TrackedItemsAreAllItems | src/components/admin/inventory-dashboard.tsx:35 | the tracked items of the requests are all their items |
| Inventory.CountMapCounts | src/components/admin/inventory-dashboard.tsx:36 | the count map holds exactly the seen kinds, each with its number of occurrences |
| Inventory.Record | src/components/admin/inventory-dashboard.tsx:36 | `set(item, (get(item) \|\| 0) + 1)` keeps the keys and counts in step with the items seen |
| Inventory.TrackedPrefix | src/components/admin/inventory-dashboard.tsx:34-37 | the inner loop's step: one more item extends the tracked items by it when it has an icon |
| Inventory.TrackedItemsPrefix | src/components/admin/inventory-dashboard.tsx:33-39 | the outer loop's step: one more request extends the tracked items by its items |
| Inventory.CountRequestItems | src/components/admin/inventory-dashboard.tsx:34-38 | the inner loop counts one request's items into the map |
| Inventory.CountItems | src/components/admin/inventory-dashboard.tsx:32-39 | the nested loops leave the keys and counts of every tracked item |
| Inventory.StockVsDemand | src/components/admin/inventory-dashboard.tsx:31-45 | one row per inventory item with its stock and its demand over the undelivered requests, 0 when absent |
| Inventory.EntriesFor | src/components/admin/inventory-dashboard.tsx:56 | one `{ name, value }` entry per key with its count |
| Inventory.DemandDistribution | src/components/admin/inventory-dashboard.tsx:47-57 | the loops and the sort compute the specified distribution |
| Inventory.DistributionProperties | src/components/admin/inventory-dashboard.tsx:47-57 | the chart is a stable descending sort of the counts; names are distinct, each value is the kind's request count, a kind appears iff requested, and the values sum to the number of items |
| Inventory.DistributionValues | src/components/admin/inventory-dashboard.tsx:52 | each entry's value is the number of times its kind was requested |
| Inventory.DistributionNames | src/components/admin/inventory-dashboard.tsx:48-56 | a kind has an entry iff it was requested at least once |
| Inventory.DistributionFacts | src/components/admin/inventory-dashboard.tsx:48-56 | before sorting, the names are distinct, the values are positive counts and they sum to the number of items |
| Inventory.SumOfFirstOccurrenceCounts | src/components/admin/inventory-dashboard.tsx:52-56 | the counts over the distinct kinds add up to the number of items |
| Inventory.OutstandingAppend | src/components/admin/inventory-dashboard.tsx:33 | filtering a concatenation is concatenating the filters |
| Inventory.TrackedItemsAppend | src/components/admin/inventory-dashboard.tsx:33-39 | the tracked items of a concatenation concatenate |
| Inventory.DemandIgnoresDelivered | src/components/admin/inventory-dashboard.tsx:33 | a delivered request adds nothing to demand |
| Inventory.OutstandingItemsIncluded | src/components/admin/inventory-dashboard.tsx:33-39 | the items counted for demand are a sub-multiset of all items |
| Inventory.IsLow | src/components/admin/inventory-dashboard.tsx:82 | an empty stock raises the low-stock badge unless the threshold is negative; stock above the threshold never does |
| Inventory.LowStockMonotone | src/components/admin/inventory-dashboard.tsx:82 | a low item stays low when its stock falls or its threshold rises |
| Inventory.DemandAtMostRequested | src/components/admin/inventory-dashboard.tsx:31-57 | demand for a kind never exceeds its requested count and is 0 when nothing was requested |
| MockData.VolunteersOfMembers | src/lib/mock-data.ts:12 | the filter keeps exactly the users whose role is volunteer |
| MockData.MockVolunteersAreSeeded | src/lib/mock-data.ts:3-12 | the seeded volunteers are users 2, 3 and 6, in order |
| MockData.SeedRequestIdsDistinct | src/lib/mock-data.ts:14-51 | the seed requests have distinct ids |
| MockData.SeedAssignmentFields | src/lib/mock-data.ts:14-51 | a seed request has assignment fields iff it is not pending |
| MockData.SeedAssigneesAreVolunteers | src/lib/mock-data.ts:29-40 | every seed assignment names a seeded volunteer by id and by name |
| MockData.SeedAlertMessageLength | src/lib/mock-data.ts:54-61 | the seed alert's message passes the broadcast form's length rule |
| AidRequestForm.OfferedForMembers | src/components/victim/aid-request-form.tsx:53-55 | the filter keeps exactly the entries that list the active disaster |
| AidRequestForm.OfferedForAppend | src/components/victim/aid-request-form.tsx:54 | the filter keeps relative order: filtering a concatenation concatenates the filters |
| AidRequestForm.OfferedForCons | src/components/victim/aid-request-form.tsx:54 | the head is kept iff it lists the active disaster |
| AidRequestForm.OfferedForKeepsAll | src/components/victim/aid-request-form.tsx:54 | a filter that every entry passes keeps the whole list |
| AidRequestForm.OfferedForExcludes | src/components/victim/aid-request-form.tsx:54 | a kind none of whose entries lists the disaster is filtered out |
| AidRequestForm.AvailableDuringFlood | src/components/victim/aid-request-form.tsx:25-34 | during a flood all eight entries are offered, in order |
| AidRequestForm.Slot | src/components/victim/aid-request-form.tsx:25-34 | each kind has an entry in `allItems` |
| AidRequestForm.SlotOf | src/components/victim/aid-request-form.tsx:25-34 | each entry is its kind's only one |
| AidRequestForm.FloodOnlyEntries | src/components/victim/aid-request-form.tsx:30-31 | the boat transport and life jackets entries list flood only |
| AidRequestForm.OfferedDuringFlood | src/components/victim/aid-request-form.tsx:53-55 | every kind has a checkbox during a flood |
| AidRequestForm.OfferedEverywhere | src/components/victim/aid-request-form.tsx:26-29 | the six kinds listed for every disaster always have a checkbox |
| AidRequestForm.FloodOnlyOtherwise | src/components/victim/aid-request-form.tsx:30-31 | outside a flood, boat transport and life jackets have no checkbox |
| AidRequestForm.OfferedIff | src/components/victim/aid-request-form.tsx:25-34 | a kind is offered iff it is not boat transport or life jackets, or the disaster is a flood |
| AidRequestForm.Validate | src/components/victim/aid-request-form.tsx:36-41 | valid iff some item id is non-empty and the location has at least one character |
| AidRequestForm.AnyNonEmpty | src/components/victim/aid-request-form.tsx:37 | `some(item => item)` holds iff some string is non-empty |
| AidRequestForm.RemoveMembers | src/components/victim/aid-request-form.tsx:148-150 | unchecking keeps exactly the other ids, each as often as before |
| AidRequestForm.RemoveAbsent | src/components/victim/aid-request-form.tsx:148-150 | removing an id that is not there changes nothing |
| AidRequestForm.RemoveAppended | src/components/victim/aid-request-form.tsx:146-150 | removing an id just appended to a list without it gives the list back |
| AidRequestForm.Toggle | src/components/victim/aid-request-form.tsx:144-151 | checking appends the id at the end; unchecking leaves no copy of it |
| AidRequestForm.RemoveAppend | src/components/victim/aid-request-form.tsx:148-150 | the `filter` works piece by piece: removing from a concatenation concatenates the removals |
| AidRequestForm.UncheckKeepsOrder | src/components/victim/aid-request-form.tsx:147-150 | unchecking keeps the other ids in their order: it splits over any cut of the list |
| AidRequestForm.ToggleUndo | src/components/victim/aid-request-form.tsx:144-151 | checking then unchecking a new id restores the list |
| AidRequestForm.UncheckKeepsOthers | src/components/victim/aid-request-form.tsx:147-150 | unchecking one id keeps every other id's count |
| AidRequestForm.Form.constructor | src/components/victim/aid-request-form.tsx:57-63 | no items, empty location, not submitting, not fetching |
| AidRequestForm.Form.FetchLocation | src/components/victim/aid-request-form.tsx:65-72 | the location becomes the mock address; the items stay |
| AidRequestForm.Form.ToggleItem | src/components/victim/aid-request-form.tsx:144-151 | the items are toggled; the location and flags stay |
| AidRequestForm.Form.Submit | src/components/victim/aid-request-form.tsx:74-86 | the callback fires iff the values validate; valid values are reset to no items with the location kept; invalid ones stay |
| AidRequestForm.Form.SubmitWithPayload | src/components/victim/aid-request-form.tsx:74-86 | the same reset, with the validated values handed on |
| VictimDashboard.NewRequest | src/app/victim/dashboard/page.tsx:35-40 | the request is pending, timestamped now, named after the user or "Anonymous", and carries the data given |
| VictimDashboard.NewRequestIsAssignable | src/app/victim/dashboard/page.tsx:38 | a new request's row offers Assign |
| VictimDashboard.HandleNewRequest | src/app/victim/dashboard/page.tsx:32-44 | without a user nothing is written; otherwise the new request is added under a fresh id |
| VictimDashboard.ParseItem | src/lib/types.ts:13 | a string parses to an item kind only if it is that kind's id |
| VictimDashboard.ParseItemId | src/lib/types.ts:13 | every kind's id parses back to it |
| VictimDashboard.ParseItemsIds | src/lib/types.ts:13 | parsing the ids of a list of kinds gives the list back |
| VictimDashboard.DataFromForm | src/app/victim/dashboard/page.tsx:32 | the corrected wiring builds the request data from the user and the form, with no assignment |
| VictimDashboard.DataFields | src/app/victim/dashboard/page.tsx:35 | spreading request data gives its victim id, location and item list, plus the assignment fields it has |
| VictimDashboard.RequestDocument | src/app/victim/dashboard/page.tsx:34-39 | the written document has status "pending" and the creation time; with no argument it has only the victim name, status and time |
| VictimDashboard.DocumentOfRequest | src/app/victim/dashboard/page.tsx:34-39 | with an argument the document agrees with the request record, and its item list parses back to the request's items |
| VictimDashboard.SubmitAsWritten | src/components/victim/aid-request-form.tsx:74-86 | as wired, a valid submission by a signed-in user writes the argument-less document under the new id; the form is reset as by `Submit`: after a valid submission the items are cleared, the location kept and submission over; after an invalid one the values and submission flag stay; the location-fetch flag never changes |
| VictimDashboard.ChoicesLostAsWritten | src/components/victim/aid-request-form.tsx:84 | as wired, any two valid submissions leave the same requests collection, and the stored request has no items, location or victim id |
| VictimDashboard.CorrectedRequestCarriesChoices | src/app/victim/dashboard/page.tsx:32-44 | with the corrected callback, the created request carries exactly the chosen items and location |
| VictimDashboard.CreateFromForm | src/app/victim/dashboard/page.tsx:52 | a valid form with a signed-in user adds a request built from the form; otherwise nothing is written |
| VictimDashboard.MyRequests | src/app/victim/dashboard/page.tsx:23-27 | signed in, the list is the whole collection; signed out, it is empty |
| RequestStatusList.OnTheWay | src/components/victim/request-status-list.tsx:62 | the "on the way" line shows iff the request is assigned with a non-empty volunteer name |
| RequestStatusList.RequestEntry | src/components/victim/request-status-list.tsx:51-69 | a QR code for the request id is offered iff it is not delivered |
| RequestStatusList.StatusListView | src/components/victim/request-status-list.tsx:22-51 | the empty state iff there are no requests, else one entry per request in order |
| RequestStatusList.SumLengthsPositive | src/components/victim/request-status-list.tsx:58 | non-empty parts have at least one character each |
| RequestStatusList.ItemSummaryLength | src/components/victim/request-status-list.tsx:58 | the summary is empty iff there are no items, and otherwise has at least 3n-2 characters |
| ShelterManagementTable.Accepts | src/components/admin/shelter-management-table.tsx:79 | a value is accepted iff it lies between 0 and the capacity |
| ShelterManagementTable.IsFull | src/components/admin/shelter-management-table.tsx:50 | within the accepted bounds a shelter is full iff it is at capacity; a shelter without capacity is always full |
| ShelterManagementTable.AcceptedUpdateFullIff | src/components/admin/shelter-management-table.tsx:50 | after an accepted update the shelter is full iff the value is the capacity |
| ShelterManagementTable.OccupancyDialog.constructor | src/components/admin/shelter-management-table.tsx:74-75 | the dialog starts closed, showing the current occupancy |
| ShelterManagementTable.OccupancyDialog.Open | src/components/admin/shelter-management-table.tsx:74 | the dialog opens and keeps the value |
| ShelterManagementTable.OccupancyDialog.SetNewOccupancy | src/components/admin/shelter-management-table.tsx:75 | only the value changes |
| ShelterManagementTable.OccupancyDialog.Cancel | src/components/admin/shelter-management-table.tsx:74 | the dialog closes and keeps the value |
| ShelterManagementTable.OccupancyDialog.HandleUpdate | src/components/admin/shelter-management-table.tsx:78-93 | an update is emitted iff the value is accepted, and then the dialog closes; a refused value leaves it as it was |
| ShelterList.OccupancyRate | src/components/victim/shelter-list.tsx:27 | the rate is occupancy times 100 over capacity, or 0 without capacity |
| ShelterList.Color | src/components/victim/shelter-list.tsx:28-30 | red iff at or over capacity; yellow iff above 75% and below 100%; green otherwise or without capacity |
| ShelterList.RedIffFull | src/components/victim/shelter-list.tsx:26-30 | with capacity, red is shown iff the Full badge is |
| ShelterList.ZeroCapacityFullButGreen | src/components/victim/shelter-list.tsx:26-30 | a zero-capacity shelter is badged Full yet coloured green |
| ShelterList.ColorMonotone | src/components/victim/shelter-list.tsx:28-30 | more occupants never lower the colour's severity |
| ShelterList.ShelterListView | src/components/victim/shelter-list.tsx:14-36 | the empty state iff there are no shelters, else one card per shelter in order |
| Header.GetInitials | src/components/header.tsx:39-41 | at most one initial per space-separated piece of the name |
| Header.FirstCharsAppend | src/components/header.tsx:40 | the initials of two piece lists side by side concatenate |
| Header.FirstCharsBound | src/components/header.tsx:40 | at most one initial per piece, each taken from a piece |
| Header.InitialsAroundSpace | src/components/header.tsx:39-41 | the initials of "a b" are those of a followed by those of b |
| Header.EmptyName | src/components/header.tsx:39-41 | an empty name has no initials |
| Header.LeadingSpaceIgnored | src/components/header.tsx:39-41 | a leading space changes nothing |
| Header.SingleWord | src/components/header.tsx:39-41 | a name without spaces has its first character as initials |
| Header.InitialsBound | src/components/header.tsx:39-41 | no more initials than pieces or characters; every initial is a non-space character of the name |
| Header.PartInJoin | src/components/header.tsx:40 | every character of a piece occurs in the joined string |
| Header.FirstCharsAtMostLength | src/components/header.tsx:39-41 | a name has at least as many characters as initials |
| VictimLayout.Newest | src/app/victim/layout.tsx:17 | none iff there are no alerts; otherwise an alert with no newer one |
| VictimLayout.LatestAlertQuery | src/app/victim/layout.tsx:16-20 | at most one alert, and exactly one iff there are any |
| VictimLayout.LatestAlert | src/app/victim/layout.tsx:22 | the first loaded alert, iff loading is done and there is one |
| VictimLayout.LatestIsNewest | src/app/victim/layout.tsx:16-22 | the banner shows an alert iff there is one, and no alert is newer than it |
| VictimLayout.HeaderUser | src/app/victim/layout.tsx:27-32 | the header user falls back to "Anonymous Victim" and "No Email" and is always a victim |
| VictimLayout.ShownHeader | src/app/victim/layout.tsx:26 | the header shows iff the user has loaded and is present |
| AccessDashboardButton.GetUserRole | src/components/access-dashboard-button.tsx:21-30 | admin iff there is an admin record; volunteer iff only a volunteer record; victim otherwise |
| AccessDashboardButton.DashboardRoute | src/components/access-dashboard-button.tsx:37 | the route is "/", the role's name, then "/dashboard" |
| AccessDashboardButton.DashboardRouteInjective | src/components/access-dashboard-button.tsx:37 | different roles go to different dashboards |
| AccessDashboardButton.SignedInRoute | src/components/access-dashboard-button.tsx:36-41 | the found role's dashboard, or the victim dashboard when the lookup fails |
| AccessDashboardButton.AnonymousProfile | src/components/access-dashboard-button.tsx:50-57 | the anonymous profile has exactly six fields and the role victim |
| AccessDashboardButton.AccessButton.constructor | src/components/access-dashboard-button.tsx:15 | not loading, no route |
| AccessDashboardButton.AccessButton.HandleAccessDashboard | src/components/access-dashboard-button.tsx:32-66 | a signed-in user goes to their role's dashboard; an anonymous sign-in writes a victim profile and goes to the victim dashboard; a failed one stops loading |
| AccessDashboardButton.AnonymousRouteAgrees | src/components/access-dashboard-button.tsx:43-64 | the route taken for a new anonymous account is the one a later visit resolves |
| AuthForm.LoginRole | src/components/auth-form.tsx:82-87 | admin iff the email contains "admin"; otherwise volunteer iff it contains "volunteer"; otherwise victim |
| AuthForm.LoginRoleOccurrences | src/components/auth-form.tsx:82-87 | the same rule stated as positions where the words occur |
| AuthForm.AdminWinsOverVolunteer | src/components/auth-form.tsx:83-86 | an address naming both roles logs in as admin |
| AuthForm.ValidateLogin | src/components/auth-form.tsx:41-44 | login is valid iff the password is non-empty |
| AuthForm.ValidateSignup | src/components/auth-form.tsx:46-55 | signup is valid iff the name has 2+ characters, the password 8+ and the role is known; the values are kept |
| AuthForm.SignupDefaultsRejected | src/components/auth-form.tsx:71 | the default signup values do not validate |
| AuthForm.ProfileCollectionOf | src/components/auth-form.tsx:112-121 | victims, volunteers and admins each have their own profile collection, one to one |
| AuthForm.SignupProfile | src/components/auth-form.tsx:112-121 | a victim profile has exactly five fields including an empty location, a volunteer profile has exactly five including availability true, an admin profile has only id, name and email |
| AuthForm.AuthPage.constructor | src/components/auth-form.tsx:60 | not loading, no route |
| AuthForm.AuthPage.HandleLogin | src/components/auth-form.tsx:74-98 | a signed-in user goes to the dashboard for the guessed role; loading is never cleared |
| AuthForm.AuthPage.HandleSignup | src/components/auth-form.tsx:100-135 | the profile is merged into the role's collection only, and the user goes to that role's dashboard |
| AuthForm.SignupRoleResolves | src/components/auth-form.tsx:112-131 | a new account resolves on the landing page to the role it signed up with |
| AuthForm.LoginIgnoresProfile | src/components/auth-form.tsx:82-87 | an admin by record whose address lacks "admin" logs in as a victim |
| AuthForm.AbsentFirstChar | src/components/auth-form.tsx:83 | a string cannot contain a word whose first character it lacks |
| Text.IsBlank | src/components/chat/chat.tsx:19 | the empty string is blank, and a blank string holds only white space |
| Text.BlankConcat | src/components/chat/chat.tsx:19 | two strings side by side are blank iff both are |
| Chat.ConcatAppend | src/components/chat/chat.tsx:33-37 | streaming two runs of chunks is concatenating their texts |
| Chat.ConcatIsJoin | src/components/chat/chat.tsx:33-37 | the streamed reply is the chunks joined with nothing between them |
| Chat.Reply | src/components/chat/chat.tsx:26-50 | a failed call gives only the apology; a stream gives its text, then the apology if it fails |
| Chat.ChatBox.constructor | src/components/chat/chat.tsx:13-15 | no messages, empty input, not loading |
| Chat.ChatBox.SetInput | src/components/chat/chat.tsx:13 | only the input changes |
| Chat.ChatBox.HandleSendMessage | src/components/chat/chat.tsx:17-54 | blank input changes nothing; otherwise the history sent is the old messages plus the user message, the new messages are that history plus the reply, and the input is cleared and loading is over |

## Left out

- **Firebase.** The hosted database, its listeners, security rules, error emitter and non-blocking write helpers are not part of this model. The store is a map per collection. A write takes effect at once and in call order.
- **Concurrency.** Listener timing and the interleaving of asynchronous handlers are not modelled. Neither are timers (the simulated delays) or toasts.
- **Generated ids.** The store's generated ids are a parameter, and each adding method requires the id to be fresh.
- **Time.** `new Date()` is an integer parameter `now`. Date formatting and relative times are left out.
- **Markup.** Styling, icons and images are left out, and so is the QR image URL. The model keeps only the request id that the URL encodes.
- **Floating point.** Percentages, progress bars and the pie chart's geometry are not modelled. The shelter colour compares integers by cross-multiplying, that is, by exact arithmetic rather than the source's double-precision division. Latitude and longitude are left out.
- ShelterList.Color: decides the 75% and 100% thresholds exactly, while the source rounds `(occupancy / capacity) * 100` to a double. For very large values the two can differ: occupancy 4070988033574843 of capacity 5427984044766457 is just above 75% (`100 * occupancy - 75 * capacity == 25`), yet the double computation gives exactly 75, so the source shows green where the model shows yellow.
- **The chat model.** The language model behind the chat is replaced by an `Outcome`: the call fails, or it streams some chunks and may then fail.
- **Navigation.** Routing is a `route` field holding the last path pushed.
- **Email format.** The zod email-format checks are not modelled. Schema validation keeps the other rules.
- **Strings.** A string is a sequence of characters, not of UTF-16 code units.
- **Seed request victim ids.** The seed requests have no `victimId`, although the type requires one. The model gives them "".
- **Occupancy input.** The occupancy dialog's value is an integer. Converting non-numeric text with `Number()` is left out.
- **Tie order of the latest alert.** When several alerts share the newest creation time, the database may return any of them. `VictimLayout.Newest` picks the first in collection order.
- **RequestStatusList loading.** The `isLoading` prop that the victim dashboard passes to `RequestStatusList` is ignored by the component. The model has no loading parameter.
- **Victim request list.** The victim dashboard's request list is the whole requests collection, not the user's own requests. `VictimDashboard.MyRequests` follows the code.
- **Assignment guard.** Assigning a volunteer checks only that requests have loaded, not the request's status. The Assign button is shown for pending rows only, but the handler itself does not check. The model follows the code.
- **Item-less requests.** The request written as the form is wired has no items, location or victim id, so it is not a well-formed request record. `VictimDashboard.SubmitAsWritten` therefore writes it to the requests collection seen as raw documents, a map parameter beside the typed store. The typed pages are not run over that document.
- **Delivery.** Marking a task delivered flips a local flag on the card only. Nothing is written to the store, so the model has no store transition for it.
- **Pages outside this model.** The landing page, the admin sidebar and header, the alert list, the active-disaster form, the inventory pages and the layouts other than the victim's are not part of this model. The sign-in pages' layout makes the same latest-alert selection as the victim layout.

## Findings

| source | as written | input that shows it | evidently intended | confidence | as-written member | corrected member |
|---|---|---|---|---|---|---|
| src/components/victim/aid-request-form.tsx:84 | `onSubmitSuccess()` is called with no arguments. The victim dashboard passes `handleNewRequest`, which spreads its missing argument, so for a signed-in user it still writes a request, but one with only the victim name, status "pending" and the creation time: no items, no location, no victim id. Pages that read requests then find no `items` field. | items ["food"] at "123 Disaster Ave, Emergency City" and items ["water"] at "Shelter Road" store the same document | the validated values are handed to the callback, and the created request carries the chosen items and location | not executed | VictimDashboard.ChoicesLostAsWritten | VictimDashboard.CorrectedRequestCarriesChoices |
