# MDP medication dispenser — a Dafny model of the app's core

The MDP app keeps a list of medicines. Each medicine has a name, a dosage, a
compartment of the dispenser and a list of daily `HH:MM` times. From these
the store derives today's doses and merges them with the doses already
stored, so that a dose that was dispensed earlier keeps its outcome. The
dashboard offers "Dispense Now" on each upcoming dose. It asks the device to
dispense and, on success, marks the dose dispensed and prepends a history
record. Around this sit:

- the add-medicine form (time slots, validation, `parseInt` of the
  compartment);
- the history page (status filter, grouping by day, summary counts);
- the device page (battery bands, reconnect);
- the dose card (status badge, dispense button);
- the sign-in and onboarding store.

The model is functional. Every store action is a pure function from one
state to the next. The clock, the random ids and the device's replies are
parameters:

- a `Day` for the derivation day;
- a `Clock` for the time written on a history record;
- a fresh id string wherever the store calls `crypto.randomUUID`;
- a `DeviceOutcome` or `CheckOutcome` for what the device answered.

Modules: one per source file, two more holding laws of the store's actions, and four helpers:

| module | file | models |
|---|---|---|
| `Wrappers` | wrappers.dfy | `Option` (an absent key, `null`) |
| `Seqs` | seqs.dfy | `Array.filter` and duplicate-freedom |
| `Order` | order.dfy | `localeCompare` on the zero-padded `HH:MM` times and ISO `YYYY-MM-DD` days the app sorts, as code-unit order; `HH:MM` clock times |
| `Sorting` | sorting.dfy | a stable sort by key (the stable `Array.sort`) |
| `Types` | types.dfy | src/lib/types.ts |
| `Store` | store.dfy | src/lib/store.ts |
| `DerivationLaws` | derivation_laws.dfy | laws of `generateDailySchedules` |
| `StoreLaws` | store_laws.dfy | laws of the simple store actions |
| `Dashboard` | dashboard.dfy | src/components/Dashboard.tsx |
| `AddMedicineDialog` | add_medicine_dialog.dfy | src/components/AddMedicineDialog.tsx |
| `History` | history.dfy | src/components/History.tsx |
| `DeviceStatus` | device_status.dfy | src/components/DeviceStatus.tsx |
| `MedicineCard` | medicine_card.dfy | src/components/MedicineCard.tsx |
| `AuthStore` | auth_store.dfy | src/lib/authStore.ts |

Modelling choices that matter when reading the contracts:

- **Time fields.** A dose (`Types.Schedule`) carries both `scheduledTime`,
  which the store writes, and the legacy `time` that types.ts declares and
  the dose card reads. The empty string stands for a missing or falsy field,
  as in the source's `||` tests.
- **Merge lookup.** The merge looks previous doses up by id in a `Map`
  built from the previous list, so the last previous dose with a given id
  wins (`Store.LookupLast`). An old record without `scheduledTime` but with
  a `time` is migrated by copying `time` across (`Store.Patch`). The sort
  key is `scheduledTime`, falling back to `time`.
- **Dose id.** A dose id is `medicineId + "-" + day + "-" + time`. Ids
  determine doses when medicine ids are distinct and no time contains a `-`.
  `HH:MM` times never do.
- **Numbers.** `parseInt` can produce `NaN`, so the compartment of a
  medicine is a `JsNumber` (`Int(n)` or `NaN`).
- **Record status.** A history record's status is a `FinalStatus`: a dose
  status other than `Upcoming`.

## Model

| member | source | states |
|---|---|---|
| Store.ScheduleIdInjective | src/lib/store.ts:127-128 | two dose ids built for the same day with dash-free times are equal only if the medicine ids and the times are equal |
| Store.Candidates | src/lib/store.ts:121-143 | one fresh dose per (medicine, time) pair, so as many as there are times in all medicines, each `upcoming` and with no legacy `time` |
| Store.CandidatesFromMedicines | src/lib/store.ts:123-141 | every fresh dose is built from some medicine and one of that medicine's times |
| Store.CandidatesCoverEveryPair | src/lib/store.ts:123-141 | the dose for medicine `i`, time `k` sits at position (times of earlier medicines + `k`), with the deterministic id, `upcoming` status and fields copied from the medicine |
| Store.LookupLast | src/lib/store.ts:147-149 | the lookup finds nothing exactly when no previous dose has the id, and otherwise returns the last previous dose with that id, as a `Map` built from the list keeps the last entry for a key |
| Store.MergeShape | src/lib/store.ts:148-158 | the merge keeps the fresh list's length and ids, and uses the migrated previous dose when one exists, the fresh dose otherwise |
| Store.DeriveSchedules | src/lib/store.ts:117-169 | today's doses: one per time, ordered by time key, a permutation of the merge, with exactly the fresh ids; a dose with a previous record is that record, migrated; any other dose is fresh and `upcoming` |
| Store.PairIsScheduled | src/lib/store.ts:123-143 | every (medicine, time) pair has a dose with its id among today's doses |
| Store.GenerateDailySchedules | src/lib/store.ts:117-169 | the action replaces only the dose list, by the derivation over the stored medicines and doses |
| Store.AddMedicine | src/lib/store.ts:80-88 | the medicine is appended under the fresh id, which is returned; the dose list becomes the derivation over all medicines, the new one included, from the previous doses, so recorded outcomes carry over; each of its times gets a dose; logs, device and settings are untouched |
| Store.UpdateScheduleStatus | src/lib/store.ts:90-96 | every dose with the id takes the new status and nothing else changes, position by position |
| Store.AddLog | src/lib/store.ts:98-103 | the record, under the fresh id, is put in front of the unchanged log |
| Store.UpdateDeviceStatus | src/lib/store.ts:105-109 | each device field takes the patch's value when given and keeps its own otherwise; the rest of the state is untouched |
| Store.UpdateSettings | src/lib/store.ts:111-115 | each settings key takes the patch's value when given (nested records replaced whole) and keeps its own otherwise |
| Order.ClockOrderIsChronological | src/lib/store.ts:161-165 | for `HH:MM` times, string order (the sort's comparison) agrees with order by minutes since midnight |
| Sorting.SortBySorted | src/lib/store.ts:161-165 | the sort's output is ordered by the key under any total preorder |
| Sorting.SortByStable | src/lib/store.ts:161-165 | the sort is stable: the elements of any one tie class keep their input order |
| DerivationLaws.DistinctIdsDetermineDoses | src/lib/store.ts:125-128 | with distinct medicine ids and dash-free times, two fresh doses with the same id are the same dose |
| DerivationLaws.ClockTimesDetermineDoses | src/lib/store.ts:125-128 | the same for medicines whose times are all zero-padded `HH:MM` values, which contain no dash |
| DerivationLaws.PatchIdempotent | src/lib/store.ts:151-154 | migrating a record twice is migrating it once |
| DerivationLaws.MergeKeepsIdsDetermining | src/lib/store.ts:147-158 | if fresh doses are determined by their ids, so are merged doses |
| DerivationLaws.MergedArePatched | src/lib/store.ts:151-155 | every merged dose is already migrated |
| DerivationLaws.DeriveIdempotent | src/lib/store.ts:117-169 | deriving again from the derived list gives the same list (re-rendering the dashboard changes nothing) |
| DerivationLaws.GenerateTwice | src/lib/store.ts:117-169 | running the action twice on the same day is running it once |
| DerivationLaws.RecordedOutcomeSurvives | src/lib/store.ts:145-158 | a recorded dose whose id is still derived keeps its status through regeneration |
| DerivationLaws.DeriveIsStable | src/lib/store.ts:160-165 | doses with equal time keys stay in merge order |
| StoreLaws.DevicePatchLaws | src/lib/store.ts:105-109 | an empty patch changes nothing, a patch applied twice acts once, and two patches in a row act as their key-wise combination |
| StoreLaws.SettingsPatchLaws | src/lib/store.ts:111-115 | the same three laws for settings |
| StoreLaws.StatusUpdateLaws | src/lib/store.ts:90-96 | status updates keep the set of ids; the last status set for an id wins; updates of different ids commute |
| StoreLaws.UnknownIdIsNoOp | src/lib/store.ts:90-96 | an update for an id no dose has leaves the state as it was |
| StoreLaws.AddLogKeepsHistory | src/lib/store.ts:98-103 | appended records go in front, newest first, and the older log follows unchanged |
| Dashboard.ConfirmDispense | src/components/Dashboard.tsx:26-58 | the selection is always cleared; with none, nothing happens; on success the selected id is marked dispensed, one `dispensed` record with the dose's name and dosage is prepended and a success toast shown; a failed reply or a thrown error leaves the store unchanged and shows the reply's message or the fixed error |
| Dashboard.WithStatus | src/components/Dashboard.tsx:64-67 | a section holds exactly the doses with its status |
| Dashboard.WithStatusOrder | src/components/Dashboard.tsx:64-67 | sections keep list order and multiplicity: the section of a concatenation is the concatenation of the sections |
| Dashboard.PartitionSizes | src/components/Dashboard.tsx:64-67 | the upcoming, dispensed and missed counts add up to the number of doses |
| Dashboard.NextDose | src/components/Dashboard.tsx:60-62 | there is no next dose exactly when no dose is upcoming; otherwise it is the first upcoming dose in list order |
| Dashboard.NextMarksCopiesOfFirstUpcoming | src/components/Dashboard.tsx:118-160 | for any list, the id comparison of line 127 holds for a dose exactly when its id is the id of the first upcoming dose (`find`, lines 60-62); the page marks a card exactly when, in addition, the dose is upcoming, since the dispensed and missed sections pass no `isNext`; so with a repeated id every upcoming copy is marked |
| Dashboard.NextMarksFirstUpcoming | src/components/Dashboard.tsx:60-62 | with distinct ids, the card marked next (`isNext` compares ids, line 127) is exactly the first upcoming dose |
| Dashboard.MarkDispensedCounts | src/lib/store.ts:90-96 | every upcoming and missed copy of the id moves to the dispensed section, and the other doses keep their sections |
| Dashboard.DispenseMovesEveryCopy | src/components/Dashboard.tsx:33-54 | for any selection and list, success moves every upcoming or missed copy of the selected id to dispensed and writes one record; any other outcome changes neither doses nor logs |
| Dashboard.RepeatedTimeSharesId | src/lib/store.ts:124-128 | a medicine listing one time twice gives two doses with the same id |
| Dashboard.DispenseOfUpcomingDose | src/components/Dashboard.tsx:33-54 | for a selected upcoming dose with a unique id (the button's gate), success moves exactly that dose from upcoming to dispensed and adds one record; any other outcome changes neither doses nor logs |
| Dashboard.DoubleConfirmLogsTwice | src/components/Dashboard.tsx:26-58 | two confirmations started from the same selection both succeed and leave two records: nothing prevents a double dispense |
| AddMedicineDialog.AddTime | src/components/AddMedicineDialog.tsx:31-33 | one empty slot is added at the end; the other slots and fields stay |
| AddMedicineDialog.DropIndex | src/components/AddMedicineDialog.tsx:35-37 | filtering out position `index` removes exactly that slot, and is a no-op for a position outside the list |
| AddMedicineDialog.RemoveTime | src/components/AddMedicineDialog.tsx:35-37 | removing a slot shortens the list by one and keeps the others in order; nothing else on the form changes |
| AddMedicineDialog.RemoveNeverEmpties | src/components/AddMedicineDialog.tsx:175-184 | since the remove button only shows with two or more slots, removing never leaves the form without a slot |
| AddMedicineDialog.TimeChange | src/components/AddMedicineDialog.tsx:39-43 | editing slot `index` sets that slot and keeps every other slot and field |
| AddMedicineDialog.Cancel | src/components/AddMedicineDialog.tsx:84-92 | cancelling closes the dialog with all five text fields empty and a single empty slot, so the form is not submittable |
| AddMedicineDialog.CancelMatchesAcceptedSubmit | src/components/AddMedicineDialog.tsx:74-92 | an accepted submit leaves the dialog as a cancel does, and a cleared form is rejected for missing fields |
| AddMedicineDialog.ParseDigitsOfDecimal | src/components/AddMedicineDialog.tsx:63 | reading the leading digits of a rendered natural number, followed by anything that is not a digit, gives the number back |
| AddMedicineDialog.TrimStart | src/components/AddMedicineDialog.tsx:63 | the white-space skip at the start of `parseInt`: the result is a suffix of the input that does not start with white space, and everything dropped before it is white space |
| AddMedicineDialog.ParseIntRoundTrip | src/components/AddMedicineDialog.tsx:63 | `parseInt` of an integer's decimal rendering, followed by anything that does not start with a digit, gives the integer back |
| AddMedicineDialog.Submit | src/components/AddMedicineDialog.tsx:45-82 | a submit is accepted exactly when all five fields and every slot are filled; a missing field is reported before an empty slot, and a rejection changes neither form nor store; acceptance adds the parsed medicine through the store and resets and closes the form; the toast is the missing-field message, the empty-slot message or the success message, in that order of precedence (lines 50, 55, 70) |
| History.FilterLogs | src/components/History.tsx:28-31 | `all` keeps every record; any other filter keeps exactly the records whose status text equals it |
| History.FilterLogsOrder | src/components/History.tsx:28-31 | the filter keeps log order and multiplicity: it distributes over concatenation and keeps a single record exactly when it passes |
| History.SummaryCountsAddUp | src/components/History.tsx:91-104 | dispensed and missed counts add up to the total |
| History.NoUpcomingRecords | src/lib/types.ts:30 | no record is ever `upcoming`, so filtering by it shows nothing |
| History.DateKey | src/components/History.tsx:36 | the day key is the longest prefix of the date without a `T`, ending where the first `T` is |
| History.GroupByDateIsWellGrouped | src/components/History.tsx:34-42 | the reduce gives one non-empty group per day key, each holding exactly that day's records in log order, and every record lands in a group |
| History.AddToGroupsKeepsGrouping | src/components/History.tsx:37-41 | one reduce step keeps the groups well formed for the log extended by the record |
| History.NewestFirst | src/components/History.tsx:141-142 | the groups are reordered, none lost or added, with day keys in descending order |
| History.OrderingKeepsGrouping | src/components/History.tsx:141-143 | reordering keeps the groups well formed |
| History.View | src/components/History.tsx:88-220 | the page: the total is the log length and the dispensed and missed counts are the sizes of the two status filters (lines 92-103), and they add up; the empty-state card shows exactly when the filtered list is empty, which is exactly when there are no groups; groups are newest first, with distinct keys, non-empty, and cover the filtered records exactly |
| History.BadgeText | src/components/History.tsx:63-76 | `dispensed` is badged "Dispensed" and anything else "Missed" |
| History.BadgeAgreesWithCard | src/components/History.tsx:63-76 | for a record's status the history badge and the dose card's label agree |
| DeviceStatus.BatteryColorOf | src/components/DeviceStatus.tsx:44-48 | green exactly above 50, yellow exactly in (20, 50], red exactly at or below 20 |
| DeviceStatus.BatteryIconOf | src/components/DeviceStatus.tsx:50-55 | the warning icon is used exactly at or below 20 |
| DeviceStatus.WarningIconIsRedBand | src/components/DeviceStatus.tsx:44-55 | the icon warns exactly when the colour is red |
| DeviceStatus.BatteryMessages | src/components/DeviceStatus.tsx:181-203 | each message block shows exactly on its own level range |
| DeviceStatus.ExactlyOneBatteryMessage | src/components/DeviceStatus.tsx:181-203 | for every level exactly one message shows, the one that goes with the level's colour |
| DeviceStatus.ConnectionPanelOf | src/components/DeviceStatus.tsx:88-159 | the badge reads Online or Offline; the reconnect panel and the healthy panel are shown alternately, by connectivity; the button is enabled only while no reconnect runs |
| DeviceStatus.Reconnect | src/components/DeviceStatus.tsx:25-42 | a reading sets connectivity and battery from the result and the sync time to now; a failure leaves the state unchanged; either way the reconnecting flag ends false and only the device changes |
| DeviceStatus.ReconnectShowsReading | src/components/DeviceStatus.tsx:29-36 | after a successful reconnect the panel and the battery band are those of the reading |
| DeviceStatus.ReconnectIdempotent | src/components/DeviceStatus.tsx:29-41 | repeating a reconnect with the same result changes nothing |
| MedicineCard.StatusColor | src/components/MedicineCard.tsx:15-26 | blue, green and red classes for the three statuses, gray for anything else |
| MedicineCard.StatusLabel | src/components/MedicineCard.tsx:28-39 | capitalised labels for the three statuses; any other string is shown as it is |
| MedicineCard.StatusesAreDistinguished | src/components/MedicineCard.tsx:15-39 | the three statuses get three different colours, none of them gray, and three different labels |
| MedicineCard.LabelCapitalisesKnownStatus | src/components/MedicineCard.tsx:28-39 | a known status's label is its text with the first letter upper-cased |
| MedicineCard.Card | src/components/MedicineCard.tsx:41-98 | "Dispense Now" shows exactly for an upcoming dose; the next-dose ring and indicator show exactly when `isNext`; the time shown is the legacy `time` field |
| MedicineCard.DerivedDoseShowsNoTime | src/components/MedicineCard.tsx:74 | a freshly derived dose for a filled slot has a scheduled time, yet its card shows an empty time |
| MedicineCard.FixedCard | src/components/MedicineCard.tsx:74 | the corrected card shows the time the store orders doses by, and is otherwise the card as written |
| MedicineCard.FixedCardShowsSlot | src/components/MedicineCard.tsx:74 | with the correction each derived dose's card shows its medicine's time slot |
| MedicineCard.FixedCardsInTimeOrder | src/lib/store.ts:160-165 | with the correction the cards, in store order, show ascending times |
| AuthStore.Login | src/lib/authStore.ts:33-42 | signs in and sets the phone; a stored user keeps every other field, with none a blank user is created; the onboarding flag is untouched |
| AuthStore.Merge | src/lib/authStore.ts:44-47 | the spread takes each given key and keeps the others |
| AuthStore.UpdateUser | src/lib/authStore.ts:44-47 | merges into a stored user; with no user the state stays as it is; flags untouched |
| AuthStore.Logout | src/lib/authStore.ts:49-54 | no user, signed out, not onboarded |
| AuthStore.CompleteOnboarding | src/lib/authStore.ts:56-57 | sets the onboarding flag and nothing else |
| AuthStore.LogoutResets | src/lib/authStore.ts:29-31 | logging out from any state returns to the initial state, in which the app is not shown |
| AuthStore.UpdateUserLaws | src/lib/authStore.ts:44-47 | an empty update changes nothing, an update applied twice acts once, and a full update overrides an earlier one |
| AuthStore.LoginTwice | src/lib/authStore.ts:33-42 | a second sign-in only replaces the phone number |
| AuthStore.OnboardingPathOpensApp | src/components/Layout.tsx:20-28 | from the initial state, sign-in alone does not open the app; sign-in, profile update and onboarding do, keeping the profile entered |
| AuthStore.OnboardingFlagOnlyClearedByLogout | src/lib/authStore.ts:33-57 | sign-in and profile updates keep the onboarding flag, onboarding sets it, and only logout clears it |

## Findings

| source | as written | input that shows it | evidently intended | confidence | as-written member | corrected member |
|---|---|---|---|---|---|---|
| src/components/MedicineCard.tsx:74 | the card shows `schedule.time`, but the store's doses carry their time in `scheduledTime` and leave `time` unset | a medicine with times `["08:00"]` after the daily derivation: the dose's card shows an empty time | show the dose's scheduled time, with the legacy `time` as a fallback, as the store's sort does | high; not executed | MedicineCard.DerivedDoseShowsNoTime | MedicineCard.FixedCard |

## Left out

- The device service in src/lib/iot.ts (random outcomes, delay): its answer is a parameter (`DeviceOutcome`, `CheckOutcome`).
- Persistence of both stores to local storage: this is storage plumbing with no logic.
- `crypto.randomUUID` and the clock are not modelled; fresh ids, `Day`, `Clock` and `now` are parameters. Each derivation reads the day once, whereas the source reads the clock for each time slot. The two differ only across midnight.
- The stored initial values (an online device at 85%, default settings) are not modelled: every action is proved for every state.
- Loading toasts and the dialog descriptions are not modelled: only the final toast of each action is.
- Async interleaving is not modelled; each handler is modelled as one sequential step. `confirmDispense` has no in-flight guard: `Dashboard.DoubleConfirmLogsTwice` shows that two confirms of one selection log twice.
- Derivation applies no date-range filter: every medicine contributes, whatever its `startDate` and `endDate`, which are stored but never read. Previous doses that no medicine produces any more are dropped.
- Dashboard.DispenseOfUpcomingDose: requires the selected dose to be upcoming, in the list and unique by id. Being upcoming is the button's gate, not a check the handler makes. Ids are unique only when no medicine lists the same time twice: the form accepts `["08:00", "08:00"]`, which gives two doses with one id (`Dashboard.RepeatedTimeSharesId`). `Dashboard.DispenseMovesEveryCopy` covers every list without that requirement: all copies of the id move to dispensed.
- DerivationLaws.DeriveIdempotent: requires that fresh doses are determined by their ids. `DerivationLaws.DistinctIdsDetermineDoses` proves this for distinct medicine ids and dash-free times; the source does not validate times.
- AddMedicineDialog.TimeChange: requires an index inside the list. The form only passes such indices; JavaScript would grow a sparse array otherwise.
- AddMedicineDialog.ParseIntRoundTrip: the model's `parseInt` skips only space, tab, CR and LF, has no `0x` hexadecimal prefix, and does not round to double precision above 2^53.
- DeviceStatus.BatteryColorOf: levels are integers; the source's `number` may be fractional. The bands are the same for fractional levels, but this is not modelled.
- DeviceStatus.Reconnect: the model shows the state after the handler finishes. While the request is pending, `isReconnecting` is true and the button is disabled; that state is covered only by `ConnectionPanelOf`.
- History.GroupByDateIsWellGrouped: day keys are taken to be ISO days, as the app writes them. The source groups into a plain object, so a key naming an `Object.prototype` member (`constructor`, `toString`, ...) finds an inherited value and the `push` throws; the model groups such a record like any other.
- History.NewestFirst: orders keys as strings, descending, while the source subtracts the `Date` values of the keys. The two agree on `YYYY-MM-DD` keys. A key that is not a valid date makes the source's comparison `NaN`.
- The `Today`/`Yesterday`/locale date labels, `toLocaleTimeString` and every other locale formatting are not modelled: they depend on the locale.
- The static compartment list in src/components/DeviceStatus.tsx:58-65 is not modelled: it is a constant with no logic.
- `DeviceInfo` in types.ts (`lastSyncTime`) is not modelled; the store's device state uses `lastSync` instead.
- Patches that hold an explicit `undefined` value are not modelled: a patch key is modelled as either present with a value or absent. A spread would copy the `undefined`.
- The notification service, hospitals page, emergency button, settings and profile forms, and routing are out of scope: they are plumbing over `updateSettings` and `updateUser`, or plugin calls. The layout's gate is stated as the predicate `AuthStore.ShowsApp`; the login pages' length checks on the phone number and the one-time code are not modelled.
