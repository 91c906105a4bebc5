# JackPot-Game: the list store and the spin state machine

JackPot-Game is a browser randomizer. The user keeps several titled lists of
phrases, then presses SPIN. A spin draws one phrase from every list. Two seconds
later the drawn phrases are shown together. All of the behaviour lives in the
`App` component of `App.tsx`. This project models that behaviour in Dafny and
proves what it guarantees.

- **Types** (`types.dfy`): the `TextList` and `SpinResult` records of `types.ts`.
  It also holds `ListUpdate`, the `Partial<TextList>` that `updateList` receives,
  with one optional field per record field. `Merge` is the object spread
  `{ ...l, ...updates }`.
- **Decimal** (`decimal.dfy`): how the template literal writes the number in the
  title of a new list. The number is written in decimal with no leading zero, and
  it can be read back.
- **ListStore** (`list_store.dfy`): the starting lists `DEFAULT_LISTS`, and
  `addList`, `removeList` and `updateList` as pure functions from the old
  collection to the new one. The filter and the map of the source become
  `WithoutId` and a sequence comprehension. A sequence of edits is a `Run` of
  `ListOp`s. The central invariant is that the collection keeps at least one list
  and its ids stay distinct. It is proved for every run of edits that meets two
  premises about the store's callers. Each added id is not in use. Each update
  keeps the list's id or renames it to an id not in use. The store itself checks
  neither premise.
- **SpinDraw** (`spin.dfy`): what `spin` computes before it changes state. This
  is the empty-list filter and one draw per list. `Math.random()` becomes a real
  `r` in [0, 1) chosen by the caller. The index is `Floor(r * n)`, as in
  `Math.floor(Math.random() * n)`.
- **App** (`app.dfy`): the class `AppState` with the fields `lists`, `results`
  and `isSpinning`, plus `pending`. The field `pending` holds the results that
  the scheduled `setTimeout` callback will publish. `Spin` is the synchronous
  part of `spin`. `Complete` is the timer callback. Three client methods run
  whole scenarios against the class.

Two behaviours of the code are easy to misread, and the model keeps them as written:

- `spin` checks the spinning flag before it looks for empty lists. A spin
  requested while spinning is ignored even when a list is empty, and no alert is
  raised.
- A `Partial<TextList>` may carry an `id`, so an update can rename a list. The
  store never checks that `items` agrees with `rawText`. The model makes neither
  promise. It shows what happens when a list is renamed
  (`RenameThenRemoveEmpties`).

## Model

| member | source | states |
|---|---|---|
| Types.Merge | App.tsx:69 | no contract of its own; the spread `{ ...l, ...updates }`, specified by MergeFields, MergeNothing, MergeCompose and MergeIdempotent |
| Types.MergeFields | App.tsx:68-69 | in the merged entry, each field that the update carries replaces the old one, and every other field is kept |
| Types.MergeNothing | App.tsx:69 | spreading an empty update leaves the list unchanged |
| Types.MergeCompose | App.tsx:69 | two successive spreads equal one spread of the combined update, with the later fields winning |
| Types.MergeIdempotent | App.tsx:69 | spreading the same update twice is the same as spreading it once |
| Decimal.Format | App.tsx:56 | the number in a new title is a non-empty string of decimal digits with no leading zero, except for "0" itself |
| Decimal.ParseFormat | App.tsx:56 | reading back the decimal text of n gives n |
| Decimal.FormatInjective | App.tsx:56 | two numbers have the same text exactly when they are equal |
| ListStore.DefaultLists | App.tsx:8-27 | no contract of its own; the starting lists, literal for literal, specified by DefaultListsWellFormed |
| ListStore.NewListTitle | App.tsx:56 | no contract of its own; the title prefix followed by the decimal number, specified by NewListTitleInjective and Decimal.ParseFormat |
| ListStore.DefaultListsWellFormed | App.tsx:8-27 | the starting collection has three lists with distinct ids, each with five items, so it satisfies the store invariant |
| ListStore.NewListTitleInjective | App.tsx:56 | the title of an added list determines the number it was given (old length + 1) |
| ListStore.AddList | App.tsx:53-61 | the collection grows by exactly one entry at the end and the earlier entries are untouched; the new entry has the given id, the title numbered old length + 1, no items and empty raw text |
| ListStore.AddListKeepsUniqueIds | App.tsx:53-60 | adding under an id not in use keeps the ids distinct |
| ListStore.WithoutId | App.tsx:65 | the filter keeps exactly the lists whose id differs, and never grows the collection |
| ListStore.RemoveList | App.tsx:63-66 | with at most one list it changes nothing; otherwise a list survives exactly when it was present and its id differs |
| ListStore.WithoutIdConcat | App.tsx:65 | filtering a concatenation filters each part and keeps the parts in their order |
| ListStore.WithoutIdAbsent | App.tsx:65 | filtering out an id that no list has returns the same collection |
| ListStore.RemoveUnknownId | App.tsx:63-66 | removing an unknown id leaves the collection unchanged |
| ListStore.RemoveUniqueAt | App.tsx:63-66 | with distinct ids and at least two lists, removing the id of list k yields exactly the other lists in their original order |
| ListStore.IdOnlyAt | App.tsx:65 | with distinct ids, the id of list k occurs neither before nor after it |
| ListStore.RemoveKnownId | App.tsx:63-66 | with distinct ids and at least two lists, removing an id in use removes exactly one list |
| ListStore.UniqueIdsWithout | App.tsx:65 | taking one list out of a collection with distinct ids leaves distinct ids |
| ListStore.RemoveKeepsInvariant | App.tsx:63-66 | from a collection with at least one list and distinct ids, a removal keeps at least one list and distinct ids |
| ListStore.UpdateList | App.tsx:68-70 | the update keeps the length and order; entries with another id are unchanged; each matching entry becomes the spread of the update over it |
| ListStore.UpdateUnknownId | App.tsx:68-70 | updating an unknown id leaves the collection unchanged |
| ListStore.UpdateIdempotent | App.tsx:68-70 | applying the same update twice equals applying it once |
| ListStore.UpdateKeepsIds | App.tsx:68-70 | an update that does not rename keeps every id in place, so distinct ids stay distinct |
| ListStore.UpdateRenameFresh | App.tsx:68-70 | with distinct ids, an update that renames to an id not in use keeps the ids distinct |
| ListStore.UpdateKeepsUniqueIds | App.tsx:68-70 | with distinct ids, every update that keeps the id or renames to an id not in use keeps the ids distinct |
| ListStore.UpdateUniqueAt | App.tsx:68-70 | with distinct ids, updating the id of list k changes list k alone |
| ListStore.ApplyKeepsInvariant | App.tsx:53-70 | provided an added id is not in use and an update keeps the id or renames to an id not in use, every edit keeps at least one list and distinct ids |
| ListStore.RunKeepsInvariant | App.tsx:53-70 | under the same two premises on every step, any sequence of edits keeps at least one list and distinct ids |
| ListStore.ReachableFromDefaults | App.tsx:8-70 | starting from the default lists, under the same two premises on every step, the list count never drops below one and the ids stay distinct |
| ListStore.RenameThenRemoveEmpties | App.tsx:63-70 | the minimum-one guard counts lists, not ids: after renaming one of two lists to the other's id, a removal empties the collection |
| SpinDraw.Pick | App.tsx:85 | the drawn index is always within the list |
| SpinDraw.PickPreimage | App.tsx:85 | index j is drawn exactly when the random value lies in [j/n, (j+1)/n), an interval of width 1/n for every j, so a uniform source draws each item with equal chance |
| SpinDraw.Draw | App.tsx:83-86 | a list's result names that list and holds one of its items |
| SpinDraw.DrawReachesEveryItem | App.tsx:85 | every item of a list can be drawn, by some value in [0, 1) |
| SpinDraw.EmptyLists | App.tsx:75 | the filter keeps exactly the lists that have no items |
| SpinDraw.EmptyListsGate | App.tsx:75-76 | the rejection test fires exactly when some list has no items |
| SpinDraw.SpinResults | App.tsx:83-86 | there is one result per list, in list order; result i names list i and holds an item of list i |
| SpinDraw.SpinResultsAt | App.tsx:83-86 | result i is the draw from list i with the i-th random value alone, so the draws are independent across lists |
| SpinDraw.SpinResultsSingletons | App.tsx:83-86 | lists with one item each give the same results for every random value |
| App.AppState.constructor | App.tsx:30-32 | the component starts with the default lists, no results and the flag down |
| App.AppState.AddList | App.tsx:53-61 | the lists become AddList of the old lists, nothing else changes, and the store invariant is kept when the id is fresh |
| App.AppState.RemoveList | App.tsx:63-66 | the lists become RemoveList of the old lists, unchanged when at most one is left; nothing else changes and the store invariant is kept |
| App.AppState.UpdateList | App.tsx:68-70 | the lists become UpdateList of the old lists, nothing else changes, and the store invariant is kept when the update keeps the id or renames to an id not in use |
| App.AppState.Spin | App.tsx:72-87 | while spinning, nothing changes; with an empty list, nothing changes and the outcome is the rejection; otherwise the flag is raised and the results of every list are computed at once and scheduled; lists and results are untouched |
| App.AppState.Complete | App.tsx:88-93 | the scheduled results replace the published ones wholesale, without accumulation, and the flag drops |
| App.GoldenScenario | App.tsx:72-94 | three one-item lists "cat", "jumps" and "high", spun and completed, show exactly those items for lists 1, 2 and 3, in order, whatever the random values |
| App.SpinCycleScenario | App.tsx:72-94 | a second spin while the first is pending is ignored; a removal in between does not change what is published; completion publishes the single result sequence of the first spin |
| App.RejectedScenario | App.tsx:53-79 | after adding an empty list, a spin is rejected, the flag stays down and no results appear |

## Left out

- ListStore.ApplyKeepsInvariant, RunKeepsInvariant, ReachableFromDefaults: these assume two things about the store's callers, and the store checks neither. An added id must not be in use; this is a premise on the random id source. An update must keep the list's id or rename it to an id not in use; this is a premise on `components/ListManager`, which is not part of this model. `RenameThenRemoveEmpties` shows the collection emptying when the second premise fails.

- Rendering, CSS classes and the `showSettings` toggle (App.tsx:96-211) are presentation only. The button disabled while spinning (App.tsx:139) and the results display guard (App.tsx:162) are not modelled. The remove button's `isRemovable` (App.tsx:199) is not modelled either; the store's own guard covers it.
- The install prompt (`beforeinstallprompt` and `handleInstall`, App.tsx:36-51) is browser event plumbing around an asynchronous foreign call.
- `alert` (App.tsx:77) appears only as the `Rejected` outcome. `navigator.vibrate` (App.tsx:92) is a best-effort platform effect and is not modelled.
- `Math.random()` is a caller-supplied real in [0, 1). Floating-point rounding of `r * n` is not modelled, and neither is the probability distribution; `PickPreimage` states the interval argument for uniformity.
- The id of an added list, `Math.random().toString(36).substr(2, 9)` (App.tsx:55), is a parameter. The model does not describe its format. Collisions are not excluded by the store: the uniqueness lemmas assume the id is not in use.
- Time is not modelled, so neither is the 2000 ms delay (App.tsx:93). The callback is the separate step `Complete`, which may run only while a completion is scheduled.
- React's closure capture and re-render timing are not modelled. The model assumes that each handler sees the current state. Two clicks landing before a re-render could see a stale `isSpinning`.
- An update object that has a field explicitly set to `undefined` would overwrite that field with `undefined`. The model treats every field as either present with a value or absent.
- Splitting `rawText` into `items` happens in `components/ListManager`, which is not part of this model. The store does not keep the two fields in agreement, and the model claims no such invariant.
- `SlotMachine` and `ListManager` are not part of this model.
