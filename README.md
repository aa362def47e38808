# my-drinks: cart ledger and recent-search history

This is a Dafny model of two parts of the my-drinks client: the cart slice of its store and the recent-search history of its home page.

- **Cart ledger** (`cart.dfy`, module `CartLedger`). The cart holds line items, each with an id, a name, a unit price and a quantity, plus a running `total`. Four reducers change it in place: `addItem`, `removeItem`, `updateQuantity` and `clearCart`. The model has two layers.
  - Pure transitions on a `CartState` value: `Added`, `Removed`, `Updated` and `Cleared`. The lemmas are stated about these.
  - A class `Cart` whose fields `items` and `total` are mutated by methods, as the slice's reducers mutate their draft state. Each method is proved to perform exactly the matching transition. Every method keeps ids unique on any cart whose ids are unique. `RemoveItem`, `UpdateQuantity` and `ClearCart` also keep the whole ledger invariant: ids are unique and `total` equals the sum of `price * quantity` over the lines. `AddItem` keeps the invariant only when any stored line with the payload's id has the payload's price. Otherwise the total drifts (see below).
- **Recent-search history** (`history.dfy`, module `SearchHistory`).
  - `Record` is the update made when a search completes. If the input box's value is non-empty and the result's `drinks` is non-empty, every copy of the term is removed and the term is put in front.
  - `ShouldSearch` is the guard that issues a search only when the input does not trim to the empty string.
  - A search starts in one of two ways. It can be typed into the box, in which case the guard applies. Or it can be started from a history button (`src/app/page.tsx:100`), which has no guard.
  - `CompletedAsWritten` is the completion step as the code has it: the term recorded is the box's contents when the search completes. `Completed` is the intended step, which records the term that was searched. The two differ only for history-button searches (see "## Findings").
  - There is no cap on the history's length.

`wrappers.dfy` defines the `Option` type that the lookup returns.

Modelling choices:

- Prices and totals are integers, such as cents. JavaScript's floating-point `number` is not modelled.
- Quantities are unbounded integers. `updateQuantity` stores any quantity it is given, including 0 and negative ones.
- `Array.prototype.find` returns the first line with the id. It is modelled by the function `FindIndex` and by the loop in `Cart.Find`.
- `filter` is modelled by `CartLedger.Without` and `SearchHistory.RemoveAll`.
- The search term is the input-box value at the moment the search completes. It is a parameter of the model.
- For a typed search, the box value at completion is the value that was searched. The search box and its button are disabled while a search is pending (`src/app/page.tsx:63`, `src/app/page.tsx:75`). The history buttons are never disabled.
- `trim` removes the WhiteSpace and LineTerminator code points of ECMAScript (the ECMAScript Language Specification, sections 12.2 and 12.3). `IsWhiteSpace` lists these code points.
- The untrimmed input is both searched and recorded, so `" mojito"` and `"mojito"` are different history entries.

Behaviour of the code worth knowing:

- The history is never truncated. There is no maximum length anywhere in `src/app/page.tsx:29-35`.
- A line's quantity is not kept at 1 or more. `updateQuantity` neither clamps the quantity nor removes the line at 0. `UpdatedPresent` states this.
- `addItem` adds the payload's price to the total, not the stored line's price, even when it bumps an existing line (`src/store/slices/cartSlice.ts:33`). `AddedConsistentIff` shows when this matters: after `addItem` on a valid cart, the total is consistent exactly when any stored line with the payload's id has the payload's price. `AddRepricedDrifts` gives a concrete cart where adding a known id at a new price makes the total drift. `RunKeepsLedger` proves the invariant over arbitrary action sequences whose adds carry one catalog price per id. That condition is sufficient, not necessary. For example, adding id 1 at price 10, removing it, then adding it again at price 12 keeps the invariant, but no single catalog prices both adds. `RunKeepsLedger` does not cover such re-pricing after a removal; `AddedConsistentIff` gives the exact condition for each step. `RunKeepsUniqueIds` proves that ids stay unique over every action sequence, with no condition on prices.

## Model

| member | source | states |
|---|---|---|
| `CartLedger.Added` | src/store/slices/cartSlice.ts:24-34 | addItem as a transition: the total grows by the payload's price; the line count is unchanged if the id was present and grows by one if not; afterwards a line has the payload's id |
| `CartLedger.Removed` | src/store/slices/cartSlice.ts:35-41 | removeItem as a transition: afterwards no line has the id; an absent id leaves the state as it was; no line is added |
| `CartLedger.Updated` | src/store/slices/cartSlice.ts:42-54 | updateQuantity as a transition: the same number of lines, each with its id, name and price unchanged; an absent id leaves the state as it was |
| `CartLedger.Cleared` | src/store/slices/cartSlice.ts:55-58 | clearCart as a transition: no lines, and a state that satisfies the invariant |
| `CartLedger.Step` | src/store/slices/cartSlice.ts:20-60 | the slice's reducer: each of the four exported actions applied by its own transition (definition; its properties are the rows below) |
| `CartLedger.Run` | src/store/slices/cartSlice.ts:20-60 | a sequence of actions dispatched one after another (definition; `RunKeepsLedger` and `RunKeepsUniqueIds` state its properties) |
| `CartLedger.FindIndex` | src/store/slices/cartSlice.ts:25-27 | `find` by id: returns no index exactly when no line has the id; otherwise returns an index holding the id, with no earlier line holding it |
| `CartLedger.Cart.Find` | src/store/slices/cartSlice.ts:25-27 | the linear search over the live items agrees with `FindIndex`: none exactly when the id is absent, else the first matching index |
| `CartLedger.Without` | src/store/slices/cartSlice.ts:39 | `filter`: the result holds exactly the lines whose id differs from the removed one, and it is no longer than before |
| `CartLedger.WithoutAt` | src/store/slices/cartSlice.ts:39 | with unique ids, filtering out line i's id deletes exactly line i and keeps the other lines in their order |
| `CartLedger.Cart.constructor` | src/store/slices/cartSlice.ts:15-18 | the slice starts with no items and a total of 0, which satisfies the ledger invariant |
| `CartLedger.Cart.AddItem` | src/store/slices/cartSlice.ts:24-34 | the in-place reducer performs the `Added` transition; it keeps ids unique, and keeps the whole invariant whenever a stored line with the payload's id has the payload's price |
| `CartLedger.Cart.RemoveItem` | src/store/slices/cartSlice.ts:35-41 | the in-place reducer performs the `Removed` transition; it keeps ids unique, and keeps the whole invariant |
| `CartLedger.Cart.UpdateQuantity` | src/store/slices/cartSlice.ts:42-54 | the in-place reducer performs the `Updated` transition; it keeps ids unique, and keeps the whole invariant for every new quantity |
| `CartLedger.Cart.ClearCart` | src/store/slices/cartSlice.ts:55-58 | after clearing, the state is the initial state and satisfies the invariant |
| `CartLedger.AddedAbsent` | src/store/slices/cartSlice.ts:30-33 | a new id appends one line at the end: the payload's id, name and price with quantity 1; earlier lines are unchanged; the total grows by the payload's price |
| `CartLedger.AddedPresent` | src/store/slices/cartSlice.ts:25-33 | a present id raises that line's quantity by exactly 1; the line count and all other lines are unchanged; the total grows by the payload's price |
| `CartLedger.AddedKeepsUniqueIds` | src/store/slices/cartSlice.ts:24-34 | addItem keeps ids unique |
| `CartLedger.AddedConsistentIff` | src/store/slices/cartSlice.ts:28-33 | on a valid cart, the total after addItem equals the sum over the lines if and only if a stored line with the payload's id has the payload's price |
| `CartLedger.AddedKeepsLedger` | src/store/slices/cartSlice.ts:24-34 | addItem keeps the whole invariant (unique ids and consistent total) when prices agree |
| `CartLedger.AddRepricedDrifts` | src/store/slices/cartSlice.ts:29-33 | a concrete valid cart where re-adding id 1 at price 12 instead of 10 leaves a total that no longer matches the lines |
| `CartLedger.RemovedAbsent` | src/store/slices/cartSlice.ts:36-37 | removeItem on an id no line has leaves the state completely unchanged |
| `CartLedger.RemovedPresent` | src/store/slices/cartSlice.ts:36-40 | removeItem on a present id deletes exactly that line, keeps the others in order, and lowers the total by price times quantity of that line |
| `CartLedger.RemovedKeepsUniqueIds` | src/store/slices/cartSlice.ts:35-41 | removeItem keeps ids unique on any cart with unique ids, whatever its total |
| `CartLedger.RemovedKeepsLedger` | src/store/slices/cartSlice.ts:35-41 | removeItem keeps ids unique and the total equal to the sum over the lines |
| `CartLedger.UpdatedAbsent` | src/store/slices/cartSlice.ts:46-49 | updateQuantity on an id no line has leaves the state completely unchanged |
| `CartLedger.UpdatedPresent` | src/store/slices/cartSlice.ts:46-53 | updateQuantity changes only the targeted line, and only its quantity, to exactly the given value (no clamping, no removal at 0); the total moves by the delta times the price |
| `CartLedger.UpdatedKeepsUniqueIds` | src/store/slices/cartSlice.ts:42-54 | updateQuantity keeps ids unique on any cart with unique ids, whatever its total |
| `CartLedger.UpdatedKeepsLedger` | src/store/slices/cartSlice.ts:50-52 | updateQuantity keeps the invariant for any new quantity, including 0 and negative ones |
| `CartLedger.ClearedIsInitial` | src/store/slices/cartSlice.ts:55-58 | clearCart yields exactly `initialState`, which satisfies the invariant |
| `CartLedger.RunKeepsLedger` | src/store/slices/cartSlice.ts:23-59 | after any sequence of the four actions, ids stay unique and the total equals the sum over the lines, provided every add carries its id's catalog price |
| `CartLedger.StepKeepsUniqueIds` | src/store/slices/cartSlice.ts:24-58 | every one of the four reducers keeps ids unique |
| `CartLedger.RunKeepsUniqueIds` | src/store/slices/cartSlice.ts:20-60 | after any sequence of actions, with any prices, no two lines share an id |
| `CartLedger.AddUpdateRemoveScenario` | src/store/slices/cartSlice.ts:24-53 | adding item 1 at price 10 twice, setting its quantity to 5 and then removing it gives totals 10, 20, 50 and 0, with the expected lines |
| `SearchHistory.RemoveAll` | src/app/page.tsx:31-33 | `filter`: the result holds exactly the entries different from the term, and it is no longer than before |
| `SearchHistory.RemoveAllCount` | src/app/page.tsx:31-33 | the filter keeps no copy of the term and every copy of each other entry |
| `SearchHistory.Record` | src/app/page.tsx:29-35 | an entry is in the new history exactly when it was in the old one or is the recorded term; the history grows by at most one entry and is never truncated |
| `SearchHistory.RecordMovesToFront` | src/app/page.tsx:31-34 | after a recording update the term is first and occurs exactly once, and every other entry occurs as often as before |
| `SearchHistory.RecordKeepsOrder` | src/app/page.tsx:31-34 | the other entries keep their relative order: erasing the term from the old and the new history gives the same sequence |
| `SearchHistory.RecordIdempotent` | src/app/page.tsx:31-34 | recording the same term twice in a row gives the same history as recording it once |
| `SearchHistory.RecordUnchangedIff` | src/app/page.tsx:29-34 | the history is unchanged if and only if the results are empty, the term is empty, or the term is already first and appears nowhere else |
| `SearchHistory.RecordKeepsDistinct` | src/app/page.tsx:31-34 | a duplicate-free history stays duplicate-free; it grows by one entry exactly when a new term is recorded, otherwise its length is unchanged |
| `SearchHistory.MoveToFrontScenario` | src/app/page.tsx:29-34 | recording "mojito", then "daiquiri", then "mojito" gives `["mojito", "daiquiri"]` |
| `SearchHistory.TrimStart` | src/app/page.tsx:42 | drops only leading white space and stops at the first character that is not white space |
| `SearchHistory.TrimEnd` | src/app/page.tsx:42 | drops only trailing white space and stops at the last character that is not white space |
| `SearchHistory.Trim` | src/app/page.tsx:42 | `trim`: the result is the slice of the input that starts after its leading white space, with only white space after it; unless empty, it starts and ends with a character that is not white space |
| `SearchHistory.ShouldSearch` | src/app/page.tsx:42 | handleSearch's guard, the trimmed input is not empty (definition; `ShouldSearchIff` states its meaning) |
| `SearchHistory.ShouldSearchIff` | src/app/page.tsx:42 | a search is issued if and only if the input has a character that is not white space |
| `SearchHistory.Issued` | src/app/page.tsx:41-44 | a typed search is issued exactly when the guard passes, for the untrimmed input (line 43); a history-button search (line 100) is issued, with no guard, exactly when the index is in range, for the entry at that index; on a history without blank entries, every issued term passes the guard |
| `SearchHistory.CompletedAsWritten` | src/app/page.tsx:29-34 | the code's completion step: nothing changes if no search was issued; otherwise the new entries are the old ones plus the box's value at completion, if it is non-empty and the results are non-empty |
| `SearchHistory.Completed` | src/app/page.tsx:29-34 | the intended completion step: nothing changes if no search was issued; otherwise the new entries are the old ones plus the searched term, if the results are non-empty |
| `SearchHistory.TypedAsWrittenAgrees` | src/app/page.tsx:29-44 | for a typed search whose box still holds the input at completion, the code and the intended step give the same history |
| `SearchHistory.ReplayRecordsBox` | src/app/page.tsx:29-34 | the code as written: clicking "mojito" with "   " left in the box puts the blank entry "   " in front, which no typed search could add; with a cleared box, the clicked entry is not moved to the front |
| `SearchHistory.ReplayMovesToFront` | src/app/page.tsx:29-34 | the intended step: clicking "mojito" in `["daiquiri", "mojito"]` gives `["mojito", "daiquiri"]` |
| `SearchHistory.CompletedKeepsNoBlank` | src/app/page.tsx:29-44 | under the intended step, a blank typed input leaves the history unchanged, and a history without blank entries never gains one, from typed or history-button searches |

## Left out

- Favorites slice: `src/store/slices/favoritesSlice.ts` is not part of this model.
- Remote query cache: the deduplicating remote query cache (`useMutation`, `getCocktailsByName`, `queryClient.setQueryData`, `src/app/page.tsx:23-28`) is left out. It is a network call and a third-party cache whose code is not part of this model. Whether the results are non-empty is a boolean parameter of `Record`.
- History persistence: `useLocalStorage` (`src/app/page.tsx:18-21`) is browser storage I/O in a hook that is not part of this model. The history is a plain sequence value, and the `searchResults &&` test on line 29 is taken to be always true, since the hook is typed to return an array.
- Missing input ref: the `inputRef.current` null checks (lines 27, 42) are not modelled. The model assumes the input box is mounted.
- Box contents: clearing the box after a successful search (line 36) and the user's edits to it are not modelled as operations. The box's contents at completion are a parameter, `boxValue`, of `CompletedAsWritten`. The box keeps its contents after a refused or failed search.
- Overlapping searches: the history buttons are not disabled while a search is pending (lines 97-103), so a second search can start before the first completes. The model treats each search as completing before the next starts. It does not capture interleaved completions, or which completion's box value each one reads.
- UI: the React rendering, buttons, loading and error messages (lines 47-110) are presentation only.
- Redux Toolkit: `createSlice`, the action creators and Immer's draft mechanics are left out. Each reducer is a method on a `Cart` object.
- Logging and string encoding: the `console.log(data)` call (`src/app/page.tsx:26`) is output only and is not modelled. Strings are sequences of Unicode scalar values, whereas JavaScript strings are sequences of UTF-16 code units. Every code point `trim` removes lies in the Basic Multilingual Plane, so only lone surrogates, which a model string cannot hold, are lost.
- Number semantics: the floating-point behaviour of `price` and `total` is not modelled. Prices are integers.

## Findings

| source | as written | input that shows it | evidently intended | confidence | as-written member | corrected member |
|---|---|---|---|---|---|---|
| src/app/page.tsx:29-34 | the term recorded is `inputRef.current.value`, the box's contents when the search completes, not the term that was searched | type `"   "` and press Enter (line 42 refuses it, so the box keeps `"   "`), then click the "mojito" history button (line 100): `"   "` is put at the front of the history; after a successful search has cleared the box (line 36), clicking an entry records `""`, so the entry is not moved to the front | record the term the search was issued for, so that a history-button search moves its entry to the front and never adds a blank entry | medium, not executed | `SearchHistory.CompletedAsWritten` (shown by `SearchHistory.ReplayRecordsBox`) | `SearchHistory.Completed` (proved by `SearchHistory.CompletedKeepsNoBlank`, `SearchHistory.ReplayMovesToFront`) |
