# Page activation state, in Dafny

This project models the activation-state logic of `src/Page.js`, a React page split into regions (navigation, header, main, footer). Each region holds named items, and each item carries an on/off toggle.

- **`Activator`** (`activation.dfy`, module `Activation`) is the toggle. It is a class with two mutable fields, the boolean `active` and the string `activationKey`, and the key is always `"ACTIVATED"` or `"DEACTIVATED"`. The source's `_toggleActiveStatus(status)` returns a closure. The model gives it a value, `Thunk`, and `Activator.Invoke` is the act of calling it. `Transition` is the pure function that says what the call does. `toggleBasedOnStatus` is the checked transition: it throws for a status outside the set. `compareStatus` is an equality query.
- **`Page.state`** (`page_store.dfy`, module `PageStore`) is a two-level table, region → item → `Activator`, with five slots. It is a `map<string, map<string, Activator>>` field of class `Page`. `SetActivationStatus` is the path-addressed mutation. It checks the status, then the region, then the item, and each check has its own error. It returns early when the addressed activator already holds the status. Otherwise it toggles that activator in place inside `setState`. `setState` is modelled as that in-place update plus one increment of the `notifications` counter, which stands for React's re-render.
- **The specification of the table** (`page_spec.dfy`, module `PageSpec`) covers:
  - the layout of the five slots (`Slot`, `PathOf`, `Layout`);
  - the guard order (`Validate`);
  - the effect of one call on the snapshot of `active` flags (`Step`);
  - the effect of a sequence of calls (`Run`), with lemmas on independence between slots, idempotence and "last write wins".
  
  `Page.SetActivationStatus` is proved against `Step`.
- **Errors** (`outcomes.dfy`, module `Outcomes`): each `throw new Error(...)` of the core becomes one constructor of `Error`. A call that may throw returns `Result`.

`src/Page.js` passes region and item names around as strings, so the model's inputs are strings too. Inside the proofs, the five slots are the enum `Slot`, and a snapshot of their flags is a five-field record.

## Model

| member | source | states |
|---|---|---|
| `Activation.ConsistentMeans` | src/Page.js:28-33 | The field invariant `Consistent` holds exactly when the key is one of the two statuses and `active` is true iff the key is `"ACTIVATED"`. |
| `Activation.Activator.constructor` | src/Page.js:28-33 | A new activator keeps the invariant. `active` is the argument (default false), and the key is `"ACTIVATED"` iff `active`. |
| `Activation.Transition` | src/Page.js:35-49 | Calling the toggle closure with `"ACTIVATED"` or `"DEACTIVATED"` sets the key to that status and `active` to `status == "ACTIVATED"`. Any other status (the `default` branch) changes nothing. Every branch preserves the invariant. |
| `Activation.TransitionIdempotent` | src/Page.js:35-49 | Applying a transition twice with the same status gives the same state as applying it once. |
| `Activation.TransitionOverwrites` | src/Page.js:35-49 | A valid transition's result does not depend on the previous state. |
| `Activation.Activator.Invoke` | src/Page.js:35-49 | Calling the closure changes the activator's state exactly as `Transition` says and keeps the invariant. |
| `Activation.Activator.CompareStatus` | src/Page.js:51-53 | Reads only. It is true exactly when the argument is a valid status that agrees with `active`, which under the invariant is the same as the argument equalling `activationKey`. |
| `Activation.Activator.ToggleBasedOnStatus` | src/Page.js:55-61 | A status outside the set fails with `ActivationStatusUnsupported` and changes nothing. A valid status succeeds and leaves `activationKey == status` and `active == (status == "ACTIVATED")`. |
| `Activation.Activator.Activate` | src/Page.js:63-65 | As written, it leaves both fields unchanged, because the closure it builds is never called. |
| `Activation.Activator.Deactivate` | src/Page.js:67-69 | As written, it leaves both fields unchanged, because the closure it builds is never called. |
| `Activation.ActivateIsInert` | src/Page.js:63-65 | An inactive activator is still inactive after `activate()`. |
| `Activation.DeactivateIsInert` | src/Page.js:67-69 | An active activator is still active after `deactivate()`. |
| `Activation.Activator.ActivateAsIntended` | src/Page.js:63-65 | With the closure called, `activate()` leaves the activator active with key `"ACTIVATED"`. |
| `Activation.Activator.DeactivateAsIntended` | src/Page.js:67-69 | With the closure called, `deactivate()` leaves the activator inactive with key `"DEACTIVATED"`. |
| `PageSpec.NamesDistinct` | src/Page.js:4-18 | The four region names are pairwise different, and so are the two header items. |
| `PageSpec.LayoutFindsSlot` | src/Page.js:74-88 | Each of the five slots is present in the table's key layout, at its own region and item. |
| `PageSpec.LayoutFindsEverySlot` | src/Page.js:74-88 | The same fact for all five slots at once. |
| `PageSpec.LayoutNamesSlot` | src/Page.js:74-88 | Every (region, item) key pair of the layout holds the slot whose path it is. Together with `LayoutFindsSlot`, the layout's paths and the five slots correspond one to one. |
| `PageSpec.InitialFlags` | src/Page.js:74-88 | In the initial snapshot only `header.logo` and `main.content` are active. |
| `PageSpec.Snapshot.Set` | src/Page.js:107-110 | Replacing one slot's flag sets that slot and leaves the other four unchanged. |
| `PageSpec.Validate` | src/Page.js:91-103 | The guard order, with a distinct error per guard. An invalid status gives `InvalidActivationStatus`, whatever the region and item. With a valid status, an unknown region gives `InvalidPageComponent`. Then an item not under that region gives `InvalidComponentItem`. Success names the slot whose path is (region, item), and every valid status with a slot's path succeeds. |
| `PageSpec.BoundPathsValid` | src/Page.js:113-143 | Each pre-bound handler has a status from the set and a slot's own path, so its guards always pass and it addresses that slot. |
| `PageSpec.Step` | src/Page.js:90-111 | One call on a snapshot. It fails exactly when `Validate` fails, with the same error and an unchanged snapshot. On success the addressed slot's flag is `status == "ACTIVATED"`. No other slot changes. A notification happens exactly when the snapshot changes, so the `compareStatus` early return does not notify. |
| `PageSpec.StepIdempotent` | src/Page.js:105-110 | Repeating a call gives the same snapshot and outcome, and the repeat does not notify. |
| `PageSpec.Run` | src/Page.js:90-111 | A sequence of calls notifies at most once per call. |
| `PageSpec.RunAppend` | src/Page.js:90-111 | Running two sequences one after the other is the same as running their concatenation: the snapshots agree and the notification counts add up. |
| `PageSpec.RunLeavesOtherSlots` | src/Page.js:107-110 | Calls that do not address a slot never change its flag. |
| `PageSpec.RunLastWriteWins` | src/Page.js:105-110 | After any sequence of calls, a slot's flag is the status of the last accepted call that addressed it, or its initial flag if there was none. |
| `PageStore.InitialTableAt` | src/Page.js:74-88 | The initialiser's table has exactly the layout's region and item keys. At each path it holds the activator of the layout's slot. |
| `PageStore.Page.constructor` | src/Page.js:74-88 | The state initialiser gives five distinct, fresh, valid activators, with `header.logo` and `main.content` active and the other three inactive. Nothing has been notified yet. |
| `PageStore.Page.SetActivationStatus` | src/Page.js:90-111 | The outcome, the new flags of all five slots and the notification count are exactly those `Step` gives for the old flags. The table object and its set of activators stay the same. |
| `PageStore.Page.SetActivatedStatusFor` | src/Page.js:113-143 | A `setActivatedStatusFor<Region><Item>` handler sets only its own slot to active. It notifies once if the slot was inactive and not at all otherwise. |
| `PageStore.Page.SetDeactivatedStatusFor` | src/Page.js:113-143 | A `setDeactivatedStatusFor<Region><Item>` handler sets only its own slot to inactive. It notifies once if the slot was active and not at all otherwise. |
| `PageStore.FooterBlurbScenario` | src/Page.js:74-111 | On a fresh page, `footer.blurb` starts inactive. Activating it twice and then deactivating it leaves it active after the activations, inactive at the end, and notifies exactly twice. |
| `PageStore.GuardScenario` | src/Page.js:91-103 | `("BOGUS", header, logo)` gives the status error. `(ACTIVATED, "sidebar", "x")` gives the region error. `(ACTIVATED, header, "bogus")` gives the item error. `("BOGUS", "sidebar", "x")` gives the status error. |

The helpers `IsStatus`, `KeyFor`, `PathOf`, `Snapshot.Get`, `Addressed`, `LastWritten`, `InitialTable`, `Page.At`, `Page.Valid` and `Page.Flags` have no contract of their own. The contracts above use them.

- `IsStatus` is `Object.keys(Activator.STATUSES).includes(status)`. The key names of `STATUSES` equal its values.
- `KeyFor` is the constructor's choice of key.
- `Page.Valid` is the class invariant. `state` is the initialiser's table over five distinct activators, and each activator keeps its own invariant. The source never adds or removes keys of `state`.

## Left out

- `Page.render` (src/Page.js:145-190) and `PageItem` (src/Page.js:193-215), including its `COLORS` check: rendering and styling only. Render reads `state[region][item].active`, which `FooterBlurbScenario` reads the same way.
- React: the import, the asynchronous batching of `setState` and the re-render it triggers. `setState` is a synchronous in-place update plus one increment of `notifications`.
- Currying (src/Page.js:90, 114-143): the curried `setActivationStatus` is a method taking the three arguments together. The ten pre-bound handlers are `SetActivatedStatusFor(slot)` and `SetDeactivatedStatusFor(slot)` with the slot fixed.
- Arguments that are not strings (`undefined`, numbers, objects, which JavaScript's `includes` would simply reject): status, region and item are strings in the model.
- A read accessor `get(region, item)` that fails on unknown paths: `src/Page.js` has no such operation, because render indexes `state` directly.
- Assigning `this.state` from outside the class: the invariant fixes the table's shape, as the source's own code never changes it.

## Findings

| source | as written | input that shows it | evidently intended | confidence | as-written member | corrected member |
|---|---|---|---|---|---|---|
| src/Page.js:63-65 | `activate()` evaluates `this._toggleActiveStatus(ACTIVATED)`, which only builds the toggle closure, and never calls it | `new Activator()` followed by `activate()` leaves `active` false (`Activation.ActivateIsInert`) | call the closure, `this._toggleActiveStatus(ACTIVATED)()`, as `toggleBasedOnStatus` does at line 60 | high; not executed | `Activation.Activator.Activate` | `Activation.Activator.ActivateAsIntended` |
| src/Page.js:67-69 | `deactivate()` builds the closure for `DEACTIVATED` and never calls it | `new Activator(true)` followed by `deactivate()` leaves `active` true (`Activation.DeactivateIsInert`) | `this._toggleActiveStatus(DEACTIVATED)()` | high; not executed | `Activation.Activator.Deactivate` | `Activation.Activator.DeactivateAsIntended` |

Nothing else in `src/Page.js` calls `activate()` or `deactivate()`, so the rest of the model is unaffected by either choice. The page's handlers go through `toggleBasedOnStatus`, which does call the closure.
