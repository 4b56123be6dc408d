# Note tabs: a Dafny model of the tab list logic of joplin-note-tabs

joplin-note-tabs is a plugin for the Joplin note application. It shows the
open notes as tabs above the editor. This project models, in Dafny, the
parts of the plugin that decide what the tab list contains:

- **TabList** (`tab_list.dfy`). The tab record (`id` and `type`; the field is
  called `kind` here because `type` is a keyword) and the list operations,
  stated once as functions on `seq<Tab>`. These are delete by id, insert
  before a target, move, change of type, and replacement of the temporary
  tab. Lemmas prove their properties, including that unique ids and "at
  most one temporary tab" are kept.
- **NoteTabs** (`note_tabs.dfy`). The `NoteTabs` class of `src/noteTabs.ts`.
  It owns a tab array and mutates it with `splice`, `push` and field
  assignment.
- **Helpers** (`helpers.dfy`). The older `NoteTabs` class of
  `src/helpers.ts`, which writes its array to the `noteTabs` setting after
  every change. The ghost predicate `Stored()` says that the stored setting
  equals the in-memory array, and every mutator keeps it. This file also
  holds `LastActiveNoteQueue`.
- **Recent** and **LastActive** (`recent.dfy`, `last_active_note.dfy`). The
  two-entry queue of the last active and the current note. The class is
  `LastActiveNote` of `src/lastActiveNote.ts`; `Recent` holds the queue as
  functions.
- **Settings** (`settings.dfy`). `getOrDefault` and `read` of
  `src/settings.ts`. A style option whose stored value matches
  `/default/i` is replaced by its CSS fallback. A change event re-reads
  only the options it names. This file also has the field initial values,
  `storeTabs`, `clearTabs`, `hasUnpinBehavior` and `hasLayoutMode`.
- **PinnedNotes** (`pinned_notes.dfy`). The list logic of the older entry
  point `src/index.ts`: the `getIndexWithAttr`/`getItemWithAttr` searches,
  the `pinNote`, `unpinNote` and `clearTabs` command bodies, and the tabs
  `updateTabsPanel` renders.
- **Host** (`host.dfy`). The application's settings store, a map from
  setting key to value. **Lists** (`lists.dfy`) holds the JavaScript array
  primitives the plugin uses (`findIndex`, `find`, `splice`). **Common**
  (`common.dfy`) holds `Option`, used for `null`/`undefined`, and the
  truthiness of an optional string.

Modelling decisions:

- In `src/helpers.ts`, whose guards test `== null`, JavaScript `null` and
  `undefined` are both `None`. In `src/noteTabs.ts` the guards test
  `=== undefined`, and `None` stands for `undefined` only (see "## Left out").
- A guard `if (x)` on a string is `Truthy`: present and not empty.
- `splice(i, 0, x)` with `i` past the end appends. So does
  `splice(i, 1, x)`, and `ReplaceAtIndex` models that too.
- Both `moveWithIndex` implementations delete the source tab by id
  (`delete(get(sourceIdx).id)`), not by index. They are a plain list move
  when the source tab is the first with its id (`TabList.MovedWithIndexIsMove`).
  With unique ids this always holds, because the tab at an index is then the
  first with its id (`TabList.UniqueIndexOf`). `TabList.MovedWithIndexDuplicateIds`
  shows what happens with duplicate ids: the wrong record is removed.
- Setting keys are an enumeration, `Host.SettingKey`. `Host.KeyName` gives
  each key's string, and a change event is the set of keys it names.
- The 22 private option fields of `Settings` form one record,
  `Settings.Options`, held in the field `options`.
- The `i` flag of `/default/i` folds ASCII letters only (`Settings.Lower`).

## Model

| member | source | states |
|---|---|---|
| Lists.FirstIndex | src/noteTabs.ts:54-56 | `findIndex`: the result is -1 or an index in range. At a non-negative result the predicate holds and fails at every earlier index. The result is -1 exactly when no element satisfies the predicate. |
| Lists.Find | src/noteTabs.ts:88-90 | `find`: nothing exactly when no element satisfies the predicate; otherwise the element at `FirstIndex`. |
| Lists.InsertAt | src/noteTabs.ts:63-67 | `splice(i, 0, x)`: one longer, `x` at `i`, elements before `i` unchanged, later ones shifted by one, multiset grows by `x`. |
| Lists.RemoveAt | src/noteTabs.ts:150-155 | `splice(i, 1)`: one shorter, earlier elements unchanged, later ones shifted down, multiset loses exactly `s[i]`. |
| Lists.InsertClamped | src/noteTabs.ts:63-67 | A start index past the end appends; otherwise `InsertAt`. |
| Lists.ReplaceClamped | src/helpers.ts:70-75 | `splice(i, 1, x)`: in range, only position `i` changes, to `x`; past the end, `x` is appended. |
| Lists.Move | src/noteTabs.ts:108-115 | Remove at `i`, insert at `j`: same length, the moved element at `j`, same multiset. |
| Lists.MoveAt | src/noteTabs.ts:108-115 | After a move, position `k` holds the element from position `MoveSource(i, j, k)`. |
| Lists.MoveSourceInjective | src/noteTabs.ts:108-115 | Different positions after a move come from different positions before it. |
| Lists.MoveSourceRoundTrip | src/noteTabs.ts:108-115 | Tracing a position back through a move and its reverse gives the same position. |
| Lists.MoveInverse | src/noteTabs.ts:108-115 | Moving from `i` to `j` and back from `j` to `i` restores the list. |
| Lists.MoveSelf | src/noteTabs.ts:108-115 | Moving an element onto its own position changes nothing. |
| TabList.Deleted | src/noteTabs.ts:150-155 | Specification of `delete`: the first tab with the id is spliced out, and an absent id leaves the list as it is. Its properties are `DeletedSpec` and `DeletedUnique`. |
| TabList.InsertedBefore | src/noteTabs.ts:99-100 | Specification of an insert before a target: the tab is spliced in at the target's `indexOf`, and an index of -1 hits `insertAtIndex`'s guard and changes nothing. Its properties are `InsertedBeforeSpec` and `InsertedBeforeKeepsInvariants`. |
| TabList.TypeChanged | src/noteTabs.ts:128-133 | Specification of `changeType`: the first tab with the id gets the new type. Its properties are `TypeChangedSpec` and `TypeChangedTemps`. |
| TabList.TempReplaced | src/noteTabs.ts:138-145 | Specification of `replaceTemp` past its guard: the first temporary tab gets the id. Its properties are `TempReplacedSpec` and `TempReplacedUnique`. |
| TabList.MovedWithIndex | src/noteTabs.ts:108-115 | Specification of `moveWithIndex`: out-of-range indices change nothing. Otherwise the source tab's id is deleted and the tab is inserted at the target. Its properties are the `MovedWithIndex*` lemmas. |
| TabList.IndexOfId | src/noteTabs.ts:81-83 | The first index whose tab has the id, or -1 exactly when no tab has it. |
| TabList.IndexOfTemp | src/noteTabs.ts:54-56 | The first index of a temporary tab, or -1 exactly when there is none. |
| TabList.UniqueIndexOf | src/noteTabs.ts:81-83 | With unique ids, looking up the id of the tab at `i` gives `i`. |
| TabList.AppendedIndexOf | src/noteTabs.ts:95-103 | A pushed tab with a new id is found, at the old length. |
| TabList.AppendedUnique | src/noteTabs.ts:95-103 | Pushing a tab with a new id keeps the ids unique. |
| TabList.DeletedSpec | src/noteTabs.ts:150-155 | Deleting an absent id changes nothing. Otherwise exactly the first tab with the id is spliced out and the others keep their order. |
| TabList.RemoveAtKeepsInvariants | src/noteTabs.ts:150-155 | Splicing one tab out keeps unique ids and at most one temporary tab. |
| TabList.DeletedUnique | src/noteTabs.ts:150-155 | With unique ids, a delete keeps both invariants and leaves no tab with the id. |
| TabList.InsertedBeforeSpec | src/noteTabs.ts:95-103 | Adding before a target: with the target absent (index -1) the list is unchanged. Otherwise the new tab takes the target's place, the target and everything after it shift right by one. When the new tab's id differs from the target, the target's index grows by one. |
| TabList.MovedWithIndexIsMove | src/noteTabs.ts:108-115 | When the tab at the source index is the first with its id, `moveWithIndex` is the list move. |
| TabList.MovedWithIndexOutOfRange | src/noteTabs.ts:109-110 | An index out of range on either side changes nothing. |
| TabList.MoveUnique | src/noteTabs.ts:108-115 | A move keeps the ids unique. |
| TabList.AppendedTemps | src/noteTabs.ts:102 | A push keeps at most one temporary tab when the pushed tab is not temporary or there was none. |
| TabList.InsertedBeforeKeepsInvariants | src/noteTabs.ts:99-100 | Inserting before a target keeps unique ids when the new id is fresh. It keeps at most one temporary tab when the new tab is not temporary or there was none. |
| TabList.MoveTemps | src/noteTabs.ts:108-115 | A list move keeps at most one temporary tab. |
| TabList.MovedWithIndexPermutes | src/noteTabs.ts:108-115 | With unique ids, `moveWithIndex` keeps the length and the multiset of tabs and puts the source tab at the target index. It keeps the ids unique, and at most one temporary tab stays at most one. |
| TabList.MovedWithIndexInverse | src/noteTabs.ts:108-115 | With unique ids, moving from `i` to `j` and back restores the list. |
| TabList.MovedWithIndexDuplicateIds | src/noteTabs.ts:112-114 | With two tabs of the same id, moving the second to the front deletes the first and duplicates the second. |
| TabList.TypeChangedSpec | src/noteTabs.ts:128-133 | Only the first tab with the id changes, and only its type. An absent id changes nothing. Ids stay unique. |
| TabList.TypeChangedTemps | src/noteTabs.ts:128-133 | Changing a type to a non-temporary one keeps at most one temporary tab. |
| TabList.TempReplacedSpec | src/noteTabs.ts:138-145 | Only the first temporary tab changes, and only its id. With no temporary tab nothing changes. At most one temporary tab is kept. |
| TabList.TempReplacedUnique | src/noteTabs.ts:138-145 | Re-pointing the temporary tab at a new id keeps the ids unique. |
| NoteTabs.NoteTabs.constructor | src/noteTabs.ts:31-33 | The tab array is the one passed in. |
| NoteTabs.NoteTabs.All | src/noteTabs.ts:40-42 | Returns the tab array. |
| NoteTabs.NoteTabs.Length | src/noteTabs.ts:47-49 | The number of tabs. |
| NoteTabs.NoteTabs.IndexOfTemp | src/noteTabs.ts:54-56 | The first temporary tab's index, or -1 exactly when there is none. |
| NoteTabs.NoteTabs.InsertAtIndex | src/noteTabs.ts:63-67 | A negative index or a missing tab changes nothing. Otherwise the tab is spliced in, or appended past the end. |
| NoteTabs.NoteTabs.Get | src/noteTabs.ts:72-76 | The tab at the index exactly when the index is in range; nothing otherwise. |
| NoteTabs.NoteTabs.IndexOf | src/noteTabs.ts:81-83 | The first index with the id, or -1 exactly when no tab has it. |
| NoteTabs.NoteTabs.HasTab | src/noteTabs.ts:88-90 | True exactly when some tab has the id, that is when `IndexOf` is non-negative. |
| NoteTabs.NoteTabs.Add | src/noteTabs.ts:95-103 | A missing id or type changes nothing. With a truthy target the tab goes before the target (nowhere if the target is absent); otherwise it is pushed at the end. |
| NoteTabs.NoteTabs.MoveWithIndex | src/noteTabs.ts:108-115 | The new array is `MovedWithIndex` of the old one. |
| NoteTabs.NoteTabs.MoveWithId | src/noteTabs.ts:120-123 | A move from the source's index to the target's index, or to the last index when the target is not truthy. |
| NoteTabs.NoteTabs.ChangeType | src/noteTabs.ts:128-133 | The new array is `TypeChanged` of the old one. |
| NoteTabs.NoteTabs.ReplaceTemp | src/noteTabs.ts:138-145 | A missing id changes nothing; otherwise the new array is `TempReplaced` of the old one. |
| NoteTabs.NoteTabs.Delete | src/noteTabs.ts:150-155 | The new array is `Deleted` of the old one. |
| NoteTabs.NoteTabs.ClearAll | src/noteTabs.ts:160-162 | The array becomes empty. |
| NoteTabs.MoveWithIdToEnd | src/noteTabs.ts:120-123 | With unique ids and no target, an absent source changes nothing. A present source ends up last, with length and multiset kept. |
| NoteTabs.AddThenFind | src/noteTabs.ts:95-103 | After adding a new id without a target, the id has a tab at the last index. |
| Host.KeyName | src/settings.ts:184-398 | The name each setting is registered under, one per key. |
| Host.SettingStore.SetValue | src/helpers.ts:53-55 | `setValue` replaces the value of exactly that key. |
| Host.WriteTwice | src/helpers.ts:144-154 | Writing a key twice leaves the store as writing only the second value. |
| Helpers.NoteTabs.constructor | src/helpers.ts:39-41 | The array starts empty. |
| Helpers.NoteTabs.Read | src/helpers.ts:46-48 | The array becomes the stored `noteTabs` value, so array and store agree. |
| Helpers.NoteTabs.Store | src/helpers.ts:53-55 | Writes the array under `noteTabs` and changes no other key. |
| Helpers.NoteTabs.InsertAtIndex | src/helpers.ts:60-65 | A negative index or a missing tab changes nothing and writes nothing. Otherwise it splices (or appends past the end) and stores. |
| Helpers.NoteTabs.ReplaceAtIndex | src/helpers.ts:70-75 | A negative index or a missing tab changes nothing. Otherwise it replaces the tab in range, or appends past the end, and stores. |
| Helpers.NoteTabs.Length | src/helpers.ts:80-82 | The number of tabs. |
| Helpers.NoteTabs.GetAll | src/helpers.ts:87-89 | Returns the array. |
| Helpers.NoteTabs.Get | src/helpers.ts:94-98 | The tab exactly when the index is in range. |
| Helpers.NoteTabs.IndexOf | src/helpers.ts:103-110 | The counting loop returns nothing for a missing id; otherwise the first index with the id, or -1. |
| Helpers.NoteTabs.IndexOfTemp | src/helpers.ts:115-120 | The counting loop returns the first temporary tab's index, or -1. |
| Helpers.NoteTabs.HasTab | src/helpers.ts:125-129 | Nothing for a missing id; otherwise whether some tab has the id. |
| Helpers.NoteTabs.Add | src/helpers.ts:134-139 | A missing id changes nothing. Otherwise the tab is pushed and the array stored. |
| Helpers.NoteTabs.MoveInRange | src/helpers.ts:149-151 | With both indices in range, deleting the source tab by id and inserting it at the target gives `MovedWithIndex`, and the store holds the result. |
| Helpers.NoteTabs.MoveWithIndex | src/helpers.ts:144-154 | The new array is `MovedWithIndex` of the old one. It is stored when both indices are in range, and nothing is written otherwise. |
| Helpers.NoteTabs.MoveWithId | src/helpers.ts:159-163 | A missing id on either side changes nothing. Otherwise a move between the two ids' indices, which is a no-op when either id is absent. When both ids have tabs, the array is stored under `noteTabs` and no other key changes. |
| Helpers.NoteTabs.ChangeType | src/helpers.ts:168-173 | Without a tab for the id nothing changes. Otherwise that tab's type changes and the array is stored. |
| Helpers.NoteTabs.ReplaceTemp | src/helpers.ts:178-186 | A missing id, or no temporary tab, changes nothing. Otherwise the temporary tab takes the id and the array is stored. |
| Helpers.NoteTabs.Delete | src/helpers.ts:191-198 | A missing id changes nothing. Otherwise the first tab with the id goes and the array is stored, even when nothing was removed. |
| Helpers.NoteTabs.ClearAll | src/helpers.ts:203-206 | The array and the stored setting become empty. |
| Helpers.Reload | src/helpers.ts:46-48 | A fresh instance that reads a store written by another gets that instance's tabs back. |
| Helpers.LastActiveNoteQueue.Push | src/helpers.ts:217-229 | The new store is `Pushed` of the old one, and it holds at most two ids. |
| Helpers.LastActiveNoteQueue.Pop | src/helpers.ts:231-233 | Returns and removes the oldest id; an empty queue gives nothing and stays empty. |
| Helpers.LastActiveNoteQueue.Length | src/helpers.ts:235-237 | The number of stored ids, at most two. |
| Recent.Pushed | src/lastActiveNote.ts:17-27 | The pushed id is last. A non-full store just grows. A full store whose current id is the pushed one is unchanged. A full store with a different current id drops the oldest. At most two ids are kept. |
| Recent.Shifted | src/lastActiveNote.ts:13-15 | `shift`: nothing from an empty store; otherwise the first id, with the rest after it. |
| Recent.PushedAllBounded | src/lastActiveNote.ts:17-27 | However many ids are pushed, the store holds at most two, and the last id pushed is current. |
| Recent.PushedTwo | src/lastActiveNote.ts:17-27 | Activating `a` and then a different `b` leaves exactly `[a, b]`. |
| Recent.PushedRepeatWhenNotFull | src/lastActiveNote.ts:19-26 | The repeat check applies only to a full store: pushing `a` twice on an empty store gives `[a, a]`, and `[a, a]` stays as it is. |
| LastActive.LastActiveNote.constructor | src/lastActiveNote.ts:9-11 | The store starts empty. |
| LastActive.LastActiveNote.GetId | src/lastActiveNote.ts:13-15 | The getter shifts: returns and removes the oldest id. |
| LastActive.LastActiveNote.SetId | src/lastActiveNote.ts:17-27 | The setter pushes, keeping at most two ids. |
| LastActive.LastActiveNote.Length | src/lastActiveNote.ts:31-33 | The number of stored ids, at most two. |
| Settings.MatchesDefault | src/settings.ts:64 | `value.match(/default/i)` as a predicate: the scan from index 0 for "default" in any ASCII letter case. `MatchesFromSpec` proves what it means. |
| Settings.MatchesFromSpec | src/settings.ts:64 | The scan for "default" succeeds exactly when the word occurs, in any letter case, somewhere in the string. |
| Settings.NoMatchWithoutF | src/settings.ts:64 | A string without the letter f can never match. |
| Settings.NoMatchWithoutU | src/settings.ts:64 | A string without the letter u can never match. |
| Settings.MatchesDefaultExamples | src/settings.ts:64 | "default", "DEFAULT" and "my-Default-font" match; "defaul" does not. |
| Settings.FallbackOfNoMatch | src/settings.ts:433-442 | Every fallback that `read` passes is truthy and does not match `/default/i`. |
| Settings.FallbacksDoNotMatch | src/settings.ts:9-19 | None of the eight CSS fallbacks matches `/default/i`, so a replaced value does not look like the sentinel. |
| Settings.Resolve | src/settings.ts:407-413 | With a truthy fallback and a matching string, the result is the fallback; otherwise the stored value. |
| Settings.ResolveClearsSentinel | src/settings.ts:407-413 | Resolved against a non-matching fallback, a string never matches. |
| Settings.GetOrDefault | src/settings.ts:404-415 | Without an event, or when the event names the key, the result is the stored value, replaced by the fallback when the fallback is truthy and the value matches. Otherwise the result is the current value. |
| Settings.ReadAllField | src/settings.ts:420-443 | For every key: an option the read covers takes the stored value after the rule, with that key's fallback (`breadcrumbsBackground` uses the active background's). Every other option keeps its value. |
| Settings.ReadAll | src/settings.ts:420-443 | Specification of `read`: every option is refreshed by `getOrDefault` with its own key, and the style strings also get their fallback. Its properties are `ReadAllField` and the lemmas after it. |
| Settings.ReadFlagField | src/settings.ts:420-425 | A boolean option is re-read exactly as stored when the read covers its key, and kept otherwise. |
| Settings.ReadSizeField | src/settings.ts:426-432 | A numeric option is re-read exactly as stored when the read covers its key, and kept otherwise. |
| Settings.ReadStyleField | src/settings.ts:433-442 | A style option is re-read through its own fallback when the read covers its key, and kept otherwise. |
| Settings.ReadKeepsUnnamed | src/settings.ts:420-443 | With a change event, every option whose key the event does not name is unchanged. |
| Settings.ReadTabHeightOnly | src/settings.ts:420-443 | An event naming only `tabHeight` changes only that option. |
| Settings.FullReadCopiesNonStyle | src/settings.ts:421-433 | A full read copies every option without a fallback from the store. |
| Settings.FullReadClearsSentinel | src/settings.ts:433-442 | For every style key: after a full read its option holds a string that does not match `/default/i`. |
| Settings.BreadcrumbsBackgroundFallback | src/settings.ts:439 | A stored "default" breadcrumbs background reads as the active background fallback. |
| Settings.Settings.constructor | src/settings.ts:38-62 | The empty tab array and the field initial values: drag and drop on, the other flags off, Keep and Auto, 35/50/150/10/100, and "default" for every style. |
| Settings.Settings.Register | src/settings.ts:176-191 | After registration, the tab array is the stored one, followed by a full read. |
| Settings.Settings.Read | src/settings.ts:420-443 | The options become `ReadAll` of the old ones, and the tab array is unchanged. |
| Settings.Settings.StoreTabs | src/settings.ts:448-450 | Writes the tab array under `noteTabs` only. |
| Settings.Settings.ClearTabs | src/settings.ts:455-458 | Empties the tab array and the stored setting; the options are unchanged. |
| Settings.Settings.HasUnpinBehavior | src/settings.ts:463-465 | True exactly when the stored behavior code is that behavior's code. |
| Settings.Settings.HasLayoutMode | src/settings.ts:470-472 | True exactly when the stored mode code is that mode's code. |
| Settings.ModeQueriesExclusive | src/settings.ts:21-31 | At most one behavior and one mode hold at a time; the initial ones are Keep and Auto. |
| PinnedNotes.Pinned | src/index.ts:90-96 | Specification of `pinNote`'s list update: an id that `getIndexWithAttr` finds leaves the list as it is; otherwise `{ id, title }` is pushed. Its properties are `PinnedSpec`, `PinKeepsUnique` and `PinIdempotent`. |
| PinnedNotes.Unpinned | src/index.ts:121-127 | Specification of `unpinNote`'s list update: the entry at the found index is spliced out, and a missing id leaves the list as it is. Its properties are `UnpinnedSpec`, `UnpinKeepsUnique` and `UnpinAfterPin`. |
| PinnedNotes.IndexWithAttr | src/index.ts:13-20 | The first index whose attribute equals the value, or -1 exactly when none does. |
| PinnedNotes.GetIndexWithAttr | src/index.ts:13-20 | The counting loop with early return computes `IndexWithAttr`. |
| PinnedNotes.GetItemWithAttr | src/index.ts:4-11 | The entry at `IndexWithAttr`, whose attribute equals the value, or nothing (the source returns -1) exactly when no entry has it. |
| PinnedNotes.PinnedSpec | src/index.ts:90-96 | An already pinned id changes nothing. A new one is appended after the untouched entries. Either way the id is then pinned. |
| PinnedNotes.UnpinnedSpec | src/index.ts:121-127 | An absent id changes nothing. Otherwise exactly the first entry with the id is removed and the rest keep their order. |
| PinnedNotes.PinKeepsUnique | src/index.ts:90-96 | Pinning keeps the ids unique. |
| PinnedNotes.UnpinKeepsUnique | src/index.ts:121-127 | Unpinning keeps the ids unique and leaves no entry with the id. |
| PinnedNotes.UnpinAfterPin | src/index.ts:90-127 | Unpinning a freshly pinned id restores the previous list. |
| PinnedNotes.PinIdempotent | src/index.ts:90-96 | Pinning the same id twice is pinning it once. |
| PinnedNotes.PinnedNotesStore.PinNote | src/index.ts:86-96 | A missing id or title changes nothing; otherwise the list becomes `Pinned`. |
| PinnedNotes.PinnedNotesStore.UnpinNote | src/index.ts:118-127 | A missing id changes nothing; otherwise the list becomes `Unpinned`. |
| PinnedNotes.PinnedNotesStore.ClearTabs | src/index.ts:139-140 | The pinned list becomes empty. |
| PinnedNotes.ShownTabs | src/index.ts:171-211 | Specification of `updateTabsPanel`'s tab list: one tab per pinned note, active when its id is the selected note's, then a new active tab for the selected note when it is not pinned. Its properties are `ShownTabsSpec` and `ExactlyOneActive`. |
| PinnedNotes.TabsToShow | src/index.ts:171-211 | No result exactly when there is no selected note. Otherwise the loop builds `ShownTabs`. |
| PinnedNotes.ShownTabsSpec | src/index.ts:174-211 | One tab per pinned note, in order, active exactly when its id is the selected id. After them comes a "new" active tab for the selected note exactly when no pinned note is it. |
| PinnedNotes.ExactlyOneActive | src/index.ts:174-211 | With unique pinned ids, exactly one rendered tab is active. |

## Left out

- I/O and host calls are parameters or state. These are the settings
  reads and writes, `workspace.selectedNote()`, `data.get`, and panel HTML
  and messages. The model does not follow `async`/`await` interleaving:
  every operation runs to completion.
- Aliasing of arrays. JavaScript arrays are references, so the array a
  `NoteTabs` instance mutates may be the same object as `Settings`'
  `_noteTabs`. The model's sequences are values, so it does not capture
  that sharing.
- Aliasing of tab records. After a move with a duplicate id
  (`TabList.MovedWithIndexDuplicateIds`), both entries of the source
  array are the same object, so a later `changeType` or `replaceTemp`
  changes both. In the model, tabs are values and only the first entry changes.
- NoteTabs.NoteTabs.InsertAtIndex: a `null` tab passes the source's
  `=== undefined` guard and is spliced in. The model has no null tab, so
  `None` (undefined) is the only argument that changes nothing.
- NoteTabs.NoteTabs.Add: a `null` id or type passes the source's
  `=== undefined` guard and a tab `{ id: null, ... }` is pushed or inserted.
  The model has no null id, so only `None` (undefined) is modelled, and it changes nothing.
- NoteTabs.NoteTabs.ReplaceTemp: `replaceTemp(null)` passes the source's
  `=== undefined` guard and sets the temporary tab's id to `null`. The
  model has no null id, so only `None` (undefined) is modelled, and it changes nothing.
- Registration of settings, sections and commands, apart from the
  `noteTabs` read in `register`. The model takes a registered store, in
  which every setting exists with its registered type, as a
  precondition (`Settings.Registered`).
- The option getters of `Settings` are plain field reads of `options`.
  The `showCompletedTodos` getter queries a global setting and is left out.
- The HTML templating, the webview script, `panel.ts` and the plugin
  entry that wires events to the tab operations. Any policy that picks a
  tab after unpinning is not in these files: only the `UnpinBehavior`
  enumeration and `hasUnpinBehavior` exist, and both are modelled.
- How `pinNote` and `unpinNote` choose the note, from the argument or
  the selected note. The model takes the resolved id and title.
- Helpers.NoteTabs.Add: pushes a tab whatever the type, like the source.
  The type is a `TabType`, so the model has no undefined type.
- NoteTabs.NoteTabs.ChangeType: the new type is a `TabType`; the source
  could also assign `undefined`.
- Settings.MatchesDefault: case folding covers ASCII letters only, not the
  full Unicode folding of the JavaScript `i` flag. This does not affect
  the literal "default".
- Settings.Settings.Read: stored values are typed by the registered
  setting kind. A wrongly typed stored value, which JavaScript would assign
  as it is, is excluded by `Registered`.
- Numeric settings are mathematical integers. JavaScript numbers are
  doubles, but no arithmetic is done on them here.
