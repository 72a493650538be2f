# Local variables description editor: a Dafny model

This project models a design-tool plugin that lists a document's local
variables and lets the user edit each variable's free-text description. The
plugin has two sides that only exchange messages:

- the **main code** (`src/code.ts`) owns the document. It loads the
  variables and their collections into display records. It shows three
  sample rows in debug mode when the document has none. It writes edited
  descriptions back and answers with `VARIABLES_LOADED`, `UPDATE_SUCCESS`
  or `ERROR`;
- the **UI** (`src/ui.tsx`) keeps the received list and a one-at-a-time
  description editor. It posts `LOAD_VARIABLES` and `UPDATE_DESCRIPTION`.

Three components sit beside the UI. The app does not use them; they are
modelled on their own:

- the inline description field (`src/components/editable-cell.tsx`);
- the table's name ordering, name search and filter list
  (`src/components/variables-data-table.tsx`);
- the choice of how a value is displayed
  (`src/components/variable-value-cell.tsx`).

Files:

| file | models |
|---|---|
| `options.dfy` | the optional value used by message fields |
| `protocol.dfy` | the display record and the two message types |
| `host.dfy` | `src/code.ts`: record mapping and collection lookup as functions; the store, outbox and message handler as class `Host.Controller` |
| `editable_cell.dfy` | `src/components/editable-cell.tsx` as class `EditableCells.EditableCell`, one method per event |
| `data_table.dfy` | `src/components/variables-data-table.tsx`: sort, search, filter-list update as functions |
| `value_cell.dfy` | `src/components/variable-value-cell.tsx`: display choice as a function |
| `ui_app.dfy` | `src/ui.tsx` as class `UiApp.App` with an outbox |
| `session.dfy` | one full edit exchange through both classes |

Modelling choices:

- **Store.** The document store is a list of variables, because load
  reports them in the host's order. Its invariant is that ids are distinct.
- **Store failures.** A store failure is a `storeThrows` flag passed to
  each request.
- **Outboxes.** Posted messages are appended to an `outbox` sequence.
- **Foreign calls.** `localeCompare`, `toLowerCase` and `toFixed(2)` are
  parameters: a total preorder `le`, a function `lower`, and a function
  `toFixed2`.
- **React effects.** The field's `useEffect` runs after every render in
  which `value`, `isEditing` or `lastSavedValue` changed. The events that
  change one of these (`ReceiveValue`, `Blur`, `KeyDown`) end with that
  effect (`SyncFromProps`), and afterwards its guard is false (`Settled`).
  Two events do not run it. A keystroke (`Change`) changes only the draft,
  which is not one of the effect's inputs; it keeps `Settled` as it was but
  does not state it. Focus (`Focus`) sets `isEditing`, after which the
  effect's guard is false and the effect does nothing.

Behaviour of the code that is easy to misread, which the model follows as
written:

- **Blur comparison.** Blur compares the draft with the current `value`
  prop, not with the last saved value. The effect's own comment
  (`src/components/editable-cell.tsx:15`) speaks of skipping a value the
  field saved itself, but the blur handler (lines 29-32) tests
  `editValue !== value`.
- **Escape.** Escape does not discard the draft. The blur it triggers
  still sees the draft of the last render, so a draft that differs from
  the prop is reported, just as on Enter.
- **Revert after save.** After a blur that reports a draft, the effect
  sees `value != lastSavedValue`. It puts the prop back into the field
  until the owner passes the new value.
- **Falsy values.** The value `0`, `false` and `""` display as `-`.
  So `0` does not display as `0`, and the boolean branch only ever shows
  `true`.
- **Sort and filter order.** The table sorts first and filters the
  sorted rows.
- **No resolution code.** No hex conversion or alias resolution exists in
  these files. The records built by the main code carry no value
  information.

## Model

| member | source | states |
|---|---|---|
| Host.CollectionMap | src/code.ts:23 | every listed collection id is a key, and each key maps to a listed collection with that id; the exact domain and the last-wins rule are `CollectionMapDomain` and `CollectionMapLastWins` |
| Host.CollectionNameOf | src/code.ts:27-34 | the collection name is never empty: the table's name for the id, or `Unknown`, and `Unknown` for an id the table lacks; the exact rule is `RecordCollectionName` |
| Host.ToRecord | src/code.ts:28-35 | a record keeps the variable's id, name and collection id, shows an absent description as `''`, and always names a collection |
| Host.BuildRecords | src/code.ts:26-36 | one record per variable in the store's order, each with its variable's id, so distinct variable ids give distinct record ids; field by field in `RecordsMirrorVariables` |
| Host.CollectionMapDomain | src/code.ts:23 | the id table built from the collections holds exactly the ids of the listed collections |
| Host.CollectionMapLastWins | src/code.ts:23 | the id table maps an id to the last collection listed with it, so a later duplicate id replaces an earlier one |
| Host.RecordsMirrorVariables | src/code.ts:26-36 | one record per variable, same order; id, name, type and collection id copied; an absent description becomes `''`; every loaded record has a collection name |
| Host.RecordCollectionName | src/code.ts:27-34 | a record's collection name is the last matching collection's name, or `Unknown` when there is none or its name is empty |
| Host.SampleRecords | src/code.ts:43-65 | exactly three sample rows, each id passing the `sample-` prefix test used by update, none with a collection name |
| Host.SetDescription | src/code.ts:108-110 | writing a description keeps every id in its place, so distinct ids stay distinct, and leaves a store without that id unchanged; what changes is `UpdateThenReload` |
| Host.FindById | src/code.ts:108 | the look-up by id finds a position holding that id, or reports that no variable has it |
| Host.UpdateThenReload | src/code.ts:108-116 | after a description write, reloading shows the new description in that variable's record, every other field and record unchanged |
| Host.Controller.constructor | src/code.ts:18-22 | the store holds the given variables and collections; nothing has been posted yet |
| Host.Controller.LoadLocalVariables | src/code.ts:13-87 | posts exactly one message: `ERROR 'Failed to load variables'` on a failure; the three sample rows with `isDebugMode = true` for an empty store; otherwise the mapped records with no debug flag |
| Host.Controller.UpdateDescription | src/code.ts:96-124 | sample ids: store unchanged and success without a description; failure: store unchanged and one `ERROR 'Failed to update description'`; known id: only that description changes and success carries id and description; unknown id: nothing changes and nothing is posted; ids stay distinct |
| Host.Controller.OnMessage | src/code.ts:90-130 | dispatches `LOAD_VARIABLES` to load (store unchanged) and `UPDATE_DESCRIPTION` to update; `CLOSE_PLUGIN` and other types change neither store nor outbox |
| EditableCells.EditableCell.constructor | src/components/editable-cell.tsx:10-13 | initially the draft and the saved value are the prop, and the field is not being edited |
| EditableCells.EditableCell.SyncFromProps | src/components/editable-cell.tsx:16-21 | when not editing and the prop differs from the saved value, both draft and saved value become the prop; otherwise nothing changes, so a second run changes nothing |
| EditableCells.EditableCell.ReceiveValue | src/components/editable-cell.tsx:16-21 | a new prop never alters the draft while editing; when not editing, a prop other than the saved value becomes draft and saved value |
| EditableCells.EditableCell.Change | src/components/editable-cell.tsx:23-25 | a keystroke changes only the draft and reports nothing |
| EditableCells.EditableCell.Focus | src/components/editable-cell.tsx:35-37 | focus sets only the editing flag |
| EditableCells.EditableCell.HandleBlur | src/components/editable-cell.tsx:27-33 | clears the editing flag; reports the draft once and records it as saved exactly when it differs from the current prop; otherwise reports nothing |
| EditableCells.EditableCell.Blur | src/components/editable-cell.tsx:16-33 | blur handler then effect: a draft other than the prop is reported once; afterwards the field shows the prop and is settled |
| EditableCells.EditableCell.KeyDown | src/components/editable-cell.tsx:39-49 | Enter and Escape both end in the blur path and report a draft that differs from the prop; Escape first resets the draft and the editing flag; other keys change nothing |
| DataTable.InsertByName | src/components/variables-data-table.tsx:58 | inserting a row into a name-ordered list keeps it ordered and adds exactly that row |
| DataTable.SortByName | src/components/variables-data-table.tsx:57-59 | the sorted copy is a permutation of the rows, ascending by name under the collation |
| DataTable.Includes | src/components/variables-data-table.tsx:142 | the empty needle is found in any text and a found needle is no longer than the text; the exact characterisation is `IncludesIff` |
| DataTable.IncludesIff | src/components/variables-data-table.tsx:142 | the substring search succeeds exactly when the needle occurs at some position |
| DataTable.FilterByName | src/components/variables-data-table.tsx:141-143 | the filtered rows are drawn from the input, never more of them, and are exactly those whose lower-cased name contains the lower-cased needle |
| DataTable.FilterByNameAppend | src/components/variables-data-table.tsx:141-143 | filtering preserves order: filtering a concatenation concatenates the filtered parts |
| DataTable.NameFilterValue | src/components/variables-data-table.tsx:138 | the filter text is the value of the first name filter, and empty when the list has none |
| DataTable.FilteredTableData | src/components/variables-data-table.tsx:137-144 | the shown rows are drawn from the table data, never more of them, and are exactly the rows matching the name filter, or all rows without one; equality with the table data and order in `ShownRows` |
| DataTable.FilterKeepsSorted | src/components/variables-data-table.tsx:137-144 | filtering a name-ordered list leaves it name-ordered |
| DataTable.ShownRows | src/components/variables-data-table.tsx:137-144 | the shown rows are name-ordered and drawn from the variables; with no or an empty name filter they are the sorted table data itself, otherwise the name filter applied to the sorted table data, so exactly the matching rows in the table's order |
| DataTable.WithoutName | src/components/variables-data-table.tsx:176 | dropping name filters keeps exactly the other filters |
| DataTable.UpdateNameFilter | src/components/variables-data-table.tsx:175-180 | typing keeps every filter other than the name filter, and the only name filter left holds the typed text, present exactly when the text is not empty; counts and order in `UpdateNameFilterSpec` |
| DataTable.UpdateNameFilterSpec | src/components/variables-data-table.tsx:173-180 | after typing, at most one name filter remains (none for empty text), the search box reads back the typed text, and the other filters are unchanged and in order |
| ValueCell.ValueDisplay | src/components/variable-value-cell.tsx:15-75 | a truthy value shows the form its tag names, one form per tag (swatch, reference chip, number, quoted string, boolean); every other case shows `-`, as `PlaceholderExactly` states |
| ValueCell.StripZeroCents | src/components/variable-value-cell.tsx:52 | a trailing `.00` is removed and nothing else: the text is the result plus `.00`, or the result itself |
| ValueCell.StripExamples | src/components/variable-value-cell.tsx:52 | the texts `1.00`, `1.50` and `100` display as `1`, `1.50` and `100` |
| ValueCell.PlaceholderExactly | src/components/variable-value-cell.tsx:16-18 | `-` shows exactly when the information is absent, its value is falsy, or its tag is unknown |
| ValueCell.FalsyValuesShowPlaceholder | src/components/variable-value-cell.tsx:16-18 | `false`, `0` and `""` show `-` whatever their tag |
| ValueCell.BooleanShowsOnlyTrue | src/components/variable-value-cell.tsx:63-71 | the boolean branch can only ever show `true` in its success colour |
| ValueCell.ColorSwatchFallback | src/components/variable-value-cell.tsx:21-31 | a color shows its hex, and the swatch falls back to `#000` when the hex is missing or empty |
| ValueCell.ReferenceSwatchExactly | src/components/variable-value-cell.tsx:33-47 | a reference always shows the referenced name, and a swatch of the resolved hex exactly when the type is `COLOR` and the resolved hex is non-empty |
| ValueCell.NumberShowsStrippedText | src/components/variable-value-cell.tsx:49-54 | a number shows its two-decimal text with a trailing `.00` removed; a non-number under the number tag is shown as it is |
| ValueCell.StringQuoted | src/components/variable-value-cell.tsx:56-61 | a string is shown between double quotes |
| UiApp.App.constructor | src/ui.tsx:15-46 | initially loading, no variables, no editor, no debug flag; mounting posts one `LOAD_VARIABLES` |
| UiApp.App.OnWindowMessage | src/ui.tsx:23-43 | no plugin message or an unknown type: nothing changes; loaded: list replaced, debug flag is the message's or false, loading cleared; success: editor closed and one `LOAD_VARIABLES` posted, list unchanged; error: loading cleared, list and debug flag unchanged |
| UiApp.App.HandleEdit | src/ui.tsx:49-52 | opens the editor on the variable's id with its description |
| UiApp.App.EditText | src/ui.tsx:107 | typing in the editor changes only its text |
| UiApp.App.HandleSave | src/ui.tsx:54-62 | posts exactly one `UPDATE_DESCRIPTION` carrying the editor's text and changes no state |
| UiApp.App.HandleCancel | src/ui.tsx:64-67 | closes the editor and clears its text |
| Session.EditRoundTrip | src/ui.tsx:33-37 | load, edit, save, confirmation and reload end with the UI showing the new description for the edited variable and every other record as first loaded |

## Left out

- The host's plugin lifecycle is not modelled. This covers opening the UI
  window, the 100 ms delayed load at start-up, and closing the plugin.
  `CLOSE_PLUGIN` is modelled as changing neither store nor outbox.
- Asynchronous ordering is not modelled: each handler runs to completion
  on its own. Message transport, stale responses and interleaved requests
  are left out.
- Host.Controller.UpdateDescription: a store failure is one flag per
  request, and the model takes the store as unchanged when a call throws.
  Which call failed is not distinguished.
- Host.FindById: variables from other documents (remote libraries) that
  the host look-up could also return are not modelled.
- Logging to the console is not modelled.
- React rendering, markup and styling are not modelled. The same goes for
  the loading screen and the debug badge.
- The table library's column sorting and row models are not modelled:
  header sort toggles, `getSortedRowModel` and row identity.
- DataTable.SortByName: the contract states sorted and permutation but not
  stability. The script's sort is stable; the model's insertion happens to
  be stable too, but that is not proved.
- Collation and lower-casing are abstract parameters. `localeCompare` is
  assumed to give a total preorder on names.
- ValueCell: `toFixed(2)` is an abstract function. NaN and big integers
  are not modelled among the falsy values. An object placed where
  React expects text is not modelled.
- The model does not capture how the field's owner reacts to `onUpdate`.
  The prop changes only through `ReceiveValue`. An owner that passes the
  new value in the same render would avoid the revert-after-save.
- No RGB-to-hex conversion and no alias resolution are modelled, because
  no shown file performs them.
- The build configuration (`webpack.config.js`) is not part of this model.
