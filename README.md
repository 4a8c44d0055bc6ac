# Contract management: blueprint editor, contract form and contract viewer

This project models the logic inside the three React components of the
contract-management UI:

- **BlueprintEditor** holds a blueprint name and an ordered list of typed
  fields. Its handlers append a field, edit one attribute of the fields with a
  given id, or delete the fields with a given id. Its save handler refuses a
  blank name, then an empty field list, and otherwise emits the blueprint.
- **ContractForm** holds a contract name and a map from field id to the value
  entered. Each input handler overwrites one key. The save handler refuses a
  blank name, and otherwise builds a contract in status `Created` from the
  blueprint.
- **ContractView** computes the next statuses a contract may move to (a
  six-status lifecycle with two terminal statuses), the status colour, the
  terminal banner, how each field value is displayed, and the status-change
  requests its buttons send.

Modules: `Wrappers` (Option and Result), `Entities` (fields, blueprints,
contracts, statuses, stored values and JavaScript truthiness), `StringTrim`
(`String.prototype.trim` and the `!s.trim()` check), `ContractView`,
`BlueprintEditor` (class `EditorState`) and `ContractForm` (class `FormState`).
The two classes hold the components' `useState` values as fields. Their
handlers reassign them, and the new value is given by a pure function
(`WithNewField`, `WithFieldUpdated`, `WithoutField`, `SetValue`). The
properties are proved about those functions.

Clock readings (`Date.now()`, `new Date().toISOString()`) are parameters of
the operations that use them. Alerts are `Failure` values. The `onSave` and
`onUpdateStatus` callbacks become returned values: the saved record and the
list of `StatusRequest`s.

The source functions map to these members: getNextStatuses is
`ContractView.NextStatuses`, getStatusColor is `ContractView.StatusColor`,
the banner is `ContractView.TerminalBanner`, the field display is
`ContractView.DisplayValue`, and the action buttons are
`ContractView.StatusActions` and `ContractView.ShowsActions`. `!name.trim()` is
`StringTrim.IsBlank`. addField, updateField, deleteField and handleSave are
the methods of `BlueprintEditor.EditorState`, and the form's handlers are the
methods of `ContractForm.FormState`.

Statuses outside the six known names are one constructor, `Unknown`.
getNextStatuses computes `statusIndex` (line 9) and never reads it: the
offered statuses come from the chain of comparisons alone. `StatusIndex`
models that unused line only so that the lifecycle can be related to the
order of `CONTRACT_STATUSES`. `Rank` writes out each status's place in the
list, `StatusIndexValues` proves that `indexOf` returns it, and the lifecycle
lemmas are stated with `Rank`.

Each input handler of the form closes over one field of the blueprint, so
`FormState`'s setters take that field. `FormState.Valid` keeps the
data-model invariant: every key of the values is a blueprint field id, and
when the blueprint's ids are unique, each value has its field type's shape.

The code removes every field with the deleted id. So "deleting from N fields
leaves N−1" holds only when ids are unique (`DeleteUniqueRemovesOne`). In
general the list shrinks by the number of matching fields (`WithoutField`).
With a blank name and no fields, blueprint save reports the name error, since
the name is checked first.

## Model

| member | source | states |
|---|---|---|
| `StringTrim.Trim` | contract-management/src/components/BlueprintEditor.jsx:31 | the result is the slice of the input with only white space (ECMAScript WhiteSpace and LineTerminator) before and after it, and it neither starts nor ends with white space; so it is empty exactly when the input is all white space |
| `StringTrim.IsBlank` | contract-management/src/components/ContractForm.jsx:8 | `!s.trim()` holds exactly when every character of the name is white space |
| `ContractView.IndexOf` | contract-management/src/components/ContractView.jsx:9 | `indexOf` gives -1 exactly when the item is absent, and otherwise a position holding it with no earlier occurrence |
| `ContractView.StatusIndexValues` | contract-management/src/components/ContractView.jsx:5-9 | the index of each status in CONTRACT_STATUSES is its `Rank` (0 to 5), and -1 for an unknown status |
| `ContractView.TerminalStatuses` | contract-management/src/components/ContractView.jsx:10-15 | no next status exactly for Locked, Revoked and statuses not in the list |
| `ContractView.SuccessorThenRevoked` | contract-management/src/components/ContractView.jsx:5-14 | Created, Approved, Sent and Signed each offer exactly two statuses: the next one in CONTRACT_STATUSES, then Revoked |
| `ContractView.TransitionsMoveForward` | contract-management/src/components/ContractView.jsx:5-14 | no transition leads to Created or to an unknown status, and every transition moves strictly forward in CONTRACT_STATUSES |
| `ContractView.NextStatuses` | contract-management/src/components/ContractView.jsx:8-16 | getNextStatuses offers at most two statuses, and a status is offered exactly when (current, offered) is one of the eight pairs of the lifecycle table |
| `ContractView.TransitionLowersRemaining` | contract-management/src/components/ContractView.jsx:10-14 | every transition strictly lowers the number of transitions that can still follow |
| `ContractView.ChainLengthBound` | contract-management/src/components/ContractView.jsx:8-16 | a chain of allowed transitions from any status makes at most `Remaining(start)` steps |
| `ContractView.ChainStaysListed` | contract-management/src/components/ContractView.jsx:8-16 | a chain from a known status never reaches an unknown status |
| `ContractView.ChainFromCreated` | contract-management/src/components/ContractView.jsx:8-16 | from Created, every chain makes at most four transitions, and a chain that cannot continue ends at Locked or Revoked |
| `ContractView.StatusColor` | contract-management/src/components/ContractView.jsx:18-28 | each of the six statuses gets its table entry (the `||` default never fires for them); any other status gets the gray default, which is Created's entry |
| `ContractView.StatusColorTable` | contract-management/src/components/ContractView.jsx:19-26 | the six statuses get six different colours |
| `ContractView.TerminalBanner` | contract-management/src/components/ContractView.jsx:58-70 | the banner shows exactly for Locked and Revoked, with the "locked" text exactly for Locked |
| `ContractView.BannerForTerminalStatuses` | contract-management/src/components/ContractView.jsx:58-70 | the banner shows exactly for the known statuses that offer no next status |
| `ContractView.DisplayValue` | contract-management/src/components/ContractView.jsx:78-82 | a Checkbox shows "✓ Checked" or "✗ Unchecked" by truthiness; a Signature holding a file shows the file name; any other falsy or absent value shows "(Not provided)"; the raw value is shown exactly in the remaining case |
| `ContractView.FieldDisplays` | contract-management/src/components/ContractView.jsx:74-86 | one display per blueprint field, in field order |
| `ContractView.Requests` | contract-management/src/components/ContractView.jsx:93-101 | one request per offered status, in order, each with the contract's id |
| `ContractView.StatusActions` | contract-management/src/components/ContractView.jsx:89-101 | one request per offered status, each carrying the contract's own id and a transition of the lifecycle table |
| `ContractView.ShowsActions` | contract-management/src/components/ContractView.jsx:89 | the actions block shows exactly for the first four statuses of CONTRACT_STATUSES |
| `ContractView.ActionsFollowTable` | contract-management/src/components/ContractView.jsx:89-101 | a shown block offers exactly two requests; a hidden one offers none |
| `ContractView.NdaContractDisplayed` | contract-management/src/components/ContractView.jsx:74-101 | a contract with only Party = "Acme" shows "Acme" and "(Not provided)"; at Signed it offers exactly Locked and Revoked, never Approved |
| `ContractView.FittingValuesDisplayAsText` | contract-management/src/components/ContractView.jsx:78-82 | for values that fit a blueprint with unique ids (as the form stores them), a raw display is always a non-empty string, never a boolean or a file |
| `BlueprintEditor.FieldTypesListEachTypeOnce` | contract-management/src/components/BlueprintEditor.jsx:5 | FIELD_TYPES lists every field type, each exactly once |
| `BlueprintEditor.WithNewField` | contract-management/src/components/BlueprintEditor.jsx:12-20 | adding appends exactly one field and leaves the earlier ones untouched; the new field has the given id and type, the type name as label, and the old length as position |
| `BlueprintEditor.Assign` | contract-management/src/components/BlueprintEditor.jsx:23 | `{ ...f, [key]: value }` changes the edited attribute and keeps the other three |
| `BlueprintEditor.WithFieldUpdated` | contract-management/src/components/BlueprintEditor.jsx:22-24 | same length and order; exactly the fields with the id are edited, and every other field is unchanged |
| `BlueprintEditor.UpdateWithoutMatch` | contract-management/src/components/BlueprintEditor.jsx:22-24 | an id that matches no field leaves the list unchanged |
| `BlueprintEditor.RelabelKeepsIds` | contract-management/src/components/BlueprintEditor.jsx:92 | relabelling, the edit the label inputs make, keeps the ids of all fields |
| `BlueprintEditor.WithoutField` | contract-management/src/components/BlueprintEditor.jsx:26-28 | no field with the id remains; every other field survives unchanged, position included, as a subsequence in the original order; the length drops by the number of matching fields |
| `BlueprintEditor.WithoutFieldAppend` | contract-management/src/components/BlueprintEditor.jsx:26-28 | deleting distributes over concatenation, so the survivors keep their relative order |
| `BlueprintEditor.CountUniqueId` | contract-management/src/components/BlueprintEditor.jsx:26-28 | with unique ids, a present id is carried by exactly one field |
| `BlueprintEditor.DeleteUniqueRemovesOne` | contract-management/src/components/BlueprintEditor.jsx:26-28 | with unique ids, deleting a present id removes exactly one field, and the id does not reappear |
| `BlueprintEditor.AddFreshKeepsIdsUnique` | contract-management/src/components/BlueprintEditor.jsx:12-19 | adding a field with an unused id keeps the ids unique |
| `BlueprintEditor.AddKeepsPositionsAtIndices` | contract-management/src/components/BlueprintEditor.jsx:12-19 | if every position equals its index, it still does after adding |
| `BlueprintEditor.DeleteLeavesPositionGap` | contract-management/src/components/BlueprintEditor.jsx:26-28 | deleting the middle of three fields leaves positions 0 and 2; positions are never renumbered |
| `BlueprintEditor.SaveBlueprint` | contract-management/src/components/BlueprintEditor.jsx:30-40 | the name error occurs exactly when the name is all white space, whatever the fields; the fields error occurs exactly for a good name and no fields; otherwise the untrimmed name and the fields are emitted, with the edited blueprint's id when it is truthy, else the fresh id |
| `BlueprintEditor.NdaBlueprintSaved` | contract-management/src/components/BlueprintEditor.jsx:12-40 | adding Text and Date, relabelling them, and saving "NDA" emits both fields in insertion order; saving with no fields is refused |
| `BlueprintEditor.EditorState.constructor` | contract-management/src/components/BlueprintEditor.jsx:8-9 | the initial name and fields are the edited blueprint's, or `''` and `[]` |
| `BlueprintEditor.EditorState.SetName` | contract-management/src/components/BlueprintEditor.jsx:54 | the name becomes the typed text; the fields do not change |
| `BlueprintEditor.EditorState.AddField` | contract-management/src/components/BlueprintEditor.jsx:12-20 | an add button (one per FIELD_TYPES entry) sets the fields to `WithNewField` of the old fields; the name does not change |
| `BlueprintEditor.EditorState.UpdateField` | contract-management/src/components/BlueprintEditor.jsx:22-24 | the fields become `WithFieldUpdated` of the old fields; the name does not change |
| `BlueprintEditor.EditorState.DeleteField` | contract-management/src/components/BlueprintEditor.jsx:26-28 | the fields become `WithoutField` of the old fields; the name does not change |
| `BlueprintEditor.EditorState.Save` | contract-management/src/components/BlueprintEditor.jsx:30-40 | changes nothing and returns `SaveBlueprint` of the current state |
| `ContractForm.SetValue` | contract-management/src/components/ContractForm.jsx:49 | the spread update stores the value under the field's id; every other key keeps its presence and value |
| `ContractForm.TextInputValue` | contract-management/src/components/ContractForm.jsx:48 | a Text or Date input shows the stored value when truthy, else `''`; an absent value shows `''` |
| `ContractForm.TextRoundTrip` | contract-management/src/components/ContractForm.jsx:48-49 | typing a string into a Text or Date input shows that string back |
| `ContractForm.CheckboxChecked` | contract-management/src/components/ContractForm.jsx:73 | a checkbox with no stored value shows unticked, and one holding a boolean shows that boolean |
| `ContractForm.CheckboxRoundTrip` | contract-management/src/components/ContractForm.jsx:73-74 | ticking or unticking shows that state back; an absent value shows unticked |
| `ContractForm.SaveContract` | contract-management/src/components/ContractForm.jsx:7-23 | refused exactly when the name is all white space; otherwise the contract has status Created, the untrimmed name, the blueprint's id and name, the given id and date, and the field values as collected |
| `ContractForm.SaveIgnoresValues` | contract-management/src/components/ContractForm.jsx:7-22 | whether save succeeds never depends on the field values |
| `ContractForm.NdaContractSaved` | contract-management/src/components/ContractForm.jsx:7-22 | "Acme NDA" with only Party filled saves a Created contract holding Party alone; a name of spaces saves nothing |
| `ContractForm.SetValueKeepsFit` | contract-management/src/components/ContractForm.jsx:42-74 | storing a value of a field's shape under that blueprint field's id keeps every key a blueprint field id and, with unique ids, every value of its field's shape |
| `ContractForm.FormState.constructor` | contract-management/src/components/ContractForm.jsx:4-5 | the form starts with an empty name and no field values, which fit the blueprint |
| `ContractForm.FormState.SetContractName` | contract-management/src/components/ContractForm.jsx:35 | the contract name becomes the typed text; the values do not change |
| `ContractForm.FormState.SetText` | contract-management/src/components/ContractForm.jsx:49 | the input of a Text or Date field of the blueprint stores the string under that field's id only, and the values keep fitting the blueprint |
| `ContractForm.FormState.SetSignature` | contract-management/src/components/ContractForm.jsx:65 | the input of a Signature field stores the chosen file, or `undefined` when none is chosen, under that field's id only, and the values keep fitting the blueprint |
| `ContractForm.FormState.SetChecked` | contract-management/src/components/ContractForm.jsx:74 | the input of a Checkbox field stores the checked state under that field's id only, and the values keep fitting the blueprint |
| `ContractForm.FormState.Save` | contract-management/src/components/ContractForm.jsx:7-23 | changes nothing and returns `SaveContract` of the current state; a saved contract's values fit its blueprint |

## Left out

- JSX rendering, CSS classes other than the status colour table, icons, and the button captions ("Mark as …", "Revoke Contract"): presentation only.
- What React prints for a raw value: `DisplayValue` returns the value itself. For values stored by the form against a blueprint with unique ids, that value is always a non-empty string (`FittingValuesDisplayAsText`).
- `Entities.ValuesFit`: with duplicate field ids, two fields of different types share one key, so a value may not have the shape of every field that reads it. The model promises the shapes only for unique ids, as the source does nothing to keep them apart.
- The alert texts ("Blueprint name is required", "Add at least one field", "Contract name is required"): the model says which alert fires, not its wording.
- `onCancel` and `onClose`: they carry no data and change no state.
- The browser `File` object: a file is known only by its name, and `instanceof File` is the `File` constructor of `Value`.
- The unused `draggedField` state of the editor.
- `BlueprintEditor.FieldEdit`: updateField accepts any key and any value. The model covers the four attributes (`id`, `type`, `label`, `position`) with values of the right type. Adding a new key and storing an ill-typed value are not modelled.
- `Entities.Status`: every status string outside the six known ones is `Unknown`. The model does not cover prototype keys such as "toString", where `colors[status]` would return a function.
- Field types outside the four known ones are not modelled, because the editor only adds those four.
- Ids are unbounded integers. `Date.now()` readings are far below any overflow.
- Applying a status change is done by the unseen parent. The viewer only offers the table's transitions, and the model does not add a store that rejects other ones.
