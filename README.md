# SpeedList shopping-list page, modelled in Dafny

SpeedList is a single-page shopping-list web application. Its only logic lives
in the `MainPage` React component. The component keeps the list in sync with a
remote list resource. It also tracks which entry is selected for editing and
holds the four form fields (name, priority, quantity, details). Its handlers
add, update and delete an entry, clear the whole list, select a row and
clear the selection. `copyItem` renders the list as text for the clipboard.

The model has five modules:

- `Items` (items.dfy) holds the `ShoppingListItem` record, the set of ids in a list and the "ids are unique" predicate.
- `ListOps` (list_ops.dfy) holds the two list transformations the handlers pass to the list setter: `filter`, which deletes by id, and `map`, which replaces by id. Lemmas say what each keeps and what each changes.
- `Text` (text.dfy) holds the JavaScript string behaviour the page relies on: `trim`, how an integer is rendered inside a template literal, and `join("\n")`. Trim is characterised by the strings it maps to empty: exactly the all-whitespace ones. Rendering and joining each have an inverse: `ParseInt` for rendering, `SplitLines` for join.
- `Clipboard` (clipboard.dfy) holds the `copyItem` formatter as a pure function of the list and a time stamp. It models the `&&`/`||` truthiness of the line template literally, through a small JavaScript value type.
- `Page` (main_page.dfy) holds class `MainPage`. Its fields are the component state, and it has one method per handler. Every remote call is replaced by its outcome, passed in as an argument:
  - `Status`: the fetch rejected (`NoResponse`), the response was not ok, or it was ok.
  - `Reply`: a status plus the parsed body, which is `None` when `res.json()` throws.

  Each handler returns the request it would have sent, or `None` when its guard returns before any fetch. The module ends with scenario methods proved from the contracts alone.

Each handler's contract states its whole new state for every outcome. It also
states which invariants it preserves: unique ids, given that the server
returns a fresh id on create and the same id on update, and "edit mode implies
a selection".

## Behaviour of the code worth knowing

- **Null details.** An entry with `null` details renders as `1. milk (2) null`: `${null}` is the text `null` (`Clipboard.NullDetailsLine`).
- **Priority label.** A priority other than 2 or at least 3 renders its label as the literal `false`, e.g. `[false]` (`Clipboard.DefaultPrioritySuffix`).
- **Trailing space.** A space always follows `(quantity)`, so empty details leave a trailing space (`Clipboard.EmptyDetailsLine`).
- **Untrimmed name.** Creating an entry checks the *trimmed* name for emptiness but sends the *untrimmed* name.
- **Duplicate ids.** Appending does not check for a duplicate id. Ids stay unique only when the server returns a fresh id.
- **Malformed create reply.** An ok create response with an unparsable body leaves the list unchanged but still resets the fields and the selection.
- **Update reply.** An update response with an unparsable body changes nothing: the exception escapes before any setter runs.
- **Refused delete.** A refused delete still leaves edit mode (line 101). A delete whose fetch rejects changes nothing.
- **Clear-all and selection.** Clearing the whole list, and the initial load, keep the selection and edit mode. The selection can then name an id that is no longer in the list (`Page.ScenarioClearAllKeepsSelection`).
- **Disabled buttons.** `PageButton` never passes `disabled` to the `<button>` (src/app/components/button.tsx:38-42). The guards inside the handlers are therefore their only preconditions.

## Model

| member | source | states |
|---|---|---|
| `Items.AppendFresh` | src/app/MainPage.tsx:76 | appending an item whose id is not yet present keeps ids unique and adds exactly that id |
| `ListOps.RemoveId` | src/app/MainPage.tsx:107 | deleting never makes the list longer |
| `ListOps.RemoveIdMembers` | src/app/MainPage.tsx:107 | an entry is kept exactly when it was in the list and its id differs from the deleted id |
| `ListOps.RemoveIdConcat` | src/app/MainPage.tsx:107 | deleting distributes over concatenation, so the remaining entries keep their relative order |
| `ListOps.RemoveIdAbsent` | src/app/MainPage.tsx:107 | deleting an id that is not present leaves the list as it was |
| `ListOps.RemoveIdAt` | src/app/MainPage.tsx:107 | with unique ids, deleting the id of entry k removes that entry alone, so the length drops by exactly one |
| `ListOps.RemoveIdKeepsUnique` | src/app/MainPage.tsx:107 | deleting keeps ids unique and the id set loses exactly the deleted id |
| `ListOps.ReplaceId` | src/app/MainPage.tsx:141-143 | replacing by id preserves the length |
| `ListOps.ReplaceIdAbsent` | src/app/MainPage.tsx:141-143 | replacing an absent id changes nothing |
| `ListOps.ReplaceIdAt` | src/app/MainPage.tsx:141-143 | with unique ids, replacing the id of entry k is the in-place update of position k and no other |
| `ListOps.ReplaceIdKeepsUnique` | src/app/MainPage.tsx:141-143 | when the returned item keeps the id, ids stay unique and the id set is unchanged |
| `Text.TrimStartShape` | src/app/MainPage.tsx:49 | the result is the suffix of the input after all leading white space, and starts with a non-space |
| `Text.TrimEndShape` | src/app/MainPage.tsx:49 | the result is the prefix of the input before all trailing white space, and ends with a non-space |
| `Text.BlankIffAllSpace` | src/app/MainPage.tsx:49 | a name trims to the empty string exactly when every character is white space |
| `Text.NatStr` | src/app/MainPage.tsx:169 | a natural number renders as a non-empty string of decimal digits without a leading zero |
| `Text.NatStrRoundTrip` | src/app/MainPage.tsx:169 | the digits of n read back as n |
| `Text.IntStrRoundTrip` | src/app/MainPage.tsx:169 | an integer rendered in a template literal parses back to the same integer |
| `Text.SplitJoin` | src/app/MainPage.tsx:176 | splitting the joined lines on newlines gives back the lines when none contains a newline |
| `Text.JoinLinesEnd` | src/app/MainPage.tsx:176 | the joined text ends with the last character of its last line |
| `Clipboard.Label` | src/app/MainPage.tsx:171-173 | the label is IMPORTANT for priority 2, URGENT for priority 3 or more, and the text false for any priority below 2 |
| `Clipboard.Suffix` | src/app/MainPage.tsx:169-174 | the suffix is "null" for null details, empty for empty details, and otherwise "- details [label]" |
| `Clipboard.Lines` | src/app/MainPage.tsx:162-176 | there is one line per entry |
| `Clipboard.Export` | src/app/MainPage.tsx:155-176 | nothing is produced exactly when the list is empty |
| `Clipboard.LinesNumbered` | src/app/MainPage.tsx:163-169 | line k starts with the number k + 1 followed by ". ", so lines are numbered from 1 in list order |
| `Clipboard.ExportLines` | src/app/MainPage.tsx:160-176 | with newline-free stamp, names and details, the export splits into the header then exactly one line per entry, in order |
| `Clipboard.LineLast` | src/app/MainPage.tsx:169-174 | every line is non-empty and ends with a space, with the "l" of null, or with "]" |
| `Clipboard.ExportNoTrailingNewline` | src/app/MainPage.tsx:176 | a non-empty export never ends with a newline |
| `Clipboard.NullDetailsLine` | src/app/MainPage.tsx:169-170 | null details render as "1. milk (2) null" |
| `Clipboard.EmptyDetailsLine` | src/app/MainPage.tsx:169-170 | empty details leave a trailing space after the quantity |
| `Clipboard.ImportantSuffix` | src/app/MainPage.tsx:169-174 | priority 2 with details "whole grain" renders "- whole grain [IMPORTANT]" |
| `Clipboard.DefaultPrioritySuffix` | src/app/MainPage.tsx:169-174 | priority 1 with details renders the label as [false] |
| `Clipboard.UrgentSuffix` | src/app/MainPage.tsx:169-174 | priority 3 or more with details renders [URGENT] |
| `Page.MainPage.constructor` | src/app/MainPage.tsx:19-30 | empty list, no selection, create mode, fields 1 / "" / 1 / "No Description" |
| `Page.MainPage.Load` | src/app/MainPage.tsx:35-45 | the fetched list replaces the whole list; selection, mode and fields are untouched |
| `Page.MainPage.SetItem` | src/app/MainPage.tsx:398 | only the name field changes |
| `Page.MainPage.SetPriority` | src/app/MainPage.tsx:407 | only the priority field changes |
| `Page.MainPage.SetQuantity` | src/app/MainPage.tsx:416 | only the quantity field changes |
| `Page.MainPage.SetDetails` | src/app/MainPage.tsx:425 | only the details field changes |
| `Page.MainPage.AddItem` | src/app/MainPage.tsx:48-90 | blank name: no request, no change; failure: no change; ok: appends the parsed item at the end (nothing if unparsable), resets the fields and clears the selection; ids stay unique given a fresh server id |
| `Page.MainPage.DeleteItem` | src/app/MainPage.tsx:93-113 | no selection: no request; rejected fetch: no change; any response leaves edit mode; ok: removes the selected id and resets, with length one less when ids are unique and the id is present |
| `Page.MainPage.UpdateItem` | src/app/MainPage.tsx:117-152 | not editing: no request; failure or unparsable body: no change; ok: replaces entries with the selected id in place, keeps the length, resets and leaves edit mode |
| `Page.MainPage.CopyItem` | src/app/MainPage.tsx:155-185 | the clipboard text is the formatter's output for the current list; the list is not changed |
| `Page.MainPage.ConfirmDelete` | src/app/MainPage.tsx:188-210 | empty list or declined: no request; only a confirmed, ok request empties the list; selection, mode and fields never change |
| `Page.MainPage.ClearSelection` | src/app/MainPage.tsx:214-222 | fields reset, selection cleared, create mode, list unchanged; the new state does not depend on the old one, so repeating it changes nothing |
| `Page.MainPage.SelectRow` | src/app/MainPage.tsx:343-350 | selects the row's id, copies name, priority and quantity verbatim, details or "" when null, and enters edit mode |

## Left out

- HTTP, status codes and JSON parsing are not modelled. Each call becomes its outcome (`Status`, `Reply`). A body that parses to something other than an item (e.g. `null`) is not modelled.
- `alert`, `console.error` and the clipboard write (`navigator.clipboard.writeText` and its promise) only notify the user, so they are left out. The `window.confirm` answer is the boolean argument `confirmed`.
- `new Date()` and `toISOString()` are inputs: the `stamp` of `CopyItem` and the `date` of `AddItem`.
- `getAnonymousUserId` lives in src/app/util/session, which is not part of this model. The user id is an opaque string fixed at construction.
- The `loading` flag and the effect that triggers the initial load are left out. The load itself is `Load`.
- Concurrency is left out: handlers run to completion one at a time. React closures that capture stale state across an `await`, and a load that races with a later edit, are not modelled.
- `Number(e.target.value)` in the priority and quantity inputs can yield NaN or fractions. Priority and quantity are integers here.
- Text.IntStr: JavaScript prints an integer-valued number of magnitude 1e21 or more in exponent notation. The model always prints plain decimal digits.
- Characters are Unicode scalar values, not UTF-16 code units.
- All JSX, animation and styling are left out. So are src/app/components/input.tsx, src/app/layout.tsx, src/app/page.tsx and src/app/about/page.tsx.
- Page.MainPage.AddItem: the add button is rendered only outside edit mode (src/app/MainPage.tsx:432-440). The method still accepts any state and keeps `isEditing`, so it does not claim the "edit mode implies a selection" invariant.
