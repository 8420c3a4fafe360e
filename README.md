# References page: upload placeholders, WebSocket reconciliation, active project

This project models the logic of the references page of the ResearchHub web
front end (`components/ReferenceManager/references/ReferencesContainer.tsx`)
and proves properties of it in Dafny. It covers four pieces:

- **Dropping PDF files.** `handleFileDrop` builds one placeholder per
  accepted file: citation type `"LOADING"`, a browser-generated id, and
  `created: true`. The batch **replaces** `createdReferences`; it is not
  appended to it.
- **Reconciling server messages.** For each decoded WebSocket message, the
  effect copies the list and finds the first entry whose citation type is
  `"LOADING"`. A duplicate notice splices that entry out. A created citation
  is written into its slot. Matching is by position, not by the
  placeholder's id.
- **Resolving the active project.** `findNestedTargetProject` searches the
  organisation's project tree depth first, pre-order, for the id in the URL.
  If nothing matches, the fallback value is published. If a project matches,
  its collaborators are published as one list: editors tagged `EDITOR`, then
  viewers tagged `VIEWER`.
- **Plural labels.** The suffix `"s"` is added to three labels when more than
  one reference is selected.

The hooks' state changes are modelled in Dafny's imperative style:

- The class `ReferenceLedger.ReferencesContainer` holds `createdReferences`
  and `loading`. Its methods `HandleFileDrop` and `OnWsResponse` play the two
  state updates.
- The loop that pushes placeholders is the method `BuildPreload`.
- The `for...of` search with early return is the recursive method
  `FindNestedTargetProject`.
- The collaborator flattening and the suffix are pure functions.

Each method is proved against a specification function:

- `FirstLoadingIndex`, `SpliceOne` and `Reconcile` for the ledger.
- `FirstMatch` for the tree search. It is tied to two independent
  definitions: the pre-order listing `PreOrder` and the existence predicate
  `Occurs`.
- `Collaborators` for the collaborator list. Its partner is `WithRole`, the
  role filter that recovers each input group.

## Behaviour at index -1

`findIndex` returns -1 when no entry is LOADING, and the code uses that
index without checking it. The model keeps what the code does:

- `splice(-1, 1)` removes the **last** entry of a non-empty list, whatever
  that entry is.
- `newReferences[-1] = citation` stores the citation under the property
  `"-1"`, which is not an array element. The element sequence is unchanged.

A design that requires a duplicate notice never to remove a non-placeholder
entry does not hold for this code. `Reconcile`'s contract states the
behaviour as written.

## Model

| member | source | states |
|---|---|---|
| `ReferenceLedger.FirstLoadingIndex` | components/ReferenceManager/references/ReferencesContainer.tsx:274-276 | result is -1 exactly when no entry is LOADING; otherwise it is the index of a LOADING entry, and no earlier entry is LOADING |
| `ReferenceLedger.SpliceOne` | components/ReferenceManager/references/ReferencesContainer.tsx:281 | `splice(start, 1)`: a valid index removes exactly that element and keeps the rest in order; -1 removes the last element of a non-empty list; an empty list or a start past the end is left as it is; the length shrinks by one exactly when something is removed |
| `ReferenceLedger.Reconcile` | components/ReferenceManager/references/ReferencesContainer.tsx:271-306 | with a LOADING entry at lowest index k: a created citation goes to slot k, the length is unchanged and every other slot is unchanged; a dupe gives `refs[..k] + refs[k+1..]`, one shorter with order kept; entries before k are never altered. With no LOADING entry: a dupe drops the last entry (an empty list stays empty) and a created citation leaves the list unchanged |
| `ReferenceLedger.ReconcileAllFillsInArrivalOrder` | components/ReferenceManager/references/ReferencesContainer.tsx:271-306 | finished entries followed by placeholders, then up to that many messages: dupes vanish, created citations take the placeholder slots in arrival order, the unanswered placeholders stay at the end, the finished entries are untouched |
| `ReferenceLedger.DropThenAllCreated` | components/ReferenceManager/references/ReferencesContainer.tsx:273-301 | a freshly dropped batch followed by one created citation per file becomes exactly the citations in arrival order, regardless of which upload each answers |
| `ReferenceLedger.BuildPreload` | components/ReferenceManager/references/ReferencesContainer.tsx:239-248 | one placeholder per accepted file, in order: citation type LOADING, the file's generated id, `created` true |
| `ReferenceLedger.ReferencesContainer.constructor` | components/ReferenceManager/references/ReferencesContainer.tsx:190-195 | the list starts empty and `loading` false |
| `ReferenceLedger.ReferencesContainer.HandleFileDrop` | components/ReferenceManager/references/ReferencesContainer.tsx:229-252 | the new list has exactly N entries, all placeholders for the N files; nothing of the previous list survives; `loading` becomes false |
| `ReferenceLedger.ReferencesContainer.OnWsResponse` | components/ReferenceManager/references/ReferencesContainer.tsx:271-306 | the new list is `Reconcile` of the old list and the message; `loading` is unchanged |
| `ProjectTree.FindNestedTargetProject` | components/ReferenceManager/references/ReferencesContainer.tsx:103-119 | the loop with early return and recursion into non-empty children returns exactly `FirstMatch` of the forest and the target |
| `ProjectTree.FirstMatchIsFirstInPreOrder` | components/ReferenceManager/references/ReferencesContainer.tsx:103-119 | the search's result is the first project with the target id in pre-order (a parent before its children, an earlier sibling's subtree before later siblings), and nothing when no project in that order has the id |
| `ProjectTree.FirstMatchIffOccurs` | components/ReferenceManager/references/ReferencesContainer.tsx:103-119 | a project is found iff one with the target id occurs anywhere in the tree, and the project found has that id |
| `ActiveProject.Collaborators` | components/ReferenceManager/references/ReferencesContainer.tsx:137-150 | length is editors plus viewers; position i < editors holds editor i parsed and tagged EDITOR; position editors + j holds viewer j parsed and tagged VIEWER |
| `ActiveProject.CollaboratorsByRole` | components/ReferenceManager/references/ReferencesContainer.tsx:137-150 | filtering the flattened list by role EDITOR gives the parsed editors in input order, and by role VIEWER the parsed viewers in input order |
| `ActiveProject.ResolveActiveProject` | components/ReferenceManager/references/ReferencesContainer.tsx:121-155 | the fallback value is published exactly when no project with the URL's id occurs in the tree; otherwise the first match's id, name, visibility and flattened collaborators are published |
| `ActiveProject.EffectSetActiveProject` | components/ReferenceManager/references/ReferencesContainer.tsx:121-157 | nothing is published while projects are being fetched; otherwise the published value is `ResolveActiveProject` of the current projects and the URL's id |
| `ReferenceLabels.PluralSuffix` | components/ReferenceManager/references/ReferencesContainer.tsx:331-333 | the suffix is "s" exactly when more than one reference is selected, and "" otherwise |
| `ReferenceLabels.LabelsAgreeOnNumber` | components/ReferenceManager/references/ReferencesContainer.tsx:465-476 | the export and remove menu items and the confirmation title use the plural exactly when more than one reference is selected |

## Left out

- Presigned-URL request and PUT upload (`getPresignedUrl`, the `forEach(async ...)` at lines 231-238): network I/O whose completion never touches the list.
- Placeholder ids: `URL.createObjectURL(...).substring(31)` is a browser API. The model takes the generated ids as the parameter `ids`, one per accepted file. Their uniqueness is not modelled, and the reconciler never reads them.
- `JSON.parse` of the payload and the WebSocket transport: the model starts from a decoded message (`Dupe` or `Created(citation)`). A payload that does not parse throws in the effect. The model makes no claim about malformed input.
- The `if (wsResponse)` guard and React's effect scheduling. The model assumes every message runs the effect once. React skips a message whose text equals the previous one, because the effect depends only on `wsResponse`.
- `Reconcile`: in the dupe branch, the toast reads `created_citation.fields.title` after the splice. If the message lacks that field, the effect throws before `setCreatedReferences`, and the list is left unchanged. The model assumes the field is present. The toast itself (text, position, 5000 ms auto-close) is UI.
- `Reconcile`: a created message writes `created_citation` into the slot. The model carries that value as a `Reference`, so it does not model a message whose `created_citation` is missing (the code stores `undefined`).
- `ResolveActiveProject`: `DEFAULT_PROJECT_VALUES` is defined in `ReferenceProjectsUpsertContext`, which is not part of this model. The fallback is the opaque `WrappedDefaults`, standing for the object `{ DEFAULT_PROJECT_VALUES }` the code passes.
- `ResolveActiveProject`: the URL id comes from `parseInt` (line 102), which is not modelled. The target is an integer. A `NaN` id matches no project, which is the same as an id absent from the tree.
- `ResolveActiveProject`: projects are assumed to carry `collaborators.editors` and `collaborators.viewers`. Destructuring a project without them throws in the code. The `?? { collaborators: ... }` fallback at line 135 is dead, because the branch runs only when a project was found.
- `parseUserSuggestion` belongs to another component and is taken as an opaque total function `parse`.
- Gatekeeping, Redux `connect`, the project fetch effect, removal and bibliography modals, and all rendering and styles: UI and I/O with no list or tree logic.
- The other components of the repository (first-vote modal, document feed, source-search form, author institutions, modal body constants): UI with no logic of their own to model.
