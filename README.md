# maintenance-tech: work orders and team, modelled in Dafny

maintenance-tech is a small maintenance-management web application. This
project models its client-side core, which covers two pages and three dialogs:

- **The work-order page** (`pages/app/ordens-de-servico.tsx`). It joins each
  stored work order with its responsible collaborator, its equipment and its
  entry in the type table (the page's table is a constant of the model's
  page, so the page as written and the page with the corrected table are
  both instances). It keeps the list sorted by date, and when either
  dialog saves an order it merges the order back in and sorts again. Each row
  gets a status icon: completed, due today, overdue or scheduled. Edit is
  disabled on completed orders.
- **The work-order dialog** (`components/WorkOrders/Form.tsx`). It creates an
  order (POST with `done: false`) when the order it holds has no id, and
  updates it (PUT of the five edited fields) otherwise. It then hands the page
  the held order with the form's values laid over it.
- **The completion dialog** (`components/WorkOrders/ViewForm.tsx`). It flips
  `done` and records the report. It writes those two fields (and only those)
  to the store when the order has an id. The report field is disabled while
  the order is done.
- **The team page** (`pages/app/equipe.tsx`). It keeps the collaborators
  sorted by name, removes the selected one, and merges what the dialog saves.
- **The collaborator dialog** (`components/Users/Form.tsx`). Its PUT or POST
  body holds exactly `email` and `name`. The form's values also hold the
  `_id` of the record it was last reset to; closing the dialog blanks it.

Modelling choices:

- Each page and dialog is a `class` whose fields are the component's state.
  Its methods are its handlers, each proved against a pure function of the
  old state.
- Store calls are returned as `StoreRequest` values.
- The id the store assigns to a created record is a parameter (`postedId`).
- "Today" is a parameter. Dates are whole day numbers (`Day`).
- The pt-BR collation is an abstract total preorder on names (`collate`).
- `Array.prototype.sort` is a stable sort (required since ECMAScript 2019).
  It is modelled by a stable insertion sort, `Lists.StableSort`.
  `Lists.StableSortUnique` proves that every sorted, stable permutation equals
  that sort, so nothing hangs on the choice of algorithm.
- `Array.prototype.find` is the first element with the key, and `undefined` is `None`.
- Dereferencing `undefined` (a TypeError) is a `None` result, or a handler
  that leaves the state unchanged.

Modules (one file each): `Common` holds options, JSON values and store
requests, and `Records` the stored records and their JSON fields. `Lists`
holds sort, find, filter and replace. After them come `WorkOrdersPage`,
`WorkOrderForm`, `WorkOrderViewForm`, `TeamPage` and `UserForm`.

## Model

| member | source | states |
|---|---|---|
| Lists.Insert | pages/app/ordens-de-servico.tsx:139-141 | Inserting one element keeps the length and adds exactly that element to the multiset |
| Lists.StableSort | pages/app/ordens-de-servico.tsx:139-141 | `sort` returns a permutation of its input: same length, same multiset |
| Lists.InsertSorted | pages/app/ordens-de-servico.tsx:139-141 | Under a total preorder, inserting into a sorted list gives a sorted list |
| Lists.SortSorted | pages/app/ordens-de-servico.tsx:139-141 | Under a total preorder, the sorted list is ordered by the comparator |
| Lists.InsertSameKey | pages/app/ordens-de-servico.tsx:139-141 | Inserting keeps the relative order of elements whose keys are equivalent |
| Lists.SortStable | pages/app/ordens-de-servico.tsx:139-141 | Stability: the elements of each equivalence class of keys keep their input order |
| Lists.SortedStableUnique | pages/app/equipe.tsx:49 | Two sorted lists that are permutations of each other, with the same order inside every key class, are equal |
| Lists.StableSortUnique | pages/app/equipe.tsx:49 | Any sorted, stable permutation of the input is the model's sort result, so the result does not depend on the engine's algorithm |
| Lists.Find | pages/app/ordens-de-servico.tsx:92-96 | `find` is `None` exactly when no element has the key; otherwise it is the element at the first index with that key |
| Lists.FindUnique | pages/app/ordens-de-servico.tsx:92-96 | With unique keys, finding an element's key gives back that element |
| Lists.RemoveMatching | pages/app/equipe.tsx:57 | `filter(_id !== id)` keeps exactly the elements whose key differs, and is the identity when none matches |
| Lists.RemoveMatchingAppend | pages/app/equipe.tsx:57 | The filter distributes over concatenation, so the kept elements stay in their order |
| Lists.RemoveMatchingSorted | pages/app/equipe.tsx:54-60 | Filtering a sorted list leaves it sorted |
| Lists.ReplaceMatching | pages/app/ordens-de-servico.tsx:162-170 | The `map` that lays the saved record over entries with its id keeps the length, replaces exactly those entries, and is the identity when none matches |
| Lists.ReplaceUnique | pages/app/equipe.tsx:165-172 | With unique ids and the id present, the replacement swaps exactly one entry in the multiset |
| WorkOrdersPage.PreventiveUnresolvedAsWritten | pages/app/ordens-de-servico.tsx:79-83 | As written, the dialog's third type value "preventive" resolves to no entry of the page's type table |
| WorkOrdersPage.PreventiveOrderFaultsAsWritten | pages/app/ordens-de-servico.tsx:79-107 | As written, a stored order of type "preventive" joins without a type, does not resolve, and converting it back faults |
| WorkOrdersPage.DialogTypesResolve | components/WorkOrders/Form.tsx:70-74 | With the corrected table, every type the dialog offers resolves to the entry with that value and caption |
| WorkOrdersPage.DialogOrdersRoundTrip | pages/app/ordens-de-servico.tsx:85-107 | With the corrected table, a stored order of any type the dialog offers, whose collaborator and equipment exist, joins and converts back to itself |
| WorkOrdersPage.DayLeqTotal | pages/app/ordens-de-servico.tsx:139-141 | The date comparator `a.date - b.date` is a total preorder, so the sort lemmas apply |
| WorkOrdersPage.ParseResponse | pages/app/ordens-de-servico.tsx:85-98 | The join, against a given type table, copies the plain fields. Each reference is `None` exactly when no entry has that id (type: value), and otherwise the first entry with it |
| WorkOrdersPage.ToResponse | pages/app/ordens-de-servico.tsx:100-107 | Converting back succeeds exactly when all three references are present; a missing one faults |
| WorkOrdersPage.ParseRoundTrip | pages/app/ordens-de-servico.tsx:85-107 | Joining a stored order and converting back gives that order exactly when all its references resolve, and a fault otherwise |
| WorkOrdersPage.JoinRoundTrip | pages/app/ordens-de-servico.tsx:85-107 | With unique ids, converting a joined order and joining it again gives the same order |
| WorkOrdersPage.StatusOf | pages/app/ordens-de-servico.tsx:228-240 | Completed iff done; overdue iff open and before today; due today iff open and on today; scheduled iff open and after today |
| WorkOrdersPage.EditEnabled | pages/app/ordens-de-servico.tsx:278-283 | Edit is enabled exactly for orders whose status is not completed, on every day |
| WorkOrdersPage.ToggleFlipsStatus | pages/app/ordens-de-servico.tsx:348-356 | Completing or reopening a listed order through the view dialog flips its completed status and its edit button, and keeps its id, date and references |
| WorkOrdersPage.ParseAll | pages/app/ordens-de-servico.tsx:135-138 | The `map` joins every fetched order, in place and in order |
| WorkOrdersPage.Upserted | pages/app/ordens-de-servico.tsx:149-175 | Without a selection the saved order is appended (one more element); with one, the entries with its id are replaced (same length) |
| WorkOrdersPage.Page.constructor | pages/app/ordens-de-servico.tsx:110-115 | The page, built on a type table, starts with empty lists, nothing selected, and is trivially sorted |
| WorkOrdersPage.Page.SetSorted | pages/app/ordens-de-servico.tsx:139-141 | The list becomes the date sort of its argument: sorted, a permutation, stable |
| WorkOrdersPage.Page.Load | pages/app/ordens-de-servico.tsx:120-147 | The list is the joined fetched orders sorted by date, with the same length and elements, equal dates in fetched order; collaborators and equipment are the fetched ones |
| WorkOrdersPage.Page.Reload | pages/app/ordens-de-servico.tsx:149-176 | The list is the sorted upsert of the joined saved order: one more order when nothing was selected, the same length otherwise, always sorted and stable |
| WorkOrdersPage.Page.OpenForm | pages/app/ordens-de-servico.tsx:178-185 | Without an order the selection is cleared; with one it becomes the converted order, and a missing reference leaves the selection unchanged and the dialog closed |
| WorkOrdersPage.Page.OpenViewForm | pages/app/ordens-de-servico.tsx:187-196 | The selection becomes the converted order, or stays unchanged when a reference is missing |
| WorkOrderForm.Blank | components/WorkOrders/Form.tsx:76-85 | The default order has an empty id and empty strings, is open, and is dated on the day the module was loaded |
| WorkOrderForm.UpdateBody | components/WorkOrders/Form.tsx:119-125 | The PUT body carries exactly the five edited fields with the form's values, never `done` or `report` |
| WorkOrderForm.CreateBody | components/WorkOrders/Form.tsx:127-134 | The POST body carries the five edited fields and `done: false`, never `report` |
| WorkOrderForm.SubmitOutcome | components/WorkOrders/Form.tsx:117-138 | Rejected iff a required field is empty. With an id: a PUT to that id, and the id kept. Without one: a POST, and the saved order takes the issued id. `done` and `report` are always kept |
| WorkOrderForm.SavedOverridesFormFields | components/WorkOrders/Form.tsx:137 | The saved order holds the submitted value in every edited field and the held order's value in every other field but the id |
| WorkOrderForm.RequestAgreesWithSaved | components/WorkOrders/Form.tsx:117-138 | Every field the request sends holds that value in the order handed to the page (for creation, of an open order) |
| WorkOrderForm.UnchangedEditIsIdentity | components/WorkOrders/Form.tsx:112-138 | Submitting an existing order with its prefilled values sends a PUT and hands back the same order |
| WorkOrderForm.BlankCreatesOpenOrder | components/WorkOrders/Form.tsx:127-137 | Submitting the blank dialog POSTs the creation body and yields an open order without report under the issued id |
| WorkOrderForm.Title | components/WorkOrders/Form.tsx:146-150 | The title reads "Alterar" exactly when the held order has an id, and "Adicionar" otherwise |
| WorkOrderForm.TitleAfterSave | components/WorkOrders/Form.tsx:135-149 | The blank dialog is titled for creation; the order it saves (with a non-empty issued id) is titled for editing |
| WorkOrderForm.Form.constructor | components/WorkOrders/Form.tsx:102 | The dialog starts holding the default order |
| WorkOrderForm.Form.Receive | components/WorkOrders/Form.tsx:112-115 | The dialog holds the received order, or the default one when none is given |
| WorkOrderForm.Form.Submit | components/WorkOrders/Form.tsx:117-138 | The handler returns the outcome `SubmitOutcome` specifies, posting exactly when the held order has no id |
| WorkOrderViewForm.Toggled | components/WorkOrders/ViewForm.tsx:77-81 | The order handed to the page has `done` flipped, the given report, and every other field unchanged |
| WorkOrderViewForm.ToggleBody | components/WorkOrders/ViewForm.tsx:72-75 | The PUT body carries exactly `done` (negated) and `report` |
| WorkOrderViewForm.SubmittedReport | components/WorkOrders/ViewForm.tsx:100-117 | While the order is done the report field is disabled, so the order's own report is submitted; otherwise what was typed |
| WorkOrderViewForm.SubmitOutcome | components/WorkOrders/ViewForm.tsx:70-82 | Rejected iff the report is empty. Otherwise the toggled order is handed over, and a PUT is issued exactly when the order has an id |
| WorkOrderViewForm.WriteAgreesWithSaved | components/WorkOrders/ViewForm.tsx:70-82 | The fields written to the store hold the same values in the order handed to the page |
| WorkOrderViewForm.ToggleTwice | components/WorkOrders/ViewForm.tsx:77-81 | Toggling twice restores `done`, and the whole order when the original report is put back |
| WorkOrderViewForm.CompleteThenReopen | components/WorkOrders/ViewForm.tsx:70-117 | Completing an open order and then reopening it restores the order with the completion report kept, whatever is typed at reopening |
| WorkOrderViewForm.Title | components/WorkOrders/ViewForm.tsx:90-94 | The title is the reopen title iff the order is done, and the complete title iff not |
| WorkOrderViewForm.ButtonLabel | components/WorkOrders/ViewForm.tsx:127 | The button reads "Reabir" iff the order is done, "Concluir" iff not |
| WorkOrderViewForm.WordingFollowsDone | components/WorkOrders/ViewForm.tsx:90-127 | Title and button depend on `done` alone, and every toggle switches both |
| WorkOrderViewForm.ViewForm.constructor | components/WorkOrders/ViewForm.tsx:34-58 | The dialog starts holding the same default order as the edit dialog |
| WorkOrderViewForm.ViewForm.Receive | components/WorkOrders/ViewForm.tsx:65-68 | The dialog holds the received order, or the default one |
| WorkOrderViewForm.ViewForm.Submit | components/WorkOrders/ViewForm.tsx:70-82 | The handler returns the outcome `SubmitOutcome` specifies, and the saved order's `done` is the negation of the held one |
| TeamPage.Upserted | pages/app/equipe.tsx:157-175 | Without a selection the saved collaborator is appended; with one, the entries with its id are replaced |
| TeamPage.StaleEditLeavesListAsWritten | pages/app/equipe.tsx:157-175 | As written, an edit saved after a close and a reopen on the same collaborator updates the store but leaves the list as it was, since no entry has the empty id |
| TeamPage.EditReplacesListedEntry | pages/app/equipe.tsx:164-175 | As intended, with unique ids, an edit of a listed collaborator puts the saved one in the list, drops the old one when anything changed, and keeps the others |
| TeamPage.RemovalKeepsOrder | pages/app/equipe.tsx:54-60 | Removing from a sorted list keeps it sorted, and the kept collaborators stay in their relative order across any split |
| TeamPage.Page.constructor | pages/app/equipe.tsx:40-41 | The page starts with no collaborators and nothing selected |
| TeamPage.Page.SetSorted | pages/app/equipe.tsx:49 | The list becomes the name sort of its argument: sorted, a permutation, stable |
| TeamPage.Page.Load | pages/app/equipe.tsx:46-52 | The list is the fetched collaborators sorted by name: a stable permutation |
| TeamPage.Page.Select | pages/app/equipe.tsx:62-70 | `openForm` and `openDeleteConfirmation` set the selection to the given collaborator, or to none |
| TeamPage.Page.Remove | pages/app/equipe.tsx:54-60 | Without a selection nothing happens. With one, a DELETE for its id is issued and exactly the collaborators with that id leave the list, which stays sorted |
| TeamPage.Page.OnSave | pages/app/equipe.tsx:157-177 | The list is the sorted upsert of the saved collaborator: one more element when nothing was selected, the same length otherwise, sorted and stable |
| UserForm.Blank | components/Users/Form.tsx:29-33 | The default collaborator has an empty id, name and email |
| UserForm.Body | components/Users/Form.tsx:64-73 | Both the PUT and the POST body carry exactly `email` and `name` with the form's values |
| UserForm.SubmitOutcomeAsWritten | components/Users/Form.tsx:63-77 | Rejected iff the name or email is empty. With an id: a PUT to it, and the collaborator handed on carries the form's `_id`. Without one: a POST, and the issued id taken. Name and email are the typed ones |
| UserForm.SubmitOutcome | components/Users/Form.tsx:63-77 | As intended: as above, but an update hands on the collaborator under the held id |
| UserForm.AsWrittenWhenSynced | components/Users/Form.tsx:58-77 | When the form's `_id` is the held collaborator's, the code as written gives the intended outcome |
| UserForm.StaleIdAfterReopen | components/Users/Form.tsx:51-77 | With the form's `_id` blanked by a close, an edit PUTs to the held id but hands on a collaborator with an empty id |
| UserForm.SavedUnderRequestedId | components/Users/Form.tsx:63-77 | As intended, an update hands on the collaborator under the id it was sent to |
| UserForm.SavedAgreesWithRequest | components/Users/Form.tsx:63-77 | The saved collaborator holds the submitted name and email, and the body agrees with it field by field |
| UserForm.UnchangedEditIsIdentity | components/Users/Form.tsx:58-77 | Submitting an existing collaborator with its prefilled values updates it to itself |
| UserForm.Title | components/Users/Form.tsx:85-87 | The title reads "Alterar Colaborador" exactly when the held collaborator has an id, and "Adicionar Colaborador" otherwise |
| UserForm.BlankCreates | components/Users/Form.tsx:63-87 | Submitting the blank dialog POSTs the body and yields the collaborator under the issued id; given to the dialog again, it is titled for editing |
| UserForm.Form.constructor | components/Users/Form.tsx:48-56 | The dialog starts holding the default collaborator, with the form reset to it |
| UserForm.Form.Receive | components/Users/Form.tsx:58-61 | The dialog holds the received collaborator, or the default one, and the form's `_id` is its id |
| UserForm.Form.Close | components/Users/Form.tsx:51-56 | Closing blanks the form's `_id` and keeps the held collaborator |
| UserForm.Form.Submit | components/Users/Form.tsx:63-77 | The handler returns the as-written outcome for the held collaborator and the form's `_id`, and the intended one whenever they agree; it posts exactly when the held collaborator has no id |

## Left out

- The API routes, MongoDB, the auth context and services: the model stops at the request it sends (`StoreRequest`).
  - The ids the store issues are a parameter.
  - A failed request is not modelled.
- Asynchrony, React effects and re-rendering: each handler is one atomic step. The `loading` flag and the `showForm`/`showViewForm`/`showDeleteConfirmation` dialog booleans are not modelled.
- Timestamps: the work-order sort compares `getTime()` in milliseconds, and the status compares calendar days in the browser's time zone (dayjs). The model uses one day number for both, so two orders on the same day but at different times fall in the sort's same key class.
- The pt-BR collation of `localeCompare` is a parameter assumed to be a total preorder. Its actual ordering is not modelled.
- Rendering beyond the status icon and the edit guard is not modelled: chip colours, disabled text, date formatting, the empty-list placeholder.
- The equipment pages, the fleet counts and the per-equipment history are not part of this model.
- react-hook-form's value tracking: a submission's values are `FormData`, holding the controlled fields, and the collaborator dialog also tracks the form's `_id` (`UserForm.Form.formId`). In the work-order dialog the values `reset` puts in the form beyond the controlled fields are the held order's own: the page passes a new object on every open (pages/app/ordens-de-servico.tsx:180), so the receive effect resets the form to it each time.
- Whether React reruns the receive effect (it does only for a different object) is the caller's choice of calling `Receive`; object identity is not modelled.
- WorkOrdersPage.ParseResponse: the join takes the type table as a parameter. The page as written is `Page(TypesAsWritten)`; its lemmas (Load, Reload, the round trips) hold for any table, and `PreventiveOrderFaultsAsWritten` states the as-written join of a "preventive" order.
- `{ ...record, ...saved }` in the page merges: the saved record carries every field, so the merge is modelled as replacement.
- Extra document fields the store may return beyond the declared types are not modelled.
- WorkOrderViewForm.SubmittedReport: a disabled field is taken to keep the value it was prefilled with, the order's own report. The library's exact treatment of disabled controlled fields is not modelled.

## Findings

| source | as written | input that shows it | evidently intended | confidence | as-written member | corrected member |
|---|---|---|---|---|---|---|
| pages/app/ordens-de-servico.tsx:82 | The page's type table gives the preventive entry the value `'preventiva'`, while the dialog stores `'preventive'` (components/WorkOrders/Form.tsx:73). Joining such an order leaves `type` undefined, and the row then dereferences `type.label` (line 251) | A stored work order whose `type` is `"preventive"` | `'preventive'`, as the equipment page's table spells it (pages/app/equipamentos/[id].tsx:94) | not executed | WorkOrdersPage.PreventiveOrderFaultsAsWritten | WorkOrdersPage.DialogOrdersRoundTrip |
| components/Users/Form.tsx:76 | Closing the dialog resets the form to the blank record, `_id: ''` included (lines 51-56). Reopening on the same collaborator object does not rerun the effect at lines 58-61. The edit is then PUT to the held id (line 65), but `{ ...user, ...data }` hands on `_id: ''`, so pages/app/equipe.tsx:168 matches no entry and the list keeps the old values | Open the edit dialog on a listed collaborator, cancel, open it again on the same row, change the name, save | The collaborator handed on keeps the held id | not executed | TeamPage.StaleEditLeavesListAsWritten | TeamPage.EditReplacesListedEntry |
