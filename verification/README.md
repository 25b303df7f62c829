# Food2go dashboard core in Dafny

This project models the decision logic under the JSX of the Food2go
restaurant dashboard, a React CRUD application. It covers five groups:

- **The generic data table** (`Table`). It covers:
  - the default search column;
  - case-insensitive search on one column;
  - per-key exact filters whose default title means "no filter";
  - fifteen-row pages, clamped Previous/Next, and the window of at most
    five page buttons;
  - the table as a state machine over user events.
- **The shared field renderer** (`Fields`). It covers:
  - grid fields before map pickers, and `showIf` omission;
  - value resolution and touched-gated error messages;
  - switch display and write-back, and file emission;
  - routing a change to the field's own handler or the page's.
- **The add/edit pages**, one module each:
  - `StockCategory`, `StockProduct`, `Cashier` (with `MultiLanguageNames`
    for the languages hook), `CashierMan`, `DeliveryMan`,
    `BranchStockMan`, `AdminStockMan`, `StockList`, `Financial`;
  - each page's opening and reset values, its change handler, its
    validation, and the JSON or FormData body a submit sends.
  - FormData is an ordered list of entries (`Forms.Entry`), read back
    per key with `Forms.ValuesAt` (`formData.getAll`).
- **The admin's store and store-keeper lists** (`LocalLists`). It covers
  the row projection, the in-place status update, and delete by id.
- **Sessions and navigation**:
  - `Sidebar`: the admin sidebar's highlight and expand rules;
  - `Auth`: the auth slice's reducers over a local-storage map;
  - `LoginBranch`: the branch sign-in page's validation, its answer
    handling and its session restore.

JavaScript values are modelled by `Js.Value`: undefined, null, booleans,
integers, strings, arrays, objects and opaque files. Truthiness, `||`,
optional chaining, `String(...)`, `trim` and `toLowerCase` are written
out over that type.

## Model

| member | source | states |
|---|---|---|
| Table.FirstSearchable | src/components/ui/table.jsx:31 | the position found is the first column whose key is not img/action/reason; None means every column is unsearchable |
| Table.DefaultColumn | src/components/ui/table.jsx:30-32 | the initial search column is the first searchable column's key, else the first column's key, else "" |
| Table.FilteredDataExact | src/components/ui/table.jsx:98-117 | the filtered rows are an order-preserving subsequence of the data, holding exactly the rows that pass the lower-cased substring search on the chosen column (an empty term passes every row, a missing cell fails any non-empty term) and every filter |
| Table.NoQueryKeepsEverything | src/components/ui/table.jsx:38-44 | with an empty term and every filter on its default title, no row is dropped |
| Table.SearchNarrows | src/components/ui/table.jsx:100-106 | a row matching a longer search term also matches every prefix of it |
| Table.TotalPages | src/components/ui/table.jsx:120 | the page count is ceil(n/15): enough pages for n rows, no empty last page, and zero pages only for zero rows |
| Table.Page | src/components/ui/table.jsx:121-124 | page p is the rows from 15p up to min(15p+15, n), at most fifteen of them |
| Table.PageOccupancy | src/components/ui/table.jsx:120-124 | every page below the page count is non-empty and every page past it is empty |
| Table.PagesCoverFiltered | src/components/ui/table.jsx:120-124 | concatenating the pages from page p on gives back the filtered rows from 15p on, once each and in order |
| Table.Previous | src/components/ui/table.jsx:126-128 | Previous never goes below page 0 and otherwise moves back one page |
| Table.Next | src/components/ui/table.jsx:130-132 | Next never passes the last page and otherwise moves forward one page |
| Table.PageWindow | src/components/ui/table.jsx:454-465 | there are min(5, T) buttons with consecutive numbers; when the page is in range, all of them are within [0, T) and the current page is among them |
| Table.QueryEventsResetPage | src/components/ui/table.jsx:71-96 | a search, a column pick, a filter pick or a filter reset returns to page 0; a column pick also clears the term |
| Table.DispatchKeepsPageInRange | src/components/ui/table.jsx:438-488 | whatever the user clicks or types in the table itself, including clicks on the hidden or disabled pager, the page index keeps naming an existing page |
| Table.HiddenPagerIgnoresClicks | src/components/ui/table.jsx:441 | while the pager is hidden, Previous, Next and the page buttons change nothing |
| Table.InitialPageInRange | src/components/ui/table.jsx:34 | the table mounts on an existing page |
| Table.ShrinkStrandsPage | src/components/ui/table.jsx:34 | as written, a delete that takes the sixteenth row while page 2 shows leaves the page index past the last page: no row and no "no data" row is shown, and the hidden pager cannot move back |
| Table.DataChangeFixed | src/components/ui/table.jsx:119-124 | the corrected data change keeps the query, keeps the page while it exists and otherwise moves to the last page, so the page index always names an existing page |
| Table.DataChangeFixedShowsRows | src/components/ui/table.jsx:119-124 | after the corrected data change, the shown page is empty iff no row passes the query, and later events keep the page in range |
| Table.Cells | src/components/ui/table.jsx:56 | one trimmed cell per row for a filter key, "" where the row lacks it |
| Table.FilterOptions | src/components/ui/table.jsx:49-61 | a dropdown's choices are its title, then each distinct non-empty trimmed value of the key; every row's non-empty value is offered and nothing else is |
| Fields.GroupExact | src/components/AddFieldSection.jsx:23-24 | each of the two groups holds, once each and in source order, exactly the visible fields of its kind |
| Fields.RenderOrderLayout | src/components/AddFieldSection.jsx:29-209 | all visible grid fields come before all map pickers, each group keeps source order, and a field is shown iff its `showIf` allows it |
| Fields.ResolveValue | src/components/AddFieldSection.jsx:37-44 | a `durations_<id>` field reads the plan's durations (default []); otherwise a defined `field.value` wins over the form value, which falls back to ""; the result is never undefined |
| Fields.ErrorMessage | src/components/AddFieldSection.jsx:51 | an error shows iff there is one and the field is a map picker or has been touched |
| Fields.UntouchedShowsNoGridErrors | src/components/AddFieldSection.jsx:51 | before anything is touched, no grid field shows an error |
| Fields.Heading | src/components/AddFieldSection.jsx:59 | the caption is the label, else the placeholder, else the name, and empty only when all three are |
| Fields.SwitchCheckedExactly | src/components/AddFieldSection.jsx:149 | a switch shows as on iff its value is boolean true or the number 1, so the text "Active" shows as off |
| Fields.SwitchLabel | src/components/AddFieldSection.jsx:168 | the switch's caption is the active label (default "Active") when on and the inactive label (default "Inactive") when off, never empty |
| Fields.FileEmission | src/components/AddFieldSection.jsx:110-118 | a file input reports the first selected file, or null, and nothing else |
| Fields.Produced | src/components/AddFieldSection.jsx:75-201 | a text, time or text-area control forwards the typed text, a select or multi-select its choice, a map picker the place, a switch `checked` as a boolean and a file input its first real file or null; each control answers only its own kind of action, and unknown control tags produce nothing |
| Fields.Route | src/components/AddFieldSection.jsx:13-20 | a change goes to the field's own handler with the bare value, or else to the page's handler as (language, name, value) |
| Fields.RouteForwardsInput | src/components/AddFieldSection.jsx:13-20 | the text typed into a text, time or text-area field, and the choice made in a select, reach the handler unchanged |
| Fields.SwitchIgnoresReturnType | src/components/AddFieldSection.jsx:155 | the switch's write-back does not depend on `returnType`: it is always the boolean |
| Fields.FixedSwitchValue | src/components/AddFieldSection.jsx:149-155 | the corrected switch writes "Active"/"Inactive" for a string switch and the boolean otherwise |
| Fields.FixedSwitchRoundTrip | src/components/AddFieldSection.jsx:149-155 | reading back what the corrected switch wrote gives the toggled state, and non-string switches behave as written |
| Forms.Set | src/Pages/Admin/StockMan/AddStockMan.jsx:89-91 | a one-key change sets that key and leaves every other key as it was (also the handlers of Financial and the branch store keepers) |
| Forms.ClearError | src/Pages/Branch/Stocks/StockProduct/AddStockProduct.jsx:99 | clearing a key's error hides that error and keeps the others |
| Forms.ActiveFlag | src/Pages/Branch/Stocks/StockCategory/AddStockCategory.jsx:152 | status is sent as 1 iff it is exactly "Active", else 0 |
| Forms.StatusText | src/Pages/Admin/Stock/Stock.jsx:32 | a row's status reads "Active" iff its raw status is truthy, else "Inactive" |
| Forms.FlagEntriesExact | src/Pages/Branch/CashierMan/AddCashierMan.jsx:91-92 | each listed flag is sent exactly once as 1/0 (or "1"/"0") of its truthiness, and no other key is sent |
| Forms.ImageEntries | src/Pages/Branch/CashierMan/AddCashierMan.jsx:94-96 | an image is sent iff it is truthy and not a string, so a stored link is never re-sent |
| Forms.PasswordEntries | src/Pages/Branch/CashierMan/AddCashierMan.jsx:88 | the password is sent iff something was typed |
| Forms.IdsOf | src/Pages/Admin/StockMan/AddStockMan.jsx:50 | a missing list gives []; a non-array or an entry that is null or undefined throws; otherwise the ids in order |
| StockCategory.ParentRow | src/Pages/Branch/Stocks/StockCategory/StockCategory.jsx:42-48 | a main category's list row has no `parent_category` |
| StockCategory.SubRow | src/Pages/Branch/Stocks/StockCategory/StockCategory.jsx:50-58 | a sub-category's list row shows its parent, or "—" |
| StockCategory.AddDefaults | src/Pages/Branch/Stocks/StockCategory/AddStockCategory.jsx:63-70 | add mode starts with an empty name, status "Active", no parent and type parent |
| StockCategory.EditValues | src/Pages/Branch/Stocks/StockCategory/AddStockCategory.jsx:55-61 | an edit has status "Active" iff the raw status is truthy, type sub iff the parent is not "—", and no parent id for a main category |
| StockCategory.Init | src/Pages/Branch/Stocks/StockCategory/AddStockCategory.jsx:54-72 | opening uses the row in edit mode and the add defaults otherwise |
| StockCategory.Reset | src/Pages/Branch/Stocks/StockCategory/AddStockCategory.jsx:176-194 | reset uses the row in edit mode and the add defaults otherwise |
| StockCategory.ResetMatchesInit | src/Pages/Branch/Stocks/StockCategory/AddStockCategory.jsx:54-72 | reset equals the opening form iff the parent id was not converted to text on opening |
| StockCategory.FieldNames | src/Pages/Branch/Stocks/StockCategory/AddStockCategory.jsx:75-120 | the fields are name and status; add mode puts the type selector first; a sub-category puts the parent selector at position 1 |
| StockCategory.HandleChange | src/Pages/Branch/Stocks/StockCategory/AddStockCategory.jsx:122-135 | choosing type parent empties the parent id and sub keeps it; any other change sets only its key; the changed key's error clears |
| StockCategory.Validate | src/Pages/Branch/Stocks/StockCategory/AddStockCategory.jsx:139-147 | there is an error for a blank trimmed name, for a missing type in add mode, and for a missing parent of a sub-category, and for nothing else |
| StockCategory.Submit | src/Pages/Branch/Stocks/StockCategory/AddStockCategory.jsx:139-158 | any error blocks; otherwise the body has the trimmed non-empty name and the 1/0 status, plus the parent id iff the type is sub and one is chosen |
| StockCategory.AddDefaultsBlocked | src/Pages/Branch/Stocks/StockCategory/AddStockCategory.jsx:140 | a fresh add form cannot be sent, because its name is empty |
| StockCategory.NoErrorsWhenChecksPass | src/Pages/Branch/Stocks/StockCategory/AddStockCategory.jsx:139-147 | a form passing the three checks validates without error |
| StockCategory.EditSubRoundTrip | src/Pages/Branch/Stocks/StockCategory/AddStockCategory.jsx:54-72 | opening a listed sub-category and saving it unchanged sends its name, its status and its parent id as text |
| StockCategory.MainRowEditBlocked | src/Pages/Branch/Stocks/StockCategory/AddStockCategory.jsx:59-61 | as written, a listed main category opens, and resets, as a sub-category and cannot be saved without a parent |
| StockCategory.EditValuesFixed | src/Pages/Branch/Stocks/StockCategory/AddStockCategory.jsx:21 | the corrected edit values are a main category iff the page title's own test says so, with no parent id then, and otherwise equal the edit values as written |
| StockCategory.InitFixed | src/Pages/Branch/Stocks/StockCategory/AddStockCategory.jsx:21 | the corrected opening form is a main category iff the page title's own test says so |
| StockCategory.ResetFixed | src/Pages/Branch/Stocks/StockCategory/AddStockCategory.jsx:176-184 | the corrected reset is a main category iff the page title's own test says so, and is the reset as written in add mode |
| StockCategory.MainRowResetFixed | src/Pages/Branch/Stocks/StockCategory/AddStockCategory.jsx:176-184 | with the correction, resetting a listed main category gives back its opening form, a main category |
| StockCategory.MainRowEditFixed | src/Pages/Branch/Stocks/StockCategory/AddStockCategory.jsx:150-158 | with the correction, a listed main category is saved without a parent id |
| StockCategory.InitFixedAgreesOnSubRows | src/Pages/Branch/Stocks/StockCategory/AddStockCategory.jsx:59-61 | the correction changes nothing for rows that have a parent |
| StockProduct.ProductRow | src/Pages/Branch/Stocks/StockProduct/StockProduct.jsx:40-48 | the list row keeps the record's category id |
| StockProduct.AddDefaults | src/Pages/Branch/Stocks/StockProduct/AddStockProduct.jsx:57-62 | add mode has empty fields and status "Active" |
| StockProduct.EditValues | src/Pages/Branch/Stocks/StockProduct/AddStockProduct.jsx:50-55 | an edit takes the row's name and description, status "Active" iff the raw status is truthy, and the given category id |
| StockProduct.Init | src/Pages/Branch/Stocks/StockProduct/AddStockProduct.jsx:47-65 | opening in edit mode turns the category id into text and throws when it is missing; add mode uses the defaults |
| StockProduct.Reset | src/Pages/Branch/Stocks/StockProduct/AddStockProduct.jsx:136-153 | reset keeps the category id raw in edit mode and uses the defaults otherwise |
| StockProduct.ResetMatchesInit | src/Pages/Branch/Stocks/StockProduct/AddStockProduct.jsx:136-153 | reset equals the opening form iff in add mode or the id is already text |
| StockProduct.HandleChange | src/Pages/Branch/Stocks/StockProduct/AddStockProduct.jsx:97-100 | a change updates exactly one key and clears exactly that key's error |
| StockProduct.Validate | src/Pages/Branch/Stocks/StockProduct/AddStockProduct.jsx:104-112 | there is an error for a blank name, a blank description or a missing category, and for nothing else |
| StockProduct.Submit | src/Pages/Branch/Stocks/StockProduct/AddStockProduct.jsx:104-119 | any error blocks; otherwise the body has exactly the trimmed non-empty name and description, the chosen category and the 1/0 status |
| StockProduct.NoErrorsWhenChecksPass | src/Pages/Branch/Stocks/StockProduct/AddStockProduct.jsx:104-112 | a form passing the three checks validates without error |
| StockProduct.AddDefaultsBlocked | src/Pages/Branch/Stocks/StockProduct/AddStockProduct.jsx:104-112 | a fresh add form is refused for all three required fields |
| StockProduct.EditRoundTrip | src/Pages/Branch/Stocks/StockProduct/AddStockProduct.jsx:47-119 | opening a listed product and saving it unchanged sends back its trimmed text, its category id as text and its status |
| MultiLanguageNames.InitialNameStructure | src/Hooks/useMultiLanguageNames.js:29-54 | a non-empty translation list gives one empty name per language, in order, with its id and name; anything else gives the English/Arabic defaults; the result is never empty |
| MultiLanguageNames.FallbackLikeLoading | src/Hooks/useMultiLanguageNames.js:7-10 | an unusable answer gives the same structure as no answer: exactly English then Arabic |
| Cashier.StoredName | src/Pages/Branch/Cashier/AddCashier.jsx:61-64 | the stored name is the name of the first entry for the language, and "" when the list is missing or holds no entry for it |
| Cashier.Init | src/Pages/Branch/Cashier/AddCashier.jsx:55-75 | an edit is active iff status is 1 and takes each language's stored name; add mode is active with the empty structure; errors are cleared |
| Cashier.Reset | src/Pages/Branch/Cashier/AddCashier.jsx:178-182 | reset is active, with the empty structure and no errors |
| Cashier.ResetIsAddInit | src/Pages/Branch/Cashier/AddCashier.jsx:178-182 | reset gives the add-mode opening form, also when editing |
| Cashier.FieldList | src/Pages/Branch/Cashier/AddCashier.jsx:82-114 | there is one name input per language, required iff it is English, then the status switch |
| Cashier.NameInputsShowEntries | src/Pages/Branch/Cashier/AddCashier.jsx:91 | each name input displays its own language's name |
| Cashier.OnNameChange | src/Pages/Branch/Cashier/AddCashier.jsx:93-100 | typing changes only the entries of that language and clears only that input's error |
| Cashier.FirstEnglish | src/Pages/Branch/Cashier/AddCashier.jsx:130 | finds the first entry whose language lower-cases to "english" |
| Cashier.NameEntriesExact | src/Pages/Branch/Cashier/AddCashier.jsx:145-154 | under each list position the body carries the language id, the language name and the trimmed name iff that name is not blank |
| Cashier.Submit | src/Pages/Branch/Cashier/AddCashier.jsx:121-154 | without a branch id only the general error is set; a blank English name blocks with that input's error; otherwise the body is branch id, 1/0 status, then the names |
| Cashier.NoEnglishNoRequiredName | src/Pages/Branch/Cashier/AddCashier.jsx:130-138 | with no English entry and a known branch, the form is always sent |
| Cashier.SubmittedNames | src/Pages/Branch/Cashier/AddCashier.jsx:145-154 | a sent body holds every filled-in trimmed name under its own list position and nothing for blank ones |
| CashierMan.SchemaErrors | src/Pages/Branch/CashierMan/AddCashierMan.jsx:12-26 | the schema accepts iff the name has three characters, the password is empty or has six, shift number and id coerce to at least 1, and every flag is a boolean |
| CashierMan.Base | src/Pages/Branch/CashierMan/AddCashierMan.jsx:45-50 | add mode has every permission off, status on and no image |
| CashierMan.Init | src/Pages/Branch/CashierMan/AddCashierMan.jsx:44-64 | add mode uses the defaults; the password always starts empty |
| CashierMan.InitEditValues | src/Pages/Branch/CashierMan/AddCashierMan.jsx:52-61 | an edit takes the row's text and image link, and each of the eight flags as the truthiness of the row's field |
| CashierMan.InitPassesFlagsAndPassword | src/Pages/Branch/CashierMan/AddCashierMan.jsx:12-26 | the opening form always satisfies the flag and password rules |
| CashierMan.AddDefaultsRejected | src/Pages/Branch/CashierMan/AddCashierMan.jsx:13 | the fresh add form fails the name rule |
| CashierMan.FieldList | src/Pages/Branch/CashierMan/AddCashierMan.jsx:66-80 | the password is marked required iff in add mode; each flag has a switch with its own caption |
| Forms.FormikSubmit | src/Pages/Branch/CashierMan/AddCashierMan.jsx:112-117 | the handler's body is sent iff no key is rejected, and a blocked submit has an error for exactly the rejected keys |
| CashierMan.Submit | src/Pages/Branch/CashierMan/AddCashierMan.jsx:112-117 | Formik calls the handler iff the schema accepts |
| CashierMan.BodyPassword | src/Pages/Branch/CashierMan/AddCashierMan.jsx:88 | the password is in the body iff one was typed |
| CashierMan.BodyFlag | src/Pages/Branch/CashierMan/AddCashierMan.jsx:91-92 | each of the eight flags is sent once, as 1 when set and 0 otherwise |
| CashierMan.BodyImage | src/Pages/Branch/CashierMan/AddCashierMan.jsx:94-96 | the image is sent iff it is a newly chosen file |
| CashierMan.EditKeepsStoredImage | src/Pages/Branch/CashierMan/AddCashierMan.jsx:54-96 | saving an edit without choosing an image sends no image |
| DeliveryMan.SchemaErrors | src/Pages/Branch/DeliveyMan/AddDeliveyMan.jsx:14-27 | the schema rejects a name shorter than two characters, a phone shorter than eight, an empty identity field, an e-mail failing the e-mail check, a password neither empty nor six characters long, and a switch not holding a boolean; nothing else is rejected |
| DeliveryMan.Base | src/Pages/Branch/DeliveyMan/AddDeliveyMan.jsx:50-63 | add mode has identity type "Card", no files and all three switches on |
| DeliveryMan.RowFlags | src/Pages/Branch/DeliveyMan/AddDeliveyMan.jsx:73-75 | an edit's flag is on iff the row holds exactly the number 1 |
| DeliveryMan.Init | src/Pages/Branch/DeliveyMan/AddDeliveyMan.jsx:49-79 | add mode uses the defaults; the password and files always start empty |
| DeliveryMan.InitEditValues | src/Pages/Branch/DeliveyMan/AddDeliveyMan.jsx:64-77 | an edit takes the row's text, "Card" when it has no identity type, and each flag on iff the row holds 1 |
| DeliveryMan.FieldList | src/Pages/Branch/DeliveyMan/AddDeliveyMan.jsx:81-94 | the password is marked required iff in add mode; the identity type is a select; the two images are file inputs |
| DeliveryMan.BranchId | src/Pages/Branch/DeliveyMan/AddDeliveyMan.jsx:106 | the branch id is the signed-in id as text (a number as its digits), and "" without a signed-in id |
| DeliveryMan.Submit | src/Pages/Branch/DeliveyMan/AddDeliveyMan.jsx:96-132 | Formik calls the handler iff the schema accepts |
| DeliveryMan.AddDefaultsRejected | src/Pages/Branch/DeliveyMan/AddDeliveyMan.jsx:14-27 | the fresh add form fails on the names, the phone and the identity number, and not on type, password or switches |
| DeliveryMan.BodyBranchId | src/Pages/Branch/DeliveyMan/AddDeliveyMan.jsx:106 | the branch id is sent once, as text |
| DeliveryMan.BodyPassword | src/Pages/Branch/DeliveyMan/AddDeliveyMan.jsx:108-110 | the password is in the body iff one was typed |
| DeliveryMan.BodyFlag | src/Pages/Branch/DeliveyMan/AddDeliveyMan.jsx:113-115 | each switch is sent once, as the text "1" when on and "0" otherwise |
| DeliveryMan.BodyFile | src/Pages/Branch/DeliveyMan/AddDeliveyMan.jsx:119-125 | each image is sent iff it holds a real file |
| DeliveryMan.EditRoundTripFlags | src/Pages/Branch/DeliveyMan/AddDeliveyMan.jsx:64-125 | saving an edit unchanged sends each flag as "1" iff the row held 1, and no image |
| BranchStockMan.StoreId | src/Pages/Branch/Stocks/StockMan/AddStockMan.jsx:51 | the store id is always text: "" without one, the digits of a numeric id |
| BranchStockMan.AddDefaults | src/Pages/Branch/Stocks/StockMan/AddStockMan.jsx:56-63 | add mode has empty text, status "Active" and no image |
| BranchStockMan.Init | src/Pages/Branch/Stocks/StockMan/AddStockMan.jsx:45-65 | an edit takes the row's fields with an empty password, and status "Active" iff the raw status is truthy; the same values are set again by reset (lines 130-150) |
| BranchStockMan.FieldList | src/Pages/Branch/Stocks/StockMan/AddStockMan.jsx:68-98 | the password is marked required iff in add mode; the last field is the string status switch |
| BranchStockMan.BodyFixedEntries | src/Pages/Branch/Stocks/StockMan/AddStockMan.jsx:105-110 | user name, phone and store id are sent once each, "" when empty; status is sent once, 1 iff "Active" |
| BranchStockMan.BodyPassword | src/Pages/Branch/Stocks/StockMan/AddStockMan.jsx:108 | the password is in the body iff one was typed |
| BranchStockMan.BodyImage | src/Pages/Branch/Stocks/StockMan/AddStockMan.jsx:111-113 | the image is sent iff it is a newly chosen file |
| BranchStockMan.EditRoundTrip | src/Pages/Branch/Stocks/StockMan/AddStockMan.jsx:45-113 | saving an edit unchanged sends no password, the store id as text, the stored status as 1/0, and no stored image |
| BranchStockMan.ToggleThenSubmit | src/Pages/Branch/Stocks/StockMan/AddStockMan.jsx:110 | with the corrected switch, turning it on sends 1 and off sends 0 |
| BranchStockMan.StatusSwitchAsWritten | src/Pages/Branch/Stocks/StockMan/AddStockMan.jsx:90-97 | as written, a new keeper's "Active" shows as off, and turning the switch on sends status 0 |
| AdminStockMan.AddDefaults | src/Pages/Admin/StockMan/AddStockMan.jsx:58-66 | add mode has an empty name and area, status "Active" and no branches |
| AdminStockMan.EditValues | src/Pages/Admin/StockMan/AddStockMan.jsx:48-57 | an edit takes the row's branch ids, and its status or "Active"; it throws iff reading the branch ids throws |
| AdminStockMan.Init | src/Pages/Admin/StockMan/AddStockMan.jsx:47-67 | opening uses the row in edit mode, the add defaults in add mode, and nothing while an edit has no row |
| AdminStockMan.Reset | src/Pages/Admin/StockMan/AddStockMan.jsx:115-135 | reset uses the row in edit mode and the add defaults otherwise |
| AdminStockMan.ResetMatchesInit | src/Pages/Admin/StockMan/AddStockMan.jsx:115-135 | reset equals the opening values except on an edit page opened without a row |
| AdminStockMan.StatusFlag | src/Pages/Admin/StockMan/AddStockMan.jsx:98 | status is 1 iff it is text that lower-cases to "active"; a value that is not text, null or undefined throws |
| AdminStockMan.Submit | src/Pages/Admin/StockMan/AddStockMan.jsx:93-99 | the body has exactly name and area (default ""), branches (default []) and the 1/0 status |
| AdminStockMan.FieldList | src/Pages/Admin/StockMan/AddStockMan.jsx:70-87 | there are four unrequired fields: the name and area text inputs, a branch multi-select and the string status switch |
| Fields.ToggleStringStatus | src/Pages/Admin/StockMan/AddStockMan.jsx:79-86 | the corrected string switch writes "Active"/"Inactive", changes nothing else, and reads back as the toggled state |
| AdminStockMan.ToggleThenSubmit | src/Pages/Admin/StockMan/AddStockMan.jsx:98 | with the corrected switch, the body is built and sends 1 iff the switch was turned on |
| AdminStockMan.StatusSwitchAsWritten | src/Pages/Admin/StockMan/AddStockMan.jsx:79-86 | as written, turning the switch on writes a boolean, and the submit then throws |
| AdminStockMan.EditRoundTrip | src/Pages/Admin/StockMan/AddStockMan.jsx:47-99 | saving a listed store unchanged sends its branch ids and its status as 1/0 |
| AdminStockMan.Mode | src/Pages/Admin/StockMan/AddStockMan.jsx:11-27 | the page is in edit mode iff the route parameter it reads is non-empty text, and then saves to the update endpoint carrying it; otherwise it saves to the add endpoint |
| AdminStockMan.RoutedEditOpensAddForm | src/router.jsx:54-55 | as written, the edit route supplies `stockManId` while the page reads `stockId`, so "Edit" opens the blank add form and saves to the add endpoint |
| AdminStockMan.RoutedEditFixed | src/router.jsx:54-55 | reading `stockManId`, the edit route opens the listed store and saves to its update endpoint, and the add route still opens the add form |
| StockList.ListRow | src/Pages/Branch/Stocks/StockList/StockList.jsx:40-47 | a row shows the status as text beside the raw status, and its branches or [] |
| StockList.AddDefaults | src/Pages/Branch/Stocks/StockList/AddStockList.jsx:56 | add mode has an empty name and area, status "Active" and no branches |
| StockList.RowValues | src/Pages/Branch/Stocks/StockList/AddStockList.jsx:46-59 | an edit takes the row's name, area and branch ids, and status "Active" iff the given field is truthy |
| StockList.Init | src/Pages/Branch/Stocks/StockList/AddStockList.jsx:46-59 | opening reads the status from `rawStatus` |
| StockList.ResetAsWritten | src/Pages/Branch/Stocks/StockList/AddStockList.jsx:108-121 | reset as written reads the status from `status` |
| StockList.ResetAsWrittenAlwaysActive | src/Pages/Branch/Stocks/StockList/AddStockList.jsx:114 | as written, any listed store resets to "Active", so an inactive store is saved as active |
| StockList.Reset | src/Pages/Branch/Stocks/StockList/AddStockList.jsx:108-121 | the corrected reset reads the status from `rawStatus` |
| StockList.ResetRestoresStoredStatus | src/Pages/Branch/Stocks/StockList/AddStockList.jsx:108-121 | the corrected reset is the opening form and sends the stored status |
| StockList.HandleChange | src/Pages/Branch/Stocks/StockList/AddStockList.jsx:81-84 | a change updates exactly one key and clears exactly that key's error |
| StockList.Submit | src/Pages/Branch/Stocks/StockList/AddStockList.jsx:86-92 | the body has exactly name and area (default ""), branches (default []) and status 1 iff "Active" |
| StockList.FieldList | src/Pages/Branch/Stocks/StockList/AddStockList.jsx:61-78 | there are four unrequired fields: name, area, a branch multi-select and the string status switch |
| StockList.StatusSwitchAsWritten | src/Pages/Branch/Stocks/StockList/AddStockList.jsx:70-77 | as written, a new store's "Active" shows as off, and turning the switch on sends status 0 |
| StockList.ToggleStatus | src/Pages/Branch/Stocks/StockList/AddStockList.jsx:70-77 | the corrected string switch writes "Active"/"Inactive" and changes nothing else |
| StockList.ToggleThenSubmit | src/Pages/Branch/Stocks/StockList/AddStockList.jsx:91 | with the corrected switch, turning it on sends 1 and off sends 0 |
| Financial.Initial | src/Pages/Branch/Financial/AddFinancial.jsx:30-38 | the page starts with discount and card payment off, status on and no logo |
| Financial.RowValues | src/Pages/Branch/Financial/AddFinancial.jsx:40-50 | the row's text or "", each flag as its truthiness, the logo or null |
| Financial.Init | src/Pages/Branch/Financial/AddFinancial.jsx:40-53 | opening uses the row in edit mode and the initial values otherwise |
| Financial.Reset | src/Pages/Branch/Financial/AddFinancial.jsx:128-138 | reset reads the row whatever the mode, so without a row the status is off |
| Financial.ResetVersusInit | src/Pages/Branch/Financial/AddFinancial.jsx:128-138 | in edit mode reset gives the opening values; without a row, reset turns the status off while opening had it on |
| Financial.FieldList | src/Pages/Branch/Financial/AddFinancial.jsx:55-94 | only the name is required; the logo is a file input; the three flags are switches |
| Financial.BodyText | src/Pages/Branch/Financial/AddFinancial.jsx:103-105 | each text field is sent once, as held |
| Financial.BodyFlag | src/Pages/Branch/Financial/AddFinancial.jsx:106-108 | each flag is sent once, as 1/0 |
| Financial.BodyLogo | src/Pages/Branch/Financial/AddFinancial.jsx:109-113 | the logo is always sent once, and a second time when it is a newly chosen file |
| Financial.EditRoundTrip | src/Pages/Branch/Financial/AddFinancial.jsx:40-113 | saving an edit unchanged sends each flag as the row's truthiness, and a stored logo link only once |
| LocalLists.StockRow | src/Pages/Admin/Stock/Stock.jsx:29-36 | the name becomes "—" when missing, status is "Active" iff truthy, the raw status is kept, and branches default to [] |
| LocalLists.StockManRow | src/Pages/Admin/StockMan/StockMan.jsx:29-37 | user name and phone become "—" when missing, the store name is the store's name or "—", the image is null when missing, status is "Active" iff truthy |
| LocalLists.SwitchRow | src/Pages/Admin/Stock/Stock.jsx:50-54 | a switched row has the new status text and raw status, and every other field unchanged |
| LocalLists.UpdateStatus | src/Pages/Admin/Stock/Stock.jsx:41-58 | after a successful switch only the rows with the id change; the length and all other rows stay; a failed switch changes nothing (same in StockMan.jsx:42-59) |
| LocalLists.SwitchAgreesWithRefetch | src/Pages/Admin/Stock/Stock.jsx:29-58 | switching a store row in place shows what projecting the record with the new status shows |
| LocalLists.SwitchAgreesWithRefetchMan | src/Pages/Admin/StockMan/StockMan.jsx:29-59 | the same for a store-keeper row |
| LocalLists.Without | src/Pages/Admin/Stock/Stock.jsx:100 | the kept rows are rows of the list without the id, and every row without the id is kept |
| LocalLists.ConfirmDelete | src/Pages/Admin/Stock/Stock.jsx:89-103 | a confirmed successful delete drops the selected record's rows, closes the dialog and clears the selection; no selection or a failure changes nothing (same in StockMan.jsx:109-123) |
| LocalLists.WithoutExact | src/Pages/Admin/StockMan/StockMan.jsx:120 | the kept rows are, in order, exactly the rows whose id differs |
| LocalLists.WithoutIdempotent | src/Pages/Admin/Stock/Stock.jsx:100 | deleting the same record twice drops nothing more |
| Sidebar.StockHighlightedOnStockMan | src/components/Sidebar/AdminSidebar.jsx:90-91 | as written, on every store-keeper path the stores entry is highlighted too, and the home entry is not |
| Sidebar.FixedHighlightsOneEntry | src/components/Sidebar/AdminSidebar.jsx:84-94 | with segment-wise matching at most one admin entry is highlighted, and each entry is highlighted on its own page |
| Sidebar.InitialExpandedExact | src/components/Sidebar/AdminSidebar.jsx:36-48 | the open flags cover exactly the entries with a sub-menu, each open iff one of its sub-links is a prefix of the path |
| Sidebar.AdminStartsCollapsed | src/components/Sidebar/AdminSidebar.jsx:22-26 | the admin entries have no sub-menus, so nothing starts open |
| Sidebar.Find | src/components/Sidebar/AdminSidebar.jsx:52-54 | finds the first entry with the name, or None iff there is none |
| Sidebar.ToggleExpand | src/components/Sidebar/AdminSidebar.jsx:50-60 | a click keeps an entry on its own pages open and otherwise flips it (missing counts as closed); other names keep their flags |
| Sidebar.ToggleTwice | src/components/Sidebar/AdminSidebar.jsx:50-60 | away from its pages, two clicks restore an entry's flag; on them, it stays open |
| Auth.InitialAuth | src/Store/authSlice.js:4-6 | the store starts with the parsed "branch" entry, null when it is missing or parses to a falsy value; loading fails iff it does not parse |
| Auth.SetUser | src/Store/authSlice.js:12-16 | the payload replaces the user iff its nested `user.role` is "branch"; otherwise the state is unchanged |
| Auth.SetUserIdempotent | src/Store/authSlice.js:12-16 | dispatching the same payload twice is dispatching it once |
| Auth.SetUserIgnoresBranchRecord | src/Store/authSlice.js:13 | a record with a top-level role "branch" and no nested user leaves the state unchanged |
| Auth.SetUserFixed | src/Store/authSlice.js:12-16 | the corrected reducer takes a payload iff its own role is "branch" |
| Auth.SetUserFixedAcceptsBranchRecord | src/Store/authSlice.js:12-16 | the corrected reducer takes the branch record, is idempotent and still refuses every other role |
| Auth.Logout | src/Store/authSlice.js:17-21 | the user becomes null and exactly the "branch" and "token" entries leave storage |
| Auth.LogoutThenReload | src/Store/authSlice.js:4-21 | after a logout a reload starts signed out, and a second logout changes nothing |
| LoginBranch.Required | src/Pages/Autherzation/LoginBranch.jsx:56 | a field's error is its message iff the input is empty |
| LoginBranch.HandleLogin | src/Pages/Autherzation/LoginBranch.jsx:55-63 | an empty email or password stops with an error on each empty field; otherwise the request carries both inputs once |
| LoginBranch.Target | src/Pages/Autherzation/LoginBranch.jsx:90-91 | the page moves to the redirect parameter when it is non-empty, else to "/" |
| LoginBranch.OnSuccess | src/Pages/Autherzation/LoginBranch.jsx:68-97 | another role sets the role error and writes nothing; a branch with a token is dispatched, stored under "branch" and "token", and navigates; a branch without a token sets the token error and writes nothing |
| LoginBranch.OnError | src/Pages/Autherzation/LoginBranch.jsx:98-103 | a failure shows the error's message or the fixed fallback, and changes nothing else |
| LoginBranch.Restore | src/Pages/Autherzation/LoginBranch.jsx:31-48 | a stored session is restored iff it parses with role "branch" and the stored token; with both entries present otherwise, storage is cleared; with one missing nothing happens |
| LoginBranch.LoginThenRestore | src/Pages/Autherzation/LoginBranch.jsx:31-91 | a sign-in that stored a session is restored, with the same record, when the page opens again |
| LoginBranch.LoginDispatchIgnored | src/Pages/Autherzation/LoginBranch.jsx:86 | as written, the dispatched branch record leaves the signed-in state unchanged while storage already holds it |
| LoginBranch.LoginDispatchFixed | src/Pages/Autherzation/LoginBranch.jsx:82-91 | with the corrected reducer, the state after sign-in is the state a reload reads from storage |

## Left out

- Rendering, styling, dialogs, toasts beyond their text, and router navigation are left out. The model records only the route a page moves to.
- Network and cache hooks are left out. Each request's success is an input flag, and the success callbacks of the add/edit pages (navigation, cache refresh) are not modelled.
- Loading the option lists (stores, branches, categories) is left out. So are the loading screens shown while an edit has no row.
- Strings are sequences of characters, not UTF-16 code units. `toLowerCase` and `toUpperCase` are ASCII-only (`Js.Lower`, and `Js.Capitalize` for the filter titles); `trim` removes the ECMAScript white space and line terminators (`Js.Trim`).
- Numbers are integers. Floating point and the number parse of `z.coerce.number` are a parameter (`toNumber`) over reals.
- Zod's e-mail check is a parameter (`isEmail`). Zod's error messages are replaced by a placeholder per key.
- Formik's touched and blur handling is left out; only its "submit only when valid" rule is modelled.
- FormData is an ordered list of (key, value) entries. The browser's conversion of non-string values to text is not modelled; for example, appending a null logo sends the text "null".
- `JSON.parse` and `JSON.stringify` are parameters, and local storage is a string map.
- Object identity (`===` on objects) is modelled as structural equality of values. Two distinct objects with the same fields therefore count as equal in the model.
- Table rows hold each cell's text, as `?.toString()` and `?.trim()` read it; a null or undefined cell is an absent key.
- Table.FilterOptions: the order of the offered values (first appearance in the data) is not stated; only which values are offered, once each.
- An undefined filter selection in the table matches exactly the rows that lack the key (`undefined === undefined`). The table never produces such a selection itself.
- The table's export button, the filter dropdowns' open state and the cell renderers are presentation only.
- The sign-in page for admins and the branch list pages are left out, except the one-line row projections the edit pages are opened with (`StockCategory.ParentRow`, `StockCategory.SubRow`, `StockProduct.ProductRow`, `StockList.ListRow`).
- AdminStockMan.Init: edit mode is a parameter. As routed, the page never gets it, because the edit route supplies `stockManId` and the page reads `stockId` (see "## Findings"). The edit-mode contracts describe the page once it reads the supplied parameter (`AdminStockMan.RoutedEditFixed`).
- Table.DispatchKeepsPageInRange: covers only the table's own events. A new `data` prop keeps the page index as written and can leave it past the last page (`Table.ShrinkStrandsPage`); the corrected transition is `Table.DataChangeFixed`.
- Cashier.StoredName: a truthy stored name that is not text is kept by `?.name || ''` but reads as "" here, because the form holds names as text. A `cashier_names` that is neither missing nor a list, or a null entry before the match, makes `find` throw; here it reads as "" or is skipped.
- The debug `console.log` calls (AddFieldSection.jsx:14 and 46, AddStockProduct.jsx:49) are left out, because they only write to the browser console.
- StockProduct.Init: only the error case is modelled where `toString` is called on a missing id. The other throwing reads in the pages (`trim` on a non-string, `.role` on a null record) are modelled as the value the page falls back to, or as the error outcome.

## Findings

| source | as written | input that shows it | evidently intended | confidence | as-written member | corrected member |
|---|---|---|---|---|---|---|
| src/Pages/Branch/Stocks/StockCategory/AddStockCategory.jsx:59-61 | the type is "sub" whenever `parent_category !== '—'`, on opening and again on reset (lines 181-183) | a main-category row from StockCategory.jsx:42-48 has no `parent_category`, so undefined is compared | a row without a parent opens and resets as a main category, as the title's test at line 21 says | not executed | StockCategory.MainRowEditBlocked | StockCategory.MainRowEditFixed |
| src/Pages/Branch/Stocks/StockList/AddStockList.jsx:114 | reset reads `itemData.status` | an inactive store: its row's `status` is the text "Inactive", which is truthy | reset reads `rawStatus`, as opening does at line 52 | not executed | StockList.ResetAsWrittenAlwaysActive | StockList.ResetRestoresStoredStatus |
| src/components/AddFieldSection.jsx:149-155 | the switch is on only for true or 1, and always writes a boolean, ignoring `returnType: 'string'` | a new store keeper: "Active" shows as off; turning it on writes true, which is sent as status 0 | a string switch shows and writes "Active"/"Inactive" | not executed | BranchStockMan.StatusSwitchAsWritten | Fields.FixedSwitchRoundTrip |
| src/Store/authSlice.js:13 | `setUser` tests `payload.user.role` | the branch record dispatched at LoginBranch.jsx:86 has `role` at top level and no `user` | accept a payload whose own role is "branch" | not executed | Auth.SetUserIgnoresBranchRecord | LoginBranch.LoginDispatchFixed |
| src/components/ui/table.jsx:34 | `currentPage` is set only by the table's own controls, never when the `data` prop changes | 16 rows on two pages, page 2 shown, then a delete leaves 15: page 2 is empty, the "no data" row needs 0 rows and the pager needs more than 15 | keep the page while it exists, otherwise move to the last page | not executed | Table.ShrinkStrandsPage | Table.DataChangeFixed |
| src/Pages/Admin/StockMan/AddStockMan.jsx:11 | edit mode is `!!stockId` | the only edit route, `stock_man/edit/:stockManId` at router.jsx:55, supplies `stockManId`, so "Edit" on a listed store opens the add form | read `stockManId`, the parameter the route supplies | not executed | AdminStockMan.RoutedEditOpensAddForm | AdminStockMan.RoutedEditFixed |
| src/components/Sidebar/AdminSidebar.jsx:90-91 | an entry is active when the path starts with its link, character by character | the path "/stock_man" highlights both "Stock" and "Stock Man" | match whole path segments | not executed | Sidebar.StockHighlightedOnStockMan | Sidebar.FixedHighlightsOneEntry |
