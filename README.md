# Business back-office front end: a Dafny model of its logic

This project models the parts of the business back-office web client that
hold logic of their own, and proves properties about them. The client is a
React application over a REST API. The modelled parts are:

- **Pagination bar** (`pagination.dfy`): the strip of page buttons, with
  ellipses once there are more than seven pages. It also covers the
  "showing X to Y of Z" range and when the previous and next buttons are
  disabled. `getPageNumbers` is a method with the source's loops, proved
  equal to a declarative strip.
- **Brazilian identifier formatters** (`formatters.dfy`):
  phone, CNPJ, CPF and CEP formatting, the API sanitisers, and the CEP
  check. Each one strips non-digits and lays out one recognised digit count
  in a fixed mask. CNPJ and CPF check digits are not validated, because the
  source does not validate them.
- **Column labels** (`column_translations.dfy`): the fixed translation
  table, the three-pass key humaniser, and the precedence chain
  "translation, else backend label, else humanised key".
- **Data table** (`data_table.dfy`): the drag-and-drop column reorder,
  modelled as a class holding the drag source. It also covers the sortable
  and draggable header flags and the text of a plain cell.
- **Column order merge** (`column_order.dfy`): how a saved key order is
  laid over the live columns. Stored keys come first, in stored order;
  live columns that were not named are appended; stale keys are dropped.
  The merge is a method with the source's two passes, proved equal to a
  specification function. That function is shown to be a permutation, to be
  idempotent, and to apply any permutation of the live keys exactly.
- **Business list page** (`businesses_page.dfy`): column normalisation
  from the three shapes a response may use, and the first-row fallback. It
  also covers the query of each request, sorting, persisted preferences,
  the displayed column list (actions last), the notes preview, and a
  `BusinessList` class whose handlers update the page state.
- **Business wizard** (`business_wizard.dfy`): the payload of each step;
  the per-step baseline of the last saved payload, which lets an unchanged
  step skip its write; the choice of write request; record and address
  edits; and step navigation. The wizard is a `Wizard` class.

`JSON.stringify` of a payload is modelled by the payload value itself. The
payload field order is fixed, so two payloads serialise alike exactly when
they are equal. HTTP requests are modelled by their outcome, passed in as a
parameter: a record or a failure for a load, and accepted or rejected for a
write. Local storage is a field of the page state.

## Model

| member | source | states |
|---|---|---|
| Pagination.GetPageNumbers | src/components/ui/Pagination.tsx:16-49 | the pushed list equals the declarative strip: every page when there are at most seven, else the first five, the last five or the current page's neighbourhood, with 1, the last page and ellipses |
| Pagination.SmallStripListsEveryPage | src/components/ui/Pagination.tsx:18-24 | at most seven pages: exactly pages 1..totalPages with no ellipsis, empty when totalPages <= 0 |
| Pagination.LargeStripWellFormed | src/components/ui/Pagination.tsx:25-45 | more than seven pages: seven slots, 1 first, totalPages last, numbers strictly increasing within range, each ellipsis between numbers more than one apart |
| Pagination.CurrentPageVisible | src/components/ui/Pagination.tsx:16-49 | for 1 <= currentPage <= totalPages the current page is on the strip |
| Pagination.ShownRangeIsThePage | src/components/ui/Pagination.tsx:51-52 | on a page holding items, 1 <= start <= end <= totalItems and the range holds as many items as that page does |
| Pagination.EmptyResultShowsInvertedRange | src/components/ui/Pagination.tsx:51-52 | with no items the range as written is "1 to 0" |
| Pagination.StartItemCorrected | src/components/ui/Pagination.tsx:51 | the corrected start is 0 when there are no items |
| Pagination.CorrectedRangeNeverInverted | src/components/ui/Pagination.tsx:51-52 | with the corrected start the range is never inverted, an empty result included |
| Pagination.ButtonsEnabledIffTargetExists | src/components/ui/Pagination.tsx:62-94 | within 1..totalPages, previous is enabled iff page-1 exists and next is enabled iff page+1 exists |
| Formatters.Digits | src/utils/formatters.ts:12 | what stripping non-digits leaves: only digits, never longer, the identity on a digit string |
| Formatters.DigitsAppend | src/utils/formatters.ts:12 | stripping distributes over concatenation |
| Formatters.MaskDetermines | src/utils/formatters.ts:14-21 | two strings that fit the same mask with the same digits are equal |
| Formatters.FormatPhone | src/utils/formatters.ts:10-22 | "" gives ""; 11 digits give "(DD) DDDDD-DDDD" and 10 give "(DD) DDDD-DDDD", with the digits kept; any other count returns the input |
| Formatters.FormatPhoneIdempotent | src/utils/formatters.ts:10-22 | formatting keeps the digits and formatting twice equals formatting once |
| Formatters.FormatCNPJ | src/utils/formatters.ts:29-41 | "" gives ""; 14 digits give "DD.DDD.DDD/DDDD-DD" with the digits kept; otherwise the input is returned |
| Formatters.FormatCNPJIdempotent | src/utils/formatters.ts:29-41 | formatting keeps the digits and is idempotent |
| Formatters.FormatCPF | src/utils/formatters.ts:48-57 | "" gives ""; 11 digits give "DDD.DDD.DDD-DD" with the digits kept; otherwise the input is returned |
| Formatters.FormatCPFIdempotent | src/utils/formatters.ts:48-57 | formatting keeps the digits and is idempotent |
| Formatters.FormatCEP | src/utils/formatters.ts:64-73 | "" gives ""; 8 digits give "DDDDD-DDD" with the digits kept; otherwise the input is returned |
| Formatters.FormatCEPIdempotent | src/utils/formatters.ts:64-73 | formatting keeps the digits and is idempotent |
| Formatters.NonDigitsIgnored | src/utils/formatters.ts:10-73 | two non-empty inputs with the same digits format identically, e.g. a punctuated and a bare CNPJ |
| Formatters.SanitizePhoneForAPI | src/utils/formatters.ts:117-120 | the empty-input guard changes nothing: the result is exactly the ASCII digits of the input, in order |
| Formatters.SanitizeCNPJForAPI | src/utils/formatters.ts:127-130 | the empty-input guard changes nothing: the result is exactly the ASCII digits of the input, in order |
| Formatters.SanitizeCPFForAPI | src/utils/formatters.ts:137-140 | the empty-input guard changes nothing: the result is exactly the ASCII digits of the input, in order |
| Formatters.SanitizeCEPForAPI | src/utils/formatters.ts:147-150 | the empty-input guard changes nothing: the result is exactly the ASCII digits of the input, in order |
| Formatters.SanitizeAfterFormat | src/utils/formatters.ts:117-150 | each sanitiser is idempotent, and sanitising a formatted value equals sanitising the raw one |
| Formatters.FormatSanitizeRoundTrip | src/utils/formatters.ts:29-41 | a bare digit string of a recognised length (CNPJ, CPF, phone, CEP) comes back unchanged from format-then-sanitise |
| Formatters.SanitizeThenFormat | src/utils/formatters.ts:117-150 | any value whose digit count a formatter recognises formats the same before and after sanitising, punctuation and all |
| Formatters.IsValidCEP | src/utils/formatters.ts:157-161 | true iff the input holds exactly eight digits; false for "" |
| Formatters.ValidCEPIffFormatted | src/utils/formatters.ts:157-161 | a CEP is valid iff formatCEP lays it out in the CEP mask; an invalid one is returned unchanged |
| ColumnTranslations.GetColumnTranslation | src/config/columnTranslations.ts:3-17 | a label for exactly the six table keys, never an empty one |
| ColumnTranslations.ReplaceUnderscores | src/config/columnTranslations.ts:24 | same length; every underscore becomes a space and every other character stays |
| ColumnTranslations.SplitCamelCaseInsertsOneSpacePerBoundary | src/config/columnTranslations.ts:25 | the left-to-right regex pass equals putting one space at each lower-then-upper boundary, and adds exactly one character per boundary |
| ColumnTranslations.HumanizeKey | src/config/columnTranslations.ts:22-27 | length is the input's plus its boundaries, never shorter, "" iff the key is "", and no underscore is left |
| ColumnTranslations.HumanizeKeyCapitalizesFirstOnly | src/config/columnTranslations.ts:26 | the third pass changes only the first character: it is upper-cased unless it is a line terminator |
| ColumnTranslations.HumanizeKeyExample | src/config/columnTranslations.ts:22-27 | "userId" becomes "User Id" |
| ColumnTranslations.ResolveColumnLabel | src/config/columnTranslations.ts:32-34 | the translation for a table key; else a non-empty backend label; else the humanised key; never empty for a non-empty key |
| ColumnTranslations.TranslatedKeyIgnoresBackend | src/config/columnTranslations.ts:3-33 | "code" resolves to "Código" and "name" to "Nome", whatever the backend label |
| ColumnTranslations.TranslationReadAsWritten | src/config/columnTranslations.ts:16 | the property read finds nothing iff the key is neither a table key nor an inherited member |
| ColumnTranslations.ResolveColumnLabelAsWritten | src/config/columnTranslations.ts:32-34 | as written, the label is a non-string exactly for inherited member names |
| ColumnTranslations.InheritedKeyGivesNonTextLabel | src/config/columnTranslations.ts:15-33 | the key "constructor" gets a function for a label even when the backend sends one; the corrected lookup gives the backend's label |
| ColumnTranslations.AsWrittenAgreesOffPrototype | src/config/columnTranslations.ts:15-34 | away from inherited member names, the as-written read and the own-key lookup give the same label |
| DataTable.ReorderableColumns | src/components/dashboard/DataTable.tsx:94 | keeps exactly the columns whose key is not "actions", and all of them when none is |
| DataTable.ReorderableDropsTrailingActions | src/components/dashboard/DataTable.tsx:94 | a trailing actions column does not change the reorderable list |
| DataTable.MoveToAt | src/components/dashboard/DataTable.tsx:97-99 | after the two splices the moved element is at its landing slot and the ones it passed shift by one |
| DataTable.MoveToPermutes | src/components/dashboard/DataTable.tsx:97-99 | the two splices form a permutation |
| DataTable.MoveToUndo | src/components/dashboard/DataTable.tsx:97-99 | moving back from the landing slot restores the original order |
| DataTable.MoveToExample | src/components/dashboard/DataTable.tsx:97-99 | [A,B,C,D] with source 2 and drop 0 gives [C,A,B,D] |
| DataTable.DragController.constructor | src/components/dashboard/DataTable.tsx:74 | no drag source at first |
| DataTable.DragController.HandleDragStart | src/components/dashboard/DataTable.tsx:75-81 | records the index the drag started on |
| DataTable.DragController.HandleDrop | src/components/dashboard/DataTable.tsx:86-102 | reordering off, no drag, a drop on the source, or a source naming no reorderable column: nothing emitted and the source is kept; otherwise the moved key order is emitted (with a callback) and the source is cleared |
| DataTable.EmittedOrderPermutesKeys | src/components/dashboard/DataTable.tsx:94-100 | the emitted keys are a permutation of the reorderable keys and never include "actions" |
| DataTable.MoveToCommutesWithMap | src/components/dashboard/DataTable.tsx:97-100 | moving commutes with any element-wise map, so moving columns and then taking keys equals moving the keys |
| DataTable.KeysOfMoveTo | src/components/dashboard/DataTable.tsx:100 | taking keys commutes with the move |
| DataTable.DraggableIffReorderable | src/components/dashboard/DataTable.tsx:147 | with reordering on, a header is draggable iff its column is in the reorderable list; with it off, none is |
| DataTable.NatString | src/components/dashboard/DataTable.tsx:204 | the decimal text of a natural number is non-empty, all digits, without a leading zero, and "0" exactly for 0 |
| DataTable.NatStringCanonical | src/components/dashboard/DataTable.tsx:204 | every non-empty digit string without a leading zero is the decimal text of its value, so the text of a number is unique |
| DataTable.NatStringRoundTrip | src/components/dashboard/DataTable.tsx:204 | the decimal text reads back as the number |
| DataTable.CellDisplay | src/components/dashboard/DataTable.tsx:203-204 | "" for null and undefined; a string is shown as is; a boolean as "true" or "false"; an integer as digits without a leading zero that read back as its value, with a leading "-" when negative |
| DataTable.CellTitle | src/components/dashboard/DataTable.tsx:205-214 | a tooltip, holding the full text, exactly when the text is longer than 60 characters |
| ColumnOrder.LookupLast | src/app/dashboard/businesses/page.tsx:193-196 | the found column is live and carries the key; nothing is found iff no live column has the key |
| ColumnOrder.KeyIndex | src/app/dashboard/businesses/page.tsx:217 | the map built entry by entry answers every key as the last live column with that key |
| ColumnOrder.PlaceStored | src/app/dashboard/businesses/page.tsx:219-222 | the first pass yields the column each stored key names, in stored order |
| ColumnOrder.PlaceMissing | src/app/dashboard/businesses/page.tsx:223-225 | the second pass appends each live column whose key is not yet placed |
| ColumnOrder.MergeStoredOrder | src/app/dashboard/businesses/page.tsx:217-225 | the two passes compute the merge specification |
| ColumnOrder.MergeOrder | src/app/dashboard/businesses/page.tsx:217-225 | every merged column is live, and every live column's key is in the result |
| ColumnOrder.MergeSplits | src/app/dashboard/businesses/page.tsx:217-225 | with distinct live keys, the merge is the stored keys' columns in stored order followed by the unnamed live columns in live order; stale stored keys drop out |
| ColumnOrder.MergeKeepsLive | src/app/dashboard/businesses/page.tsx:217-225 | with distinct live keys, a column is in the merge iff it is live |
| ColumnOrder.MergePermutes | src/app/dashboard/businesses/page.tsx:217-225 | with distinct stored and live keys, the merge is a permutation of the live columns with distinct keys |
| ColumnOrder.MergeIdempotent | src/app/dashboard/businesses/page.tsx:210-229 | merging the same stored order twice equals merging once |
| ColumnOrder.MergeAppliesPermutation | src/app/dashboard/businesses/page.tsx:468-479 | a stored order that is a permutation of the live keys reorders the live columns exactly into it |
| ColumnOrder.MergeExample | src/app/dashboard/businesses/page.tsx:217-225 | stored [code, name] over live [name, code, created_at] gives [code, name, created_at] |
| BusinessesPage.Normalize | src/app/dashboard/businesses/page.tsx:128-148 | every key of a key list, descriptor list or key map, in order, each captioned resolveColumnLabel(key, label) with the label sent beside it (none for a bare key); table keys get their fixed caption and non-empty keys a non-empty one |
| BusinessesPage.RowKeyColumns | src/app/dashboard/businesses/page.tsx:155-160 | exactly the first row's keys other than id and deleted_at; each caption is the label resolved for its key without a backend label, non-empty for a non-empty key |
| BusinessesPage.RowKeyColumnsFiltersKeyList | src/app/dashboard/businesses/page.tsx:155-160 | the fallback equals the bare-key normalisation of the row's keys with id and deleted_at filtered out, so the keys keep their order |
| BusinessesPage.ServerColumnsApplied | src/app/dashboard/businesses/page.tsx:128-152 | server columns replace the live ones only when they name at least one key |
| BusinessesPage.FirstResponseDiscardsServerColumns | src/app/dashboard/businesses/page.tsx:154-168 | as written, the first response's server columns [name] are replaced by the row key [code]; the corrected reading keeps [name] |
| BusinessesPage.ColumnsAfterResponseAsWritten | src/app/dashboard/businesses/page.tsx:128-161 | as written: with rows, the row keys replace the columns whenever the response has no columns field or no columns were set when the request was issued; the server's columns survive only when some were set then, or the page is empty |
| BusinessesPage.ColumnsAfterResponse | src/app/dashboard/businesses/page.tsx:128-161 | corrected (see Findings): server columns win; no columns field, or none set yet, falls back to the first row; an empty page keeps the applied columns |
| BusinessesPage.CorrectionReadsFreshColumns | src/app/dashboard/businesses/page.tsx:154 | the correction is the code as written with its emptiness test made on the freshly applied columns |
| BusinessesPage.AsWrittenAgreesOnceColumnsExist | src/app/dashboard/businesses/page.tsx:128-161 | once columns exist and the response names some, the as-written and corrected readings agree |
| BusinessesPage.TrimStart | src/app/dashboard/businesses/page.tsx:87 | what is cut off is whitespace, and what is left does not start with whitespace |
| BusinessesPage.TrimEnd | src/app/dashboard/businesses/page.tsx:87 | what is cut off is whitespace, and what is left does not end with whitespace |
| BusinessesPage.TrimEmptyIffBlank | src/app/dashboard/businesses/page.tsx:87 | trimming leaves nothing iff the text is all whitespace |
| BusinessesPage.SearchParam | src/app/dashboard/businesses/page.tsx:87-89 | a search parameter holding the text as typed, present iff the text is not all whitespace |
| BusinessesPage.StatusParam | src/app/dashboard/businesses/page.tsx:92-95 | a disabled parameter iff the filter is not "all": "true" for "inactive", else "false" |
| BusinessesPage.SortParams | src/app/dashboard/businesses/page.tsx:97-100 | sort_by and order, holding the key and its direction, iff a non-empty sort key is set |
| BusinessesPage.QueryParams | src/app/dashboard/businesses/page.tsx:82-100 | page and size first; search iff not blank; disabled absent for "all", "true" for "inactive", "false" otherwise; sort_by and order iff a non-empty sort key is set |
| BusinessesPage.QueryParamsNamesOnlyKnown | src/app/dashboard/businesses/page.tsx:82-100 | a request carries at most six parameters, each named page, size, search, disabled, sort_by or order, and no name twice |
| BusinessesPage.ParamValueAppend | src/app/dashboard/businesses/page.tsx:82-100 | a lookup in joined parameter lists finds the first list's value when it has one |
| BusinessesPage.TwoClicksOnAKey | src/app/dashboard/businesses/page.tsx:451-466 | two clicks on the sort key restore the direction; two on a new key leave it descending |
| BusinessesPage.StoredOrderApplied | src/app/dashboard/businesses/page.tsx:210-229 | applying a saved order only ever yields live columns |
| BusinessesPage.StoredOrderAppliedStable | src/app/dashboard/businesses/page.tsx:210-229 | the merge is value-stable: applying the saved order to its own output yields the same columns (the effect still re-runs, since each run passes a new list) |
| BusinessesPage.AsTableColumns | src/app/dashboard/businesses/page.tsx:302-418 | the table columns carry the dynamic keys in order |
| BusinessesPage.DisplayedHeaderFlags | src/app/dashboard/businesses/page.tsx:301-449 | one table column per dynamic column, in order, headed by its caption and sortable and draggable unless its key is "actions"; then the actions column, which is neither |
| BusinessesPage.ColumnKeysOfMoveTo | src/components/dashboard/DataTable.tsx:97-100 | taking keys commutes with moving a column |
| BusinessesPage.DropMovesDynamicColumn | src/app/dashboard/businesses/page.tsx:468-481 | a drag in the table followed by the order handler moves exactly the dragged dynamic column |
| BusinessesPage.NotesPreview | src/app/dashboard/businesses/page.tsx:397-400 | the trimmed notes unchanged when at most 60 characters; otherwise 61 characters, a 60-character prefix of the trimmed notes followed by an ellipsis |
| BusinessesPage.BusinessList.constructor | src/app/dashboard/businesses/page.tsx:61-75 | page 1, no search, status "all", 10 per page, no sort key, ascending, no columns or rows |
| BusinessesPage.BusinessList.PersistPrefs | src/app/dashboard/businesses/page.tsx:231-247 | stores the column keys, the sort key and the direction |
| BusinessesPage.BusinessList.HandlePageChange | src/app/dashboard/businesses/page.tsx:249-251 | sets the page |
| BusinessesPage.BusinessList.HandleSearchChange | src/app/dashboard/businesses/page.tsx:253-256 | sets the search and returns to page 1 |
| BusinessesPage.BusinessList.HandleStatusFilterChange | src/app/dashboard/businesses/page.tsx:258-261 | sets the filter and returns to page 1 |
| BusinessesPage.BusinessList.HandlePageSizeChange | src/app/dashboard/businesses/page.tsx:532-535 | sets the page size and returns to page 1 |
| BusinessesPage.BusinessList.HandleSortChange | src/app/dashboard/businesses/page.tsx:451-466 | the same key flips the direction and a new key sorts ascending; the prefs hold the columns with the new sort; back to page 1 |
| BusinessesPage.BusinessList.HandleColumnOrderChange | src/app/dashboard/businesses/page.tsx:468-481 | the live columns become the merge of the emitted order and are persisted with the current sort |
| BusinessesPage.BusinessList.RestorePrefsOnMount | src/app/dashboard/businesses/page.tsx:176-207 | a saved non-empty sort key and a saved direction are restored; a saved order is applied to columns already present |
| BusinessesPage.BusinessList.ApplyStoredOrder | src/app/dashboard/businesses/page.tsx:210-229 | once columns exist a saved non-empty order is merged into them |
| BusinessesPage.BusinessList.ApplyResponse | src/app/dashboard/businesses/page.tsx:114-161 | a failure, a 304 or a body without rows changes nothing; otherwise rows, totals and columns are replaced |
| BusinessWizard.EmptyBusiness | src/app/dashboard/businesses/_components/BusinessWizard.tsx:64-93 | a new record has empty id, code and name, both timestamps set to the clock, no deletion date, contact fields or notes, is enabled, and has one empty address |
| BusinessWizard.AddressPayloadOf | src/app/dashboard/businesses/_components/BusinessWizard.tsx:350-353 | an address's id is omitted from its payload iff it is empty |
| BusinessWizard.AddressPayloadRoundTrip | src/app/dashboard/businesses/_components/BusinessWizard.tsx:350-353 | omitting an empty id loses nothing: the address reads back from its payload |
| BusinessWizard.PayloadOf | src/app/dashboard/businesses/_components/BusinessWizard.tsx:327-354 | the basic payload's deleted flag is set iff deleted_at holds text; the addresses payload carries the business code and one item per address, each reading back as that address |
| BusinessWizard.BasicPayloadDeterminesRecord | src/app/dashboard/businesses/_components/BusinessWizard.tsx:327-341 | two records send the same basic payload iff they agree on every field but deleted_at and on whether it holds text, so changing one deletion date to another is never saved |
| BusinessWizard.AddressesPayloadDeterminesList | src/app/dashboard/businesses/_components/BusinessWizard.tsx:348-354 | two records send the same addresses payload iff they have the same code and addresses |
| BusinessWizard.NormalizeAddress | src/app/dashboard/businesses/_components/BusinessWizard.tsx:372-385 | each text field is the value sent, or "" when it is missing; the flag is set iff true was sent |
| BusinessWizard.NormalizeAddressKeepsComplete | src/app/dashboard/businesses/_components/BusinessWizard.tsx:372-385 | a complete address loads as itself; a fully missing one loads as the empty, enabled address |
| BusinessWizard.NormalizeLoaded | src/app/dashboard/businesses/_components/BusinessWizard.tsx:369-387 | the loaded fields are kept; the address list has one item per loaded address, each its NormalizeAddress, and is [] when the field is not a list |
| BusinessWizard.Baseline | src/app/dashboard/businesses/_components/BusinessWizard.tsx:390-396 | both steps are recorded, each with its payload of the record |
| BusinessWizard.PlanSave | src/app/dashboard/businesses/_components/BusinessWizard.tsx:463-483 | no plan without a record; whatever is sent is the step's payload and differs from its baseline; only the addresses step with a code PUTs addresses; the no-code skip happens only on the addresses step |
| BusinessWizard.SkipIffBaselineMatches | src/app/dashboard/businesses/_components/BusinessWizard.tsx:463-468 | a step is skipped as unchanged iff its payload equals its recorded baseline |
| BusinessWizard.WriteSelection | src/app/dashboard/businesses/_components/BusinessWizard.tsx:472-483 | a changed basic step POSTs iff the mode is create and the id is empty, and PUTs otherwise; the addresses step writes nothing while the code is empty; each request carries the step's payload |
| BusinessWizard.LoadedRecordIsClean | src/app/dashboard/businesses/_components/BusinessWizard.tsx:389-396 | right after a load, saving any step of the unedited record writes nothing |
| BusinessWizard.RecordedStepIsClean | src/app/dashboard/businesses/_components/BusinessWizard.tsx:485 | once a step's payload is recorded, saving it again writes nothing, and the other step's decision is unchanged |
| BusinessWizard.ApplyFieldEdit | src/app/dashboard/businesses/_components/BusinessWizard.tsx:403-409 | only the named field changes, to the value given; the other fields and the addresses stay |
| BusinessWizard.EditAddress | src/app/dashboard/businesses/_components/BusinessWizard.tsx:420 | only the named address field changes |
| BusinessWizard.ApplyAddressEdit | src/app/dashboard/businesses/_components/BusinessWizard.tsx:411-424 | the address at idx is edited; the length and the other addresses stay |
| BusinessWizard.AddAddress | src/app/dashboard/businesses/_components/BusinessWizard.tsx:426-452 | one empty, enabled address is appended and the others stay |
| BusinessWizard.RemoveAddress | src/app/dashboard/businesses/_components/BusinessWizard.tsx:454-461 | exactly the address at idx is dropped, the rest kept in order; nothing changes for an index out of range |
| BusinessWizard.RemoveAddressProperties | src/app/dashboard/businesses/_components/BusinessWizard.tsx:454-461 | a removal the page offers leaves at least one address, and removing a just-added address restores the list |
| BusinessWizard.Wizard.constructor | src/app/dashboard/businesses/_components/BusinessWizard.tsx:101-112 | step 0, no baseline; a blank record in create mode, none while loading in edit mode |
| BusinessWizard.Wizard.Load | src/app/dashboard/businesses/_components/BusinessWizard.tsx:361-401 | in edit mode with an id, a success holds the normalised record and its baseline, and a failure sets the load error; otherwise nothing changes |
| BusinessWizard.Wizard.EditField | src/app/dashboard/businesses/_components/BusinessWizard.tsx:403-409 | edits the held record, if any |
| BusinessWizard.Wizard.EditAddressAt | src/app/dashboard/businesses/_components/BusinessWizard.tsx:411-424 | edits one address of the held record, if any |
| BusinessWizard.Wizard.AppendAddress | src/app/dashboard/businesses/_components/BusinessWizard.tsx:426-452 | appends an empty address to the held record, if any |
| BusinessWizard.Wizard.DropAddress | src/app/dashboard/businesses/_components/BusinessWizard.tsx:454-461 | removes one address from the held record, if any |
| BusinessWizard.Wizard.SaveCurrentStep | src/app/dashboard/businesses/_components/BusinessWizard.tsx:463-493 | a request is sent iff the plan says so. No record: failure. Unchanged or no code yet: success without a write. An accepted write records the step's payload, and a rejected one sets the step error and fails. Other baselines never change. |
| BusinessWizard.Wizard.NextStep | src/app/dashboard/businesses/_components/BusinessWizard.tsx:495-499 | the save's outcome is the plan's (failure without a record, success when unchanged or without a code, otherwise the server's answer), with the save's record, error, baselines and saving flag; advances one step iff that save succeeded below the last step |
| BusinessWizard.Wizard.PrevStep | src/app/dashboard/businesses/_components/BusinessWizard.tsx:500 | goes back one step only above step 0 and never saves |
| BusinessWizard.Wizard.JumpTo | src/app/dashboard/businesses/_components/BusinessWizard.tsx:529 | the stepper moves only to an earlier step |
| BusinessWizard.Wizard.Finalize | src/app/dashboard/businesses/_components/BusinessWizard.tsx:502-505 | the save's outcome, record, error, baselines and saving flag as for a save of the current step; success is shown iff it was already shown or that save succeeded; the step stays |

## Left out

- Network requests, the REST client and its interceptors are not modelled. The outcome of a request is a parameter.
- Authentication, middleware and router navigation are not modelled.
- Timers are not modelled: the 1000 ms search debounce, the success auto-dismiss and the clipboard "copied" timeout.
- React's effect and render scheduling is not modelled. Each effect and handler is one operation on the state, taken in the order given. The one place where a stale value changes the outcome is listed under Findings.
- Local storage is modelled as a field. JSON that does not parse is ignored, as the source does. Well-formed JSON with ill-typed fields (a direction other than "asc"/"desc", say) is not modelled.
- The cache-busting `_` and `force` query parameters hold wall-clock values and are left out of the query.
- Date, currency and number formatting delegate to the platform's locale formatting. So does the date and currency rendering of cells, and it is left out.
- The ViaCEP address lookup calls an external service and is left out.
- Cell markup other than the notes preview and the plain cell text is left out (badges, icons, class names).
- A plain cell may hold a number. Only integers are modelled; floating-point numbers and their text are left out.
- DataTable.CellDisplay, DataTable.CellTitle: a row value may be anything (rows are `Record<string, unknown>`). Only null, undefined, strings, booleans and integers are modelled. An object cell shows "[object Object]" and an array cell its elements joined by commas, in the cell and in every cell's title; those values and their text are left out.
- Lengths are counted in characters, not UTF-16 code units. This affects the 60-character limit for characters outside the Basic Multilingual Plane.
- Only ASCII letters are upper-cased by the key humaniser. JavaScript upper-cases any letter.
- BusinessesPage.Normalize: a key map gives its entries in the order passed in. JavaScript lists integer-like keys first, and that ordering is not modelled.
- BusinessesPage.Normalize: a descriptor list is treated as all strings or all descriptors. The source decides from the first element, and mixed lists are not modelled.
- A response row is modelled by its list of own keys, which is all the fallback reads.
- BusinessesPage.BusinessList.ApplyResponse: a missing `total` or `last_page` is not modelled.
- BusinessesPage.BusinessList.ApplyResponse: it uses the corrected column fallback, not the as-written one (see Findings).
- ColumnTranslations.ResolveColumnLabel, BusinessesPage.Normalize, BusinessesPage.RowKeyColumns: these use the own-key lookup of the translation table. The source reads the table as a plain property, which also finds inherited members; that reading is ResolveColumnLabelAsWritten (see Findings).
- BusinessWizard.Wizard.SaveCurrentStep: a POST reply is taken to be a full record, as the source's comment assumes. The source spreads the reply over the held record; a partial reply is not modelled.
- Pagination.ButtonsEnabledIffTargetExists: stated only for 1 <= currentPage <= totalPages. With no results (totalPages = 0) the next button stays enabled. The model reproduces this, since NextDisabled(1, 0) is false.
- The page-strip buttons' click handlers only call back with a page number, and are not modelled beyond the strip itself.

## Findings

| source | as written | input that shows it | evidently intended | confidence | as-written member | corrected member |
|---|---|---|---|---|---|---|
| src/components/ui/Pagination.tsx:51-52 | the start of the range is (page - 1) * size + 1 even when there are no items | totalItems = 0 on page 1 shows "Mostrando 1 a 0 de 0 resultados" | an empty result shows a start of 0, so the range is never inverted | not executed | Pagination.EmptyResultShowsInvertedRange | Pagination.CorrectedRangeNeverInverted |
| src/config/columnTranslations.ts:15-33 | the table lookup is a plain property read, so it also finds members every object inherits | the column key "constructor" gets Object's constructor function as its label, even when the backend sends one | only the table's own six keys are translated; other keys fall through to the backend label or the humanised key | not executed | ColumnTranslations.InheritedKeyGivesNonTextLabel | ColumnTranslations.AsWrittenAgreesOffPrototype |
| src/app/dashboard/businesses/page.tsx:154-168 | the fallback tests the column count captured when the request was issued. That count is 0 on the first request, so the fallback fires even after the server's columns were applied. | first response with columns ["name"] and a first row with keys id and code: the live columns become [code]. Only the request triggered by the length change then installs [name]. | the first row's keys are used only when no usable columns are set | not executed | BusinessesPage.FirstResponseDiscardsServerColumns | BusinessesPage.CorrectionReadsFreshColumns |
