# Policy data-entry portal: a verified model

This project models the core of a browser portal for insurance-policy records. The portal keeps a list of policy records and shows them in a searchable, sortable and paged table. Records are entered in a form whose partner, product and premium selects cascade from a fixed lookup table. The list can be exported as CSV.

The Dafny modules follow the program's files:

- `Policy` (`policy.dfy`) holds the record shape of `types.ts`: the 24 fields, their value kinds, field access and update, and `String(value)`.
- `Partners` (`partners.dfy`) holds the `partnerData` lookup table and `nomineeRelationships` of `constants.ts`, the lookups the form makes in them, and the facts the form relies on.
- `Sorting` (`sorting.dfy`) and `RecordTable` (`table.dfy`) hold the list view of `src/components/DataTable.tsx`. This covers the filter, the stable single-key sort, the pagination, the sort toggle, the page buttons, and the `TableView` class for the view state.
- `EntryForm` (`form.dfy`) holds `components/DataEntryForm.tsx`. It has the three effects of the cascade, modelled render by render until nothing fires, the mount, the edits, the speech input, the autofill merge, and the `Form` class for the form state.
- `Portal` (`portal.dfy`) holds the controller of `App.tsx`. It has the list updaters, the toast-expiry rule, and the `App` class with its handlers.
- `Export` (`export.dfy`) holds the CSV text of `src/services/exportService.ts` and its round trip.
- `Strings`, `Seqs` and `Wrappers` hold the JavaScript built-ins the model needs. These are `toLowerCase`, `includes`, `join`, `slice`, `filter`, `Number` and `toString`, plus `Option` and `Result`.

The form's effects are modelled as the renders they cause. After each render, the effects whose dependency values changed since the previous render run. They read that render's state, and their updates are applied in declaration order. This repeats until a render changes none of the dependencies. `EntryForm.RerenderSettles` proves that three renders always suffice.

The premium and tenure fields are declared `number | ''`. An input event, however, stores the input's string. So an `Amount` is unset, a number, or entered text, and `Number()` on entered text is modelled as decimal parsing of plain digits.

The autofill merge changes `formData.partnerName` and `formData.productDetails`, which the effects depend on, so it also runs the cascade resets. A merge that changes the partner keeps that partner but clears the extracted product and premium (`EntryForm.AutofillOfPartner`). A merge that changes only the product clears the premium. The tenure and the CSE name are not always cleared, though. When the merge also sets a premium listed under the previous product, the premium effect fires in the same render as the resets. It still reads the previous product's options, and its update applies after the resets, so it puts that row's tenure and CSE name back (`EntryForm.ProductChangeRefills`). The same happens when the merge changes the partner and empties the product.

The classes `RecordTable.TableView` and `EntryForm.Form` follow the code as written, including the three defects listed under "## Findings". The corrected behaviour of each is a separate function with its intended property proved.

## Model

| member | source | states |
|---|---|---|
| Policy.Get | types.ts:1-26 | reading any field of a record gives a value of that field's declared kind |
| Policy.Set | components/DataEntryForm.tsx:85 | `{ ...prev, [name]: value }` gives the named field the value and leaves every other field as it was |
| Policy.InputValue | components/DataEntryForm.tsx:84-85 | an input stores its string verbatim; in premium or tenure the empty string is the unset value |
| Policy.Show | src/services/exportService.ts:13 | `String(value)`: text as it is, a number in decimal, the unset value and no gender as the empty text |
| Policy.EmptyFormIsBlank | components/DataEntryForm.tsx:15-21 | every field of `emptyForm` is unset and prints as the empty string |
| Policy.FieldsDistinct | types.ts:1-26 | the field list has no field twice |
| Partners.LookupPartner | components/DataEntryForm.tsx:53 | `partnerData[partner]` is missing exactly when the partner is not an own key of the table; otherwise it is that key's products |
| Partners.LookupProduct | components/DataEntryForm.tsx:62 | `partnerData[partner][product]` is missing exactly when the product is not an own key of the partner's entry; otherwise it is that key's option list |
| Partners.ProductOptions | components/DataEntryForm.tsx:53-57 | the product select lists the product keys of the chosen partner, and nothing for an empty or unknown partner |
| Partners.PremiumOptions | components/DataEntryForm.tsx:62-66 | the premium select lists nothing when the partner or the product is empty, the partner is unknown, or the product is not among the partner's keys; otherwise it lists exactly the option list that the two lookups find |
| Partners.FindPremium | components/DataEntryForm.tsx:72 | `find` gives the first option with the wanted premium, and none exactly when no option has it |
| Partners.FindPremiumOfRow | components/DataEntryForm.tsx:72 | with pairwise distinct premiums, `find` on a row's premium gives exactly that row |
| Partners.PartnerKeysExactly | constants.ts:1-47 | the partner keys are BANGIYA, PBGB, UBKGB, KCCB, Assam Vikas Gramin Bank, DCCB and UBGB, in that order |
| Partners.PartnerDataWellFormed | constants.ts:1-47 | every partner has at least one product and every product at least one option; keys are distinct and non-empty; premiums are distinct and positive within each list; tenures are at least 1; each partner's rows share one CSE name |
| Partners.LookupOfRow | constants.ts:1-47 | looking up a row's own partner and product gives that row's option list, and the partner's product keys |
| Partners.PremiumOptionsWellFormed | components/DataEntryForm.tsx:62-66 | every option list the premium select can show is empty or one of the table's well-formed lists |
| Partners.RowPremiumFound | components/DataEntryForm.tsx:70-73 | each table row's premium is truthy and the premium lookup finds that row |
| Partners.ListedPremiumsDistinct | constants.ts:2-46 | the premium select never lists two options with one premium or a premium that is not positive |
| Partners.NomineeRelationshipsShape | constants.ts:49-52 | the relationship list has 14 pairwise distinct entries, the last being Other |
| Strings.ParseDecimal | components/DataEntryForm.tsx:72 | `Number(text)` is a number exactly for non-empty digit strings |
| Strings.ParseNatToString | App.tsx:35 | a timestamp written with `toString()` reads back as the same number, as an option value does |
| Strings.NatToString | App.tsx:35 | `toString()` of a whole number is a non-empty run of digits that starts with 0 only for 0 |
| Strings.NatToStringInjective | App.tsx:35 | distinct timestamps give distinct ids |
| Strings.Lower | src/components/DataTable.tsx:22 | lowercasing keeps the length and lowercases each character |
| Strings.ContainsEmpty | src/components/DataTable.tsx:22 | every string includes the empty string |
| Strings.Contains | src/components/DataTable.tsx:22 | `includes` finds only needles no longer than the text, and for a needle as long as the text exactly the text itself |
| Strings.SplitJoin | src/services/exportService.ts:19 | splitting a join by its separator gives back the cells when no cell holds the separator |
| Strings.Join | src/services/exportService.ts:19 | `join` gives "" for no cells, the cell itself for one, and otherwise text that starts with the first cell |
| Strings.SplitJoinBreaks | src/services/exportService.ts:19 | a cell holding the separator makes the split longer than the cell list, so the join does not split back |
| Seqs.Filter | src/components/DataTable.tsx:20 | `filter` keeps only elements that pass and never lengthens the list |
| Seqs.FilterIsSubsequence | src/components/DataTable.tsx:20 | `filter` keeps the surviving elements in their order |
| Seqs.FilterCount | App.tsx:54 | `filter` keeps each passing element as often as it occurs and drops every other |
| Seqs.Slice | src/components/DataTable.tsx:47 | `slice` with bounds inside the list is the sub-list between them, and is never longer than `end - start` |
| Sorting.KeyOf | src/components/DataTable.tsx:31-32 | a record's sort key is its number when the field holds one and its printed text otherwise |
| Sorting.KeyLess | src/components/DataTable.tsx:33-38 | the `<` the comparator uses: no key is below itself, and every number is below every text |
| Sorting.Before | src/components/DataTable.tsx:33-38 | the comparator putting a first in the chosen direction, which never holds of a record and itself |
| Sorting.KeyLessTransitive | src/components/DataTable.tsx:33-38 | the comparator's order on keys is transitive |
| Sorting.KeyLessTrichotomous | src/components/DataTable.tsx:33-38 | two keys are equal or one is below the other |
| Sorting.SortBy | src/components/DataTable.tsx:30-40 | the sorted copy is a permutation of its input and in order for the key and direction |
| Sorting.SortStable | src/components/DataTable.tsx:30-40 | records with equal keys keep their relative order |
| Sorting.SortedMeansMonotone | src/components/DataTable.tsx:33-38 | in a sorted list, earlier keys are never above later ones when ascending and never below when descending |
| RecordTable.FilterPolicies | src/components/DataTable.tsx:19-25 | every kept record matches the search term |
| RecordTable.Matches | src/components/DataTable.tsx:20-23 | a record matches when the printed value of some field, any of the 24, includes the term, both lowercased |
| RecordTable.FilterExactly | src/components/DataTable.tsx:19-25 | the filtered list is a subsequence, holds a record exactly when it is stored and some field's lowercased text includes the lowercased term, and keeps each match as often as it occurs |
| RecordTable.EmptySearchKeepsAll | src/components/DataTable.tsx:20-23 | an empty search keeps every record in order |
| RecordTable.SortPolicies | src/components/DataTable.tsx:27-43 | with no key the list is returned as it is; otherwise it is a permutation sorted by the key and direction |
| RecordTable.SortedOrder | src/components/DataTable.tsx:30-40 | ascending, a record's field never sorts above a later record's; descending, never below |
| RecordTable.SortKeepsTies | src/components/DataTable.tsx:30-40 | records with equal values in the sort field keep their filtered order |
| RecordTable.TotalPages | src/components/DataTable.tsx:50 | `Math.ceil(n / 10)` is the least page count that holds n records, and 0 exactly for none |
| RecordTable.TableView.PageCount | src/components/DataTable.tsx:50 | the page count of the filtered list: 0 exactly when nothing matches, and the least count of 10-record pages that holds every match |
| RecordTable.Paginate | src/components/DataTable.tsx:45-48 | a page never holds more than 10 records; page p within range is the slice from `(p-1)*10` up to 10 further |
| RecordTable.PagesCoverAll | src/components/DataTable.tsx:45-50 | pages 1 to `totalPages` concatenated give the whole sorted list |
| RecordTable.TwentyFiveRecords | src/components/DataTable.tsx:45-50 | 25 records give 3 pages of 10, 10 and 5 |
| RecordTable.RequestSort | src/components/DataTable.tsx:52-58 | the new key is the clicked one; the direction is descending exactly when that key was already sorted ascending |
| RecordTable.RequestSortAlternates | src/components/DataTable.tsx:52-58 | clicking the same header again always flips the direction |
| RecordTable.PrevPage | src/components/DataTable.tsx:130 | "«" goes back one page and never below page 1 |
| RecordTable.NextPageAsWritten | src/components/DataTable.tsx:132 | "»" as written goes forward one page inside the range and never above `totalPages` |
| RecordTable.NextPageToZero | src/components/DataTable.tsx:132 | with no matching records "»" moves to page 0, and page 0 shows nothing for every list |
| RecordTable.NextPage | src/components/DataTable.tsx:132 | "»" never leaves page 1 or above, stays within `totalPages` when there are pages, and goes forward one page inside the range |
| RecordTable.PrevNextInverse | src/components/DataTable.tsx:130-132 | inside the page range, "«" and "»" undo each other |
| RecordTable.Visible | src/components/DataTable.tsx:45-48 | a render shows at most 10 records, and none on page 0 |
| RecordTable.VisibleAreMatches | src/components/DataTable.tsx:19-48 | every record shown is a stored record matching the search |
| RecordTable.TableView.constructor | src/components/DataTable.tsx:14-16 | the view starts with no search, no sort key and page 1 |
| RecordTable.TableView.SetSearchTerm | src/components/DataTable.tsx:81 | typing sets the term and leaves the sort and the page alone |
| RecordTable.TableView.ClickHeader | src/components/DataTable.tsx:106 | a header click applies the sort toggle to the clicked key |
| RecordTable.TableView.ClickPrev | src/components/DataTable.tsx:130 | "«" is disabled on page 1 and otherwise goes back one page |
| RecordTable.TableView.ClickNext | src/components/DataTable.tsx:132 | "»" is disabled on page `totalPages` and otherwise applies `Math.min(totalPages, p + 1)`; with no matching records it moves page 1 to page 0 |
| RecordTable.TableView.Render | src/components/DataTable.tsx:45-50 | a render shows at most 10 records, all stored and matching, and the page count of the filtered list |
| RecordTable.TableView.ExportCsv | src/components/DataTable.tsx:91 | the CSV export receives the whole stored list, whatever the search, sort and page; no records give the empty text |
| EntryForm.Changed | components/DataEntryForm.tsx:59 | the product effect runs whenever the partner effect does, because it also depends on the partner |
| EntryForm.Truthy | components/DataEntryForm.tsx:71 | JavaScript truthiness of the premium: false for the unset value, 0 and the empty text |
| EntryForm.NumberOf | components/DataEntryForm.tsx:72 | `Number` of a numeric premium is that number |
| EntryForm.PremiumMatch | components/DataEntryForm.tsx:71-73 | a match exists only for a truthy premium and is an option whose premium is `Number(premium)`; there is none exactly when the premium is falsy, not a number, or found in no option |
| EntryForm.ClearFromProduct | components/DataEntryForm.tsx:58 | the partner effect empties product, premium, tenure and CSE name and keeps every other field |
| EntryForm.ClearFromPremium | components/DataEntryForm.tsx:67 | the product effect empties premium, tenure and CSE name and keeps every other field |
| EntryForm.FillFrom | components/DataEntryForm.tsx:74-78 | the premium effect takes tenure and CSE name from the option and keeps every other field |
| EntryForm.RunEffects | components/DataEntryForm.tsx:52-81 | the effects never change the partner; the product options are recomputed exactly when the partner effect runs, and the premium options exactly when the product effect runs |
| EntryForm.Round | components/DataEntryForm.tsx:52-81 | a render never changes the partner, and a render whose dependencies did not change leaves the state as it is |
| EntryForm.Rerender | components/DataEntryForm.tsx:52-81 | re-rendering never changes the partner, keeps each option list in step with the form unless its effect is about to run, and once the partner effect has cleared the form keeps it cleared |
| EntryForm.Settle | components/DataEntryForm.tsx:52-81 | the settled form keeps the partner of the render it started from |
| EntryForm.AfterEdit | components/DataEntryForm.tsx:52-91 | an edit settles with the partner it set |
| EntryForm.RerenderSettles | components/DataEntryForm.tsx:52-81 | whatever the change, by the third render no effect's dependencies change any more |
| EntryForm.AfterEditConsistent | components/DataEntryForm.tsx:52-68 | after any edit settles, the product options belong to the partner and the premium options to the partner and product |
| EntryForm.PartnerChangeClears | components/DataEntryForm.tsx:52-59 | choosing another partner clears product, premium, tenure and CSE name, lists that partner's products and no premiums |
| EntryForm.ProductChangeClears | components/DataEntryForm.tsx:61-68 | choosing another product clears premium, tenure and CSE name and lists that product's premiums |
| EntryForm.PremiumChangeFills | components/DataEntryForm.tsx:70-81 | a new premium with a matching option takes that option's tenure and CSE name; with no match the form is left as edited |
| EntryForm.PremiumOptionFills | components/DataEntryForm.tsx:70-81 | picking an option's premium in the select, when the lookup finds that option, fills its tenure and CSE name |
| EntryForm.ListedPremiumFills | components/DataEntryForm.tsx:70-81 | picking any premium that the premium select lists fills that option's tenure and CSE name |
| EntryForm.OtherFieldChange | components/DataEntryForm.tsx:83-91 | editing a field outside the cascade changes that field only and runs no effect |
| EntryForm.NewPartnerClearsProduct | components/DataEntryForm.tsx:52-68 | any edit that changes the partner settles with no product and no premium, and with the new partner's products listed |
| EntryForm.ProductChangeRefills | components/DataEntryForm.tsx:61-81 | an edit that changes the product and sets a premium listed under the previous product settles with the premium unset but that old row's tenure and CSE name |
| EntryForm.AutofillOfPartner | components/DataEntryForm.tsx:115 | an autofill that extracts a new partner keeps that partner but not the extracted product or premium |
| EntryForm.NewRecord | components/DataEntryForm.tsx:49 | a new form is `emptyForm` with the timestamp as a non-empty id |
| EntryForm.MountAsWritten | components/DataEntryForm.tsx:25-68 | the mount as written: the record or a new record is loaded, then all three effects run on the first render |
| EntryForm.MountClearsEditedRecord | components/DataEntryForm.tsx:48-59 | mounting the form on a saved record clears its product, premium, tenure and CSE name |
| EntryForm.MountConsistent | components/DataEntryForm.tsx:25-68 | the mounted form's options agree with its partner and product; an edited record is mounted without its product, premium, tenure and CSE name, a new record as it is |
| EntryForm.InitialForm | components/DataEntryForm.tsx:25 | the mounted form holds the record being edited, or a new record, with options that agree with it |
| EntryForm.MountOfNewRecord | components/DataEntryForm.tsx:48-59 | for a new record the mount as written equals the intended form |
| EntryForm.MergeFields | components/DataEntryForm.tsx:115 | merging over a list of fields overrides exactly the extracted fields in the list |
| EntryForm.Merge | components/DataEntryForm.tsx:115 | `{ ...prev, ...extracted }` overrides exactly the extracted fields and keeps all others |
| EntryForm.AutofillNoticeAsWritten | components/DataEntryForm.tsx:101-119 | as written, no toast is raised exactly when an image was chosen and the extraction failed; a raised toast is never an error, and is the success toast exactly when an image was chosen |
| EntryForm.FailedExtractionIsSilent | components/DataEntryForm.tsx:108-119 | as written, a failed extraction with an image raises no toast |
| EntryForm.AutofillNotice | components/DataEntryForm.tsx:101-119 | every autofill raises a toast; it is an error carrying the failure's message exactly when an image was chosen and the extraction failed; otherwise it is the info or success toast of the code |
| EntryForm.Form.constructor | components/DataEntryForm.tsx:25-68 | the form starts as the mount renders leave it: an edited record without its product, premium, tenure and CSE name, or a new record; no active field and no image |
| EntryForm.Form.Commit | components/DataEntryForm.tsx:52-81 | setting the form data lets the cascade settle and keeps the options consistent |
| EntryForm.Form.HandleChange | components/DataEntryForm.tsx:83-86 | an input's string goes into its field and the cascade settles |
| EntryForm.Form.HandleRadioChange | components/DataEntryForm.tsx:88-91 | a gender radio sets its field and the cascade settles |
| EntryForm.Form.HandleVoiceInput | components/DataEntryForm.tsx:43-46 | the microphone button makes its field the active one and changes nothing else |
| EntryForm.Form.HandleSpeechResult | components/DataEntryForm.tsx:34-39 | a speech result goes verbatim into the active field, which is cleared; with no active field nothing changes |
| EntryForm.Form.HandleImageChange | components/DataEntryForm.tsx:93-99 | choosing a file makes an image available; choosing none changes nothing |
| EntryForm.Form.Autofill | components/DataEntryForm.tsx:101-123 | with no image the form is unchanged and the info toast is raised; a successful extraction is merged, settles and raises the success toast; a failed one leaves the form unchanged and raises no toast |
| EntryForm.Form.Submit | components/DataEntryForm.tsx:125-128 | submitting hands the form data to the save handler (the browser's check of `required` controls is not modelled) |
| Export.Keys | src/services/exportService.ts:9 | `Object.keys` of a record is the field names in declaration order |
| Export.Values | src/services/exportService.ts:13 | `Object.values` of a record is each field's printed value in declaration order |
| Export.Headers | src/services/exportService.ts:7-10 | no data gives no headers; otherwise the headers are the first record's field names |
| Export.Rows | src/services/exportService.ts:12-14 | one row per record, in input order, holding that record's values |
| Export.Lines | src/services/exportService.ts:19 | the header line comes first, followed by one comma-joined line per record |
| Export.CsvText | src/services/exportService.ts:19 | `csvContent` is "" exactly when there are no records, and otherwise starts with the header line and a line break |
| Export.CsvOfNothing | src/services/exportService.ts:8-19 | empty input gives the empty text |
| Export.FieldNamesPlain | src/services/exportService.ts:9 | no field name holds a comma or a line break |
| Export.CsvLines | src/services/exportService.ts:19 | with no line break in any value, commas allowed, the text has exactly `records + 1` lines: the header line and the rows |
| Export.CsvRoundTrip | src/services/exportService.ts:17-19 | for one record or more, with no comma or line break in any value, splitting by lines and then by commas recovers exactly the headers and the rows (with no records the text is "", which splits into one empty cell) |
| Export.CommaInValueBreaksRow | src/services/exportService.ts:19 | a value holding a comma is not quoted, so its line splits into more cells than there are fields |
| Portal.Ids | App.tsx:32 | the id list is the records' ids in order |
| Portal.ReplaceById | App.tsx:32 | saving an edit keeps the length and replaces exactly the records whose id is the saved id, in place |
| Portal.ReplaceProperties | App.tsx:32 | replacing keeps every id where it was and keeps ids unique; the saved record is stored when its id was present; nothing changes when it was absent |
| Portal.ReplaceIdempotent | App.tsx:32 | saving the same record twice leaves the list as one save does |
| Portal.Appended | App.tsx:35 | saving a new record appends exactly one record; the prefix is unchanged, the id is the timestamp, and every other field is the saved record's |
| Portal.AppendedUnique | App.tsx:35 | a timestamp not already used as an id keeps ids unique |
| Portal.RemoveById | App.tsx:54 | no record left has the deleted id |
| Portal.RemoveProperties | App.tsx:54 | deleting keeps every other record in order and as often as it occurred, and changes nothing when no record has the id |
| Portal.RemoveUndoesAppend | App.tsx:35-54 | deleting the record just added gives back the list from before |
| Portal.Expired | App.tsx:25-27 | a toast's timer clears the current toast exactly when it is still that toast |
| Portal.NewerToastSurvives | App.tsx:22-28 | a newer toast outlives an older toast's timer and is cleared by its own |
| Portal.App.constructor | App.tsx:12-16 | the portal starts on the table with the stored records, no record being edited and no toast |
| Portal.App.ShowToast | App.tsx:22-24 | a new toast replaces the current one |
| Portal.App.ExpireToast | App.tsx:25-27 | a toast timer applies the expiry rule and touches nothing else |
| Portal.App.CloseToast | src/components/Toast.tsx:23 | the close button clears the toast |
| Portal.App.SavePolicy | App.tsx:30-40 | saving while editing replaces by id and raises the update toast; otherwise it appends with a fresh id and raises the add toast; either way the table shows and no record is being edited |
| Portal.App.AddNew | App.tsx:42-45 | "Add New" clears the record being edited and opens the form |
| Portal.App.Edit | App.tsx:47-50 | "Edit" makes the record the one being edited and opens the form |
| Portal.App.CloseForm | App.tsx:81 | Cancel returns to the table and leaves the record being edited as it was |
| Portal.App.Delete | App.tsx:52-57 | a confirmed delete removes exactly the records with the id and raises a toast; without confirmation nothing changes |
| Portal.App.DeleteAll | App.tsx:59-64 | a confirmed delete-all empties the list and raises a toast; without confirmation nothing changes |

## Left out

- The AI extraction service, its server proxy and the API-key dialog are foreign network calls. `EntryForm.Form.Autofill` takes the service's answer as a `Result`. That answer is either the partial record or the message of the error thrown. The fallback message for a thrown value that is not an `Error` is not modelled.
- The image file, its preview, the focus-mode toggle and `isProcessing` are not modelled. The `FileReader` reading is asynchronous, so the autofill is modelled as one step from the click to the merge. An image is one boolean.
- EntryForm.Form.Submit: always hands the data to the save handler. The browser blocks a submission while a `required` control is empty (components/DataEntryForm.tsx:134, 148, 196, 203, 210, 243); that constraint validation is part of the rendering and is not modelled.
- The speech-recognition and local-storage hooks are not modelled. A speech result is a string argument, and the stored list is the `policies` field of `Portal.App`. The theme, the header and the JSX rendering are not part of the model.
- `Date.now()` and `setTimeout` are not modelled. Timestamps are arguments, and a toast's timer firing is the call `Portal.App.ExpireToast`.
- `window.confirm` is not modelled. Its answer is the `confirmed` argument.
- The XLSX and PDF exports are not modelled, because they are calls into libraries that are not included. The Blob and link steps of the CSV download are not modelled either; only the CSV text is.
- React's scheduling is not modelled. Each event is followed by renders until the form settles. Effects compare the premium option list by value where React compares arrays by identity. The two differ only when the product effect sets a list equal by value to the previous one: a fresh `[]` after `[]`, or a table list equal to another, such as the Telemedicine lists of Assam Vikas Gramin Bank and DCCB, which both hold one 365/1 Abhishek row. The product effect has then cleared the premium in the same render, so the premium effect that React would re-run finds a falsy premium and does nothing.
- EntryForm.Merge: the extracted values must fit the model's value kinds. The extraction schema types the premium as a number (services/geminiService.ts:28), so a fractional premium such as 1234.5 can arrive, but `Num` holds whole numbers only. It types the genders as free text (services/geminiService.ts:33 and 45), so the spread can store a string such as "male", but a gender field holds only Male, Female, Other or unset, as types.ts declares. Such extractions are not modelled.
- Partners.LookupPartner and Partners.LookupProduct: JavaScript's `partnerData[k]` also finds members inherited from `Object.prototype`, such as `constructor` or `__proto__`. An extracted product named "constructor" under a known partner would then set the premium options to a function, and the form's render would fail. The lookups here find own keys only and treat every other name as missing.
- Sorting.SortBy: text is ordered by code point, because a Dafny `char` is a Unicode scalar value. JavaScript's `<` compares UTF-16 code units. The two orders differ only for text outside the Basic Multilingual Plane.
- Sorting.KeyOf: JavaScript's `<` between a number and a string converts the string, and `''` compares as 0. The model instead orders numeric values numerically and all other values by their text, with numbers first. Without this, the comparator is not a consistent order and `sort` has no specified result.
- Strings.Lower: lowercasing is ASCII only; Unicode case mapping is not modelled.
- Strings.ParseDecimal: `Number()` also accepts surrounding blanks, signs, decimals, exponents and hexadecimal. The model reads plain digit strings only and treats every other text as NaN.
- Sorting.SortBy: the in-place `sort` on a copied array is modelled as a function on the sequence. A copy cannot alias the filtered list, which therefore never changes.
- Typing a search term does not reset the current page, as in the code. A page beyond the new `totalPages` simply shows nothing, and so does page 0, which the "»" button reaches when nothing matches (`RecordTable.TableView.ClickNext`).

## Findings

| source | as written | input that shows it | evidently intended | confidence | as-written member | corrected member |
|---|---|---|---|---|---|---|
| components/DataEntryForm.tsx:52-59 | the partner effect also runs on mount and clears product, premium, tenure and CSE name of the record being edited | "Edit" on any saved record whose product is set: the form opens with an empty product, premium, tenure and CSE name | the edit form opens with the record as saved, its options derived from its partner and product | high (not executed) | EntryForm.MountClearsEditedRecord | EntryForm.InitialForm |
| src/components/DataTable.tsx:132 | `Math.min(totalPages, p + 1)` gives page 0 when there are no pages, and the button is not disabled on page 1 because `totalPages` is 0 | search for a term nothing matches, click "»", then clear the search: page 0 slices `[-10, 0)` and shows no records although records exist | the page never goes below 1 | high (not executed) | RecordTable.NextPageToZero | RecordTable.NextPage |
| components/DataEntryForm.tsx:108-119 | the extraction runs inside `reader.onloadend`, which runs after the `try` block has finished, so a failure is never caught and no toast is raised | choose an image and let the extraction service fail | the `catch` clause raises an error toast with the failure's message | high (not executed) | EntryForm.FailedExtractionIsSilent | EntryForm.AutofillNotice |
