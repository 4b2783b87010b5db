# Quiz admin console: question store, spreadsheet imports and helpers

This project models the logic inside the admin console of a quiz game. The
console keeps main categories, sub-categories and questions in a document store.

- **Question store** (`src/lib/api.ts`). Questions live in a map from document
  id to record. The store enforces "at most one question per (sub-category,
  points)":
  - `checkDuplicate` is a query over the map.
  - `create` always checks for a duplicate.
  - `update` checks only when the patch carries both the sub-category and the
    points. The model proves that a points-only patch can break uniqueness.
- **Question read pipeline** (`questionsApi.getAll`):
  - The server query: each later `where` replaces the earlier one.
  - A join to sub-categories and main categories, filled from lookup maps in
    loops.
  - An in-memory main-category filter, then a case-insensitive search.
- **Sub-category listing** (`subCategoriesApi.getAll`). It joins each
  sub-category to its main category's name.
- **Category writes.** Main and sub-category creates and updates are
  unguarded map writes.
- **Question import** (`handleImportExcel` in `src/pages/Questions.tsx`). It
  loops over already-parsed rows against a snapshot taken before the loop.
  Each row is resolved, its points are checked, and it is then skipped or
  created. The loop counts created, skipped and errored rows and builds a
  summary message.
- **Category import** (`handleImportExcel` in `src/pages/Categories.tsx`):
  - The main-category branch coerces `is_active` loosely and defaults the
    display order.
  - The sub-category branch requires media.
  - Both branches share the same accounting and summary.
- **Other page logic:**
  - Status toggles on both pages.
  - The per-sub-category question count.
  - The sub-category filter.
  - The category form defaults and the media check in the category form.
- **Pure helpers** (`src/lib/mediaUtils.ts`, `src/pages/Payments.tsx`):
  - MIME-type validation and classification.
  - The upload path.
  - `getPathFromUrl`: a URL parse, a regex match and `decodeURIComponent`.
  - Payment-method formatting and the payment-status badge.

## Modelling approach

- **JavaScript values.** Row cells and raw record fields are JavaScript
  primitives: `JsValues.Value` is `undefined`, `null`, a boolean, an integer
  or a string.
  - `===` is datatype equality.
  - `||` is `JsValues.Or`.
  - Truthiness is `JsValues.Truthy`.
  - `parseInt` is `JsNumbers.ParseInt`: leading white space, a sign, a `0x`
    prefix, and stop at the first non-digit.
- **Store writes.** The store SDK refuses a field whose value is `undefined`
  (`Firestore.WriteError.UndefinedField`). This is how an import row reaches
  the loop's `catch` besides the duplicate guard.
- **Outside values.** A generated document id and the clock reading enter
  every write as a `Firestore.Stamp` parameter. The imports take one stamp
  per row. Their ids are required to be new and distinct, as generated ids
  are.
- **Stores with state.** Stores that change are classes holding maps:
  `QuestionApi.QuestionStore` and `CategoryApi.CategoryStore`.
  - Each method is proved against a pure function of the old state
    (`AddQuestion`, `PatchQuestion`, `AddMain` and so on).
  - The properties are lemmas about those functions.
- **Import loops.** Each import loop is a `method` with a `while` loop.
  - Its invariant ties the store and the four accumulators (three counters
    and the error list) to `RunImport`.
  - `RunImport` is a fold over the rows built from `RowPlan`, the per-row
    decision against the snapshot, and `Step`, its effect on the store.
  - The import properties are lemmas about `RunImport`.

A second row with the same new (sub-category, points) pair in one batch is not
created. It becomes an error row: `questionsApi.create` re-checks the live
store and throws, and the loop's `catch` counts the error
(`QuestionsPage.IntraBatchDuplicateIsError`).

## Model

| member | source | states |
|---|---|---|
| QuestionApi.CheckDuplicate | src/lib/api.ts:294-306 | true exactly when some stored question has the sub-category and points and is not the excluded id |
| QuestionApi.EmptyExcludeIsNone | src/lib/api.ts:302-303 | an empty exclude id behaves like none; with none the check is plain existence of the pair |
| QuestionApi.NoSelfConflict | src/lib/api.ts:294-306 | in a unique store a question never conflicts with itself when its own id is excluded |
| QuestionApi.UniqueIffNoConflict | src/lib/api.ts:294-306 | the store is unique exactly when no stored question conflicts with the check that excludes it |
| QuestionApi.AddQuestionRejectsTakenPair | src/lib/api.ts:309-313 | create throws the duplicate error exactly when the pair is taken |
| QuestionApi.AddQuestionAddsOne | src/lib/api.ts:309-323 | a successful create adds exactly one record under the new id, with the given fields and both timestamps set to now, and leaves every other record as it was |
| QuestionApi.AddQuestionKeepsUnique | src/lib/api.ts:309-323 | create preserves at most one question per (sub-category, points) |
| QuestionApi.PatchQuestionGuard | src/lib/api.ts:325-331 | without both fields in the patch the duplicate error never occurs; with both it occurs exactly when another id holds the new pair |
| QuestionApi.PatchQuestionFrame | src/lib/api.ts:325-338 | a successful update changes only the patched fields of that record plus `updated_at`; the key set and all other records are unchanged |
| QuestionApi.PatchWithBothKeepsUnique | src/lib/api.ts:326-331 | an update whose patch has both fields preserves uniqueness |
| QuestionApi.PatchKeepingPairKeepsUnique | src/lib/api.ts:325-338 | an update that leaves the pair as it was preserves uniqueness |
| QuestionApi.UncheckedPatchBreaksUniqueIff | src/lib/api.ts:326 | an unchecked patch breaks uniqueness exactly when another record already holds the resulting pair |
| QuestionApi.PointsOnlyPatchBreaksUnique | src/lib/api.ts:326 | a concrete unique store where a points-only update succeeds and leaves two questions on one pair |
| QuestionApi.QuestionStore.Create | src/lib/api.ts:309-323 | the store becomes `AddQuestion` of the old store on success; on a duplicate or undefined field it returns the error and the store is unchanged |
| QuestionApi.QuestionStore.Update | src/lib/api.ts:325-338 | the store becomes `PatchQuestion` of the old store on success; otherwise the error is returned and the store is unchanged |
| Firestore.UndefinedIn | src/lib/api.ts:316-320 | a write is refused exactly when some field is `undefined`, naming such a field |
| Firestore.PresentValuesDefined | src/lib/api.ts:333-336 | a patch none of whose present values is `undefined` passes the write check |
| Firestore.DuplicateMessageNamesPoints | src/lib/api.ts:312 | the duplicate message contains the points value, which reads back as that number |
| QuestionQuery.LastFilterWins | src/lib/api.ts:205-221 | the sub-category filter is ignored when points or status is present, and points is ignored when status is present; the sub-category filter alone narrows to that sub-category |
| QuestionQuery.SubFilterIgnoredWithStatus | src/lib/api.ts:207-221 | concrete case: a question of another sub-category is returned when sub-category and status filters are both set |
| QuestionQuery.Join | src/lib/api.ts:243-254 | one joined question per fetched question, in order, each the join of that question |
| QuestionQuery.Hit | src/lib/api.ts:261-266 | the search keeps a question when the lowered question text, or else the lowered answer text, includes the term; a missing text throws |
| QuestionQuery.MainFilterKeepsIff | src/lib/api.ts:256-260 | the main-category filter keeps a question exactly when its sub-category exists and belongs to the filter's main category |
| QuestionQuery.SearchIsFilter | src/lib/api.ts:261-267 | search is a filter by the hit test, and throws exactly when some question's hit test throws |
| QuestionQuery.VerbatimMatchIsHit | src/lib/api.ts:261-266 | a question whose text includes the search term verbatim is kept whatever the case of the term |
| QuestionQuery.GetAllOnlyRemoves | src/lib/api.ts:243-269 | the in-memory stages only remove items: the result is the main filter then the search over the joined fetch |
| QuestionQuery.LookUpCategories | src/lib/api.ts:225-241 | the sub-category map holds exactly the existing sub-categories the questions name; the main-category map holds exactly the existing main categories of those sub-categories, each with its document |
| QuestionQuery.JoinQuestions | src/lib/api.ts:243-254 | the loop over the questions produces the join of the fetched questions |
| QuestionQuery.GetAllQuestions | src/lib/api.ts:204-269 | the pipeline returns the specified query, join, filter and search result |
| CategoryApi.AddMainHasNoGuard | src/lib/api.ts:118-127 | creating a main category with defined fields always succeeds, whatever names are stored, and adds exactly one record |
| CategoryApi.AddMainFailsOnlyOnUndefined | src/lib/api.ts:118-127 | a main-category create fails exactly when one of its fields is `undefined` |
| CategoryApi.PatchMainFrame | src/lib/api.ts:129-137 | a main-category update changes only the patched fields of that record plus `updated_at` |
| CategoryApi.PatchSubFrame | src/lib/api.ts:186-194 | a sub-category update changes only the patched fields of that record plus `updated_at` |
| CategoryApi.SubsQueryNarrows | src/lib/api.ts:145-153 | with a main-category id the listing holds exactly that main category's sub-categories |
| CategoryApi.LookUpMains | src/lib/api.ts:157-165 | the lookup map holds exactly the referenced main categories that exist, with their documents |
| CategoryApi.JoinSubs | src/lib/api.ts:167-172 | one output per sub-category in order, carrying the main category's name exactly when it was found |
| CategoryApi.GetAllSubs | src/lib/api.ts:144-173 | one output per listed sub-category in order, with the main-category name exactly when that document exists |
| CategoryApi.CategoryStore.CreateMain | src/lib/api.ts:118-127 | the main categories become `AddMain` of the old map, or the error is returned and nothing changes; sub-categories untouched |
| CategoryApi.CategoryStore.UpdateMain | src/lib/api.ts:129-137 | the main categories become `PatchMain` of the old map, or the error is returned and nothing changes |
| CategoryApi.CategoryStore.CreateSub | src/lib/api.ts:175-184 | the sub-categories become `AddSub` of the old map, or the error is returned and nothing changes |
| CategoryApi.CategoryStore.UpdateSub | src/lib/api.ts:186-194 | the sub-categories become `PatchSub` of the old map, or the error is returned and nothing changes |
| ImportSummary.CountsAddUp | src/pages/Questions.tsx:200-253 | created + skipped + errored equals the number of rows |
| ImportSummary.MessagesMatchErrorCount | src/pages/Questions.tsx:200-253 | one message per errored row |
| ImportSummary.MessagesInRowOrder | src/pages/Questions.tsx:200-253 | error messages appear in row order |
| ImportSummary.ShownErrors | src/pages/Questions.tsx:257-262 | the summary shows all errors when there are at most five, else exactly the first five |
| ImportSummary.SummaryShowsAtMostFive | src/pages/Questions.tsx:257-262 | the message is the header with the full counts, followed by the error list or its first five under the matching heading |
| QuestionsPage.ImportQuestions | src/pages/Questions.tsx:193-273 | the loop leaves the store as `RunImport` does and its counters and error list equal the counts and messages of the outcomes; the message is the summary |
| QuestionsPage.OutcomeOfRow | src/pages/Questions.tsx:204-253 | each row's outcome is decided by its plan against the store as the earlier rows left it |
| QuestionsPage.ImportAccounting | src/pages/Questions.tsx:200-253 | after the loop the three counters add up to the number of rows and there is one message per error |
| QuestionsPage.UnresolvedRowIsError | src/pages/Questions.tsx:207-221 | a row is rejected for its main category exactly when no main category has that name, and for its sub-category exactly when the resolved main category has no sub-category with that name |
| QuestionsPage.PointsGate | src/pages/Questions.tsx:223-228 | only rows whose points parse to 200, 400 or 600 are skipped or created; any other resolved row is an invalid-points error |
| QuestionsPage.SkipIffInSnapshot | src/pages/Questions.tsx:230-236 | a resolved row with valid points is skipped exactly when the pre-loop snapshot lists a question with its pair |
| QuestionsPage.SkippedIffPlanned | src/pages/Questions.tsx:230-236 | a row's outcome is skipped exactly when its plan against the snapshot says skip, whatever earlier rows created |
| QuestionsPage.InsertedFields | src/pages/Questions.tsx:238-246 | a created question carries the row's status or `'active'`, null for empty media and the parsed points |
| QuestionsPage.RunImportIds | src/pages/Questions.tsx:238-247 | every id in the store after the import was there before or was handed to a row |
| QuestionsPage.RunImportExtends | src/pages/Questions.tsx:204-253 | during the import the store only grows: every record written stays as written |
| QuestionsPage.HeldPairIsError | src/pages/Questions.tsx:238-252 | a row to be created whose pair the store holds by then ends as the duplicate error |
| QuestionsPage.IntraBatchDuplicateIsError | src/pages/Questions.tsx:238-252 | of two rows with the same new pair, once the first is created the second is an error row, not created |
| QuestionsPage.CreatedRowStays | src/pages/Questions.tsx:238-247 | a created row's record is in the store under its id from then on |
| QuestionsPage.SnapshotMissIsError | src/pages/Questions.tsx:230-252 | a row whose pair is stored but missing from a filtered snapshot ends as an error, not a skip |
| QuestionsPage.ImportKeepsUnique | src/pages/Questions.tsx:193-253 | an import into a unique store leaves it unique |
| QuestionsPage.NextStatus | src/pages/Questions.tsx:161-164 | the toggle gives `'disabled'` exactly from `'active'` and `'active'` from everything else |
| QuestionsPage.ToggleTwice | src/pages/Questions.tsx:161-164 | toggling twice restores active and disabled, and turns any other status into disabled |
| QuestionsPage.ToggleEffect | src/pages/Questions.tsx:161-164 | the toggle update succeeds exactly when the question exists, changes only its status and `updated_at`, and keeps the store unique |
| QuestionsPage.ToggleStatus | src/pages/Questions.tsx:161-164 | the store after the toggle has only that question's status and `updated_at` changed, or is unchanged if the id is absent |
| QuestionsPage.QuestionCountForSubCategory | src/pages/Questions.tsx:184-191 | the total is the number of the sub-category's questions; the tally has keys 200, 400, 600 and every points value present, each mapped to its count |
| QuestionsPage.ListingOfUniqueStore | src/pages/Questions.tsx:184-191 | a listing of distinct records of a unique store has distinct pairs |
| QuestionsPage.TierCountAtMostOne | src/pages/Questions.tsx:184-191 | over such a listing every points count of a sub-category is at most one |
| QuestionsPage.FilteredSubCategories | src/pages/Questions.tsx:44-51 | with a main-category filter the list holds exactly that main category's sub-categories; without one, all of them |
| QuestionsPage.FilteredSubCategoriesIdempotent | src/pages/Questions.tsx:44-51 | filtering twice equals filtering once |
| CategoriesPage.IsActiveRoundTrip | src/pages/Categories.tsx:228 | the loose coercion is true for the exported `'true'` and false for the exported `'false'`; any other string, number, null or missing cell gives false |
| CategoriesPage.ExportImportKeepsFlag | src/pages/Categories.tsx:304 | exporting a main category and importing the row gives back its `is_active` and `status` |
| CategoriesPage.ImportCategories | src/pages/Categories.tsx:204-289 | the loop leaves both collections as `RunImport` does; its counters and error list equal the counts and messages of the outcomes; the message is the summary |
| CategoriesPage.OutcomeOfRow | src/pages/Categories.tsx:216-270 | each row's outcome is decided by its plan against the collections as the earlier rows left them |
| CategoriesPage.ImportAccounting | src/pages/Categories.tsx:210-278 | after the loop the three counters add up to the number of rows and there is one message per error |
| CategoriesPage.RunImportIds | src/pages/Categories.tsx:224-266 | every id in the collections after the import was there before or was handed to a row |
| CategoriesPage.RunImportExtends | src/pages/Categories.tsx:216-270 | during the import both collections only grow: every document written stays as written |
| CategoriesPage.MainRowOutcome | src/pages/Categories.tsx:219-232 | a main row is skipped exactly when a snapshot main category has its name; with a defined new name it is always created |
| CategoriesPage.SameNameRowsBothCreated | src/pages/Categories.tsx:219-232 | two rows with the same new name in one batch are both created, as two records with that name |
| CategoriesPage.CreatedMainStays | src/pages/Categories.tsx:224-231 | a created main category is in the final collection under its id with the row's name |
| CategoriesPage.MainRowFields | src/pages/Categories.tsx:224-230 | a created main category has the row's name, the display order or the snapshot count when falsy, the loose flag with status `'active'` exactly when it is set, and null for empty media; 0 and a missing order plan alike |
| CategoriesPage.SubRowChecks | src/pages/Categories.tsx:234-262 | a sub row is an error without a resolved main category, skipped when the pair exists (before media is examined), else an error without media, else created under the resolved id with order defaulting to 0 |
| CategoriesPage.FilteredSubsNeverSkipOthers | src/pages/Categories.tsx:46 | with the listing filtered to one main category, a row for another main category with media is always planned for creation |
| CategoriesPage.MainToggleEffect | src/pages/Categories.tsx:183-196 | the main toggle succeeds exactly when the id exists, flips `is_active` and sets `status` to match it |
| CategoriesPage.SubToggleEffect | src/pages/Categories.tsx:190-193 | the sub toggle succeeds exactly when the id exists and flips only `is_active` |
| CategoriesPage.MainToggleTwice | src/pages/Categories.tsx:183-196 | toggling a consistent main category twice restores its flag and status |
| CategoriesPage.ToggleMain | src/pages/Categories.tsx:183-189 | the store after the main toggle has only that record's flag, status and `updated_at` changed |
| CategoriesPage.ToggleSub | src/pages/Categories.tsx:190-194 | the store after the sub toggle has only that record's flag and `updated_at` changed |
| CategoriesPage.NewFormDefaults | src/pages/Categories.tsx:84-100 | a new main form has the main-category count as order and is active; a new sub form takes the selected main category, else the first one's id, else `''` |
| CategoriesPage.SubmitMain | src/pages/Categories.tsx:155-163 | submitting the main form creates or updates exactly as the store write does |
| CategoriesPage.SubmitSub | src/pages/Categories.tsx:164-172 | submitting the sub form with empty media aborts with the alert and changes nothing; otherwise it creates or updates as the store write does |
| Media.ValidFilesAreClassified | src/lib/mediaUtils.ts:47-66 | every accepted MIME type is classified image (the five image types) or video (the three video types), never unknown |
| Media.ClassifiedButInvalid | src/lib/mediaUtils.ts:47-66 | `image/svg+xml` and `video/quicktime` are classified but not accepted |
| Media.MediaTypeByPrefix | src/lib/mediaUtils.ts:62-66 | image exactly for an `image/` prefix, video exactly for `video/`, unknown otherwise |
| Media.FileExtensionIsLastPart | src/lib/mediaUtils.ts:11 | the extension is the suffix after the last `.`, or the whole name without one |
| Media.UploadPathShape | src/lib/mediaUtils.ts:10-12 | the path starts with the folder (default `general`) and `/`, and its text after the last `.` is the file's extension |
| Media.Pathname | src/lib/mediaUtils.ts:36 | a parsed pathname never contains `?` or `#`; without a `:` the URL does not parse |
| Media.RegexCaptureIff | src/lib/mediaUtils.ts:37 | the regex matches exactly when the text has `/o/`, a non-empty run without line terminators, and a `?` |
| Media.DecodeEncode | src/lib/mediaUtils.ts:39 | decoding the percent-encoding of an ASCII text gives the text back |
| Media.GetPathFromUrlIsAlwaysNull | src/lib/mediaUtils.ts:34-45 | `getPathFromUrl` returns null for every URL, because a parsed pathname has no `?` |
| Media.RawUrlTextMatches | src/lib/mediaUtils.ts:37-39 | on the raw URL text the regex would find and decode the storage path |
| Payments.FormatMethodHasNoUnderscore | src/pages/Payments.tsx:56-62 | null and `''` format as `N/A`, and no formatted method contains `_` |
| Payments.FormatMethodPointwise | src/pages/Payments.tsx:58-61 | same length as the input; each character is upper-cased at a word start, `_` becomes a space, and all others are kept |
| Payments.FormatMethodIdempotent | src/pages/Payments.tsx:56-62 | formatting an already formatted method changes nothing |
| Payments.StatusVariantIff | src/pages/Payments.tsx:43-54 | success exactly for `'success'`, error exactly for `'failed'`, warning for everything else including `'pending'` and `'completed'` |
| JsNumbers.ParseIntOfIntToString | src/pages/Questions.tsx:223 | `parseInt` reads back every integer's decimal text |
| JsNumbers.ParseIntHexPrefix | src/pages/Questions.tsx:223 | `parseInt('0xC8')` is 200, so such a cell passes the points check |
| JsNumbers.ParseIntTrailingText | src/pages/Questions.tsx:223 | `parseInt(' 200px')` is 200: trailing text is ignored |
| JsStrings.JoinSplit | src/pages/Payments.tsx:58-61 | joining the parts of a split with the separator gives the text back |
| JsStrings.SplitJoin | src/pages/Payments.tsx:58-61 | splitting a join of separator-free parts gives the parts back |
| JsStrings.LastPartIsSuffix | src/lib/mediaUtils.ts:11 | the last part of a split is a separator-free suffix preceded by the separator, or the whole text |
| JsStrings.IncludesToLower | src/lib/api.ts:261-266 | lower-casing both sides keeps a substring a substring |
| JsArrays.Find | src/pages/Questions.tsx:207 | finds the first element satisfying the predicate, and finds one exactly when one exists |
| JsArrays.FilterConcat | src/lib/api.ts:256-266 | filtering distributes over concatenation |
| JsArrays.FilterMultiset | src/lib/api.ts:256-266 | a filter keeps each satisfying element as often as it occurs and drops the rest |
| JsValues.OrTruthy | src/pages/Questions.tsx:242-245 | `a \|\| b` is truthy exactly when one of them is, and is one of them |

## Left out

- Store and storage I/O are not modelled: listings, `getDoc`, `addDoc`,
  `updateDoc`, deletes, `getCountFromServer`, `statsApi`, and the storage
  upload and delete calls.
  - A listing enters as a sequence in the order the database returns it.
  - A write becomes a map update.
  - A generated id and a clock reading enter as a `Stamp` parameter.
  - `Date.now()` and the random suffix of the upload path enter as parameters.
- `convertFirestoreDoc`'s date conversion is left out: timestamps are integers.
- Concurrency is left out: the `Promise.all` in the loaders, and the
  interleaving of other clients with an import. Everything runs sequentially.
- Numbers are integers only. Floating point, `NaN` and exponent notation for
  large numbers are not modelled.
  - A non-integer points cell enters as its `parseInt` text or value.
- Case mapping (`toLowerCase`, `toUpperCase`) is ASCII only. Full Unicode case
  mapping and locale rules are not modelled.
- Error message wording for SDK errors (`UndefinedField`, `NotFound`) is the
  model's own. Only the duplicate message follows the source text.
- Media.Pathname is a simplified URL parser:
  - It models scheme validation, removal of tabs and line breaks, cutting the
    query and fragment, the authority of `//` URLs, and the host requirement
    of special schemes.
  - It does not model host validation, percent-encoding of the path,
    dot-segment removal, backslashes as slashes, or trimming of leading and
    trailing control characters.
  - These omissions never add a `?` to a pathname, so the always-null result
    does not depend on them.
- Media.DecodeUriComponent decodes escapes of ASCII characters only. An escape
  of a byte above `0x7F` (a UTF-8 sequence) is treated as an error.
- Spreadsheet parsing and templates (`src/lib/excelUtils.ts`) are not modelled.
  Rows enter as already-parsed records.
- Question export is left out: it calls `exportToExcel` without importing it,
  so it would throw.
- Parts of the question page are left out:
  - its form submit and media handlers (only the `getPathFromUrl` they rely on
    is modelled);
  - copying an edited item into the form (only the new-item defaults are
    modelled);
  - alerts, modals, loading state and rendering.
- The category page's media handlers `handleFileUpload` and `handleRemoveMedia`
  (`src/pages/Categories.tsx:110-153`) are left out. They upload to or delete
  from storage, which is I/O outside the model. The model keeps the checks they
  rely on (`isValidMediaFile`, `getPathFromUrl`) and the media field they fill,
  which `SubmitSub` checks.
- The other pages and components are not modelled: Games, Users, Settings,
  Dashboard, the sidebar, the header and the layout.
